/** The two ends of the itinerary stream together: what the itinerary page
    shows after reading what the generation route wrote. */
module RoundTrip {

  import opened Wrappers
  import opened EventFrame
  import opened StreamDecoder
  import opened GenerateItinerary

  lemma {:induction false} ApplyThoughts(r: Received, steps: seq<string>)
    ensures ApplyAll(r, Thoughts(steps)) == Received(r.thoughts + steps, r.text)
    decreases |steps|
  {
    if steps == [] {
      assert r.thoughts + steps == r.thoughts;
    } else {
      assert Thoughts(steps)[1..] == Thoughts(steps[1..]);
      ApplyThoughts(Received(r.thoughts + [steps[0]], r.text), steps[1..]);
      assert r.thoughts + [steps[0]] + steps[1..] == r.thoughts + steps;
    }
  }

  lemma {:induction false} ApplyContents(r: Received, deltas: seq<string>)
    ensures ApplyAll(r, Contents(deltas)) == Received(r.thoughts, r.text + Concat(deltas))
    decreases |deltas|
  {
    if deltas == [] {
      assert r.text + Concat(deltas) == r.text;
    } else {
      assert Contents(deltas)[1..] == Contents(deltas[1..]);
      ApplyContents(Received(r.thoughts, r.text + deltas[0]), deltas[1..]);
      assert r.text + deltas[0] + Concat(deltas[1..]) == r.text + Concat(deltas);
    }
  }

  /** Reading frames only ever appends: the thoughts and the text before are
      prefixes of those after. */
  lemma {:induction false} ApplyAllExtends(r: Received, fs: seq<Frame>)
    ensures r.thoughts <= ApplyAll(r, fs).thoughts && r.text <= ApplyAll(r, fs).text
    decreases |fs|
  {
    if fs != [] {
      ApplyAllExtends(Apply(r, fs[0]), fs[1..]);
    }
  }

  /** The intended effect of the whole planned frame sequence. */
  lemma ApplyPlanned(steps: seq<string>, p: Provider)
    ensures ApplyAll(Nothing, Planned(steps, p)) == Received(steps, Concat(NonEmpty(p.deltas)))
  {
    var t, c := Thoughts(steps), Contents(NonEmpty(p.deltas));
    var last := if p.fails then Error(ErrorMessage) else Done;
    ApplyAllAppend(Nothing, t + c, [last]);
    ApplyAllAppend(Nothing, t, c);
    ApplyThoughts(Nothing, steps);
    assert Nothing.thoughts + steps == steps;
    ApplyContents(Received(steps, ""), NonEmpty(p.deltas));
    assert "" + Concat(NonEmpty(p.deltas)) == Concat(NonEmpty(p.deltas));
  }

  /** The round trip: whenever every chunk the page reads holds whole frames
      of the route's output (any grouping of them), the page ends with the
      seven status lines in order as its thoughts and the concatenation of
      the non-empty deltas, which is the whole provider text, as its
      itinerary, on success and after a provider failure alike. */
  lemma ItineraryRoundTrip(req: GenerateRequest, p: Provider, groups: seq<seq<Frame>>)
    requires Flatten(groups) == Planned(ThoughtSteps(req), p)
    ensures Decode(Chunks(groups)).thoughts == ThoughtSteps(req)
    ensures Decode(Chunks(groups)).text == Concat(NonEmpty(p.deltas))
    ensures Decode(Chunks(groups)).text == ProviderText(p.deltas)
  {
    FramedChunksDecode(Nothing, groups);
    ApplyPlanned(ThoughtSteps(req), p);
    NonEmptyKeepsText(p.deltas);
  }

  /** Each write as a chunk of its own. */
  function Singletons(fs: seq<Frame>): (groups: seq<seq<Frame>>)
    ensures |groups| == |fs|
  {
    seq(|fs|, i requires 0 <= i < |fs| => [fs[i]])
  }

  lemma {:induction false} FlattenSingletons(fs: seq<Frame>)
    ensures Flatten(Singletons(fs)) == fs
    decreases |fs|
  {
    if fs != [] {
      assert Singletons(fs)[1..] == Singletons(fs[1..]);
      FlattenSingletons(fs[1..]);
      assert [fs[0]] + fs[1..] == fs;
    }
  }

  lemma ChunksOfSingletons(fs: seq<Frame>)
    ensures Chunks(Singletons(fs)) == EncodeEach(fs)
  {
    forall i | 0 <= i < |fs|
      ensures Chunks(Singletons(fs))[i] == EncodeEach(fs)[i]
    {
      EncodeAllOne(fs[i]);
    }
  }

  /** Each write read as one chunk has the intended effect of its frame. */
  lemma OneChunkPerWrite(fs: seq<Frame>)
    ensures Decode(EncodeEach(fs)) == ApplyAll(Nothing, fs)
  {
    ChunksOfSingletons(fs);
    FlattenSingletons(fs);
    FramedChunksDecode(Nothing, Singletons(fs));
  }

  /** Reading the first k planned frames: the thoughts and the text are
      prefixes of the steps and of the provider text, and text appears only
      once every step is in. */
  lemma PlannedPrefixDecodes(steps: seq<string>, p: Provider, k: nat)
    requires k <= |Planned(steps, p)|
    ensures var shown := ApplyAll(Nothing, Planned(steps, p)[..k]);
      && shown.thoughts <= steps
      && shown.text <= Concat(NonEmpty(p.deltas))
      && (shown.text != "" ==> shown.thoughts == steps)
  {
    var planned := Planned(steps, p);
    var fs := planned[..k];
    var shown := ApplyAll(Nothing, fs);
    ApplyPlanned(steps, p);
    assert planned == fs + planned[k..];
    ApplyAllAppend(Nothing, fs, planned[k..]);
    ApplyAllExtends(shown, planned[k..]);
    if k <= |steps| {
      PlannedPrefixThoughts(steps, p, k);
      assert Thoughts(steps)[..k] == Thoughts(steps[..k]);
      ApplyThoughts(Nothing, steps[..k]);
    } else {
      var t := Thoughts(steps);
      assert fs == t + fs[|steps|..];
      ApplyAllAppend(Nothing, t, fs[|steps|..]);
      ApplyThoughts(Nothing, steps);
      ApplyAllExtends(ApplyAll(Nothing, t), fs[|steps|..]);
    }
  }

  /** What the page shows when each write of the route reaches it as one
      chunk, the route having written the deliverable frames (all of the
      plan, or those written before the client went away): the thoughts and
      the text are prefixes of the seven steps and of the provider text, the
      text only grows once all seven thoughts are in, and when every frame
      gets through the page shows exactly the steps and the provider text. */
  lemma DeliveredStreamDecodes(req: GenerateRequest, p: Provider, breakAfter: Option<nat>)
    ensures var steps := ThoughtSteps(req);
      var shown := Decode(EncodeEach(Deliverable(Planned(steps, p), breakAfter)));
      && shown.thoughts <= steps
      && shown.text <= ProviderText(p.deltas)
      && (shown.text != "" ==> shown.thoughts == steps)
      && (Fits(|Planned(steps, p)|, breakAfter) ==> shown == Received(steps, ProviderText(p.deltas)))
  {
    var steps := ThoughtSteps(req);
    var planned := Planned(steps, p);
    var fs := Deliverable(planned, breakAfter);
    assert fs == planned[..|fs|];
    OneChunkPerWrite(fs);
    PlannedPrefixDecodes(steps, p, |fs|);
    ApplyPlanned(steps, p);
    NonEmptyKeepsText(p.deltas);
  }
}
