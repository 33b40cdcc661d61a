/** The itinerary generation route (app/api/generate-itinerary/route.ts). It
    answers at once with an event-stream response and, in the background,
    writes seven status frames, one content frame per non-empty fragment the
    completion provider yields, and then either [DONE] or one error frame,
    closing the writer on every path. */
module GenerateItinerary {

  import opened Wrappers
  import opened JsonPayload
  import opened EventFrame

  // ---------------------------------------------------------------------
  // Request, duration and the prelude

  /** The request body; dates are the milliseconds `new Date(...)` gives. */
  datatype GenerateRequest = GenerateRequest(
    destination: string,
    startMs: int,
    endMs: int,
    budget: string,
    travelers: string,
    interests: string,
    accommodation: string,
    pace: string,
    additionalNotes: string)

  const MsPerDay: int := 1000 * 60 * 60 * 24

  /** Math.ceil of the whole days between the two instants. It is not
      checked: the same instant gives 0 and an end before the start gives a
      value that is not positive. */
  function TripDuration(startMs: int, endMs: int): (days: int)
    ensures (days - 1) * MsPerDay < endMs - startMs <= days * MsPerDay
    ensures endMs == startMs ==> days == 0
    ensures endMs < startMs ==> days <= 0
    ensures endMs > startMs ==> days >= 1
  {
    -((startMs - endMs) / MsPerDay)
  }

  /** 2025-06-01 to 2025-06-04 (UTC midnights) is a three-day trip. */
  lemma RomeTripIsThreeDays()
    ensures TripDuration(1748736000000, 1748995200000) == 3
  {
  }

  function DigitChar(d: nat): char
    requires d < 10
  {
    (('0' as int) + d) as char
  }

  function NatToString(n: nat): string
    decreases n
  {
    if n < 10 then [DigitChar(n)] else NatToString(n / 10) + [DigitChar(n % 10)]
  }

  /** How a template literal prints an integral number. */
  function IntToString(i: int): string {
    if i < 0 then "-" + NatToString(-i) else NatToString(i)
  }

  /** The seven status lines of the prelude, in their fixed order. */
  function ThoughtSteps(req: GenerateRequest): (steps: seq<string>)
    ensures |steps| == 7
  {
    var duration := IntToString(TripDuration(req.startMs, req.endMs));
    [ "Analyzing destination: " + req.destination + "...",
      "Considering " + duration + " days with " + req.budget + " budget...",
      "Matching activities to interests: " + req.interests + "...",
      "Optimizing daily schedule for " + req.pace + " pace...",
      "Finding best " + req.accommodation + " options...",
      "Adding hidden gems and local favorites...",
      "Creating detailed itinerary..." ]
  }

  // ---------------------------------------------------------------------
  // The provider and the frames the route means to write

  /** The completion stream: for each chunk, the delta's content if it has
      one; `fails` when the stream throws after these chunks (a failure of
      the create call itself is a failing stream without chunks). */
  datatype Provider = Provider(deltas: seq<Option<string>>, fails: bool)

  const ErrorMessage: string := "An error occurred while generating your itinerary."

  /** The deltas the route writes (`if (delta)`), in provider order. */
  function NonEmpty(deltas: seq<Option<string>>): seq<string>
    decreases |deltas|
  {
    if deltas == [] then []
    else
      var last := deltas[|deltas| - 1];
      NonEmpty(deltas[..|deltas| - 1]) + (if last.Some? && last.value != "" then [last.value] else [])
  }

  /** Everything the provider produced, a missing delta counting as nothing. */
  function ProviderText(deltas: seq<Option<string>>): string
    decreases |deltas|
  {
    if deltas == [] then ""
    else
      var last := deltas[|deltas| - 1];
      ProviderText(deltas[..|deltas| - 1]) + (if last.Some? then last.value else "")
  }

  function Concat(parts: seq<string>): string {
    if parts == [] then "" else parts[0] + Concat(parts[1..])
  }

  function Thoughts(steps: seq<string>): (fs: seq<Frame>)
    ensures |fs| == |steps|
  {
    seq(|steps|, i requires 0 <= i < |steps| => Thought(steps[i]))
  }

  function Contents(deltas: seq<string>): (fs: seq<Frame>)
    ensures |fs| == |deltas|
  {
    seq(|deltas|, i requires 0 <= i < |deltas| => Content(deltas[i]))
  }

  /** The frames the background task writes when every write succeeds. */
  function Planned(steps: seq<string>, p: Provider): seq<Frame> {
    Thoughts(steps) + Contents(NonEmpty(p.deltas)) + [if p.fails then Error(ErrorMessage) else Done]
  }

  /** Whether n writes fit before the client goes away after `breakAfter`. */
  predicate Fits(n: nat, breakAfter: Option<nat>) {
    breakAfter.None? || n <= breakAfter.value
  }

  /** The frames that reach the client: all of them, or those written before
      the client went away. */
  function Deliverable(planned: seq<Frame>, breakAfter: Option<nat>): (fs: seq<Frame>)
    ensures fs <= planned
    ensures |fs| == if Fits(|planned|, breakAfter) then |planned| else breakAfter.value
  {
    if Fits(|planned|, breakAfter) then planned else planned[..breakAfter.value]
  }

  function EncodeEach(fs: seq<Frame>): (chunks: seq<string>)
    ensures |chunks| == |fs|
  {
    seq(|fs|, i requires 0 <= i < |fs| => Encode(fs[i]))
  }

  // ---------------------------------------------------------------------
  // Properties of the planned frames

  lemma {:induction false} NonEmptyAppend(a: seq<Option<string>>, b: seq<Option<string>>)
    ensures NonEmpty(a + b) == NonEmpty(a) + NonEmpty(b)
    decreases |b|
  {
    if b == [] {
      assert a + b == a;
    } else {
      var last := b[|b| - 1];
      assert (a + b)[..|a + b| - 1] == a + b[..|b| - 1];
      NonEmptyAppend(a, b[..|b| - 1]);
    }
  }

  lemma {:induction false} ConcatAppend(a: seq<string>, b: seq<string>)
    ensures Concat(a + b) == Concat(a) + Concat(b)
  {
    if a == [] {
      assert a + b == b;
    } else {
      assert (a + b)[1..] == a[1..] + b;
      ConcatAppend(a[1..], b);
    }
  }

  /** Skipping empty deltas loses nothing: the written deltas concatenate to
      the whole provider text. */
  lemma {:induction false} NonEmptyKeepsText(deltas: seq<Option<string>>)
    ensures Concat(NonEmpty(deltas)) == ProviderText(deltas)
    decreases |deltas|
  {
    if deltas != [] {
      var init := deltas[..|deltas| - 1];
      var last := deltas[|deltas| - 1];
      NonEmptyKeepsText(init);
      var tail := if last.Some? && last.value != "" then [last.value] else [];
      ConcatAppend(NonEmpty(init), tail);
      assert Concat(tail) == (if last.Some? then last.value else "") by {
        if tail != [] {
          assert tail[1..] == [];
        }
      }
    }
  }

  /** The shape of the frame sequence: the seven thoughts, then one content
      frame per non-empty delta in provider order, then [DONE] on success or
      one error frame after a provider failure, and no terminator earlier. */
  lemma PlannedShape(steps: seq<string>, p: Provider)
    ensures var planned := Planned(steps, p);
      && |planned| == |steps| + |NonEmpty(p.deltas)| + 1
      && (forall i :: 0 <= i < |steps| ==> planned[i] == Thought(steps[i]))
      && (forall i :: |steps| <= i < |planned| - 1 ==>
            planned[i] == Content(NonEmpty(p.deltas)[i - |steps|]))
      && planned[|planned| - 1] == (if p.fails then Error(ErrorMessage) else Done)
  {
  }

  /** No frame the route writes carries an empty delta. */
  lemma {:induction false} NonEmptyHasNoEmpty(deltas: seq<Option<string>>)
    ensures forall i :: 0 <= i < |NonEmpty(deltas)| ==> NonEmpty(deltas)[i] != ""
    decreases |deltas|
  {
    if deltas != [] {
      NonEmptyHasNoEmpty(deltas[..|deltas| - 1]);
    }
  }

  lemma PlannedPrefixThoughts(steps: seq<string>, p: Provider, i: nat)
    requires i <= |steps|
    ensures Planned(steps, p)[..i] == Thoughts(steps)[..i]
  {
  }

  lemma PlannedPrefixContents(steps: seq<string>, p: Provider, j: nat)
    requires j <= |p.deltas|
    ensures var k := |steps| + |NonEmpty(p.deltas[..j])|;
      k <= |Planned(steps, p)| - 1 &&
      Planned(steps, p)[..k] == Thoughts(steps) + Contents(NonEmpty(p.deltas[..j]))
  {
    var a, b := p.deltas[..j], p.deltas[j..];
    assert p.deltas == a + b;
    NonEmptyAppend(a, b);
    var all := NonEmpty(p.deltas);
    assert Contents(all)[..|NonEmpty(a)|] == Contents(NonEmpty(a));
  }

  lemma EncodeEachSnoc(fs: seq<Frame>, f: Frame)
    ensures EncodeEach(fs + [f]) == EncodeEach(fs) + [Encode(f)]
  {
    var a, b := EncodeEach(fs + [f]), EncodeEach(fs) + [Encode(f)];
    forall i | 0 <= i < |a|
      ensures a[i] == b[i]
    {
      if i < |fs| {
        assert (fs + [f])[i] == fs[i];
      }
    }
  }

  /** One more status frame written. */
  lemma PreludeStep(steps: seq<string>, n: nat)
    requires n < |steps|
    ensures Thoughts(steps)[..n] + [Thought(steps[n])] == Thoughts(steps)[..n + 1]
  {
  }

  /** One more provider chunk read: written if it is a non-empty delta. */
  lemma RelayStep(steps: seq<string>, deltas: seq<Option<string>>, n: nat)
    requires n < |deltas|
    ensures var before := Thoughts(steps) + Contents(NonEmpty(deltas[..n]));
      var after := Thoughts(steps) + Contents(NonEmpty(deltas[..n + 1]));
      if deltas[n].Some? && deltas[n].value != "" then after == before + [Content(deltas[n].value)]
      else after == before
  {
    assert deltas[..n + 1][..n] == deltas[..n];
    if deltas[n].Some? && deltas[n].value != "" {
      assert NonEmpty(deltas[..n + 1]) == NonEmpty(deltas[..n]) + [deltas[n].value];
      assert Contents(NonEmpty(deltas[..n + 1])) == Contents(NonEmpty(deltas[..n])) + [Content(deltas[n].value)];
    }
  }

  /** What the catch block leaves delivered. After the try block, k frames of
      the plan are out; when k falls short, either the client went away after
      k writes or the provider failed and only the error frame is missing. */
  lemma CatchDelivers(planned: seq<Frame>, b: Option<nat>, k: nat)
    requires 0 < |planned| && k <= |planned|
    requires k == |planned| ==> Fits(k, b)
    requires k < |planned| ==>
      (b == Some(k) || (k == |planned| - 1 && planned[k] == Error(ErrorMessage) && Fits(k, b)))
    ensures k == |planned| ==> Deliverable(planned, b) == planned
    ensures k < |planned| && Fits(k + 1, b) ==>
      Deliverable(planned, b) == planned[..k] + [Error(ErrorMessage)] && Fits(|planned|, b)
    ensures k < |planned| && !Fits(k + 1, b) ==>
      Deliverable(planned, b) == planned[..k] && !Fits(|planned|, b)
  {
    if k < |planned| && Fits(k + 1, b) {
      assert planned == planned[..k] + [planned[k]];
    }
  }

  // ---------------------------------------------------------------------
  // The writer and the background task

  /** The writable side of the response stream. The client goes away once
      `breakAfter` writes have reached it, and the stream is then errored:
      every later write, and the close, rejects. A closed stream rejects
      writes as well. */
  class EventStreamWriter {
    var delivered: seq<string>
    var closeCalls: nat
    const breakAfter: Option<nat>

    constructor (breakAfter: Option<nat>)
      ensures delivered == [] && closeCalls == 0 && this.breakAfter == breakAfter
    {
      delivered := [];
      closeCalls := 0;
      this.breakAfter := breakAfter;
    }

    predicate Accepting()
      reads this
    {
      closeCalls == 0 && Fits(|delivered| + 1, breakAfter)
    }

    /** writer.write: resolves and delivers the chunk, or rejects. */
    method Write(chunk: string) returns (ok: bool)
      modifies this
      ensures ok == old(Accepting())
      ensures delivered == if ok then old(delivered) + [chunk] else old(delivered)
      ensures closeCalls == old(closeCalls)
    {
      ok := Accepting();
      if ok {
        delivered := delivered + [chunk];
      }
    }

    /** writer.close: counted, whether it resolves or not; it resolves
      exactly when the stream is neither closed nor errored. */
    method Close() returns (ok: bool)
      modifies this
      ensures ok == old(Accepting())
      ensures closeCalls == old(closeCalls) + 1
      ensures delivered == old(delivered)
    {
      ok := Accepting();
      closeCalls := closeCalls + 1;
    }
  }

  /** How the background closure ends: settled, or rejected because the
      catch block's own write or the finally block's close failed (nothing
      handles that rejection). */
  datatype TaskOutcome = Settled | Rejected

  /** One frame written: its data line and the blank line, as one chunk.
      The frames already written are `sent`. */
  method SendFrame(w: EventStreamWriter, ghost sent: seq<Frame>, f: Frame) returns (ok: bool)
    requires w.delivered == EncodeEach(sent) && w.closeCalls == 0
    modifies w
    ensures w.closeCalls == 0
    ensures ok <==> Fits(|sent| + 1, w.breakAfter)
    ensures w.delivered == EncodeEach(if ok then sent + [f] else sent)
  {
    ok := w.Write(Encode(f));
    if ok {
      EncodeEachSnoc(sent, f);
    }
  }

  /** The try block's prelude loop: each status frame is written and
      followed by one 500 ms wait; a rejected write leaves the loop. */
  method WritePrelude(w: EventStreamWriter, steps: seq<string>) returns (written: nat, ok: bool)
    requires w.delivered == [] && w.closeCalls == 0
    modifies w
    ensures w.closeCalls == 0 && written <= |steps|
    ensures w.delivered == EncodeEach(Thoughts(steps)[..written])
    ensures ok ==> written == |steps| && Fits(|steps|, w.breakAfter)
    ensures !ok ==> written < |steps| && w.breakAfter == Some(written)
  {
    written, ok := 0, true;
    assert Thoughts(steps)[..0] == [];
    while written < |steps|
      invariant written <= |steps|
      invariant w.closeCalls == 0 && Fits(written, w.breakAfter)
      invariant w.delivered == EncodeEach(Thoughts(steps)[..written])
    {
      ok := SendFrame(w, Thoughts(steps)[..written], Thought(steps[written]));
      if !ok {
        return;
      }
      PreludeStep(steps, written);
      written := written + 1;
    }
  }

  /** The try block's relay loop: every non-empty delta is written as one
      content frame, in provider order; a rejected write leaves the loop
      after `read` chunks. */
  method WriteDeltas(w: EventStreamWriter, steps: seq<string>, deltas: seq<Option<string>>)
    returns (read: nat, ok: bool)
    requires w.delivered == EncodeEach(Thoughts(steps)) && w.closeCalls == 0
    requires Fits(|steps|, w.breakAfter)
    modifies w
    ensures w.closeCalls == 0 && read <= |deltas|
    ensures w.delivered == EncodeEach(Thoughts(steps) + Contents(NonEmpty(deltas[..read])))
    ensures ok ==> read == |deltas| && Fits(|steps| + |NonEmpty(deltas)|, w.breakAfter)
    ensures !ok ==> w.breakAfter == Some(|steps| + |NonEmpty(deltas[..read])|)
  {
    read, ok := 0, true;
    assert Thoughts(steps) + Contents(NonEmpty(deltas[..0])) == Thoughts(steps);
    while read < |deltas|
      invariant read <= |deltas|
      invariant w.closeCalls == 0
      invariant Fits(|steps| + |NonEmpty(deltas[..read])|, w.breakAfter)
      invariant w.delivered == EncodeEach(Thoughts(steps) + Contents(NonEmpty(deltas[..read])))
    {
      var delta := deltas[read];
      RelayStep(steps, deltas, read);
      if delta.Some? && delta.value != "" {
        ok := SendFrame(w, Thoughts(steps) + Contents(NonEmpty(deltas[..read])), Content(delta.value));
        if !ok {
          return;
        }
      }
      read := read + 1;
    }
    assert deltas[..read] == deltas;
  }

  /** The background closure: the try block writes the prelude, calls the
      provider only once the prelude is written, relays its non-empty deltas
      and writes [DONE]; anything thrown (a rejected write, a provider
      failure) reaches the catch block, which writes one error frame; the
      finally block closes the writer. The closure settles exactly when the
      client is still there after the last frame, so that the close
      resolves. */
  method StreamItinerary(w: EventStreamWriter, steps: seq<string>, provider: Provider)
    returns (waits: nat, providerCalled: bool, outcome: TaskOutcome)
    requires w.delivered == [] && w.closeCalls == 0
    modifies w
    ensures w.delivered == EncodeEach(Deliverable(Planned(steps, provider), w.breakAfter))
    ensures w.closeCalls == 1
    ensures waits == |Deliverable(Thoughts(steps), w.breakAfter)|
    ensures providerCalled <==> Fits(|steps|, w.breakAfter)
    ensures outcome == Settled <==> Fits(|Planned(steps, provider)| + 1, w.breakAfter)
  {
    ghost var planned := Planned(steps, provider);
    providerCalled, outcome := false, Settled;
    var thrown := false;
    // try
    var written, ok := WritePrelude(w, steps);
    waits := written;
    PlannedPrefixThoughts(steps, provider, written);
    ghost var k: nat := written;
    if !ok {
      thrown := true;
    } else {
      providerCalled := true;
      var read;
      read, ok := WriteDeltas(w, steps, provider.deltas);
      PlannedPrefixContents(steps, provider, read);
      k := |steps| + |NonEmpty(provider.deltas[..read])|;
      if !ok {
        thrown := true;
      } else {
        assert provider.deltas[..read] == provider.deltas;
        if provider.fails {
          thrown := true;
        } else {
          assert planned == planned[..k] + [Done];
          ok := SendFrame(w, planned[..k], Done);
          if ok {
            k := k + 1;
          } else {
            thrown := true;
          }
        }
      }
    }
    CatchDelivers(planned, w.breakAfter, k);
    // catch
    if thrown {
      ok := SendFrame(w, planned[..k], Error(ErrorMessage));
      if !ok {
        outcome := Rejected;
      }
    }
    // finally
    var closed := w.Close();
    if !closed {
      outcome := Rejected;
    }
  }

  // ---------------------------------------------------------------------
  // The handler

  datatype GenerateResponse =
    | EventStream(status: int, headers: seq<(string, string)>)
    | JsonError(status: int, body: string)

  const StreamHeaders: seq<(string, string)> :=
    [("Content-Type", "text/event-stream"), ("Cache-Control", "no-cache"), ("Connection", "keep-alive")]

  /** POST: a body that does not parse (None) is the one failure before the
      stream exists and gives a 500 JSON reply; otherwise the event-stream
      response is returned and the background task runs on its writer. */
  method Post(body: Option<GenerateRequest>, provider: Provider, breakAfter: Option<nat>)
    returns (response: GenerateResponse, writer: EventStreamWriter?)
    ensures body.None? ==> (writer == null &&
      response == JsonError(500, StringifyObject([("error", "Failed to generate itinerary")])))
    ensures body.Some? ==> response == EventStream(200, StreamHeaders)
    ensures body.Some? ==> (writer != null && fresh(writer) && writer.closeCalls == 1 &&
      writer.delivered == EncodeEach(Deliverable(Planned(ThoughtSteps(body.value), provider), breakAfter)))
  {
    if body.None? {
      response := JsonError(500, StringifyObject([("error", "Failed to generate itinerary")]));
      writer := null;
    } else {
      var steps := ThoughtSteps(body.value);
      writer := new EventStreamWriter(breakAfter);
      response := EventStream(200, StreamHeaders);
      var waits, called, outcome := StreamItinerary(writer, steps, provider);
    }
  }
}
