/** The browser's reading of the itinerary event stream (the loop in
    app/itinerary/page.tsx). Each received chunk is split on line feeds on its
    own, with no buffer carried to the next chunk; a line is acted on when it
    starts with `data: `, is not [DONE] and parses as JSON. A `thought`
    payload is appended to the list of thoughts and a `content` payload to the
    itinerary text; every other line leaves both as they were. */
module StreamDecoder {

  import opened Wrappers
  import opened JsonString
  import opened JsonPayload
  import opened EventFrame

  /** What the stream has produced on the page so far: the chainOfThought list
      and the accumulated itinerary text (fullResponse). */
  datatype Received = Received(thoughts: seq<string>, text: string)

  const Nothing: Received := Received([], "")

  /** String.prototype.split with a line feed as separator: the pieces between
      line feeds, with an empty piece at each end that a line feed borders. */
  function Split(s: string): (lines: seq<string>)
    ensures |lines| >= 1
  {
    if s == [] then [""]
    else if s[0] == '\n' then [""] + Split(s[1..])
    else
      var t := Split(s[1..]);
      [[s[0]] + t[0]] + t[1..]
  }

  /** The inverse of Split: the pieces put back together with line feeds. */
  function Join(lines: seq<string>): string
    requires |lines| >= 1
  {
    if |lines| == 1 then lines[0] else lines[0] + "\n" + Join(lines[1..])
  }

  /** Split is exact: joining its pieces gives back the chunk, and no piece
      holds a line feed. */
  lemma {:induction false} SplitJoin(s: string)
    ensures Join(Split(s)) == s
    ensures forall i, j :: 0 <= i < |Split(s)| && 0 <= j < |Split(s)[i]| ==> Split(s)[i][j] != '\n'
  {
    if s != [] {
      SplitJoin(s[1..]);
      var t := Split(s[1..]);
      if s[0] == '\n' {
        assert Split(s)[1..] == t;
        assert s == "\n" + s[1..];
      } else {
        var first := [s[0]] + t[0];
        assert Split(s) == [first] + t[1..];
        if |t| == 1 {
          assert Join(Split(s)) == first;
        } else {
          assert Join(Split(s)) == first + "\n" + Join(t[1..]);
          assert Join(t) == t[0] + "\n" + Join(t[1..]);
        }
        assert s == [s[0]] + s[1..];
        forall i, j | 0 <= i < |Split(s)| && 0 <= j < |Split(s)[i]|
          ensures Split(s)[i][j] != '\n'
        {
          if i == 0 {
            if j > 0 {
              assert Split(s)[0][j] == t[0][j - 1];
            }
          } else {
            assert Split(s)[i] == t[i];
          }
        }
      }
    }
  }

  /** Splitting a text that starts with a whole line. */
  lemma {:induction false} SplitLine(line: string, rest: string)
    requires forall i :: 0 <= i < |line| ==> line[i] != '\n'
    ensures Split(line + "\n" + rest) == [line] + Split(rest)
  {
    if line == [] {
      assert line + "\n" + rest == "\n" + rest;
      assert ("\n" + rest)[1..] == rest;
    } else {
      var s := line + "\n" + rest;
      assert s[0] == line[0];
      assert s[1..] == line[1..] + "\n" + rest;
      SplitLine(line[1..], rest);
      assert [line[0]] + line[1..] == line;
    }
  }

  predicate StartsWithData(line: string) {
    |line| >= |DataPrefix| && line[..|DataPrefix|] == DataPrefix
  }

  /** A line whose first character is not `d` is not a data line. */
  lemma NotDataLine(line: string)
    requires |line| > 0 && line[0] != 'd'
    ensures !StartsWithData(line)
  {
  }

  /** JavaScript's `+=` of a property that may be undefined. */
  function AsText(value: Option<string>): string {
    match value
    case Some(s) => s
    case None => "undefined"
  }

  /** The page only appends: the thoughts and the text it showed before are
      prefixes of those it shows after. */
  predicate Extends(before: Received, after: Received) {
    before.thoughts <= after.thoughts && before.text <= after.text
  }

  /** The dispatch on `parsed.type`: a payload adds at most one thought, and
      one whose type is neither `thought` nor `content` changes nothing. */
  function ApplyPayload(r: Received, ms: Members): (r': Received)
    ensures Extends(r, r') && |r'.thoughts| <= |r.thoughts| + 1
    ensures Lookup(ms, "type") != Some("thought") && Lookup(ms, "type") != Some("content") ==> r' == r
  {
    var kind := Lookup(ms, "type");
    if kind == Some("thought") then
      match Lookup(ms, "content")
      case Some(c) => Received(r.thoughts + [c], r.text)
      case None => r
    else if kind == Some("content") then
      Received(r.thoughts, r.text + AsText(Lookup(ms, "content")))
    else r
  }

  /** One line of a chunk. A [DONE] payload is skipped before any parsing; a
      payload that does not parse is logged and skipped. */
  function HandleLine(r: Received, line: string): (r': Received)
    ensures Extends(r, r') && |r'.thoughts| <= |r.thoughts| + 1
    ensures !StartsWithData(line) ==> r' == r
  {
    if !StartsWithData(line) then r
    else
      var data := line[|DataPrefix|..];
      if data == DoneToken then r
      else
        match ParseObject(data)
        case None => r
        case Some(ms) => ApplyPayload(r, ms)
  }

  function HandleLines(r: Received, lines: seq<string>): (r': Received)
    ensures Extends(r, r') && |r'.thoughts| <= |r.thoughts| + |lines|
    decreases |lines|
  {
    if lines == [] then r else HandleLines(HandleLine(r, lines[0]), lines[1..])
  }

  /** One chunk, split on its own: a line cut by the chunk boundary is seen
      as two unrelated lines. */
  function HandleChunk(r: Received, chunk: string): (r': Received)
    ensures Extends(r, r')
  {
    HandleLines(r, Split(chunk))
  }

  function HandleChunks(r: Received, chunks: seq<string>): (r': Received)
    ensures Extends(r, r')
    decreases |chunks|
  {
    if chunks == [] then r else HandleChunks(HandleChunk(r, chunks[0]), chunks[1..])
  }

  /** What the page shows after reading these chunks from a fresh start. */
  function Decode(chunks: seq<string>): Received {
    HandleChunks(Nothing, chunks)
  }

  /** Reading more chunks never takes back what the page shows. */
  lemma DecodeGrows(chunks: seq<string>, more: seq<string>)
    ensures Extends(Decode(chunks), Decode(chunks + more))
  {
    HandleChunksAppend(Nothing, chunks, more);
  }

  // ---------------------------------------------------------------------
  // The intended meaning of each frame, and the decoder against it

  /** What a frame is meant to do to the page. */
  function Apply(r: Received, f: Frame): Received {
    match f
    case Thought(t) => Received(r.thoughts + [t], r.text)
    case Content(d) => Received(r.thoughts, r.text + d)
    case Error(_) => r
    case Done => r
  }

  function ApplyAll(r: Received, fs: seq<Frame>): Received
    decreases |fs|
  {
    if fs == [] then r else ApplyAll(Apply(r, fs[0]), fs[1..])
  }

  /** The frames of several chunks, in order. */
  function Flatten(groups: seq<seq<Frame>>): seq<Frame> {
    if groups == [] then [] else groups[0] + Flatten(groups[1..])
  }

  /** The chunks seen when every chunk holds whole frames: one chunk per group. */
  function Chunks(groups: seq<seq<Frame>>): (chunks: seq<string>)
    ensures |chunks| == |groups|
    ensures forall i :: 0 <= i < |groups| ==> chunks[i] == EncodeAll(groups[i])
  {
    if groups == [] then [] else [EncodeAll(groups[0])] + Chunks(groups[1..])
  }

  lemma {:induction false} HandleLinesAppend(r: Received, a: seq<string>, b: seq<string>)
    ensures HandleLines(r, a + b) == HandleLines(HandleLines(r, a), b)
    decreases |a|
  {
    if a != [] {
      assert (a + b)[1..] == a[1..] + b;
      HandleLinesAppend(HandleLine(r, a[0]), a[1..], b);
    } else {
      assert a + b == b;
    }
  }

  lemma {:induction false} HandleChunksAppend(r: Received, a: seq<string>, b: seq<string>)
    ensures HandleChunks(r, a + b) == HandleChunks(HandleChunks(r, a), b)
    decreases |a|
  {
    if a != [] {
      assert (a + b)[1..] == a[1..] + b;
      HandleChunksAppend(HandleChunk(r, a[0]), a[1..], b);
    } else {
      assert a + b == b;
    }
  }

  lemma {:induction false} ApplyAllAppend(r: Received, a: seq<Frame>, b: seq<Frame>)
    ensures ApplyAll(r, a + b) == ApplyAll(ApplyAll(r, a), b)
    decreases |a|
  {
    if a != [] {
      assert (a + b)[1..] == a[1..] + b;
      ApplyAllAppend(Apply(r, a[0]), a[1..], b);
    } else {
      assert a + b == b;
    }
  }

  /** The two properties the page reads from a frame's payload. */
  lemma PayloadLookups(f: Frame)
    requires !f.Done?
    ensures Lookup(Payload(f), "type") == Some(Payload(f)[0].1)
    ensures Lookup(Payload(f), "content") == Some(Payload(f)[1].1)
  {
    var ms := Payload(f);
    assert ms[..1] == [ms[0]];
    assert LastIndexOf(ms[..1], "type") == Some(0);
  }

  /** Reading the data line of any frame the route writes has exactly the
      frame's intended effect: the payload survives JSON quoting intact and
      [DONE] is recognised before parsing. */
  lemma FrameLineDecodes(r: Received, f: Frame)
    ensures HandleLine(r, Line(f)) == Apply(r, f)
  {
    LineIsOneLine(f);
    assert StartsWithData(Line(f));
    if !f.Done? {
      var ms := Payload(f);
      assert Data(f) != DoneToken by {
        assert Data(f)[0] == '{';
      }
      StringifyRoundTrip(ms);
      PayloadLookups(f);
      assert HandleLine(r, Line(f)) == ApplyPayload(r, ms);
    }
  }

  /** A line, its terminator and the blank separator line, then the rest. */
  lemma SplitTwoLines(line: string, rest: string)
    requires forall i :: 0 <= i < |line| ==> line[i] != '\n'
    ensures Split(line + "\n\n" + rest) == [line, ""] + Split(rest)
  {
    assert line + "\n\n" + rest == line + "\n" + ("\n" + rest);
    SplitLine(line, "\n" + rest);
    assert "\n" + rest == "" + "\n" + rest;
    SplitLine("", rest);
  }

  lemma FrameLines(f: Frame, rest: string)
    ensures Split(Encode(f) + rest) == [Line(f), ""] + Split(rest)
  {
    LineIsOneLine(f);
    SplitTwoLines(Line(f), rest);
  }

  lemma HandleTwoLines(r: Received, a: string, b: string, rest: seq<string>)
    ensures HandleLines(r, [a, b] + rest) == HandleLines(HandleLine(HandleLine(r, a), b), rest)
  {
    assert ([a, b] + rest)[1..] == [b] + rest;
    assert ([b] + rest)[1..] == rest;
  }

  /** A chunk made of whole frames has the frames' intended effect, in order. */
  lemma {:induction false} ChunkOfFrames(r: Received, fs: seq<Frame>)
    ensures HandleChunk(r, EncodeAll(fs)) == ApplyAll(r, fs)
    decreases |fs|
  {
    if fs == [] {
      assert Split("") == [""];
      NonDataLineIgnored(r, "", []);
      assert [""] + [] == [""];
    } else {
      var f := fs[0];
      var rest := EncodeAll(fs[1..]);
      FrameLines(f, rest);
      HandleTwoLines(r, Line(f), "", Split(rest));
      FrameLineDecodes(r, f);
      assert HandleLine(Apply(r, f), "") == Apply(r, f);
      ChunkOfFrames(Apply(r, f), fs[1..]);
    }
  }

  /** Chunks that hold whole frames have the intended effect of all the
      frames, whatever the grouping. */
  lemma {:induction false} FramedChunksDecode(r: Received, groups: seq<seq<Frame>>)
    ensures HandleChunks(r, Chunks(groups)) == ApplyAll(r, Flatten(groups))
    decreases |groups|
  {
    if groups != [] {
      ChunkOfFrames(r, groups[0]);
      FramedChunksDecode(ApplyAll(r, groups[0]), groups[1..]);
      ApplyAllAppend(r, groups[0], Flatten(groups[1..]));
    }
  }

  /** A line that is not a data line, such as the blank separator line,
      changes nothing. */
  lemma NonDataLineIgnored(r: Received, line: string, rest: seq<string>)
    requires !StartsWithData(line)
    ensures HandleLines(r, [line] + rest) == HandleLines(r, rest)
  {
    assert ([line] + rest)[1..] == rest;
  }

  /** [DONE] neither changes the page nor stops the loop: the lines after it
      are still read. */
  lemma DoneSkipped(r: Received, rest: seq<string>)
    ensures HandleLines(r, [DataPrefix + DoneToken] + rest) == HandleLines(r, rest)
  {
    assert (DataPrefix + DoneToken)[|DataPrefix|..] == DoneToken;
    assert ([DataPrefix + DoneToken] + rest)[1..] == rest;
  }

  /** A data line whose payload JSON.parse rejects is skipped, and the lines
      after it in the same chunk are still read. */
  lemma MalformedSkipped(r: Received, line: string, rest: seq<string>)
    requires StartsWithData(line)
    requires ParseObject(line[|DataPrefix|..]).None?
    ensures HandleLines(r, [line] + rest) == HandleLines(r, rest)
  {
    assert ([line] + rest)[1..] == rest;
  }

  /** A payload whose type is neither `thought` nor `content` (an error frame,
      say) changes neither the thoughts nor the text. */
  lemma OtherTypesIgnored(r: Received, ms: Members)
    requires Lookup(ms, "type") != Some("thought") && Lookup(ms, "type") != Some("content")
    ensures ApplyPayload(r, ms) == r
  {
  }

  /** A JSON error body (the route's 500 reply, which the page reads without
      checking the status) holds no data line and changes nothing. */
  lemma JsonBodyIgnored(r: Received, ms: Members)
    ensures HandleChunk(r, StringifyObject(ms)) == r
  {
    var body := StringifyObject(ms);
    StringifyNoControl(ms);
    SplitNoNewline(body);
    assert body[0] == '{';
    NotDataLine(body);
    assert HandleLines(r, [body]) == HandleLines(r, []) by {
      NonDataLineIgnored(r, body, []);
      assert [body] + [] == [body];
    }
  }

  /** A text without line feeds is one line. */
  lemma {:induction false} SplitNoNewline(s: string)
    requires forall i :: 0 <= i < |s| ==> s[i] != '\n'
    ensures Split(s) == [s]
  {
    if s != [] {
      SplitNoNewline(s[1..]);
      assert [s[0]] + s[1..] == s;
    }
  }

  lemma ChunkOfOneLine(r: Received, line: string)
    requires forall i :: 0 <= i < |line| ==> line[i] != '\n'
    requires !StartsWithData(line) || ParseObject(line[|DataPrefix|..]).None?
    ensures HandleChunk(r, line + "\n\n") == r
  {
    var lines := [line] + ([""] + [""]);
    assert Split(line + "\n\n") == lines by {
      assert line + "\n\n" == line + "\n" + "\n";
      SplitLine(line, "\n");
      assert "\n" == "" + "\n" + "";
      SplitLine("", "");
      assert Split("") == [""];
    }
    assert HandleLine(r, line) == r;
    calc {
      HandleLines(r, lines);
      HandleLines(HandleLine(r, line), [""] + [""]);
      { NonDataLineIgnored(r, "", [""]); }
      HandleLines(r, [""]);
      { NonDataLineIgnored(r, "", []); assert [""] + [] == [""]; }
      HandleLines(r, []);
    }
  }

  lemma HandleChunksCons(r: Received, c: string, cs: seq<string>)
    ensures HandleChunks(r, [c] + cs) == HandleChunks(HandleChunk(r, c), cs)
  {
    assert ([c] + cs)[1..] == cs;
  }

  /** Read in one chunk, a content frame reaches the itinerary text. */
  lemma WholeFrameIsRead(d: string)
    ensures Decode([Encode(Content(d))]).text == d
  {
    var whole := Encode(Content(d));
    assert EncodeAll([Content(d)]) == whole + "";
    assert whole + "" == whole;
    ChunkOfFrames(Nothing, [Content(d)]);
    assert ApplyAll(Nothing, [Content(d)]) == ApplyAll(Received([], d), []);
    HandleChunksCons(Nothing, whole, []);
    assert [whole] + [] == [whole];
  }

  /** A chunk `data: {` holds one data line that does not parse. */
  lemma OpenBraceChunkIgnored(r: Received)
    ensures HandleChunk(r, "data: {") == r
  {
    var head := "data: {";
    SplitNoNewline(head);
    assert StartsWithData(head);
    assert head[|DataPrefix|..] == "{";
    assert SkipWs("{") == "{";
    assert SkipWs("") == "";
    assert ParseString("") == None;
    assert ParseMember("") == None;
    assert ParseObject("{").None?;
    assert HandleLine(r, head) == r;
    assert HandleLines(r, [head]) == HandleLines(HandleLine(r, head), []);
  }

  /** The data line of a payload frame continues `data: {"`. */
  lemma PayloadLineShape(f: Frame)
    requires !f.Done?
    ensures |Line(f)| > 7 && Line(f)[7] == '"'
  {
    StringifyStartsWithKey(Payload(f));
    LineIsOneLine(f);
  }

  /** The first seven characters of a content frame are `data: {`, a data
      line that does not parse. */
  lemma FrameHeadIgnored(d: string)
    ensures |Encode(Content(d))| > 7 && HandleChunk(Nothing, Encode(Content(d))[..7]) == Nothing
  {
    var line := Line(Content(d));
    PayloadLineShape(Content(d));
    LineIsOneLine(Content(d));
    assert Encode(Content(d))[..7] == "data: {" by {
      assert Encode(Content(d))[..7] == line[..7];
      assert Data(Content(d))[0] == '{';
    }
    OpenBraceChunkIgnored(Nothing);
  }

  /** The rest of a content frame after its first seven characters starts
      with a quote, so it holds no data line. */
  lemma FrameTailIgnored(d: string)
    ensures |Encode(Content(d))| > 7 && HandleChunk(Nothing, Encode(Content(d))[7..]) == Nothing
  {
    var line := Line(Content(d));
    PayloadLineShape(Content(d));
    LineIsOneLine(Content(d));
    SuffixOfConcat(line, "\n\n", 7);
    var rest := line[7..];
    NotDataLine(rest);
    ChunkOfOneLine(Nothing, rest);
  }

  /** A prefix of `data: {` read as a chunk: one line that is too short to
      be a data line, the data line `data: ` with nothing to parse, or the
      data line `data: {`, which does not parse. */
  lemma OpenBracePrefixIgnored(r: Received, k: nat)
    requires 1 <= k <= 7
    ensures HandleChunk(r, "data: {"[..k]) == r
  {
    if k == 7 {
      assert "data: {"[..7] == "data: {";
      OpenBraceChunkIgnored(r);
    } else {
      var head := "data: {"[..k];
      SplitNoNewline(head);
      if k == 6 {
        assert head[|DataPrefix|..] == "";
        assert SkipWs("") == "";
        assert ParseObject("").None?;
      }
      assert HandleLine(r, head) == r;
      assert HandleLines(r, [head]) == HandleLines(HandleLine(r, head), []);
    }
  }

  /** The head of a content frame cut within its first seven characters
      (`data: {`) changes nothing. */
  lemma EarlyHeadIgnored(d: string, k: nat)
    requires 1 <= k <= 7
    ensures |Encode(Content(d))| > 7 && HandleChunk(Nothing, Encode(Content(d))[..k]) == Nothing
  {
    var whole := Encode(Content(d));
    PayloadLineShape(Content(d));
    assert whole[..7] == "data: {" by {
      assert whole[..7] == Line(Content(d))[..7];
      assert Data(Content(d))[0] == '{';
    }
    assert whole[..k] == "data: {"[..k];
    OpenBracePrefixIgnored(Nothing, k);
  }

  /** A content frame's data line begins `data: {"`. */
  lemma ContentLineStart(d: string)
    ensures |Line(Content(d))| > 7 && Line(Content(d))[..8] == "data: {\""
  {
    PayloadLineShape(Content(d));
    assert Data(Content(d))[0] == '{';
  }

  /** The rest of a content frame cut within its first seven characters
      starts with a character of `ata: {"`, so it holds no data line. */
  lemma EarlyTailIgnored(d: string, k: nat)
    requires 1 <= k <= 7
    ensures |Encode(Content(d))| > 7 && HandleChunk(Nothing, Encode(Content(d))[k..]) == Nothing
  {
    var line := Line(Content(d));
    ContentLineStart(d);
    LineIsOneLine(Content(d));
    assert line[k] == "data: {\""[k] by {
      assert line[k] == line[..8][k];
    }
    SuffixOfConcat(line, "\n\n", k);
    var rest := line[k..];
    NotDataLine(rest);
    ChunkOfOneLine(Nothing, rest);
  }

  /** The decoder keeps no buffer between chunks: a content frame cut into
      two chunks anywhere within its first seven characters (`data: {`) is
      lost. */
  lemma SplitFrameIsLost(d: string, k: nat)
    requires 1 <= k <= 7
    ensures var whole := Encode(Content(d));
      |whole| > 7 && Decode([whole[..k], whole[k..]]) == Nothing
  {
    var whole := Encode(Content(d));
    EarlyHeadIgnored(d, k);
    EarlyTailIgnored(d, k);
    var head, tail := whole[..k], whole[k..];
    HandleChunksCons(Nothing, head, [tail]);
    HandleChunksCons(Nothing, tail, []);
    assert [tail] + [] == [tail];
    assert [head] + [tail] == [head, tail];
  }

  /** Chunks made only of line feeds change nothing. */
  lemma LineFeedsIgnored(r: Received)
    ensures HandleChunk(r, "") == r && HandleChunk(r, "\n") == r && HandleChunk(r, "\n\n") == r
  {
    assert Split("") == [""];
    assert Split("\n") == ["", ""] by {
      assert "\n"[1..] == "";
    }
    assert Split("\n\n") == ["", "", ""] by {
      assert "\n\n"[1..] == "\n";
    }
    NonDataLineIgnored(r, "", []);
    NonDataLineIgnored(r, "", [""]);
    NonDataLineIgnored(r, "", ["", ""]);
    assert [""] + [] == [""];
    assert [""] + [""] == ["", ""];
    assert [""] + ["", ""] == ["", "", ""];
  }

  /** A whole line followed by zero, one or two line feeds, read as a chunk,
      has the effect of that line. */
  lemma LineChunk(r: Received, line: string, n: nat)
    requires forall i :: 0 <= i < |line| ==> line[i] != '\n'
    requires n <= 2
    ensures HandleChunk(r, line + "\n\n"[..n]) == HandleLine(r, line)
  {
    var r' := HandleLine(r, line);
    if n == 0 {
      assert line + "\n\n"[..n] == line;
      SplitNoNewline(line);
      assert HandleLines(r, [line]) == HandleLines(r', []);
    } else {
      var t := if n == 1 then "" else "\n";
      assert line + "\n\n"[..n] == line + "\n" + t;
      SplitLine(line, t);
      assert HandleLines(r, [line] + Split(t)) == HandleLines(r', Split(t)) by {
        assert ([line] + Split(t))[1..] == Split(t);
      }
      LineFeedsIgnored(r');
    }
  }

  /** Two chunks are read one after the other. */
  lemma DecodeTwo(a: string, b: string)
    ensures Decode([a, b]) == HandleChunk(HandleChunk(Nothing, a), b)
  {
    HandleChunksCons(Nothing, a, [b]);
    assert [a] + [b] == [a, b];
    HandleChunksCons(HandleChunk(Nothing, a), b, []);
    assert [b] + [] == [b];
  }

  /** Cutting a text `a + b` inside b. */
  lemma CutParts(a: string, b: string, n: nat)
    requires n <= |b|
    ensures (a + b)[..|a| + n] == a + b[..n] && (a + b)[|a| + n..] == b[n..]
  {
  }

  /** What is left of the terminator after a cut changes nothing. */
  lemma TerminatorRestIgnored(r: Received, n: nat)
    requires n <= 2
    ensures HandleChunk(r, "\n\n"[n..]) == r
  {
    LineFeedsIgnored(r);
    if n == 0 {
      assert "\n\n"[n..] == "\n\n";
    } else if n == 1 {
      assert "\n\n"[n..] == "\n";
    } else {
      assert "\n\n"[n..] == "";
    }
  }

  /** A content frame whose data line is whole in the first chunk is read
      there, whatever of its terminator follows. */
  lemma ContentLineChunk(d: string, n: nat)
    requires n <= 2
    ensures HandleChunk(Nothing, Line(Content(d)) + "\n\n"[..n]) == Received([], d)
  {
    LineIsOneLine(Content(d));
    FrameLineDecodes(Nothing, Content(d));
    LineChunk(Nothing, Line(Content(d)), n);
  }

  /** The counterpart, at the front: a content frame whose first chunk is
      empty is read from the second. */
  lemma CutBeforeFrameKeepsIt(d: string)
    ensures Decode(["", Encode(Content(d))]) == Received([], d)
  {
    var whole := Encode(Content(d));
    DecodeTwo("", whole);
    assert HandleChunk(Nothing, "") == Nothing by {
      LineFeedsIgnored(Nothing);
    }
    assert whole == Line(Content(d)) + "\n\n"[..2] by {
      assert "\n\n"[..2] == "\n\n";
    }
    ContentLineChunk(d, 2);
  }

  /** The counterpart, at the back: a content frame cut anywhere from the
      end of its data line on (inside the `\n\n` terminator) is read,
      because the first chunk holds the whole data line. */
  lemma CutInTerminatorKeepsFrame(d: string, n: nat)
    requires n <= 2
    ensures var whole := Encode(Content(d));
      var k := |Line(Content(d))| + n;
      k <= |whole| && Decode([whole[..k], whole[k..]]) == Received([], d)
  {
    var line, whole := Line(Content(d)), Encode(Content(d));
    var k := |line| + n;
    CutParts(line, "\n\n", n);
    DecodeTwo(whole[..k], whole[k..]);
    ContentLineChunk(d, n);
    TerminatorRestIgnored(Received([], d), n);
  }

  lemma SuffixOfConcat(a: string, b: string, k: nat)
    requires k <= |a|
    ensures (a + b)[k..] == a[k..] + b
  {
  }
}
