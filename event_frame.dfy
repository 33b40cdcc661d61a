/** The frames of the itinerary event stream. Every frame is one line
    `data: <payload>` followed by a blank line; the payload is the JSON object
    {type, content} or, for the success terminator, the literal [DONE]. */
module EventFrame {

  import opened JsonString
  import opened JsonPayload

  datatype Frame =
    | Thought(text: string)      // a status line of the prelude
    | Content(delta: string)     // a fragment of the generated itinerary
    | Error(message: string)     // the in-stream failure notice
    | Done                       // the success terminator

  const DataPrefix: string := "data: "
  const DoneToken: string := "[DONE]"

  /** The {type, content} members JSON.stringify writes for a frame. */
  function Payload(f: Frame): Members
    requires !f.Done?
  {
    match f
    case Thought(t) => [("type", "thought"), ("content", t)]
    case Content(d) => [("type", "content"), ("content", d)]
    case Error(m) => [("type", "error"), ("content", m)]
  }

  /** The text after the data prefix. */
  function Data(f: Frame): string {
    if f.Done? then DoneToken else StringifyObject(Payload(f))
  }

  /** The data line of a frame, without its terminating blank line. */
  function Line(f: Frame): string {
    DataPrefix + Data(f)
  }

  /** What the route writes for one frame. */
  function Encode(f: Frame): string {
    Line(f) + "\n\n"
  }

  /** The bytes of several frames written one after the other. */
  function EncodeAll(fs: seq<Frame>): string {
    if fs == [] then "" else Encode(fs[0]) + EncodeAll(fs[1..])
  }

  lemma PrefixParts(a: string, b: string)
    ensures |a + b| >= |a| && (a + b)[..|a|] == a && (a + b)[|a|..] == b
  {
  }

  /** A frame's data line is the data prefix and the frame's payload text,
      and it never holds a line feed, whatever text the frame carries: the
      JSON quoting escapes it. */
  lemma LineIsOneLine(f: Frame)
    ensures Line(f) == DataPrefix + Data(f)
    ensures Line(f)[..|DataPrefix|] == DataPrefix && Line(f)[|DataPrefix|..] == Data(f)
    ensures forall i :: 0 <= i < |Line(f)| ==> Line(f)[i] != '\n'
  {
    PrefixParts(DataPrefix, Data(f));
    LiteralsHaveNoControl();
    if !f.Done? {
      StringifyNoControl(Payload(f));
    }
    NoControlConcat(DataPrefix, Data(f));
    assert NoControl(Line(f));
  }

  lemma LiteralsHaveNoControl()
    ensures NoControl(DataPrefix) && NoControl(DoneToken)
  {
  }

  lemma EncodeAllOne(f: Frame)
    ensures EncodeAll([f]) == Encode(f)
  {
    assert [f][1..] == [];
  }

  lemma {:induction false} EncodeAllAppend(a: seq<Frame>, b: seq<Frame>)
    ensures EncodeAll(a + b) == EncodeAll(a) + EncodeAll(b)
  {
    if a != [] {
      assert (a + b)[1..] == a[1..] + b;
      EncodeAllAppend(a[1..], b);
    } else {
      assert a + b == b;
    }
  }
}
