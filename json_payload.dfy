/** The JSON object carried by one event-stream frame. JSON.stringify writes
    an object as its members in insertion order, each key and value quoted,
    without white space; JSON.parse reads any object, with white space around
    tokens and, for a repeated key, the last value winning. The model reads
    objects whose member values are all strings (see README). */
module JsonPayload {

  import opened Wrappers
  import opened JsonString

  /** The members of an object, in the order they were written. */
  type Members = seq<(string, string)>

  /** JSON white space (RFC 8259 section 2). */
  predicate IsWs(c: char) {
    c == ' ' || c == '\t' || c == '\n' || c == '\r'
  }

  /** A text without control characters: it cannot hold a line feed. */
  ghost predicate NoControl(s: string) {
    forall i :: 0 <= i < |s| ==> !IsControl(s[i])
  }

  function SkipWs(s: string): (r: string)
    ensures |r| <= |s|
    ensures r == [] || !IsWs(r[0])
  {
    if |s| > 0 && IsWs(s[0]) then SkipWs(s[1..]) else s
  }

  /** One member: a string key, a colon and a string value. */
  function ParseMember(s: string): (r: Option<((string, string), string)>)
    ensures r.Some? ==> |r.value.1| < |s|
  {
    match ParseString(s)
    case None => None
    case Some((k, r1)) =>
      var r2 := SkipWs(r1);
      if |r2| == 0 || r2[0] != ':' then None
      else
        match ParseString(SkipWs(r2[1..]))
        case None => None
        case Some((v, r3)) => Some(((k, v), r3))
  }

  /** Members separated by commas, up to and including the closing brace. */
  function ParseMemberList(s: string): (r: Option<(Members, string)>)
    decreases |s|
  {
    match ParseMember(s)
    case None => None
    case Some((m, r1)) =>
      var r2 := SkipWs(r1);
      if |r2| == 0 then None
      else if r2[0] == '}' then Some(([m], r2[1..]))
      else if r2[0] == ',' then
        match ParseMemberList(SkipWs(r2[1..]))
        case None => None
        case Some((ms, rest)) => Some(([m] + ms, rest))
      else None
  }

  /** JSON.parse of a whole text that must be one object with string members;
      None where JSON.parse throws or yields something else. */
  function ParseObject(s: string): Option<Members>
  {
    var t := SkipWs(s);
    if |t| == 0 || t[0] != '{' then None
    else
      var u := SkipWs(t[1..]);
      if |u| > 0 && u[0] == '}' then
        if SkipWs(u[1..]) == [] then Some([]) else None
      else
        match ParseMemberList(u)
        case None => None
        case Some((ms, rest)) => if SkipWs(rest) == [] then Some(ms) else None
  }

  /** Position of the last member with the given key, if any. */
  function LastIndexOf(ms: Members, key: string): (r: Option<nat>)
    ensures r.None? ==> forall i :: 0 <= i < |ms| ==> ms[i].0 != key
    ensures r.Some? ==> r.value < |ms| && ms[r.value].0 == key &&
                        forall j :: r.value < j < |ms| ==> ms[j].0 != key
  {
    if ms == [] then None
    else if ms[|ms| - 1].0 == key then Some(|ms| - 1)
    else LastIndexOf(ms[..|ms| - 1], key)
  }

  /** Property access on a parsed object: the value of the last member with
      that key, or None where JavaScript reads undefined. */
  function Lookup(ms: Members, key: string): (v: Option<string>)
    ensures v.None? <==> forall i :: 0 <= i < |ms| ==> ms[i].0 != key
    ensures v.Some? ==> (key, v.value) in ms
  {
    match LastIndexOf(ms, key)
    case None => None
    case Some(i) => Some(ms[i].1)
  }

  function MemberText(m: (string, string)): string {
    Quote(m.0) + ":" + Quote(m.1)
  }

  function MembersText(ms: Members): string {
    if ms == [] then ""
    else if |ms| == 1 then MemberText(ms[0])
    else MemberText(ms[0]) + "," + MembersText(ms[1..])
  }

  /** JSON.stringify of an object whose member values are strings. */
  function StringifyObject(ms: Members): string {
    "{" + MembersText(ms) + "}"
  }

  lemma NoControlConcat(a: string, b: string)
    requires NoControl(a) && NoControl(b)
    ensures NoControl(a + b)
  {
    forall i | 0 <= i < |a + b|
      ensures !IsControl((a + b)[i])
    {
      if i >= |a| {
        assert (a + b)[i] == b[i - |a|];
      }
    }
  }

  lemma MemberTextNoControl(m: (string, string))
    ensures NoControl(MemberText(m))
  {
    QuoteHasNoControl(m.0);
    QuoteHasNoControl(m.1);
    NoControlConcat(Quote(m.0), ":");
    NoControlConcat(Quote(m.0) + ":", Quote(m.1));
  }

  lemma {:induction false} MembersTextNoControl(ms: Members)
    ensures NoControl(MembersText(ms))
  {
    if |ms| == 1 {
      MemberTextNoControl(ms[0]);
    } else if |ms| > 1 {
      MemberTextNoControl(ms[0]);
      MembersTextNoControl(ms[1..]);
      NoControlConcat(MemberText(ms[0]), ",");
      NoControlConcat(MemberText(ms[0]) + ",", MembersText(ms[1..]));
    }
  }

  /** A stringified object is a single line: it holds no line feed or other
      control character, whatever its values contain. */
  lemma StringifyNoControl(ms: Members)
    ensures NoControl(StringifyObject(ms))
  {
    MembersTextNoControl(ms);
    NoControlConcat("{", MembersText(ms));
    NoControlConcat("{" + MembersText(ms), "}");
  }

  lemma SkipWsStops(s: string)
    requires |s| > 0 && !IsWs(s[0])
    ensures SkipWs(s) == s
  {
  }

  lemma MembersTextStartsWithQuote(ms: Members)
    requires ms != []
    ensures |MembersText(ms)| > 0 && MembersText(ms)[0] == '"'
  {
    assert Quote(ms[0].0)[0] == '"';
    assert MemberText(ms[0])[0] == '"';
    if |ms| > 1 {
      assert MembersText(ms) == MemberText(ms[0]) + ("," + MembersText(ms[1..]));
    }
  }

  /** A stringified object with members starts `{"`. */
  lemma StringifyStartsWithKey(ms: Members)
    requires ms != []
    ensures |StringifyObject(ms)| > 1 && StringifyObject(ms)[1] == '"'
  {
    MembersTextStartsWithQuote(ms);
  }

  /** One step of the member parser: key, colon, value. */
  lemma ParseMemberStep(s: string, k: string, r1: string, v: string, rest: string)
    requires ParseString(s) == Some((k, r1))
    requires |r1| > 0 && r1[0] == ':'
    requires ParseString(SkipWs(r1[1..])) == Some((v, rest))
    ensures ParseMember(s) == Some(((k, v), rest))
  {
    SkipWsStops(r1);
  }

  lemma Regroup4(a: string, b: string, c: string, d: string)
    ensures a + b + c + d == a + (b + (c + d))
  {
  }

  lemma DropFirst(c: char, t: string)
    ensures ([c] + t)[1..] == t && ([c] + t)[0] == c
  {
  }

  lemma QuoteStartsWithQuote(s: string)
    ensures |Quote(s)| > 0 && Quote(s)[0] == '"'
  {
  }

  lemma MemberRoundTrip(m: (string, string), rest: string)
    ensures ParseMember(MemberText(m) + rest) == Some((m, rest))
  {
    var tail := Quote(m.1) + rest;
    var r1 := ":" + tail;
    Regroup4(Quote(m.0), ":", Quote(m.1), rest);
    QuoteRoundTrip(m.0, r1);
    DropFirst(':', tail);
    assert SkipWs(tail) == tail by {
      QuoteStartsWithQuote(m.1);
      SkipWsStops(tail);
    }
    QuoteRoundTrip(m.1, rest);
    ParseMemberStep(MemberText(m) + rest, m.0, r1, m.1, rest);
  }

  lemma MemberListLast(s: string, m: (string, string), rest: string)
    requires ParseMember(s) == Some((m, "}" + rest))
    ensures ParseMemberList(s) == Some(([m], rest))
  {
    assert SkipWs("}" + rest) == "}" + rest;
    assert ("}" + rest)[1..] == rest;
  }

  lemma MemberListNext(s: string, m: (string, string), tail: string, ms: Members, rest: string)
    requires ParseMember(s) == Some((m, "," + tail))
    requires |tail| > 0 && tail[0] == '"'
    requires ParseMemberList(tail) == Some((ms, rest))
    ensures ParseMemberList(s) == Some(([m] + ms, rest))
  {
    assert SkipWs("," + tail) == "," + tail;
    assert ("," + tail)[1..] == tail;
    SkipWsStops(tail);
  }

  lemma MemberListOne(m: (string, string), rest: string)
    ensures ParseMemberList(MemberText(m) + "}" + rest) == Some(([m], rest))
  {
    var s := MemberText(m) + "}" + rest;
    assert s == MemberText(m) + ("}" + rest);
    MemberRoundTrip(m, "}" + rest);
    MemberListLast(s, m, rest);
  }

  lemma Regroup(head: string, sep: string, tail: string, close: string, rest: string)
    ensures head + sep + tail + close + rest == head + (sep + (tail + close + rest))
  {
  }

  lemma MembersTextCons(ms: Members, rest: string)
    requires |ms| > 1
    ensures MembersText(ms) + "}" + rest == MemberText(ms[0]) + ("," + (MembersText(ms[1..]) + "}" + rest))
  {
    assert MembersText(ms) == MemberText(ms[0]) + "," + MembersText(ms[1..]);
    Regroup(MemberText(ms[0]), ",", MembersText(ms[1..]), "}", rest);
  }

  lemma MemberListMore(ms: Members, rest: string)
    requires |ms| > 1
    requires ParseMemberList(MembersText(ms[1..]) + "}" + rest) == Some((ms[1..], rest))
    ensures ParseMemberList(MembersText(ms) + "}" + rest) == Some((ms, rest))
  {
    var tail := MembersText(ms[1..]) + "}" + rest;
    MembersTextCons(ms, rest);
    MemberRoundTrip(ms[0], "," + tail);
    assert |tail| > 0 && tail[0] == '"' by {
      MembersTextStartsWithQuote(ms[1..]);
    }
    MemberListNext(MembersText(ms) + "}" + rest, ms[0], tail, ms[1..], rest);
    assert [ms[0]] + ms[1..] == ms;
  }

  lemma {:induction false} MemberListRoundTrip(ms: Members, rest: string)
    requires ms != []
    ensures ParseMemberList(MembersText(ms) + "}" + rest) == Some((ms, rest))
  {
    if |ms| == 1 {
      assert MembersText(ms) == MemberText(ms[0]);
      MemberListOne(ms[0], rest);
      assert [ms[0]] == ms;
    } else {
      MemberListRoundTrip(ms[1..], rest);
      MemberListMore(ms, rest);
    }
  }

  /** Round trip: JSON.parse of JSON.stringify gives back the members. */
  lemma StringifyRoundTrip(ms: Members)
    ensures ParseObject(StringifyObject(ms)) == Some(ms)
  {
    var s := StringifyObject(ms);
    var u := MembersText(ms) + "}";
    DropFirst('{', u);
    assert s == "{" + u;
    SkipWsStops(s);
    if ms == [] {
      assert u == "}";
      SkipWsStops(u);
      assert SkipWs(u[1..]) == [];
    } else {
      assert SkipWs(u) == u by {
        MembersTextStartsWithQuote(ms);
        SkipWsStops(u);
      }
      MemberListRoundTrip(ms, "");
      assert MembersText(ms) + "}" + "" == u;
    }
  }
}
