/** JSON string literals: the quoting that JSON.stringify applies to a string
    (ECMAScript QuoteJSONString) and the string grammar of section 7 of
    RFC 8259 that JSON.parse accepts. The quoting is what keeps a payload that
    contains a line break on one line of the event stream. */
module JsonString {

  import opened Wrappers

  /** A character that section 7 of RFC 8259 forbids unescaped inside a string. */
  predicate IsControl(c: char) {
    (c as int) < 0x20
  }

  /** Lower-case hexadecimal digit, as JSON.stringify writes it. */
  function HexDigit(n: nat): (c: char)
    requires n < 16
  {
    if n < 10 then (('0' as int) + n) as char else (('a' as int) + n - 10) as char
  }

  /** Value of one hexadecimal digit of either case. */
  function HexValue(c: char): (v: Option<nat>)
    ensures v.Some? ==> v.value < 16
  {
    if '0' <= c <= '9' then Some((c as int) - ('0' as int))
    else if 'a' <= c <= 'f' then Some((c as int) - ('a' as int) + 10)
    else if 'A' <= c <= 'F' then Some((c as int) - ('A' as int) + 10)
    else None
  }

  lemma HexRoundTrip(n: nat)
    requires n < 16
    ensures HexValue(HexDigit(n)) == Some(n)
  {
  }

  /** How JSON.stringify writes one character inside the quotes. */
  function EscapeChar(c: char): (r: string)
    ensures 1 <= |r| <= 6
  {
    if c == '"' then "\\\""
    else if c == '\\' then "\\\\"
    else if c as int == 0x08 then "\\b"
    else if c == '\t' then "\\t"
    else if c == '\n' then "\\n"
    else if c as int == 0x0C then "\\f"
    else if c == '\r' then "\\r"
    else if IsControl(c) then "\\u00" + [HexDigit((c as int) / 16), HexDigit((c as int) % 16)]
    else [c]
  }

  /** The text between the quotes that JSON.stringify produces for s. */
  function Escape(s: string): string
  {
    if s == [] then [] else EscapeChar(s[0]) + Escape(s[1..])
  }

  /** JSON.stringify of a string value: the escaped text between double quotes. */
  function Quote(s: string): string
  {
    "\"" + Escape(s) + "\""
  }

  /** Decodes the escape sequence that follows a backslash; returns the
      character and how many characters after the backslash it used. Escapes
      of UTF-16 surrogate halves are refused (see README). */
  function ParseEscape(s: string): (r: Option<(char, nat)>)
    ensures r.Some? ==> 1 <= r.value.1 <= |s|
  {
    if |s| == 0 then None
    else if s[0] == '"' || s[0] == '\\' || s[0] == '/' then Some((s[0], 1))
    else if s[0] == 'b' then Some((0x08 as char, 1))
    else if s[0] == 'f' then Some((0x0C as char, 1))
    else if s[0] == 'n' then Some(('\n', 1))
    else if s[0] == 'r' then Some(('\r', 1))
    else if s[0] == 't' then Some(('\t', 1))
    else if s[0] == 'u' && |s| >= 5 then
      match (HexValue(s[1]), HexValue(s[2]), HexValue(s[3]), HexValue(s[4]))
      case (Some(a), Some(b), Some(c), Some(d)) =>
        var v := ((a * 16 + b) * 16 + c) * 16 + d;
        if 0xD800 <= v < 0xE000 then None else Some((v as char, 5))
      case _ => None
    else None
  }

  /** Parses the rest of a string literal whose opening quote has been read:
      the decoded text and what follows the closing quote. */
  function ParseStringBody(s: string): (r: Option<(string, string)>)
    ensures r.Some? ==> |r.value.1| < |s|
    decreases |s|
  {
    if |s| == 0 then None
    else if s[0] == '"' then Some(("", s[1..]))
    else if s[0] == '\\' then
      match ParseEscape(s[1..])
      case None => None
      case Some((c, n)) =>
        match ParseStringBody(s[1 + n..])
        case None => None
        case Some((t, rest)) => Some(([c] + t, rest))
    else if IsControl(s[0]) then None
    else
      match ParseStringBody(s[1..])
      case None => None
      case Some((t, rest)) => Some(([s[0]] + t, rest))
  }

  /** Parses a string literal, opening quote included. */
  function ParseString(s: string): (r: Option<(string, string)>)
    ensures r.Some? ==> |r.value.1| < |s|
  {
    if |s| == 0 || s[0] != '"' then None else ParseStringBody(s[1..])
  }

  /** No escaped character is a control character, so a quoted string never
      holds a raw line feed. */
  lemma {:induction false} EscapeHasNoControl(s: string)
    ensures forall i :: 0 <= i < |Escape(s)| ==> !IsControl(Escape(s)[i])
  {
    if s != [] {
      EscapeHasNoControl(s[1..]);
      var e := EscapeChar(s[0]);
      assert Escape(s) == e + Escape(s[1..]);
      forall i | 0 <= i < |Escape(s)|
        ensures !IsControl(Escape(s)[i])
      {
        if i >= |e| {
          assert Escape(s)[i] == Escape(s[1..])[i - |e|];
        }
      }
    }
  }

  lemma QuoteHasNoControl(s: string)
    ensures forall i :: 0 <= i < |Quote(s)| ==> !IsControl(Quote(s)[i])
  {
    EscapeHasNoControl(s);
    forall i | 0 <= i < |Quote(s)|
      ensures !IsControl(Quote(s)[i])
    {
      if 0 < i < |Quote(s)| - 1 {
        assert Quote(s)[i] == Escape(s)[i - 1];
      }
    }
  }

  /** One step of the string parser over an escape sequence. */
  lemma BodyAfterEscape(s: string, c: char, n: nat)
    requires |s| > 0 && s[0] == '\\' && ParseEscape(s[1..]) == Some((c, n))
    ensures ParseStringBody(s) ==
      match ParseStringBody(s[1 + n..])
      case None => None
      case Some((t, rest)) => Some(([c] + t, rest))
  {
  }

  /** One step of the string parser over an unescaped character. */
  lemma BodyAfterPlain(s: string)
    requires |s| > 0 && s[0] != '"' && s[0] != '\\' && !IsControl(s[0])
    ensures ParseStringBody(s) ==
      match ParseStringBody(s[1..])
      case None => None
      case Some((t, rest)) => Some(([s[0]] + t, rest))
  {
  }

  /** A control character without a short escape comes back from \u00XX. */
  lemma UnicodeEscapeParses(c: char, tail: string)
    requires IsControl(c)
    ensures ParseEscape(['u', '0', '0', HexDigit((c as int) / 16), HexDigit((c as int) % 16)] + tail) == Some((c, 5))
  {
    var hi, lo := (c as int) / 16, (c as int) % 16;
    HexRoundTrip(hi);
    HexRoundTrip(lo);
    var u := ['u', '0', '0', HexDigit(hi), HexDigit(lo)] + tail;
    assert u[0] == 'u' && u[1] == '0' && u[2] == '0' && u[3] == HexDigit(hi) && u[4] == HexDigit(lo);
    assert ((0 * 16 + 0) * 16 + hi) * 16 + lo == c as int;
  }

  /** Decoding one escaped character, then the rest. */
  lemma EscapeCharParses(c: char, tail: string)
    ensures ParseStringBody(EscapeChar(c) + tail) ==
      match ParseStringBody(tail)
      case None => None
      case Some((t, rest)) => Some(([c] + t, rest))
  {
    var e := EscapeChar(c);
    var s := e + tail;
    if c == '"' || c == '\\' || c as int == 0x08 || c == '\t' || c == '\n' || c as int == 0x0C || c == '\r' {
      assert |e| == 2 && e[0] == '\\';
      assert ParseEscape(s[1..]) == Some((c, 1)) by {
        assert s[1..] == [e[1]] + tail;
      }
      assert s[2..] == tail;
      BodyAfterEscape(s, c, 1);
    } else if IsControl(c) {
      var hi, lo := (c as int) / 16, (c as int) % 16;
      assert s == ['\\'] + (['u', '0', '0', HexDigit(hi), HexDigit(lo)] + tail);
      UnicodeEscapeParses(c, tail);
      assert s[6..] == tail;
      BodyAfterEscape(s, c, 5);
    } else {
      assert e == [c];
      assert s[1..] == tail;
      BodyAfterPlain(s);
    }
  }

  /** Round trip: parsing what JSON.stringify wrote returns the original text
      and leaves the input after the closing quote untouched. */
  lemma {:induction false} ParseEscaped(s: string, rest: string)
    ensures ParseStringBody(Escape(s) + "\"" + rest) == Some((s, rest))
  {
    if s == [] {
      assert Escape(s) + "\"" + rest == "\"" + rest;
    } else {
      ParseEscaped(s[1..], rest);
      assert Escape(s) + "\"" + rest == EscapeChar(s[0]) + (Escape(s[1..]) + "\"" + rest);
      EscapeCharParses(s[0], Escape(s[1..]) + "\"" + rest);
      assert [s[0]] + s[1..] == s;
    }
  }

  lemma QuoteRoundTrip(s: string, rest: string)
    ensures ParseString(Quote(s) + rest) == Some((s, rest))
  {
    ParseEscaped(s, rest);
    assert (Quote(s) + rest)[1..] == Escape(s) + "\"" + rest;
  }
}
