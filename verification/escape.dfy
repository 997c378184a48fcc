/**
 The tool window's `escapeJson`, which writes the model name and the prompt into the string
 literals of the request body, and the JSON string grammar of section 7 of RFC 8259 that a
 receiving server decodes those literals with.
 */
module JsonEscape {
  import opened Options

  /** The five characters `escapeJson` rewrites: backslash, quotation mark, LF, CR and TAB. */
  predicate NeedsEscape(c: char) {
    c == '\\' || c == '"' || c == '\n' || c == '\r' || c == '\t'
  }

  /** A control character (below U+0020) that `escapeJson` leaves as it is, although
      section 7 of RFC 8259 forbids it unescaped inside a string. */
  predicate IsStrayControl(c: char) {
    (c as int) < 0x20 && c != '\n' && c != '\r' && c != '\t'
  }

  predicate HasNoStrayControl(s: string) {
    forall k :: 0 <= k < |s| ==> !IsStrayControl(s[k])
  }

  /** The two-character escapes of section 7 of RFC 8259: `\x` stands for `ShortEscape(x)`. */
  function ShortEscape(x: char): Option<char> {
    match x
    case '"' => Some('"')
    case '\\' => Some('\\')
    case '/' => Some('/')
    case 'b' => Some('\U{0008}')
    case 'f' => Some('\U{000C}')
    case 'n' => Some('\n')
    case 'r' => Some('\r')
    case 't' => Some('\t')
    case _ => None
  }

  /** The chunk `escapeJson` appends for one character: a special character becomes a
      backslash escape that a JSON decoder reads back as that character, anything else is
      copied unchanged. */
  function EscapeChar(c: char): (r: string)
    ensures NeedsEscape(c) ==> |r| == 2 && r[0] == '\\' && ShortEscape(r[1]) == Some(c)
    ensures !NeedsEscape(c) ==> r == [c]
  {
    match c
    case '\\' => "\\\\"
    case '"' => "\\\""
    case '\n' => "\\n"
    case '\r' => "\\r"
    case '\t' => "\\t"
    case _ => [c]
  }

  /** `escapeJson` as a function: the chunks of the characters, in order. */
  function Escape(s: string): (r: string)
    ensures |r| >= |s|
    ensures (forall k :: 0 <= k < |s| ==> !NeedsEscape(s[k])) <==> r == s
  {
    if s == [] then [] else EscapeChar(s[0]) + Escape(s[1..])
  }

  /** `escapeJson` as the source writes it: one pass over the text that appends each
      character's chunk to a builder. */
  method EscapeJson(text: string) returns (out: string)
    ensures out == Escape(text)
  {
    out := "";
    var i := 0;
    while i < |text|
      invariant 0 <= i <= |text|
      invariant out == Escape(text[..i])
    {
      EscapeAppend(text[..i], [text[i]]);
      assert text[..i + 1] == text[..i] + [text[i]];
      out := out + EscapeChar(text[i]);
      i := i + 1;
    }
    assert text[..i] == text;
  }

  /** Escaping works character by character, so it distributes over concatenation. */
  lemma {:induction false} EscapeAppend(a: string, b: string)
    ensures Escape(a + b) == Escape(a) + Escape(b)
  {
    if a != [] {
      assert (a + b)[1..] == a[1..] + b;
      EscapeAppend(a[1..], b);
    } else {
      assert a + b == b;
    }
  }

  predicate IsHexDigit(c: char) {
    ('0' <= c <= '9') || ('a' <= c <= 'f') || ('A' <= c <= 'F')
  }

  function HexValue(c: char): (v: nat)
    requires IsHexDigit(c)
    ensures v < 16
  {
    if '0' <= c <= '9' then (c as int) - ('0' as int)
    else if 'a' <= c <= 'f' then (c as int) - ('a' as int) + 10
    else (c as int) - ('A' as int) + 10
  }

  /** The UTF-16 code unit named by the four hex digits of a `\uXXXX` escape. */
  function Hex4(h: string): (r: Option<nat>)
    requires |h| == 4
    ensures r.Some? ==> r.value < 0x1_0000
  {
    if IsHexDigit(h[0]) && IsHexDigit(h[1]) && IsHexDigit(h[2]) && IsHexDigit(h[3]) then
      Some(((HexValue(h[0]) * 16 + HexValue(h[1])) * 16 + HexValue(h[2])) * 16 + HexValue(h[3]))
    else
      None
  }

  function Prepend(c: char, rest: Option<string>): Option<string> {
    match rest
    case None => None
    case Some(t) => Some([c] + t)
  }

  /** Decodes the characters between the quotation marks of a JSON string (section 7 of
      RFC 8259): an unescaped character must not be a quotation mark, a backslash or a
      control character; an escape is one of the two-character forms or `\uXXXX`, where a
      surrogate pair stands for one character outside the Basic Multilingual Plane. `None`
      means the text is not a valid string body. A lone surrogate is rejected, since it names
      no character. */
  function Unescape(s: string): (r: Option<string>)
    decreases |s|
  {
    if s == [] then Some([])
    else if s[0] == '\\' then
      if |s| >= 2 && ShortEscape(s[1]).Some? then
        Prepend(ShortEscape(s[1]).value, Unescape(s[2..]))
      else if |s| >= 6 && s[1] == 'u' && Hex4(s[2..6]).Some? then
        var u := Hex4(s[2..6]).value;
        if u < 0xD800 || 0xE000 <= u then
          Prepend(u as char, Unescape(s[6..]))
        else if u < 0xDC00 && |s| >= 12 && s[6] == '\\' && s[7] == 'u' && Hex4(s[8..12]).Some?
          && 0xDC00 <= Hex4(s[8..12]).value < 0xE000 then
          var low := Hex4(s[8..12]).value;
          Prepend((0x1_0000 + (u - 0xD800) * 0x400 + (low - 0xDC00)) as char, Unescape(s[12..]))
        else
          None
      else
        None
    else if s[0] == '"' || (s[0] as int) < 0x20 then None
    else Prepend(s[0], Unescape(s[1..]))
  }

  /** For text without stray control characters, a JSON decoder reads the escaped text back
      as the original text. */
  lemma {:induction false} UnescapeEscape(s: string)
    requires HasNoStrayControl(s)
    ensures Unescape(Escape(s)) == Some(s)
  {
    if s != [] {
      var e := Escape(s);
      var chunk := EscapeChar(s[0]);
      assert e == chunk + Escape(s[1..]);
      UnescapeEscape(s[1..]);
      assert !IsStrayControl(s[0]);
      if NeedsEscape(s[0]) {
        assert e[2..] == Escape(s[1..]);
      } else {
        assert e[1..] == Escape(s[1..]);
      }
      assert [s[0]] + s[1..] == s;
    }
  }

  /** A stray control character survives escaping raw, and a JSON decoder rejects it. */
  lemma {:induction false} EscapeKeepsStrayControl(s: string)
    requires !HasNoStrayControl(s)
    ensures Unescape(Escape(s)) == None
  {
    var e := Escape(s);
    var chunk := EscapeChar(s[0]);
    assert e == chunk + Escape(s[1..]);
    if IsStrayControl(s[0]) {
      assert e[0] == s[0];
    } else {
      assert !HasNoStrayControl(s[1..]) by {
        var k :| 0 <= k < |s| && IsStrayControl(s[k]);
        assert s[1..][k - 1] == s[k];
      }
      EscapeKeepsStrayControl(s[1..]);
      if NeedsEscape(s[0]) {
        assert e[2..] == Escape(s[1..]);
      } else {
        assert e[1..] == Escape(s[1..]);
      }
    }
  }

  /** The escaped text is a valid JSON string body that decodes to the original exactly
      when the original has no control character other than LF, CR and TAB. */
  lemma EscapeRoundTripIff(s: string)
    ensures Unescape(Escape(s)) == Some(s) <==> HasNoStrayControl(s)
    ensures Unescape(Escape(s)).Some? <==> HasNoStrayControl(s)
  {
    if HasNoStrayControl(s) {
      UnescapeEscape(s);
    } else {
      EscapeKeepsStrayControl(s);
    }
  }

  /** How a JSON reader finds the end of a string literal: it skips a backslash together with
      the character after it and stops at the first other quotation mark. The result is the
      literal's body and what follows its closing quotation mark. */
  function ScanLiteral(s: string): (r: Option<(string, string)>)
    ensures r.Some? ==> |r.value.0| + 1 + |r.value.1| == |s| && r.value.1 == s[|r.value.0| + 1..]
    decreases |s|
  {
    if s == [] then None
    else if s[0] == '"' then Some(([], s[1..]))
    else
      var step := if s[0] == '\\' && |s| >= 2 then 2 else 1;
      match ScanLiteral(s[step..])
      case None => None
      case Some((body, rest)) => Some((s[..step] + body, rest))
  }

  /** No quotation mark in escaped text goes unescaped: a literal opened before it ends
      exactly at the quotation mark written after it, whatever the text was. */
  lemma {:induction false} ScanEscaped(x: string, rest: string)
    ensures ScanLiteral(Escape(x) + "\"" + rest) == Some((Escape(x), rest))
  {
    var s := Escape(x) + "\"" + rest;
    if x == [] {
      assert s == "\"" + rest;
      assert s[1..] == rest;
    } else {
      var chunk := EscapeChar(x[0]);
      var tail := Escape(x[1..]);
      assert Escape(x) == chunk + tail;
      assert s == chunk + (tail + "\"" + rest);
      ScanEscaped(x[1..], rest);
      assert s[|chunk|..] == tail + "\"" + rest;
      assert s[..|chunk|] == chunk;
    }
  }
}
