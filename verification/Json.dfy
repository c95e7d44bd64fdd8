/** JSON string escaping, against a reader of JSON strings as section 7 of RFC 8259 defines them. */
module Json {
  import opened Common
  import opened Hex

  /** Two hex digits of a number below 256. */
  function TwoDigits(n: nat): string
    requires n < 256
  {
    [HEX_DIGITS[n / 16], HEX_DIGITS[n % 16]]
  }

  function EscapeChar(c: char): string {
    if c == '"' then "\\\""
    else if c == '\\' then "\\\\"
    else if c == '\n' then "\\n"
    else if c == '\r' then "\\r"
    else if c == '\t' then "\\t"
    else if c as int < 0x20 then "\\u00" + TwoDigits(c as int)
    else [c]
  }

  function Escaped(s: string): string {
    if s == [] then [] else EscapeChar(s[0]) + Escaped(s[1..])
  }

  lemma {:induction false} EscapedSnoc(s: string, c: char)
    ensures Escaped(s + [c]) == Escaped(s) + EscapeChar(c)
  {
    hide EscapeChar;
    if s != [] {
      assert (s + [c])[1..] == s[1..] + [c];
      EscapedSnoc(s[1..], c);
    } else {
      assert Escaped([c]) == EscapeChar(c) + Escaped([]);
    }
  }

  method JsonEscape(s: string) returns (out: string)
    ensures out == Escaped(s)
  {
    out := [];
    for i := 0 to |s|
      invariant out == Escaped(s[..i])
    {
      var c := s[i];
      assert s[..i + 1] == s[..i] + [c];
      EscapedSnoc(s[..i], c);
      hide Escaped;
      if c == '"' {
        out := out + "\\\"";
      } else if c == '\\' {
        out := out + "\\\\";
      } else if c == '\n' {
        out := out + "\\n";
      } else if c == '\r' {
        out := out + "\\r";
      } else if c == '\t' {
        out := out + "\\t";
      } else if c as int < 0x20 {
        out := out + ("\\u00" + TwoDigits(c as int));
      } else {
        out := out + [c];
      }
    }
    assert s[..|s|] == s;
  }

  // ---- Reading ----

  /** The number that four hex digits denote. */
  function ReadFour(t: string): (r: Option<nat>)
    ensures r.Some? ==> |t| >= 4 && r.value < 0x1_0000
  {
    if |t| < 4 then None
    else
      match (ToDigit(t[0]), ToDigit(t[1]), ToDigit(t[2]), ToDigit(t[3]))
      case (Some(a), Some(b), Some(c), Some(d)) =>
        Some(((a * 16 + b) * 16 + c) * 16 + d)
      case _ => None
  }

  /** The character that the text behind a backslash denotes, and how long that text is. A
      surrogate must be half of a pair. */
  function ReadEscape(t: string): (r: Option<(char, nat)>)
    ensures r.Some? ==> 0 < r.value.1 <= |t|
  {
    if t == [] then None
    else if t[0] == '"' || t[0] == '\\' || t[0] == '/' then Some((t[0], 1))
    else if t[0] == 'b' then Some(('\U{08}', 1))
    else if t[0] == 'f' then Some(('\U{0C}', 1))
    else if t[0] == 'n' then Some(('\n', 1))
    else if t[0] == 'r' then Some(('\r', 1))
    else if t[0] == 't' then Some(('\t', 1))
    else if t[0] != 'u' then None
    else
      match ReadFour(t[1..])
      case None => None
      case Some(high) =>
        if high < 0xD800 || 0xE000 <= high then Some((high as char, 5))
        else if high >= 0xDC00 || |t| < 7 || t[5] != '\\' || t[6] != 'u' then None
        else
          match ReadFour(t[7..])
          case None => None
          case Some(low) =>
            if 0xDC00 <= low < 0xE000 then
              Some(((0x1_0000 + (high - 0xD800) * 0x400 + (low - 0xDC00)) as char, 11))
            else None
  }

  /** The characters up to the closing quotation mark, and what follows it. Control characters
      must not stand for themselves. */
  function ReadChars(t: string): Option<(string, string)>
    decreases |t|
  {
    if t == [] then None
    else if t[0] == '"' then Some(([], t[1..]))
    else if t[0] == '\\' then
      match ReadEscape(t[1..])
      case None => None
      case Some((c, n)) => Before(c, ReadChars(t[1 + n..]))
    else if t[0] as int < 0x20 then None
    else Before(t[0], ReadChars(t[1..]))
  }

  function Before(c: char, r: Option<(string, string)>): Option<(string, string)> {
    match r
    case None => None
    case Some((s, rest)) => Some(([c] + s, rest))
  }

  function ReadString(t: string): Option<(string, string)> {
    if t != [] && t[0] == '"' then ReadChars(t[1..]) else None
  }

  function Quoted(s: string): string {
    "\"" + Escaped(s) + "\""
  }

  lemma TwoDigitsRead(n: nat)
    requires n < 0x20
    ensures ToDigit(TwoDigits(n)[0]) == Some(n / 16) && ToDigit(TwoDigits(n)[1]) == Some(n % 16)
  {
    DigitExactly(HEX_DIGITS[n / 16], n / 16);
    DigitExactly(HEX_DIGITS[n % 16], n % 16);
  }

  lemma ControlReads(n: nat, more: string)
    requires n < 0x20
    ensures ReadEscape("u00" + TwoDigits(n) + more) == Some((n as char, 5))
  {
    var t := "u00" + TwoDigits(n) + more;
    TwoDigitsRead(n);
    assert t[1..][0] == '0' && t[1..][1] == '0';
    assert t[1..][2] == TwoDigits(n)[0] && t[1..][3] == TwoDigits(n)[1];
    hide TwoDigits, ToDigit;
    assert ReadFour(t[1..]) == Some(n);
  }

  predicate IsControl(c: char) {
    c as int < 0x20 && c != '\n' && c != '\r' && c != '\t'
  }

  lemma ControlCharReads(c: char, more: string)
    requires IsControl(c)
    ensures ReadChars(EscapeChar(c) + more) == Before(c, ReadChars(more))
  {
    hide ReadEscape;
    var t := EscapeChar(c) + more;
    ControlReads(c as int, more);
    assert t[1..] == "u00" + TwoDigits(c as int) + more;
    assert t[6..] == more;
  }

  lemma ShortEscapeReads(c: char, more: string)
    requires !IsControl(c) && EscapeChar(c)[0] == '\\'
    ensures ReadChars(EscapeChar(c) + more) == Before(c, ReadChars(more))
  {
    hide ReadFour;
    var t := EscapeChar(c) + more;
    assert t[1..][0] == EscapeChar(c)[1];
    assert t[2..] == more;
  }

  /** One escaped character is read back as itself, whatever follows. */
  lemma EscapeCharReads(c: char, more: string)
    ensures ReadChars(EscapeChar(c) + more) == Before(c, ReadChars(more))
  {
    if IsControl(c) {
      ControlCharReads(c, more);
    } else if EscapeChar(c)[0] == '\\' {
      ShortEscapeReads(c, more);
    } else {
      hide ReadEscape;
      assert EscapeChar(c) == [c] && ([c] + more)[1..] == more;
    }
  }

  lemma {:induction false} EscapedReads(s: string, rest: string)
    ensures ReadChars(Escaped(s) + ("\"" + rest)) == Some((s, rest))
  {
    hide EscapeChar;
    var tail := "\"" + rest;
    if s == [] {
      assert Escaped(s) + tail == tail && tail[1..] == rest;
    } else {
      EscapedReads(s[1..], rest);
      EscapeCharReads(s[0], Escaped(s[1..]) + tail);
      assert Escaped(s) + tail == EscapeChar(s[0]) + (Escaped(s[1..]) + tail);
      assert [s[0]] + s[1..] == s;
    }
  }

  /** Nothing is escaped without need: quotation mark, backslash, line feed, carriage return and tab
      take two characters, any other control character six of which the digits are in lower case,
      and everything else stands for itself. */
  lemma EscapeIsShort(c: char)
    ensures var n := c as int;
            if n in {34, 92, 10, 13, 9} then |EscapeChar(c)| == 2
            else if n < 32 then
              && |EscapeChar(c)| == 6 && EscapeChar(c)[..2] == "\\u"
              && forall i :: 2 <= i < 6 ==> LowerHex(EscapeChar(c)[i])
            else EscapeChar(c) == [c]
  {
    if IsControl(c) {
      var n := c as int;
      LowerDigit(n / 16);
      LowerDigit(n % 16);
    }
  }

  lemma LowerDigit(k: nat)
    requires k < 16
    ensures LowerHex(HEX_DIGITS[k])
  {
    assert HEX_DIGITS[k] as int == if k < 10 then '0' as int + k else 'a' as int + k - 10;
  }

  /** A JSON reader recovers an escaped and quoted string and stops right behind it. */
  lemma JsonRoundTrip(s: string, rest: string)
    ensures ReadString(Quoted(s) + rest) == Some((s, rest))
  {
    hide Escaped, ReadChars;
    EscapedReads(s, rest);
    var e := Escaped(s);
    assert Quoted(s) + rest == ['"'] + (e + ("\"" + rest));
    assert (Quoted(s) + rest)[1..] == e + ("\"" + rest);
  }

  /** Escaping merges no two strings. */
  lemma EscapedIsInjective(s: string, t: string)
    ensures Escaped(s) == Escaped(t) <==> s == t
  {
    EscapedReads(s, []);
    EscapedReads(t, []);
  }
}
