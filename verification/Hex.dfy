/** The tolerant hex decoder of byte literals and the hex encoder of captured data. */
module Hex {
  import opened Common

  datatype HexError = InvalidCharacter(c: char) | OddDigits(count: nat)

  const HEX_DIGITS: string := "0123456789abcdef"

  /** The value of a hex digit in either case. */
  function ToDigit(c: char): (r: Option<nat>)
    ensures r.Some? ==> r.value < 16
  {
    if '0' <= c <= '9' then Some(c as int - '0' as int)
    else if 'a' <= c <= 'f' then Some(c as int - 'a' as int + 10)
    else if 'A' <= c <= 'F' then Some(c as int - 'A' as int + 10)
    else None
  }

  function DigitOf(c: char): Option<byte> {
    match ToDigit(c)
    case None => None
    case Some(d) => Some(d as byte)
  }

  /** A character reads as `n` exactly when it is the lower- or the upper-case digit for `n`. */
  lemma DigitExactly(c: char, n: nat)
    requires n < 16
    ensures ToDigit(c) == Some(n) <==> c == HEX_DIGITS[n] || c == "0123456789ABCDEF"[n]
  {
    var lower, upper := HEX_DIGITS[n], "0123456789ABCDEF"[n];
    assert lower as int == if n < 10 then '0' as int + n else 'a' as int + n - 10;
    assert upper as int == if n < 10 then '0' as int + n else 'A' as int + n - 10;
  }

  /** The characters that are skipped: tab, line feed, form feed, carriage return, space, `:`
      and `_`, by their code points, and no other. */
  lemma IgnorableExactly(c: char)
    ensures Ignorable(c) <==> c as int in {9, 10, 12, 13, 32, 58, 95}
  {
  }

  /** ASCII white space and the separators `:` and `_`. */
  predicate Ignorable(c: char) {
    c == ' ' || c == '\t' || c == '\n' || c == '\U{0C}' || c == '\r' || c == ':' || c == '_'
  }

  /** Whether a `0x` or `0X` starts at `i`. */
  predicate PrefixAt(s: string, i: nat)
    requires i < |s|
  {
    s[i] == '0' && i + 1 < |s| && (s[i + 1] == 'x' || s[i + 1] == 'X')
  }

  /** The digits of a literal, or the first character that cannot be read. */
  function Scan(s: string): Result<Bytes, HexError> {
    if s == [] then Ok([])
    else if PrefixAt(s, 0) then Scan(s[2..])
    else if Ignorable(s[0]) then Scan(s[1..])
    else
      match DigitOf(s[0])
      case None => Err(InvalidCharacter(s[0]))
      case Some(d) => Behind([d], Scan(s[1..]))
  }

  /** A scan that continues after some digits. */
  function Behind(digits: Bytes, r: Result<Bytes, HexError>): Result<Bytes, HexError> {
    match r
    case Err(e) => Err(e)
    case Ok(more) => Ok(digits + more)
  }

  /** Two digits to a byte. */
  function Packed(digits: Bytes): Bytes {
    if |digits| < 2 then [] else [(digits[0] << 4) | digits[1]] + Packed(digits[2..])
  }

  function Decoded(s: string): Result<Bytes, HexError> {
    match Scan(s)
    case Err(e) => Err(e)
    case Ok(digits) => if |digits| % 2 == 0 then Ok(Packed(digits)) else Err(OddDigits(|digits|))
  }

  lemma BehindTwice(a: Bytes, b: Bytes, r: Result<Bytes, HexError>)
    ensures Behind(a, Behind(b, r)) == Behind(a + b, r)
    ensures Behind([], r) == r
  {
    if r.Ok? {
      assert a + (b + r.value) == (a + b) + r.value;
      assert [] + r.value == r.value;
    }
  }

  /** One step of a scan that has reached `i`. */
  lemma ScanFrom(s: string, i: nat)
    requires i < |s|
    ensures PrefixAt(s, i) ==> i + 2 <= |s| && Scan(s[i..]) == Scan(s[i + 2..])
    ensures !PrefixAt(s, i) && Ignorable(s[i]) ==> Scan(s[i..]) == Scan(s[i + 1..])
    ensures !PrefixAt(s, i) && !Ignorable(s[i]) ==>
              Scan(s[i..]) == match DigitOf(s[i])
                              case None => Err(InvalidCharacter(s[i]))
                              case Some(d) => Behind([d], Scan(s[i + 1..]))
  {
    hide DigitOf, Ignorable, Behind;
    assert PrefixAt(s[i..], 0) <==> PrefixAt(s, i);
    assert s[i..][1..] == s[i + 1..];
    if PrefixAt(s, i) {
      assert s[i..][2..] == s[i + 2..];
    }
  }

  method DecodeHex(s: string) returns (r: Result<Bytes, HexError>)
    ensures r == Decoded(s)
  {
    hide DigitOf, Ignorable, Packed, Scan, PrefixAt;
    var digits: Bytes := [];
    var i := 0;
    assert s[0..] == s;
    BehindTwice([], [], Scan(s));
    while i < |s|
      invariant 0 <= i <= |s|
      invariant Scan(s) == Behind(digits, Scan(s[i..]))
      decreases |s| - i
    {
      ScanFrom(s, i);
      if PrefixAt(s, i) {
        i := i + 2;
        continue;
      }
      if Ignorable(s[i]) {
        i := i + 1;
        continue;
      }
      var digit := DigitOf(s[i]);
      if digit.None? {
        return Err(InvalidCharacter(s[i]));
      }
      BehindTwice(digits, [digit.value], Scan(s[i + 1..]));
      digits := digits + [digit.value];
      i := i + 1;
    }
    ScanEnds();
    assert s[i..] == [] && digits + [] == digits;
    if |digits| % 2 != 0 {
      return Err(OddDigits(|digits|));
    }
    return Ok(Packed(digits));
  }

  lemma ScanEnds()
    ensures Scan([]) == Ok([])
  {
  }

  // ---- What a literal may look like ----

  datatype Token = Digit(c: char) | Filler(c: char) | Prefix(x: char) {
    predicate WellFormed() {
      match this
      case Digit(c) => DigitOf(c).Some?
      case Filler(c) => Ignorable(c)
      case Prefix(x) => x == 'x' || x == 'X'
    }

    function Text(): string {
      match this
      case Digit(c) => [c]
      case Filler(c) => [c]
      case Prefix(x) => ['0', x]
    }
  }

  predicate AllWellFormed(tokens: seq<Token>) {
    forall i :: 0 <= i < |tokens| ==> tokens[i].WellFormed()
  }

  function TextOf(tokens: seq<Token>): string {
    if tokens == [] then [] else tokens[0].Text() + TextOf(tokens[1..])
  }

  /** The digits among the tokens, in order. */
  function DigitsOf(tokens: seq<Token>): Bytes
    requires AllWellFormed(tokens)
  {
    if tokens == [] then []
    else (if tokens[0].Digit? then [DigitOf(tokens[0].c).value] else []) + DigitsOf(tokens[1..])
  }

  lemma Disjoint(c: char)
    ensures DigitOf(c).Some? ==> !Ignorable(c) && c != 'x' && c != 'X'
    ensures Ignorable(c) ==> c != '0' && c != 'x' && c != 'X'
  {
  }

  /** Reading what tokens spell gives their digits: no two tokens run together. */
  lemma {:induction false} ScanReadsTokens(tokens: seq<Token>)
    requires AllWellFormed(tokens)
    ensures Scan(TextOf(tokens)) == Ok(DigitsOf(tokens))
    ensures TextOf(tokens) != [] ==> TextOf(tokens)[0] != 'x' && TextOf(tokens)[0] != 'X'
  {
    if tokens != [] {
      var s, more := TextOf(tokens), TextOf(tokens[1..]);
      ScanReadsTokens(tokens[1..]);
      Disjoint(tokens[0].Text()[0]);
      hide DigitOf, Ignorable;
      assert s[|tokens[0].Text()|..] == more;
      match tokens[0] {
        case Digit(c) =>
          assert s == [c] + more && s[0] == c;
          assert !PrefixAt(s, 0);
        case Filler(c) =>
          assert s == [c] + more && s[0] == c;
          assert !PrefixAt(s, 0) && [] + DigitsOf(tokens[1..]) == DigitsOf(tokens[1..]);
        case Prefix(x) =>
          assert s[0] == '0' && s[1] == x;
          assert PrefixAt(s, 0) && [] + DigitsOf(tokens[1..]) == DigitsOf(tokens[1..]);
      }
    }
  }

  /** Whatever is read is spelled by tokens. */
  lemma {:induction false} ScannedIsTokens(s: string) returns (tokens: seq<Token>)
    requires Scan(s).Ok?
    ensures AllWellFormed(tokens) && TextOf(tokens) == s
  {
    hide DigitOf, Ignorable;
    if s == [] {
      tokens := [];
    } else {
      ScanFrom(s, 0);
      assert s[0..] == s;
      var first := FirstToken(s);
      var more := ScannedIsTokens(s[|first.Text()|..]);
      tokens := [first] + more;
      TextPrepend(first, more);
    }
  }

  /** A literal is read exactly when hex digits, fillers and whole prefixes spell it, wherever
      they stand, and its digits are then those of the tokens. */
  lemma ScanExactly(s: string, digits: Bytes)
    ensures Scan(s) == Ok(digits) <==>
            exists tokens :: AllWellFormed(tokens) && TextOf(tokens) == s && DigitsOf(tokens) == digits
  {
    if Scan(s).Ok? {
      var tokens := ScannedIsTokens(s);
      ScanReadsTokens(tokens);
    }
    forall tokens | AllWellFormed(tokens) && TextOf(tokens) == s
      ensures Scan(s) == Ok(DigitsOf(tokens))
    {
      ScanReadsTokens(tokens);
    }
  }

  /** The token that a scan reads first. */
  lemma FirstToken(s: string) returns (first: Token)
    requires s != [] && (PrefixAt(s, 0) || Ignorable(s[0]) || DigitOf(s[0]).Some?)
    ensures first.WellFormed() && |first.Text()| == (if PrefixAt(s, 0) then 2 else 1)
    ensures s == first.Text() + s[|first.Text()|..]
  {
    hide DigitOf, Ignorable;
    first := if PrefixAt(s, 0) then Prefix(s[1]) else if Ignorable(s[0]) then Filler(s[0]) else Digit(s[0]);
    assert s == first.Text() + s[|first.Text()|..];
  }

  lemma TextPrepend(first: Token, more: seq<Token>)
    requires first.WellFormed() && AllWellFormed(more)
    ensures AllWellFormed([first] + more) && TextOf([first] + more) == first.Text() + TextOf(more)
    ensures DigitsOf([first] + more) ==
            if first.Digit? then [DigitOf(first.c).value] + DigitsOf(more) else DigitsOf(more)
  {
    hide DigitOf, Ignorable;
    assert ([first] + more)[1..] == more;
  }

  /** A rejected character stands behind well-formed tokens and is neither digit nor filler. */
  lemma {:induction false} RejectedCharacter(s: string) returns (tokens: seq<Token>, rest: string)
    requires Scan(s).Err?
    ensures Scan(s).error.InvalidCharacter?
    ensures var c := Scan(s).error.c; DigitOf(c).None? && !Ignorable(c) && s == TextOf(tokens) + [c] + rest
    ensures AllWellFormed(tokens)
  {
    hide DigitOf, Ignorable;
    hide Scan, PrefixAt, TextOf, DigitsOf, AllWellFormed, Token.Text;
    ScanEnds();
    ScanFrom(s, 0);
    assert s[0..] == s;
    if !PrefixAt(s, 0) && !Ignorable(s[0]) && DigitOf(s[0]).None? {
      tokens, rest := [], s[1..];
      NoTokens();
      assert s == [] + [s[0]] + s[1..];
    } else {
      var first := FirstToken(s);
      var more;
      more, rest := RejectedCharacter(s[|first.Text()|..]);
      tokens := [first] + more;
      TextPrepend(first, more);
      Regroup(first.Text(), TextOf(more), [Scan(s).error.c], rest);
    }
  }

  lemma NoTokens()
    ensures AllWellFormed([]) && TextOf([]) == [] && DigitsOf([]) == []
  {
  }

  lemma Regroup<T>(a: seq<T>, b: seq<T>, c: seq<T>, d: seq<T>)
    ensures a + (b + c + d) == (a + b) + c + d
  {
  }

  // ---- Encoding ----

  function Halves(b: byte): Bytes {
    [b >> 4, b & 0x0f]
  }

  function DigitsFor(bytes: Bytes): Bytes {
    if bytes == [] then [] else Halves(bytes[0]) + DigitsFor(bytes[1..])
  }

  lemma HalfIsSmall(b: byte)
    ensures b >> 4 < 16 && b & 0x0f < 16
  {
  }

  lemma IndexIsSmall(n: byte)
    requires n < 16
    ensures 0 <= n as int < 16
  {
  }

  function HexDigit(n: byte): char
    requires n < 16
  {
    IndexIsSmall(n);
    HEX_DIGITS[n as int]
  }

  function HexPair(b: byte): string {
    HalfIsSmall(b);
    [HexDigit(b >> 4), HexDigit(b & 0x0f)]
  }

  /** Base16 of section 8 of RFC 4648, in lower case. */
  function HexText(bytes: Bytes): (s: string)
    ensures |s| == 2 * |bytes|
  {
    if bytes == [] then [] else HexPair(bytes[0]) + HexText(bytes[1..])
  }

  lemma {:induction false} HexTextSnoc(bytes: Bytes, b: byte)
    ensures HexText(bytes + [b]) == HexText(bytes) + HexPair(b)
  {
    if bytes != [] {
      assert (bytes + [b])[1..] == bytes[1..] + [b];
      HexTextSnoc(bytes[1..], b);
    }
  }

  method HexEncode(bytes: Bytes) returns (out: string)
    ensures out == HexText(bytes)
  {
    out := [];
    for i := 0 to |bytes|
      invariant out == HexText(bytes[..i])
    {
      var b := bytes[i];
      HalfIsSmall(b);
      hide HexDigit;
      out := out + [HexDigit(b >> 4)];
      out := out + [HexDigit(b & 0x0f)];
      assert bytes[..i + 1] == bytes[..i] + [b];
      HexTextSnoc(bytes[..i], b);
    }
    assert bytes[..|bytes|] == bytes;
  }

  lemma HexDigitReads(n: byte)
    requires n < 16
    ensures DigitOf(HexDigit(n)) == Some(n)
  {
    IndexIsSmall(n);
    DigitExactly(HexDigit(n), n as int);
    assert (n as int) as byte == n;
  }

  /** The two digits of a byte are the quotient and the remainder by sixteen, in that order. */
  lemma HexPairIsNumber(b: byte)
    ensures |HexPair(b)| == 2
    ensures ToDigit(HexPair(b)[0]) == Some(b as nat / 16) && ToDigit(HexPair(b)[1]) == Some(b as nat % 16)
  {
    HalfIsSmall(b);
    HalvesAreNumbers(b);
    IndexIsSmall(b >> 4);
    IndexIsSmall(b & 0x0f);
    DigitExactly(HexDigit(b >> 4), b as nat / 16);
    DigitExactly(HexDigit(b & 0x0f), b as nat % 16);
  }

  lemma HalvesAreNumbers(b: byte)
    ensures (b >> 4) as nat == b as nat / 16 && (b & 0x0f) as nat == b as nat % 16
  {
  }

  predicate LowerHex(c: char) {
    '0' <= c <= '9' || 'a' <= c <= 'f'
  }

  /** The encoding is in lower case. */
  lemma {:induction false} HexTextIsLower(bytes: Bytes)
    ensures forall i :: 0 <= i < |HexText(bytes)| ==> LowerHex(HexText(bytes)[i])
  {
    if bytes != [] {
      var b := bytes[0];
      HalfIsSmall(b);
      HexDigitIsLower(b >> 4);
      HexDigitIsLower(b & 0x0f);
      hide HexDigit, LowerHex;
      HexTextIsLower(bytes[1..]);
    }
  }

  lemma HexDigitIsLower(n: byte)
    requires n < 16
    ensures LowerHex(HexDigit(n))
  {
    IndexIsSmall(n);
    var k := n as int;
    assert HEX_DIGITS[k] as int == if k < 10 then '0' as int + k else 'a' as int + k - 10;
  }

  lemma HalvesPack(b: byte)
    ensures ((b >> 4) << 4) | (b & 0x0f) == b
  {
  }

  lemma PackedHalves(n: byte, m: byte)
    requires n < 16 && m < 16
    ensures ((n << 4) | m) >> 4 == n && ((n << 4) | m) & 0x0f == m
  {
  }

  /** Packing undoes splitting, and nothing else packs to the same bytes. */
  lemma {:induction false} PackedExactly(digits: Bytes, bytes: Bytes)
    requires |digits| % 2 == 0 && forall i :: 0 <= i < |digits| ==> digits[i] < 16
    ensures Packed(digits) == bytes <==> digits == DigitsFor(bytes)
  {
    if digits == [] {
    } else if bytes == [] {
    } else {
      PackedExactly(digits[2..], bytes[1..]);
      HalvesPack(bytes[0]);
      PackedHalves(digits[0], digits[1]);
      assert digits == [digits[0], digits[1]] + digits[2..];
      assert bytes == [bytes[0]] + bytes[1..];
    }
  }

  lemma DigitIsSmall(c: char)
    ensures DigitOf(c).Some? ==> DigitOf(c).value < 16
  {
  }

  lemma {:induction false} DigitsAreSmall(tokens: seq<Token>)
    requires AllWellFormed(tokens)
    ensures forall i :: 0 <= i < |DigitsOf(tokens)| ==> DigitsOf(tokens)[i] < 16
  {
    if tokens != [] {
      if tokens[0].Digit? {
        DigitIsSmall(tokens[0].c);
      }
      hide DigitOf;
      DigitsAreSmall(tokens[1..]);
    }
  }

  /** A literal denotes some bytes exactly when it spells their digits, decorated with fillers and
      prefixes anywhere. */
  lemma DecodeExactly(s: string, bytes: Bytes)
    ensures Decoded(s) == Ok(bytes) <==>
            exists tokens :: AllWellFormed(tokens) && TextOf(tokens) == s && DigitsOf(tokens) == DigitsFor(bytes)
  {
    hide DigitOf, Ignorable, Packed;
    DigitsForEven(bytes);
    ScanExactly(s, DigitsFor(bytes));
    if Scan(s).Ok? {
      var digits := Scan(s).value;
      var tokens := ScannedIsTokens(s);
      ScanReadsTokens(tokens);
      DigitsAreSmall(tokens);
      if |digits| % 2 == 0 {
        PackedExactly(digits, bytes);
      }
    }
  }

  lemma {:induction false} DigitsForEven(bytes: Bytes)
    ensures |DigitsFor(bytes)| == 2 * |bytes|
  {
    if bytes != [] {
      DigitsForEven(bytes[1..]);
    }
  }

  /** An odd number of digits is always rejected, with that number. */
  lemma OddIsRejected(tokens: seq<Token>)
    requires AllWellFormed(tokens) && |DigitsOf(tokens)| % 2 == 1
    ensures Decoded(TextOf(tokens)) == Err(OddDigits(|DigitsOf(tokens)|))
  {
    ScanReadsTokens(tokens);
  }

  lemma PairFirst<T>(a: T, b: T, rest: seq<T>)
    ensures [a] + ([b] + rest) == [a, b] + rest
  {
  }

  lemma HexPairReads(b: byte) returns (high: char, low: char)
    ensures HexPair(b) == [high, low] && Digit(high).WellFormed() && Digit(low).WellFormed()
    ensures Halves(b) == [DigitOf(high).value, DigitOf(low).value]
  {
    HalfIsSmall(b);
    HexDigitReads(b >> 4);
    HexDigitReads(b & 0x0f);
    hide DigitOf, HexDigit;
    high, low := HexDigit(b >> 4), HexDigit(b & 0x0f);
  }

  /** The encoding is the plain spelling of the digits. */
  lemma {:induction false} HexTextIsTokens(bytes: Bytes) returns (tokens: seq<Token>)
    ensures AllWellFormed(tokens) && TextOf(tokens) == HexText(bytes) && DigitsOf(tokens) == DigitsFor(bytes)
  {
    hide HexPair, Halves, DigitOf, TextOf, DigitsOf, AllWellFormed;
    NoTokens();
    if bytes == [] {
      tokens := [];
    } else {
      var more := HexTextIsTokens(bytes[1..]);
      var high, low := HexPairReads(bytes[0]);
      TextPrepend(Digit(low), more);
      TextPrepend(Digit(high), [Digit(low)] + more);
      tokens := [Digit(high)] + ([Digit(low)] + more);
      PairFirst(high, low, HexText(bytes[1..]));
      PairFirst(DigitOf(high).value, DigitOf(low).value, DigitsFor(bytes[1..]));
    }
  }

  /** Decoding inverts encoding. */
  lemma HexRoundTrip(bytes: Bytes)
    ensures Decoded(HexText(bytes)) == Ok(bytes)
  {
    var tokens := HexTextIsTokens(bytes);
    DecodeExactly(HexText(bytes), bytes);
  }

  /** A `0x` is skipped wherever it stands, even between the two digits of a byte. */
  lemma PrefixInsideAByte()
    ensures Decoded("10x2") == Ok([0x12])
  {
    assert Scan("10x2") == Behind([1], Scan("0x2"));
    assert "0x2"[2..] == "2";
    assert Scan("2") == Behind([2], Scan([]));
    assert Packed([1, 2]) == [0x12];
  }
}
