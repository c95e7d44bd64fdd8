/** Vocabulary shared by every module: bytes, optional and failing results, the growable
    vector that the source passes around by mutable reference, and concatenation. */
module Common {

  type byte = bv8
  type Bytes = seq<byte>

  datatype Option<+T> = None | Some(value: T)

  datatype Result<+T, +E> = Ok(value: T) | Err(error: E)

  /** A growable vector handed to a callee by mutable reference. */
  class Vec<T> {
    var items: seq<T>

    constructor ()
      ensures items == []
    {
      items := [];
    }
  }

  function Flatten<T>(parts: seq<seq<T>>): seq<T> {
    if parts == [] then [] else parts[0] + Flatten(parts[1..])
  }

  lemma {:induction false} FlattenAppend<T>(a: seq<seq<T>>, b: seq<seq<T>>)
    ensures Flatten(a + b) == Flatten(a) + Flatten(b)
  {
    if a == [] {
      assert a + b == b;
    } else {
      assert (a + b)[1..] == a[1..] + b;
      FlattenAppend(a[1..], b);
    }
  }

  lemma FlattenSnoc<T>(a: seq<seq<T>>, x: seq<T>)
    ensures Flatten(a + [x]) == Flatten(a) + x
  {
    FlattenAppend(a, [x]);
    assert Flatten([x]) == x + Flatten<T>([]);
  }

  /** One chunk for each element: the finest way to deliver a stream. */
  function Singletons<T>(s: seq<T>): (r: seq<seq<T>>)
    ensures |r| == |s|
    ensures forall i :: 0 <= i < |s| ==> r[i] == [s[i]]
  {
    seq(|s|, i requires 0 <= i < |s| => [s[i]])
  }

  lemma {:induction false} FlattenSingletons<T>(s: seq<T>)
    ensures Flatten(Singletons(s)) == s
  {
    if s != [] {
      assert Singletons(s)[1..] == Singletons(s[1..]);
      FlattenSingletons(s[1..]);
    }
  }

  function Decimal(n: nat): string {
    if n < 10 then ["0123456789"[n]] else Decimal(n / 10) + ["0123456789"[n % 10]]
  }

  predicate DecimalDigit(c: char) {
    '0' <= c <= '9'
  }

  predicate AllDigits(t: string) {
    forall i :: 0 <= i < |t| ==> DecimalDigit(t[i])
  }

  /** The number that decimal digits denote. */
  function NumberOf(t: string): nat
    requires AllDigits(t)
  {
    if t == [] then 0 else 10 * NumberOf(t[..|t| - 1]) + (t[|t| - 1] as int - '0' as int)
  }

  /** The usual way to write a number: decimal digits without needless zeros in front. */
  predicate Numeral(t: string, n: nat) {
    t != [] && AllDigits(t) && (|t| > 1 ==> t[0] != '0') && NumberOf(t) == n
  }

  lemma DigitIsNumeral(k: nat)
    requires k < 10
    ensures Numeral(["0123456789"[k]], k) && (k > 0 ==> "0123456789"[k] != '0')
  {
    var d := "0123456789"[k];
    assert d as int == '0' as int + k;
    assert [d][..0] == [];
  }

  lemma {:induction false} DecimalIsNumeral(n: nat)
    ensures Numeral(Decimal(n), n) && (n > 0 ==> Decimal(n)[0] != '0')
  {
    DigitIsNumeral(n % 10);
    if n >= 10 {
      DecimalIsNumeral(n / 10);
      var t, d := Decimal(n / 10), "0123456789"[n % 10];
      assert (t + [d])[..|t|] == t && [d][..0] == [];
    }
  }

  /** Concatenation is associative. */
  lemma Peel<T>(a: seq<T>, b: seq<T>, c: seq<T>)
    ensures (a + b) + c == a + (b + c)
  {
  }
}
