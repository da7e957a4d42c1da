/** Decimal rendering of integers (`%d`) and joining of fields, shared by every package. */
module Text {

  predicate IsDigit(c: char)
  {
    '0' <= c <= '9'
  }

  predicate AllDigits(s: string)
  {
    forall i :: 0 <= i < |s| ==> IsDigit(s[i])
  }

  function DigitChar(d: nat): (c: char)
    requires d < 10
    ensures IsDigit(c) && c as int - '0' as int == d
  {
    ('0' as int + d) as char
  }

  /** The decimal digits of `n`, most significant first, with no leading zero. */
  function NatToDecimal(n: nat): (s: string)
    decreases n
  {
    if n < 10 then [DigitChar(n)] else NatToDecimal(n / 10) + [DigitChar(n % 10)]
  }

  /** Go's `fmt.Sprintf("%d", i)`. */
  function IntToDecimal(i: int): string
  {
    if i < 0 then "-" + NatToDecimal(-i) else NatToDecimal(i)
  }

  /** The value of a string of decimal digits (the empty string is 0). */
  function DecimalValue(s: string): nat
    requires AllDigits(s)
  {
    if s == [] then 0 else 10 * DecimalValue(s[..|s| - 1]) + (s[|s| - 1] as int - '0' as int)
  }

  /** A canonical unsigned decimal: digits only, and no leading zero unless it is "0". */
  predicate CanonicalNatural(s: string)
  {
    |s| > 0 && AllDigits(s) && (s[0] == '0' ==> s == "0")
  }

  lemma {:induction false} NatToDecimalCanonical(n: nat)
    ensures CanonicalNatural(NatToDecimal(n))
    ensures DecimalValue(NatToDecimal(n)) == n
    decreases n
  {
    if n >= 10 {
      NatToDecimalCanonical(n / 10);
      var s := NatToDecimal(n / 10);
      var t := NatToDecimal(n);
      assert t == s + [DigitChar(n % 10)];
      assert t[..|t| - 1] == s;
    }
  }

  /** `%d` is injective: distinct integers render differently. */
  lemma IntToDecimalInjective(i: int, j: int)
    requires IntToDecimal(i) == IntToDecimal(j)
    ensures i == j
  {
    NatToDecimalCanonical(if i < 0 then -i else i);
    NatToDecimalCanonical(if j < 0 then -j else j);
    var a := NatToDecimal(if i < 0 then -i else i);
    var b := NatToDecimal(if j < 0 then -j else j);
    if i < 0 && j < 0 {
      assert a == IntToDecimal(i)[1..] && b == IntToDecimal(j)[1..];
    }
  }

  /** `strings.Join(fields, sep)`. */
  function Join(fields: seq<string>, sep: string): string
  {
    if fields == [] then ""
    else if |fields| == 1 then fields[0]
    else fields[0] + sep + Join(fields[1..], sep)
  }

  /** The concatenation of a sequence of strings. */
  function Concat(parts: seq<string>): string
  {
    if parts == [] then "" else parts[0] + Concat(parts[1..])
  }

  lemma {:induction false} ConcatAppend(parts: seq<string>, last: string)
    ensures Concat(parts + [last]) == Concat(parts) + last
  {
    if parts != [] {
      assert (parts + [last])[1..] == parts[1..] + [last];
      ConcatAppend(parts[1..], last);
    }
  }

  predicate NoDuplicates<T(==)>(s: seq<T>)
  {
    forall i, j :: 0 <= i < j < |s| ==> s[i] != s[j]
  }

  /** The index of the first `c` in `s`, or `|s|` when there is none. */
  function FirstIndexOf(s: string, c: char): (i: nat)
    ensures i <= |s|
    ensures i < |s| <==> c in s
    ensures i < |s| ==> s[i] == c
    ensures forall j :: 0 <= j < i ==> s[j] != c
  {
    if s == [] then 0 else if s[0] == c then 0 else 1 + FirstIndexOf(s[1..], c)
  }

  /** In `p + r`, where `r` starts with `c` and `p` has none, the first `c` ends `p`. */
  lemma FirstIndexOfJoin(p: string, r: string, c: char)
    requires c !in p && r != [] && r[0] == c
    ensures FirstIndexOf(p + r, c) == |p|
    ensures (p + r)[..|p|] == p
  {
    assert (p + r)[|p|] == c;
    forall j | 0 <= j < |p|
      ensures (p + r)[j] != c
    {
      assert (p + r)[j] == p[j];
    }
  }

  /** A non-empty set has an element, so `x :| x in s` can choose one. */
  lemma HasElement<T>(s: set<T>)
    requires s != {}
    ensures exists x :: x in s
  {
    if forall x :: x !in s {
      assert false;
    }
  }

  /** Some element of a non-empty set (a witness for choosing one). */
  ghost function AnyElement<T>(s: set<T>): (x: T)
    requires s != {}
    ensures x in s
  {
    HasElement(s);
    var x :| x in s;
    x
  }
}
