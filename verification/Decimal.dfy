/** How an Int64 timestamp is written as text (agent/Sources/VGEventQueue/EventQueue.swift:41)
    and when sorting that text agrees with sorting the numbers. */
module Decimal {
  import opened Basics
  import opened TextOrder

  function DigitChar(d: int): char
    requires 0 <= d < 10
  {
    ('0' as int + d) as char
  }

  function Digits(n: nat): (s: string) {
    if n < 10 then [DigitChar(n)] else Digits(n / 10) + [DigitChar(n % 10)]
  }

  /** Swift's String(_: Int64). */
  function Print(n: int): string {
    if n < 0 then "-" + Digits(-n) else Digits(n)
  }

  function Width(n: nat): nat { |Digits(n)| }

  lemma {:induction false} WidthMonotone(a: nat, b: nat)
    requires a <= b
    ensures 1 <= Width(a) <= Width(b)
    decreases b
  {
    if b >= 10 {
      if a >= 10 { WidthMonotone(a / 10, b / 10); } else { WidthMonotone(0, b / 10); }
    }
  }

  lemma OneDigitOrder(a: nat, b: nat)
    requires a < 10 && b < 10
    ensures TextLess([DigitChar(a)], [DigitChar(b)]) <==> a < b
    ensures [DigitChar(a)] == [DigitChar(b)] <==> a == b
  {
    OneCharLess(DigitChar(a), DigitChar(b));
    assert [DigitChar(a)][0] == DigitChar(a) && [DigitChar(b)][0] == DigitChar(b);
  }

  /** One more digit keeps text order and number order in step. */
  lemma NextDigitOrder(x: string, m: nat, a: nat, y: string, n: nat, b: nat)
    requires |x| == |y| && a < 10 && b < 10
    requires (TextLess(x, y) <==> m < n) && (x == y <==> m == n)
    ensures TextLess(x + [DigitChar(a)], y + [DigitChar(b)]) <==> 10 * m + a < 10 * n + b
    ensures x + [DigitChar(a)] == y + [DigitChar(b)] <==> 10 * m + a == 10 * n + b
  {
    ConcatOrder(x, [DigitChar(a)], y, [DigitChar(b)]);
    OneDigitOrder(a, b);
  }

  lemma WideIsTen(n: nat)
    ensures Width(n) == 1 <==> n < 10
  {
    if n >= 10 { WidthMonotone(0, n / 10); }
  }

  lemma {:induction false} SameWidthOrder(a: nat, b: nat)
    requires Width(a) == Width(b)
    ensures TextLess(Digits(a), Digits(b)) <==> a < b
    ensures Digits(a) == Digits(b) <==> a == b
    decreases a
  {
    WideIsTen(a);
    WideIsTen(b);
    if a < 10 {
      OneDigitOrder(a, b);
    } else {
      SameWidthOrder(a / 10, b / 10);
      NextDigitOrder(Digits(a / 10), a / 10, a % 10, Digits(b / 10), b / 10, b % 10);
    }
  }

  /** n without its last k decimal digits. */
  function DropDigits(n: nat, k: nat): nat {
    if k == 0 then n else DropDigits(n / 10, k - 1)
  }

  lemma {:induction false} DropDigitsIsPrefix(n: nat, k: nat)
    requires k < Width(n)
    ensures Digits(n)[..Width(n) - k] == Digits(DropDigits(n, k))
    decreases k
  {
    if k == 0 {
      assert Digits(n)[..Width(n)] == Digits(n);
    } else {
      var q := n / 10;
      assert Digits(n) == Digits(q) + [DigitChar(n % 10)];
      DropDigitsIsPrefix(q, k - 1);
      assert Digits(n)[..Width(n) - k] == Digits(q)[..Width(q) - (k - 1)];
    }
  }

  /** Comparing p with s + t where p and s have the same length. */
  lemma PrefixOrder(p: string, s: string, t: string)
    requires |p| == |s|
    ensures TextLess(p, s + t) <==> TextLess(p, s) || (p == s && t != "")
    ensures TextLess(s + t, p) <==> TextLess(s, p)
  {
    CodesConcat(s, t);
    assert Codes(p) + [] == Codes(p);
    LexConcat(Codes(p), [], Codes(s), Codes(t));
    LexConcat(Codes(s), Codes(t), Codes(p), []);
    if Codes(p) == Codes(s) { CodesInjective(p, s); }
  }

  /** Text order of two non-negative numbers of any widths. */
  lemma NaturalTextOrder(a: nat, b: nat)
    requires a < b
    ensures Width(a) <= Width(b)
    ensures TextLess(Digits(a), Digits(b)) <==> a <= DropDigits(b, Width(b) - Width(a))
    ensures TextLess(Digits(b), Digits(a)) <==> DropDigits(b, Width(b) - Width(a)) < a
  {
    WidthMonotone(0, a);
    WidthMonotone(a, b);
    var k := Width(b) - Width(a);
    var t := RestOfDigits(b, k);
    OrderAgainstPrefix(a, b, DropDigits(b, k), t);
  }

  /** A number's digits are those of it cut by k digits, then k more. */
  lemma RestOfDigits(b: nat, k: nat) returns (t: string)
    requires k < Width(b)
    ensures Digits(b) == Digits(DropDigits(b, k)) + t && |t| == k && Width(DropDigits(b, k)) == Width(b) - k
  {
    var d := Digits(b);
    DropDigitsIsPrefix(b, k);
    t := d[|d| - k..];
    assert d == d[..|d| - k] + t;
  }

  lemma OrderAgainstPrefix(a: nat, b: nat, q: nat, t: string)
    requires Digits(b) == Digits(q) + t && Width(a) == Width(q) && (t == "" ==> q != a)
    ensures TextLess(Digits(a), Digits(b)) <==> a <= q
    ensures TextLess(Digits(b), Digits(a)) <==> q < a
  {
    SameWidthOrder(a, q);
    SameWidthOrder(q, a);
    TextAgainstPrefix(Digits(a), a, Digits(q), q, t);
  }

  /** The same with the texts given: `da` and `dq` are in step with a and q. */
  lemma TextAgainstPrefix(da: string, a: nat, dq: string, q: nat, t: string)
    requires |da| == |dq| && (t == "" ==> a != q)
    requires (TextLess(da, dq) <==> a < q) && (TextLess(dq, da) <==> q < a) && (da == dq <==> a == q)
    ensures TextLess(da, dq + t) <==> a <= q
    ensures TextLess(dq + t, da) <==> q < a
  {
    PrefixOrder(da, dq, t);
  }

  /** For a < b, whether their decimal text sorts the same way round. */
  predicate SortsAsNumber(a: int, b: int)
    requires a < b
  {
    if a < 0 <= b then true
    else if 0 <= a then a <= DropDigits(b, Max(0, Width(b) - Width(a)))
    else DropDigits(-a, Max(0, Width(-a) - Width(-b))) < -b
  }

  lemma {:induction false} StartsWithDigit(n: nat)
    ensures Digits(n) != "" && '0' <= Digits(n)[0] <= '9'
  {
    if n >= 10 { StartsWithDigit(n / 10); }
  }

  /** The created_at text of two timestamps sorts in time order exactly when SortsAsNumber
      holds, for every pair of integers. */
  lemma TextOrderIsTimeOrderIff(a: int, b: int)
    requires a < b
    ensures TextLess(Print(a), Print(b)) <==> SortsAsNumber(a, b)
    ensures Print(a) != Print(b)
  {
    if a < 0 <= b {
      StartsWithDigit(b);
      assert Codes(Print(a))[0] == '-' as int < Codes(Print(b))[0];
    } else if 0 <= a {
      NaturalTextOrder(a, b);
      assert SortsAsNumber(a, b) <==> TextLess(Print(a), Print(b));
      DistinctNaturals(a, b);
    } else {
      NaturalTextOrder(-b, -a);
      DistinctNaturals(-b, -a);
      AfterMinus(Digits(-a), Digits(-b));
    }
  }

  lemma AfterMinus(x: string, y: string)
    ensures TextLess("-" + x, "-" + y) <==> TextLess(x, y)
    ensures "-" + x == "-" + y <==> x == y
  {
    ConcatOrder("-", x, "-", y);
    LexIrreflexive(Codes("-"));
  }

  lemma DistinctNaturals(a: nat, b: nat)
    requires a != b
    ensures Digits(a) != Digits(b)
  {
    if Digits(a) == Digits(b) { SameWidthOrder(a, b); }
  }

  /** Timestamps written with the same number of digits always sort in time order. */
  lemma SameWidthSortsAsNumber(a: int, b: int)
    requires 0 <= a < b && Width(a) == Width(b)
    ensures SortsAsNumber(a, b)
  {
  }

  /** Crossing a power of ten breaks the order: "1000" sorts before "999". */
  lemma WidthChangeBreaksOrder()
    ensures !SortsAsNumber(999, 1000) && TextLess(Print(1000), Print(999))
  {
    assert Digits(1000) == "1000" by { assert Digits(100) == "100" by { assert Digits(10) == "10"; } }
    assert Digits(999) == "999" by { assert Digits(99) == "99" by { assert Digits(9) == "9"; } }
    NaturalTextOrder(999, 1000);
  }

  /** The number a text of digits stands for. */
  function ReadDigits(s: string): int {
    if s == "" then 0 else 10 * ReadDigits(s[..|s| - 1]) + (s[|s| - 1] as int - '0' as int)
  }

  lemma {:induction false} DigitsReadBack(n: nat)
    ensures ReadDigits(Digits(n)) == n && forall i :: 0 <= i < |Digits(n)| ==> '0' <= Digits(n)[i] <= '9'
  {
    if n < 10 {
      assert Digits(n)[..0] == "";
    } else {
      DigitsReadBack(n / 10);
      assert Digits(n)[..|Digits(n)| - 1] == Digits(n / 10);
    }
  }

  /** The text of a timestamp reads back as the timestamp: a minus sign exactly for negative ones. */
  lemma PrintReadsBack(n: int)
    ensures Print(n) != "" && (Print(n)[0] == '-' <==> n < 0)
    ensures n == if n < 0 then -ReadDigits(Print(n)[1..]) else ReadDigits(Print(n))
  {
    if n < 0 {
      DigitsReadBack(-n);
      assert Print(n)[1..] == Digits(-n);
    } else {
      DigitsReadBack(n);
      WidthMonotone(0, n);
    }
  }
}
