/**
  Primitives the front end leans on everywhere: optional values, the
  JavaScript string operations it uses to search (`toLowerCase`,
  `includes`), `Array.prototype.filter`, the de-duplication
  `[...new Set(xs)]`, `Math.round` of a percentage, and the number
  formatting and `parseFloat` used on the "7h 05m" hour strings.
*/
module Common {

  datatype Option<T> = None | Some(value: T)

  // ---------------------------------------------------------------- strings

  /** `toLowerCase` on one character (ASCII letters only). */
  function LowerChar(c: char): char
  {
    if 'A' <= c <= 'Z' then (c as int + 32) as char else c
  }

  /** `String.prototype.toLowerCase` (ASCII letters only). */
  function Lower(s: string): (r: string)
    ensures |r| == |s|
    ensures forall i :: 0 <= i < |s| ==> r[i] == LowerChar(s[i])
  {
    seq(|s|, i requires 0 <= i < |s| => LowerChar(s[i]))
  }

  /** `t` occurs in `s` at index `i`. */
  predicate OccursAt(s: string, t: string, i: int)
  {
    0 <= i && i + |t| <= |s| && s[i..i + |t|] == t
  }

  lemma OccursStep(s: string, t: string)
    requires |s| > 0 && !OccursAt(s, t, 0)
    ensures (exists i :: OccursAt(s, t, i)) <==> (exists i :: OccursAt(s[1..], t, i))
  {
    if i :| OccursAt(s, t, i) {
      assert s[1..][i - 1..i - 1 + |t|] == s[i..i + |t|];
      assert OccursAt(s[1..], t, i - 1);
    }
    if i :| OccursAt(s[1..], t, i) {
      assert s[i + 1..i + 1 + |t|] == s[1..][i..i + |t|];
      assert OccursAt(s, t, i + 1);
    }
  }

  /** `s.includes(t)`: true exactly when `t` occurs somewhere in `s`. */
  function Includes(s: string, t: string): (r: bool)
    ensures r <==> exists i :: OccursAt(s, t, i)
    decreases |s|
  {
    if |t| > |s| then false
    else if s[..|t|] == t then assert OccursAt(s, t, 0); true
    else OccursStep(s, t); Includes(s[1..], t)
  }

  /** The empty string is found in every string. */
  lemma IncludesEmpty(s: string)
    ensures Includes(s, "")
  {
    assert OccursAt(s, "", 0);
  }

  /** The characters JavaScript counts as white space (`\s`, and what `parseFloat` skips). */
  predicate IsSpace(c: char)
  {
    c == '\t' || c == '\n' || c == '\U{000B}' || c == '\U{000C}' || c == '\r' || c == ' '
    || c == '\U{00A0}' || c == '\U{1680}' || ('\U{2000}' <= c <= '\U{200A}')
    || c == '\U{2028}' || c == '\U{2029}' || c == '\U{202F}' || c == '\U{205F}'
    || c == '\U{3000}' || c == '\U{FEFF}'
  }

  predicate IsDigit(c: char) { '0' <= c <= '9' }

  predicate AllDigits(s: string) { forall i :: 0 <= i < |s| ==> IsDigit(s[i]) }

  // -------------------------------------------------------------- sequences

  /** `given?.length > 0 ? given : fallback`: a list prop replaced by built-in data when empty. */
  function NonEmptyOr<T>(given: seq<T>, fallback: seq<T>): (r: seq<T>)
    ensures |given| > 0 ==> r == given
    ensures |given| == 0 ==> r == fallback
    ensures |r| > 0 <==> |given| > 0 || |fallback| > 0
  {
    if |given| > 0 then given else fallback
  }

  /** `Array.prototype.filter`. */
  function Filter<T(==,!new)>(s: seq<T>, p: T -> bool): (r: seq<T>)
    ensures |r| <= |s|
    ensures forall x :: x in r <==> x in s && p(x)
  {
    if s == [] then [] else (if p(s[0]) then [s[0]] else []) + Filter(s[1..], p)
  }

  /** `a` can be obtained from `b` by deleting elements: order is kept. */
  predicate IsSubseq<T(==,!new)>(a: seq<T>, b: seq<T>)
    decreases |b|
  {
    a == [] || (b != [] && ((a[0] == b[0] && IsSubseq(a[1..], b[1..])) || IsSubseq(a, b[1..])))
  }

  lemma {:induction false} SubseqTransitive<T(!new)>(a: seq<T>, b: seq<T>, c: seq<T>)
    requires IsSubseq(a, b) && IsSubseq(b, c)
    ensures IsSubseq(a, c)
    decreases |c|
  {
    if a == [] {
    } else if b[0] == c[0] && IsSubseq(b[1..], c[1..]) {
      if a[0] == b[0] && IsSubseq(a[1..], b[1..]) {
        SubseqTransitive(a[1..], b[1..], c[1..]);
      } else {
        SubseqTransitive(a, b[1..], c[1..]);
      }
    } else {
      SubseqTransitive(a, b, c[1..]);
    }
  }

  lemma {:induction false} SubseqReflexive<T(!new)>(a: seq<T>)
    ensures IsSubseq(a, a)
  {
    if a != [] { SubseqReflexive(a[1..]); }
  }

  /** Every element of a subsequence is an element of the sequence. */
  lemma {:induction false} SubseqElements<T(!new)>(a: seq<T>, b: seq<T>)
    requires IsSubseq(a, b)
    ensures forall x :: x in a ==> x in b
    decreases |b|
  {
    if a != [] {
      if a[0] == b[0] && IsSubseq(a[1..], b[1..]) {
        SubseqElements(a[1..], b[1..]);
        assert a == [a[0]] + a[1..] && b == [b[0]] + b[1..];
      } else {
        SubseqElements(a, b[1..]);
      }
    }
  }

  /** One unfolding of `Filter`: the head kept or dropped, then the rest filtered. */
  lemma FilterStep<T(!new)>(s: seq<T>, p: T -> bool)
    requires s != []
    ensures Filter(s, p) == (if p(s[0]) then [s[0]] else []) + Filter(s[1..], p)
  {
  }

  /** Filtering keeps the surviving elements in their original order. */
  lemma {:induction false} FilterIsSubseq<T(!new)>(s: seq<T>, p: T -> bool)
    ensures IsSubseq(Filter(s, p), s)
  {
    if s != [] {
      FilterIsSubseq(s[1..], p);
      if p(s[0]) {
        assert Filter(s, p) == [s[0]] + Filter(s[1..], p);
      } else {
        assert Filter(s, p) == Filter(s[1..], p);
        var f := Filter(s[1..], p);
        if f != [] {
          assert f[0] in f;
          assert f[0] != s[0];
        }
      }
    }
  }

  /** Filtering keeps every element that passes as often as it occurred, and no other. */
  lemma {:induction false} FilterMultiset<T(!new)>(s: seq<T>, p: T -> bool, x: T)
    ensures multiset(Filter(s, p))[x] == if p(x) then multiset(s)[x] else 0
  {
    if s != [] {
      FilterMultiset(s[1..], p, x);
      FilterMultisetStep(s, p, x, multiset(Filter(s[1..], p))[x]);
    }
  }

  /** The count of `x` kept from `s` follows from the count kept from its tail. */
  lemma FilterMultisetStep<T(!new)>(s: seq<T>, p: T -> bool, x: T, n: nat)
    requires s != []
    requires n == multiset(Filter(s[1..], p))[x] == if p(x) then multiset(s[1..])[x] else 0
    ensures multiset(Filter(s, p))[x] == if p(x) then multiset(s)[x] else 0
  {
    FilterStep(s, p);
    assert s == [s[0]] + s[1..];
  }

  /** A predicate that every element passes filters nothing out. */
  lemma {:induction false} FilterAllPass<T(!new)>(s: seq<T>, p: T -> bool)
    requires forall i :: 0 <= i < |s| ==> p(s[i])
    ensures Filter(s, p) == s
  {
    if s != [] {
      FilterAllPass(s[1..], p);
    }
  }

  /** Two predicates no element passes together select at most |s| elements between them. */
  lemma {:induction false} DisjointCounts<T(!new)>(s: seq<T>, p: T -> bool, q: T -> bool)
    requires forall x :: !(p(x) && q(x))
    ensures |Filter(s, p)| + |Filter(s, q)| <= |s|
  {
    if s != [] {
      DisjointCounts(s[1..], p, q);
    }
  }

  /** Filtering by `p` and then by `q` is filtering once by their conjunction. */
  lemma {:induction false} FilterFuse<T(!new)>(s: seq<T>, p: T -> bool, q: T -> bool, pq: T -> bool)
    requires forall x :: pq(x) == (p(x) && q(x))
    ensures Filter(Filter(s, p), q) == Filter(s, pq)
  {
    if s != [] {
      FilterFuse(s[1..], p, q, pq);
      var rest := Filter(s[1..], p);
      if p(s[0]) {
        assert Filter(s, p) == [s[0]] + rest;
        assert ([s[0]] + rest)[1..] == rest;
      } else {
        assert Filter(s, p) == rest;
      }
    }
  }

  /** Two tests that agree on every element filter the same. */
  lemma {:induction false} FilterCongruent<T(!new)>(s: seq<T>, p: T -> bool, q: T -> bool)
    requires forall i :: 0 <= i < |s| ==> p(s[i]) == q(s[i])
    ensures Filter(s, p) == Filter(s, q)
  {
    if s != [] {
      FilterCongruent(s[1..], p, q);
    }
  }

  /** Nothing passes, nothing is kept. */
  lemma {:induction false} FilterNonePass<T(!new)>(s: seq<T>, p: T -> bool)
    requires forall i :: 0 <= i < |s| ==> !p(s[i])
    ensures Filter(s, p) == []
  {
    if s != [] {
      FilterNonePass(s[1..], p);
    }
  }

  /** When only the element at `k` passes, it alone is kept. */
  lemma {:induction false} FilterSinglePass<T(!new)>(s: seq<T>, p: T -> bool, k: nat)
    requires k < |s| && p(s[k])
    requires forall i :: 0 <= i < |s| && i != k ==> !p(s[i])
    ensures Filter(s, p) == [s[k]]
  {
    if k == 0 {
      FilterNonePass(s[1..], p);
    } else {
      FilterSinglePass(s[1..], p, k - 1);
    }
  }

  /** What one predicate keeps and what its negation keeps add up to the whole sequence. */
  lemma {:induction false} FilterComplement<T(!new)>(s: seq<T>, p: T -> bool, q: T -> bool)
    requires forall x :: q(x) == !p(x)
    ensures |Filter(s, p)| + |Filter(s, q)| == |s|
  {
    if s != [] {
      FilterComplement(s[1..], p, q);
    }
  }

  /** Index of the first occurrence of `x` in `s`. */
  function FirstIndex<T(==,!new)>(s: seq<T>, x: T): (k: nat)
    requires x in s
    ensures k < |s| && s[k] == x
    ensures forall j :: 0 <= j < k ==> s[j] != x
  {
    if s[0] == x then 0 else 1 + FirstIndex(s[1..], x)
  }

  /**
    `[...new Set(s)]`: every value of `s` once, in the order in which it
    first occurs.
  */
  function Distinct<T(==,!new)>(s: seq<T>): (r: seq<T>)
    ensures forall x :: x in r <==> x in s
    ensures forall i, j :: 0 <= i < j < |r| ==> r[i] != r[j]
  {
    if s == [] then []
    else
      var init := s[..|s| - 1];
      assert s == init + [s[|s| - 1]];
      var r := Distinct(init);
      if s[|s| - 1] in r then r else r + [s[|s| - 1]]
  }

  lemma FirstIndexExtend<T(!new)>(p: seq<T>, y: T, x: T)
    requires x in p + [y]
    ensures FirstIndex(p + [y], x) == if x in p then FirstIndex(p, x) else |p|
  {
    var k := FirstIndex(p + [y], x);
    if x in p {
      var k0 := FirstIndex(p, x);
      assert (p + [y])[k0] == x;
    }
  }

  /** One element more at the end: it is added to the distinct values when it is new. */
  lemma DistinctSnoc<T(!new)>(init: seq<T>, y: T)
    ensures Distinct(init + [y]) == if y in Distinct(init) then Distinct(init) else Distinct(init) + [y]
  {
    assert (init + [y])[..|init + [y]| - 1] == init;
  }

  /** The values of `Distinct(s)` appear in the order of their first occurrences in `s`. */
  lemma {:induction false} DistinctFirstOccurrence<T(!new)>(s: seq<T>)
    ensures forall i, j :: 0 <= i < j < |Distinct(s)| ==>
      FirstIndex(s, Distinct(s)[i]) < FirstIndex(s, Distinct(s)[j])
  {
    if s != [] {
      var init, y := s[..|s| - 1], s[|s| - 1];
      assert s == init + [y];
      DistinctFirstOccurrence(init);
      DistinctSnoc(init, y);
      var r := Distinct(init);
      KeptOrder(init, y, r);
      if y !in r {
        NewValueLast(init, y, r);
        AppendOrdered(init + [y], r, y);
      }
    }
  }

  /** Appending an element to `init` moves no first occurrence of a value of `r`. */
  lemma KeptOrder<T(!new)>(init: seq<T>, y: T, r: seq<T>)
    requires forall x :: x in r ==> x in init
    requires forall i, j :: 0 <= i < j < |r| ==> FirstIndex(init, r[i]) < FirstIndex(init, r[j])
    ensures forall i, j :: 0 <= i < j < |r| ==> FirstIndex(init + [y], r[i]) < FirstIndex(init + [y], r[j])
  {
    forall x | x in r
      ensures FirstIndex(init + [y], x) == FirstIndex(init, x)
    {
      FirstIndexExtend(init, y, x);
    }
  }

  /** A value new to `init` first occurs after every value of `r`. */
  lemma NewValueLast<T(!new)>(init: seq<T>, y: T, r: seq<T>)
    requires forall x :: x in r <==> x in init
    requires y !in r
    ensures forall i :: 0 <= i < |r| ==> FirstIndex(init + [y], r[i]) < FirstIndex(init + [y], y)
  {
    FirstIndexExtend(init, y, y);
    forall i | 0 <= i < |r|
      ensures FirstIndex(init + [y], r[i]) < |init|
    {
      assert r[i] in r;
      FirstIndexExtend(init, y, r[i]);
    }
  }

  /** An ordered `r` stays ordered with a value appended that comes after all of it. */
  lemma AppendOrdered<T(!new)>(s: seq<T>, r: seq<T>, y: T)
    requires y in s && forall x :: x in r ==> x in s
    requires forall i, j :: 0 <= i < j < |r| ==> FirstIndex(s, r[i]) < FirstIndex(s, r[j])
    requires forall i :: 0 <= i < |r| ==> FirstIndex(s, r[i]) < FirstIndex(s, y)
    ensures forall i, j :: 0 <= i < j < |r + [y]| ==> FirstIndex(s, (r + [y])[i]) < FirstIndex(s, (r + [y])[j])
  {
    var d := r + [y];
    forall i, j | 0 <= i < j < |d|
      ensures FirstIndex(s, d[i]) < FirstIndex(s, d[j])
    {
      assert d[i] == r[i];
      if j < |r| {
        assert d[j] == r[j];
      }
    }
  }

  // ------------------------------------------------------------------ numbers

  /**
    `Math.round(part / whole * 100)` on exact rationals: the integer
    nearest to 100·part/whole, a half rounded up.
  */
  function RoundPercent(part: nat, whole: nat): (r: nat)
    requires whole > 0
    ensures 2 * whole * r <= 200 * part + whole < 2 * whole * (r + 1)
  {
    (200 * part + whole) / (2 * whole)
  }

  /** `total > 0 ? Math.round(count / total * 100) : 0`. */
  function Percentage(count: nat, total: nat): (r: nat)
    ensures total == 0 ==> r == 0
    ensures total > 0 ==> 2 * total * r <= 200 * count + total < 2 * total * (r + 1)
    ensures count <= total ==> r <= 100
  {
    if total > 0 then
      PercentAtMost100Guarded(count, total);
      RoundPercent(count, total)
    else 0
  }

  lemma PercentAtMost100Guarded(count: nat, total: nat)
    requires total > 0
    ensures count <= total ==> RoundPercent(count, total) <= 100
  {
    if count <= total {
      PercentAtMost100(count, total);
    }
  }

  lemma MulMonotone(d: int, x: int, y: int)
    requires d >= 0 && x <= y
    ensures d * x <= d * y
  {
    assert d * y - d * x == d * (y - x);
  }

  /** Division by a positive divisor finds the one quotient that brackets the dividend. */
  lemma DivUnique(a: int, d: int, q: int)
    requires d > 0 && d * q <= a < d * q + d
    ensures a / d == q
  {
    var k := a / d;
    assert a == d * k + a % d;
    if k > q {
      MulMonotone(d, q + 1, k);
    } else if k < q {
      MulMonotone(d, k + 1, q);
    }
  }

  /** The whole is 100 per cent. */
  lemma PercentOfWhole(n: nat)
    requires n > 0
    ensures RoundPercent(n, n) == 100
  {
    DivUnique(200 * n + n, 2 * n, 100);
  }

  /** A share of a whole never rounds above 100 per cent. */
  lemma PercentAtMost100(part: nat, whole: nat)
    requires 0 < whole && part <= whole
    ensures RoundPercent(part, whole) <= 100
  {
    var r := RoundPercent(part, whole);
    if r > 100 {
      MulMonotone(2 * whole, 101, r);
      assert false;
    }
  }

  function DigitChar(d: nat): (c: char)
    requires d < 10
    ensures IsDigit(c)
  {
    ('0' as int + d) as char
  }

  function DigitValue(c: char): nat
    requires IsDigit(c)
  {
    c as int - '0' as int
  }

  /** The decimal numeral of a number, as `${n}` writes it. */
  function NatToString(n: nat): (r: string)
    ensures |r| >= 1 && AllDigits(r)
    ensures |r| > 1 ==> r[0] != '0'
  {
    if n < 10 then [DigitChar(n)] else NatToString(n / 10) + [DigitChar(n % 10)]
  }

  /** The number a string of decimal digits denotes. */
  function DigitsValue(s: string): (v: nat)
    requires AllDigits(s)
    ensures v < Pow10(|s|)
  {
    if s == [] then 0 else 10 * DigitsValue(s[..|s| - 1]) + DigitValue(s[|s| - 1])
  }

  /** Reading back a numeral gives the number it was written from. */
  lemma {:induction false} NatToStringRoundTrip(n: nat)
    ensures DigitsValue(NatToString(n)) == n
  {
    if n >= 10 {
      NatToStringRoundTrip(n / 10);
      var s := NatToString(n);
      assert s[..|s| - 1] == NatToString(n / 10);
    }
  }

  /** Numerals of the same length denote the same number only when they are the same string. */
  lemma {:induction false} DigitsValueInjective(r: string, t: string)
    requires |r| == |t| && AllDigits(r) && AllDigits(t)
    requires DigitsValue(r) == DigitsValue(t)
    ensures r == t
  {
    if r != [] {
      var n := |r|;
      DigitsValueLast(r);
      DigitsValueLast(t);
      assert r[n - 1] == t[n - 1];
      DigitsValueInjective(r[..n - 1], t[..n - 1]);
      assert r == r[..n - 1] + [r[n - 1]];
      assert t == t[..n - 1] + [t[n - 1]];
    }
  }

  /** The last digit and the digits before it are the remainder and the quotient by ten. */
  lemma DigitsValueLast(s: string)
    requires s != [] && AllDigits(s)
    ensures DigitValue(s[|s| - 1]) == DigitsValue(s) % 10
    ensures DigitsValue(s[..|s| - 1]) == DigitsValue(s) / 10
  {
    var n := |s|;
    var q, d := DigitsValue(s[..n - 1]), DigitValue(s[n - 1]);
    assert DigitsValue(s) == 10 * q + d;
    DivUnique(10 * q + d, 10, q);
  }

  lemma AllDigitsTail(d: string)
    requires d != [] && AllDigits(d)
    ensures IsDigit(d[0]) && AllDigits(d[1..])
  {
    forall i | 0 <= i < |d| - 1 ensures IsDigit(d[1..][i]) {
      assert d[1..][i] == d[i + 1];
    }
  }

  /** `String(n).padStart(2, '0')` for a number below 100. */
  function Pad2(n: nat): (r: string)
    requires n < 100
    ensures |r| == 2 && AllDigits(r) && DigitsValue(r) == n
  {
    var r := [DigitChar(n / 10), DigitChar(n % 10)];
    assert r[..1] == [DigitChar(n / 10)] && [DigitChar(n / 10)][..0] == [];
    assert DigitsValue(r[..1]) == n / 10;
    assert DigitValue(r[1]) == n % 10;
    r
  }

  /** How many decimal digits `s` starts with. */
  function DigitRun(s: string): (k: nat)
    ensures k <= |s| && forall i :: 0 <= i < k ==> IsDigit(s[i])
    ensures k < |s| ==> !IsDigit(s[k])
  {
    if s == [] || !IsDigit(s[0]) then 0 else 1 + DigitRun(s[1..])
  }

  /** The longest prefix of `s` made of decimal digits. */
  function LeadingDigits(s: string): (r: string)
    ensures |r| <= |s| && AllDigits(r)
    ensures |r| < |s| ==> !IsDigit(s[|r|])
  {
    s[..DigitRun(s)]
  }

  lemma {:induction false} DigitRunOf(d: string, rest: string)
    requires AllDigits(d)
    requires rest == [] || !IsDigit(rest[0])
    ensures DigitRun(d + rest) == |d|
  {
    if d != [] {
      assert (d + rest)[1..] == d[1..] + rest;
      DigitRunOf(d[1..], rest);
    }
  }

  lemma LeadingDigitsOf(d: string, rest: string)
    requires AllDigits(d)
    requires rest == [] || !IsDigit(rest[0])
    ensures LeadingDigits(d + rest) == d
  {
    DigitRunOf(d, rest);
    assert (d + rest)[..|d|] == d;
  }

  function Pow10(k: nat): (r: nat)
    ensures r >= 1
  {
    if k == 0 then 1 else 10 * Pow10(k - 1)
  }

  /** The number of leading white-space characters of `s`. */
  function SpaceCount(s: string): (k: nat)
    ensures k <= |s| && forall i :: 0 <= i < k ==> IsSpace(s[i])
    ensures k < |s| ==> !IsSpace(s[k])
  {
    if s == [] || !IsSpace(s[0]) then 0 else 1 + SpaceCount(s[1..])
  }

  /** Parses the unsigned decimal at the start of `s`: digits, optionally `.` and more digits. */
  function UnsignedDecimal(s: string): Option<real>
  {
    var whole := LeadingDigits(s);
    var rest := s[|whole|..];
    var frac := if |rest| > 0 && rest[0] == '.' then LeadingDigits(rest[1..]) else "";
    if whole == "" && frac == "" then None
    else Some(DigitsValue(whole) as real + DigitsValue(frac) as real / Pow10(|frac|) as real)
  }

  /**
    `parseFloat(s)`: skips leading white space, reads an optional sign and
    the longest decimal prefix; None stands for NaN.
  */
  function ParseFloat(s: string): Option<real>
  {
    var t := s[SpaceCount(s)..];
    var negative := |t| > 0 && t[0] == '-';
    var body := if |t| > 0 && (t[0] == '-' || t[0] == '+') then t[1..] else t;
    match UnsignedDecimal(body)
    case None => None
    case Some(v) => Some(if negative then -v else v)
  }

  /** A numeral followed by a character that cannot continue a number parses back to its value. */
  lemma ParseFloatOfNumeral(n: nat, rest: string)
    requires rest == [] || (!IsDigit(rest[0]) && rest[0] != '.')
    ensures ParseFloat(NatToString(n) + rest) == Some(n as real)
  {
    var d := NatToString(n);
    var s := d + rest;
    assert !IsSpace(s[0]) && SpaceCount(s) == 0;
    assert s[0..] == s;
    assert s[0] != '-' && s[0] != '+';
    LeadingDigitsOf(d, rest);
    assert s[|d|..] == rest;
    NatToStringRoundTrip(n);
    assert UnsignedDecimal(s) == Some(n as real);
  }
}
