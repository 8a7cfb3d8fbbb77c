/**
  Column sorting shared by the employee table and the report preview:
  the JavaScript `<` ordering on cell values, the sort-configuration
  toggle both tables use on a header click, and the in-place sort
  (`Array.prototype.sort` with a comparator returning -1, 1 or 0).
*/
module Sorting {

  /** A cell as the comparator sees it: a string, or a date compared by its time value. */
  datatype SortValue = Text(s: string) | Time(t: int)

  datatype Direction = Asc | Desc

  /**
    `a < b` on strings: lexicographic order on characters, a proper prefix
    first. The characters are Unicode scalar values, where JavaScript
    compares UTF-16 code units; the orders agree unless a character above
    U+FFFF meets one from U+E000 to U+FFFF.
  */
  predicate StrLt(a: string, b: string)
  {
    b != [] && (a == [] || a[0] < b[0] || (a[0] == b[0] && StrLt(a[1..], b[1..])))
  }

  lemma {:induction false} StrLtIrreflexive(a: string)
    ensures !StrLt(a, a)
  {
    if a != [] { StrLtIrreflexive(a[1..]); }
  }

  lemma {:induction false} StrLtTransitive(a: string, b: string, c: string)
    requires StrLt(a, b) && StrLt(b, c)
    ensures StrLt(a, c)
  {
    if a != [] && a[0] == b[0] && b[0] == c[0] {
      StrLtTransitive(a[1..], b[1..], c[1..]);
    }
  }

  lemma {:induction false} StrLtTotal(a: string, b: string)
    ensures a == b || StrLt(a, b) || StrLt(b, a)
  {
    if a != [] && b != [] && a[0] == b[0] {
      StrLtTotal(a[1..], b[1..]);
      if a[1..] == b[1..] {
        assert a == [a[0]] + a[1..] && b == [b[0]] + b[1..];
      }
    }
  }

  /**
    `x < y` as the comparator evaluates it. A column holds values of one
    kind only; the mixed cases just complete the order.
  */
  predicate Lt(x: SortValue, y: SortValue)
  {
    match (x, y)
    case (Text(a), Text(b)) => StrLt(a, b)
    case (Time(a), Time(b)) => a < b
    case (Time(_), Text(_)) => true
    case (Text(_), Time(_)) => false
  }

  /** The comparator puts `x` strictly before `y` under direction `d`. */
  predicate Before(x: SortValue, y: SortValue, d: Direction)
  {
    if d == Asc then Lt(x, y) else Lt(y, x)
  }

  lemma BeforeAsymmetric(x: SortValue, y: SortValue, d: Direction)
    requires Before(x, y, d)
    ensures !Before(y, x, d)
  {
    if x.Text? && y.Text? {
      if StrLt(x.s, y.s) && StrLt(y.s, x.s) {
        StrLtTransitive(x.s, y.s, x.s);
        StrLtIrreflexive(x.s);
      }
    }
  }

  /** "Not strictly before" is transitive: the comparator is a total preorder. */
  lemma NotBeforeTransitive(x: SortValue, y: SortValue, z: SortValue, d: Direction)
    requires !Before(x, y, d) && !Before(y, z, d)
    ensures !Before(x, z, d)
  {
    if x.Text? && y.Text? && z.Text? {
      StrLtTotal(x.s, y.s);
      StrLtTotal(y.s, z.s);
      if d == Asc && StrLt(x.s, z.s) && z.s != y.s {
        StrLtTransitive(x.s, z.s, y.s);
      }
      if d == Desc && StrLt(z.s, x.s) && x.s != y.s {
        StrLtTransitive(z.s, x.s, y.s);
      }
    }
  }

  /** No element of `s` is put strictly before an element to its left. */
  ghost predicate SortedBy<T>(s: seq<T>, key: T -> SortValue, d: Direction)
  {
    forall i, j :: 0 <= i < j < |s| ==> !Before(key(s[j]), key(s[i]), d)
  }

  /** The table's sort config: the column and the direction. */
  datatype SortConfig<K> = SortConfig(key: K, direction: Direction)

  /**
    A click on a column header: a second click on the column already sorted
    ascending turns it to descending; any other click sorts ascending.
  */
  function Toggle<K(==)>(c: SortConfig<K>, k: K): (r: SortConfig<K>)
    ensures r.key == k
    ensures r.direction == Desc <==> (c.key == k && c.direction == Asc)
  {
    SortConfig(k, if c.key == k && c.direction == Asc then Desc else Asc)
  }

  /** Clicking the same column again always flips the direction. */
  lemma ToggleAlternates<K>(c: SortConfig<K>, k: K)
    ensures Toggle(Toggle(c, k), k).direction != Toggle(c, k).direction
    ensures Toggle(Toggle(c, k), k).key == k
  {
  }

  /** Insertion sort by adjacent swaps: sorted by `key` under `d`, and a permutation. */
  method SortInPlace<T>(a: array<T>, key: T -> SortValue, d: Direction)
    modifies a
    ensures SortedBy(a[..], key, d)
    ensures multiset(a[..]) == multiset(old(a[..]))
  {
    if a.Length == 0 { return; }
    var i := 1;
    while i < a.Length
      invariant 1 <= i <= a.Length
      invariant forall p, q :: 0 <= p < q < i ==> !Before(key(a[q]), key(a[p]), d)
      invariant multiset(a[..]) == multiset(old(a[..]))
    {
      InsertLast(a, i, key, d);
      i := i + 1;
    }
  }

  /** One pass of insertion sort: `a[i]` moves left past every element it is strictly before. */
  method InsertLast<T>(a: array<T>, i: int, key: T -> SortValue, d: Direction)
    requires 1 <= i < a.Length
    requires forall p, q :: 0 <= p < q < i ==> !Before(key(a[q]), key(a[p]), d)
    modifies a
    ensures forall p, q :: 0 <= p < q <= i ==> !Before(key(a[q]), key(a[p]), d)
    ensures multiset(a[..]) == multiset(old(a[..]))
  {
    var j := i;
    while j > 0 && Before(key(a[j]), key(a[j - 1]), d)
      invariant 0 <= j <= i
      invariant forall p, q :: 0 <= p < q <= i && p != j && q != j ==> !Before(key(a[q]), key(a[p]), d)
      invariant forall q :: j < q <= i ==> !Before(key(a[q]), key(a[j]), d)
      invariant multiset(a[..]) == multiset(old(a[..]))
    {
      BeforeAsymmetric(key(a[j]), key(a[j - 1]), d);
      SwapWithLeft(a, j);
      j := j - 1;
    }
    forall p | 0 <= p < j
      ensures !Before(key(a[j]), key(a[p]), d)
    {
      if p < j - 1 {
        NotBeforeTransitive(key(a[j]), key(a[j - 1]), key(a[p]), d);
      }
    }
  }

  /** Exchanges `a[j]` with its left neighbour. */
  method SwapWithLeft<T>(a: array<T>, j: int)
    requires 0 < j < a.Length
    modifies a
    ensures a[j - 1] == old(a[j]) && a[j] == old(a[j - 1])
    ensures forall k :: 0 <= k < a.Length && k != j - 1 && k != j ==> a[k] == old(a[k])
    ensures multiset(a[..]) == multiset(old(a[..]))
  {
    a[j - 1], a[j] := a[j], a[j - 1];
  }

  /** `[...rows].sort(cmp)`: a sorted permutation of `s`. */
  method SortedCopy<T>(s: seq<T>, key: T -> SortValue, d: Direction) returns (r: seq<T>)
    ensures SortedBy(r, key, d)
    ensures multiset(r) == multiset(s)
  {
    if |s| == 0 { return []; }
    var a := new T[|s|](i requires 0 <= i < |s| => s[i]);
    assert a[..] == s;
    SortInPlace(a, key, d);
    r := a[..];
  }
}
