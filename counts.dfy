/** Element counts: the dictionaries from element symbol to count that the
    equation parser builds, merges and scales (parseeq.py:194-225), and that
    form the coefficient matrix (parseeq.py:256-268).  Counts are integers
    here; a missing symbol reads as zero, as `dict.get(k, 0)` does. */
module Counts {

  type Counts = map<string, int>

  /** `m.get(k, 0)` */
  function Get(m: Counts, k: string): int {
    if k in m then m[k] else 0
  }

  /** Every count of `m` multiplied by `n`, keys unchanged. */
  function Scale(m: Counts, n: int): Counts {
    map k | k in m :: m[k] * n
  }

  /** `m[k] = m.get(k, 0) + d` */
  function Bump(m: Counts, k: string, d: int): Counts {
    m[k := Get(m, k) + d]
  }

  /** `for k, v in d.items(): acc[k] = acc.get(k, 0) + v` */
  function AddInto(acc: Counts, d: Counts): Counts {
    map k | k in acc.Keys + d.Keys :: Get(acc, k) + Get(d, k)
  }

  /** Every count of `m`, multiplied by `side`, is non-negative: with
      `side == 1` all counts are non-negative, with `side == -1` all are
      non-positive. */
  predicate SignedBy(m: Counts, side: int) {
    forall k :: k in m ==> m[k] * side >= 0
  }

  predicate AllNonNegative(m: Counts) {
    forall k :: k in m ==> m[k] >= 0
  }

  predicate AllNonPositive(m: Counts) {
    forall k :: k in m ==> m[k] <= 0
  }

  /** The in-place loop `for k in m: m[k] *= n`. */
  method ScaleCounts(m: Counts, n: int) returns (r: Counts)
    ensures r == Scale(m, n)
  {
    r := m;
    var todo := m.Keys;
    while todo != {}
      invariant todo <= m.Keys
      invariant r.Keys == m.Keys
      invariant forall k :: k in r ==> r[k] == if k in todo then m[k] else m[k] * n
      decreases todo
    {
      var k :| k in todo;
      r := r[k := r[k] * n];
      todo := todo - {k};
    }
  }

  /** The in-place loop `for k, v in d.items(): (acc[k] = 0 if missing)
      acc[k] += v`. */
  method AddCounts(acc: Counts, d: Counts) returns (r: Counts)
    ensures r == AddInto(acc, d)
  {
    r := acc;
    var todo := d.Keys;
    while todo != {}
      invariant todo <= d.Keys
      invariant r.Keys == acc.Keys + (d.Keys - todo)
      invariant forall k :: k in r ==> r[k] == if k in todo then Get(acc, k) else Get(acc, k) + Get(d, k)
      decreases todo
    {
      var k :| k in todo;
      if k !in r {
        r := r[k := 0];
      }
      r := r[k := r[k] + d[k]];
      todo := todo - {k};
    }
  }

  /** Reading a scaled count is scaling the read count, also for absent
      symbols. */
  lemma GetScale(m: Counts, n: int, k: string)
    ensures Get(Scale(m, n), k) == Get(m, k) * n
    ensures Scale(m, n).Keys == m.Keys
  {
  }

  /** Merging adds counts symbol by symbol and keeps every symbol of either
      side. */
  lemma GetAddInto(acc: Counts, d: Counts, k: string)
    ensures Get(AddInto(acc, d), k) == Get(acc, k) + Get(d, k)
    ensures AddInto(acc, d).Keys == acc.Keys + d.Keys
  {
  }

  /** Merging is commutative: the order in which two groups are merged does
      not change the counts. */
  lemma AddIntoCommutes(a: Counts, b: Counts)
    ensures AddInto(a, b) == AddInto(b, a)
  {
  }

  /** Merging an empty group changes nothing. */
  lemma AddIntoEmpty(a: Counts)
    ensures AddInto(a, map[]) == a
    ensures AddInto(map[], a) == a
  {
  }

  /** Scaling distributes over merging, so `(AB)2` counts as `A2B2`. */
  lemma ScaleDistributes(a: Counts, b: Counts, n: int)
    ensures Scale(AddInto(a, b), n) == AddInto(Scale(a, n), Scale(b, n))
  {
    var lhs := Scale(AddInto(a, b), n);
    var rhs := AddInto(Scale(a, n), Scale(b, n));
    assert lhs.Keys == rhs.Keys;
    forall k | k in lhs
      ensures lhs[k] == rhs[k]
    {
      GetAddInto(a, b, k);
      GetAddInto(Scale(a, n), Scale(b, n), k);
      GetScale(a, n, k);
      GetScale(b, n, k);
      assert lhs[k] == (Get(a, k) + Get(b, k)) * n;
    }
  }

  /** Bumping a symbol is merging a group that holds only that symbol. */
  lemma BumpIsAddInto(m: Counts, k: string, d: int)
    ensures Bump(m, k, d) == AddInto(m, map[k := d])
  {
  }

  /** Scaling by a non-negative count keeps the sign of a group. */
  lemma ScaleKeepsSign(m: Counts, n: int, side: int)
    requires SignedBy(m, side) && n >= 0
    ensures SignedBy(Scale(m, n), side)
  {
    forall k | k in Scale(m, n)
      ensures Scale(m, n)[k] * side >= 0
    {
      assert Scale(m, n)[k] * side == (m[k] * side) * n;
    }
  }

  /** Merging two groups of the same sign keeps that sign. */
  lemma AddIntoKeepsSign(a: Counts, b: Counts, side: int)
    requires SignedBy(a, side) && SignedBy(b, side)
    ensures SignedBy(AddInto(a, b), side)
  {
    forall k | k in AddInto(a, b)
      ensures AddInto(a, b)[k] * side >= 0
    {
      assert AddInto(a, b)[k] * side == Get(a, k) * side + Get(b, k) * side;
      assert Get(a, k) * side >= 0 && Get(b, k) * side >= 0;
    }
  }

  /** Adding `side` to a count of a group signed by `side`, with `side` one
      of `1` and `-1`, keeps the sign. */
  lemma BumpKeepsSign(m: Counts, k: string, side: int)
    requires SignedBy(m, side) && (side == 1 || side == -1)
    ensures SignedBy(Bump(m, k, side), side)
  {
  }

  /** With `side == 1` the sign condition says all counts are non-negative,
      with `side == -1` non-positive. */
  lemma SignedBySide(m: Counts, side: int)
    requires side == 1 || side == -1
    ensures side == 1 ==> (SignedBy(m, side) <==> AllNonNegative(m))
    ensures side == -1 ==> (SignedBy(m, side) <==> AllNonPositive(m))
  {
  }

  /** Negating a group keeps its symbols: only the empty group negates to
      the empty group. */
  lemma NegateKeys(m: Counts)
    ensures Scale(m, -1).Keys == m.Keys
    ensures |Scale(m, -1)| == |m|
    ensures m == map[] <==> Scale(m, -1) == map[]
  {
    assert Scale(m, -1).Keys == m.Keys;
    assert |Scale(m, -1).Keys| == |m.Keys|;
  }

  /** Negating a scaled group is scaling the negated group. */
  lemma ScaleNegated(m: Counts, n: int)
    ensures Scale(Scale(m, -1), n) == Scale(Scale(m, n), -1)
  {
    forall k | k in m
      ensures Scale(Scale(m, -1), n)[k] == Scale(Scale(m, n), -1)[k]
    {
      assert (m[k] * -1) * n == -(m[k] * n);
    }
  }

  /** Adding `-d` to a symbol of the negated group is negating the group
      with `d` added. */
  lemma BumpNegated(m: Counts, k: string, d: int)
    ensures Bump(Scale(m, -1), k, -d) == Scale(Bump(m, k, d), -1)
  {
    GetScale(m, -1, k);
  }

  /** A one-symbol group with the count negated is the negated group. */
  lemma SingletonNegated(k: string, v: int)
    ensures map[k := -v] == Scale(map[k := v], -1)
  {
  }
}
