/** `form_coef_mat` (parseeq.py:256-268): the element-by-molecule matrix of
    an equation, with one row per element occurring in any molecule and one
    column per molecule, in input order.  The source takes the rows in the
    iteration order of a set; here the row order is any enumeration of the
    elements without repetition, chosen by the loop and returned beside the
    matrix. */
module CoefMatrix {
  import opened Counts

  /** Every element occurring in some molecule. */
  function AllKeys(maps: seq<Counts>): set<string>
    decreases |maps|
  {
    if |maps| == 0 then {} else AllKeys(maps[..|maps| - 1]) + maps[|maps| - 1].Keys
  }

  /** The counts of element `e` across the molecules. */
  function Row(maps: seq<Counts>, e: string): seq<int>
    decreases |maps|
  {
    if |maps| == 0 then [] else Row(maps[..|maps| - 1], e) + [Get(maps[|maps| - 1], e)]
  }

  predicate NoDuplicates(s: seq<string>) {
    forall i, j :: 0 <= i < j < |s| ==> s[i] != s[j]
  }

  lemma {:induction false} AllKeysMembers(maps: seq<Counts>, e: string)
    ensures e in AllKeys(maps) <==> exists s :: 0 <= s < |maps| && e in maps[s]
    decreases |maps|
  {
    if |maps| > 0 {
      var p := maps[..|maps| - 1];
      AllKeysMembers(p, e);
      if e in AllKeys(p) {
        var s :| 0 <= s < |p| && e in p[s];
        assert maps[s] == p[s];
      }
      if exists s :: 0 <= s < |maps| && e in maps[s] {
        var s :| 0 <= s < |maps| && e in maps[s];
        if s < |p| {
          assert p[s] == maps[s];
        }
      }
    }
  }

  lemma {:induction false} RowEntries(maps: seq<Counts>, e: string)
    ensures |Row(maps, e)| == |maps|
    ensures forall s :: 0 <= s < |maps| ==> Row(maps, e)[s] == Get(maps[s], e)
    decreases |maps|
  {
    if |maps| > 0 {
      var p := maps[..|maps| - 1];
      RowEntries(p, e);
      assert forall s :: 0 <= s < |p| ==> maps[s] == p[s];
    }
  }

  /** The two loops of `form_coef_mat`: the union of the keys, then one row
      per element of it. */
  method FormCoefMat(maps: seq<Counts>) returns (elements: seq<string>, a: seq<seq<int>>)
    ensures NoDuplicates(elements)
    ensures forall e :: e in elements <==> e in AllKeys(maps)
    ensures |a| == |elements|
    ensures forall r :: 0 <= r < |a| ==> a[r] == Row(maps, elements[r])
  {
    var all: set<string> := {};
    var k := 0;
    while k < |maps|
      invariant 0 <= k <= |maps|
      invariant all == AllKeys(maps[..k])
    {
      assert maps[..k + 1][..k] == maps[..k];
      all := all + maps[k].Keys;
      k := k + 1;
    }
    assert maps[..|maps|] == maps;
    elements := [];
    a := [];
    var todo := all;
    while todo != {}
      invariant todo <= all
      invariant NoDuplicates(elements)
      invariant forall e :: e in elements <==> e in all && e !in todo
      invariant |a| == |elements|
      invariant forall r :: 0 <= r < |a| ==> a[r] == Row(maps, elements[r])
      decreases todo
    {
      var e :| e in todo;
      var row := [];
      var j := 0;
      while j < |maps|
        invariant 0 <= j <= |maps|
        invariant row == Row(maps[..j], e)
      {
        assert maps[..j + 1][..j] == maps[..j];
        row := row + [Get(maps[j], e)];
        j := j + 1;
      }
      assert maps[..|maps|] == maps;
      elements := elements + [e];
      a := a + [row];
      todo := todo - {e};
    }
  }

  /** The matrix holds exactly the counts: entry `[r][s]` is the count of
      element `r` in molecule `s`, and it is non-zero only for elements the
      molecule names. */
  lemma Entries(maps: seq<Counts>, elements: seq<string>, a: seq<seq<int>>, r: nat, s: nat)
    requires |a| == |elements|
    requires forall q :: 0 <= q < |a| ==> a[q] == Row(maps, elements[q])
    requires r < |a| && s < |maps|
    ensures |a[r]| == |maps|
    ensures a[r][s] == Get(maps[s], elements[r])
    ensures a[r][s] != 0 ==> elements[r] in maps[s]
  {
    RowEntries(maps, elements[r]);
  }

  /** `sum(x[s] * row[s])` */
  function Dot(row: seq<int>, x: seq<int>): int
    requires |row| == |x|
    decreases |row|
  {
    if |row| == 0 then 0 else Dot(row[..|row| - 1], x[..|x| - 1]) + row[|row| - 1] * x[|x| - 1]
  }

  /** How much of element `e` the molecules, taken `x[s]` times each,
      hold together. */
  function Balance(maps: seq<Counts>, x: seq<int>, e: string): int
    requires |maps| == |x|
    decreases |maps|
  {
    if |maps| == 0 then 0
    else Balance(maps[..|maps| - 1], x[..|x| - 1], e) + Get(maps[|maps| - 1], e) * x[|x| - 1]
  }

  lemma {:induction false} DotRow(maps: seq<Counts>, x: seq<int>, e: string)
    requires |maps| == |x|
    ensures |Row(maps, e)| == |x|
    ensures Dot(Row(maps, e), x) == Balance(maps, x, e)
    decreases |maps|
  {
    RowEntries(maps, e);
    if |maps| > 0 {
      var p := maps[..|maps| - 1];
      DotRow(p, x[..|x| - 1], e);
      assert Row(maps, e)[..|maps| - 1] == Row(p, e);
    }
  }

  /** An element no molecule names balances trivially. */
  lemma {:induction false} BalanceOfAbsent(maps: seq<Counts>, x: seq<int>, e: string)
    requires |maps| == |x| && e !in AllKeys(maps)
    ensures Balance(maps, x, e) == 0
    decreases |maps|
  {
    if |maps| > 0 {
      BalanceOfAbsent(maps[..|maps| - 1], x[..|x| - 1], e);
    }
  }

  /** Row `r` of the matrix, applied to `x`, is the balance of element
      `elements[r]`. */
  lemma RowBalance(maps: seq<Counts>, elements: seq<string>, a: seq<seq<int>>, x: seq<int>, r: nat)
    requires |x| == |maps| && |a| == |elements| && r < |a|
    requires forall q :: 0 <= q < |a| ==> a[q] == Row(maps, elements[q])
    ensures |a[r]| == |x| && Dot(a[r], x) == Balance(maps, x, elements[r])
  {
    DotRow(maps, x, elements[r]);
  }

  /** The matrix is what balancing means: a vector of molecule multiples is
      in its null space exactly when every element balances. */
  lemma NullSpaceIsBalance(maps: seq<Counts>, elements: seq<string>, a: seq<seq<int>>, x: seq<int>)
    requires |x| == |maps|
    requires forall e :: e in elements <==> e in AllKeys(maps)
    requires |a| == |elements|
    requires forall r :: 0 <= r < |a| ==> a[r] == Row(maps, elements[r])
    ensures forall r :: 0 <= r < |a| ==> |a[r]| == |x|
    ensures (forall r :: 0 <= r < |a| ==> Dot(a[r], x) == 0) ==> (forall e :: Balance(maps, x, e) == 0)
    ensures (forall e :: Balance(maps, x, e) == 0) ==> (forall r :: 0 <= r < |a| ==> Dot(a[r], x) == 0)
  {
    forall r | 0 <= r < |a|
      ensures |a[r]| == |x|
    {
      RowBalance(maps, elements, a, x, r);
    }
    if forall r :: 0 <= r < |a| ==> Dot(a[r], x) == 0 {
      NullIsBalanced(maps, elements, a, x);
    }
    if forall e :: Balance(maps, x, e) == 0 {
      BalancedIsNull(maps, elements, a, x);
    }
  }

  lemma NullIsBalanced(maps: seq<Counts>, elements: seq<string>, a: seq<seq<int>>, x: seq<int>)
    requires |x| == |maps|
    requires forall e :: e in elements <==> e in AllKeys(maps)
    requires |a| == |elements|
    requires forall r :: 0 <= r < |a| ==> a[r] == Row(maps, elements[r])
    requires forall r :: 0 <= r < |a| ==> |a[r]| == |x| && Dot(a[r], x) == 0
    ensures forall e :: Balance(maps, x, e) == 0
  {
    forall e
      ensures Balance(maps, x, e) == 0
    {
      if e in elements {
        var r :| 0 <= r < |elements| && elements[r] == e;
        RowBalance(maps, elements, a, x, r);
        assert Dot(a[r], x) == 0;
      } else {
        BalanceOfAbsent(maps, x, e);
      }
    }
  }

  lemma BalancedIsNull(maps: seq<Counts>, elements: seq<string>, a: seq<seq<int>>, x: seq<int>)
    requires |x| == |maps| && |a| == |elements|
    requires forall r :: 0 <= r < |a| ==> a[r] == Row(maps, elements[r])
    requires forall e :: Balance(maps, x, e) == 0
    ensures forall r :: 0 <= r < |a| ==> |a[r]| == |x| && Dot(a[r], x) == 0
  {
    forall r | 0 <= r < |a|
      ensures |a[r]| == |x| && Dot(a[r], x) == 0
    {
      RowBalance(maps, elements, a, x, r);
      assert Balance(maps, x, elements[r]) == 0;
    }
  }
}
