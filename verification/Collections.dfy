/** Duplicate-free lists, row counts and "ORDER BY id LIMIT n", as the SQL statements use them. */
module Collections {

  ghost predicate NoDup<T>(s: seq<T>) {
    forall i, j :: 0 <= i < j < |s| ==> s[i] != s[j]
  }

  function Elems<T>(s: seq<T>): set<T> {
    set x | x in s
  }

  /** A statement that touches each listed row at most once reports a row count equal to the length
      of the list exactly when the list has no duplicates and every listed row was touched. */
  lemma RowCount<T>(ids: seq<T>, matched: set<T>)
    requires matched <= Elems(ids)
    ensures |matched| <= |ids|
    ensures |matched| == |ids| <==> matched == Elems(ids) && NoDup(ids)
  {
    ElemsCard(ids);
    SubsetCard(matched, Elems(ids));
  }

  lemma SubsetCard<T>(a: set<T>, b: set<T>)
    requires a <= b
    ensures |a| <= |b|
    ensures |a| == |b| <==> a == b
  {
    assert b == a + (b - a);
  }

  lemma {:induction false} ElemsCard<T>(s: seq<T>)
    ensures |Elems(s)| <= |s|
    ensures |Elems(s)| == |s| <==> NoDup(s)
  {
    if s != [] {
      var init, last := s[..|s| - 1], s[|s| - 1];
      ElemsCard(init);
      assert s == init + [last];
      assert Elems(s) == Elems(init) + {last};
      if last in init {
        assert Elems(s) == Elems(init);
        var k :| 0 <= k < |init| && init[k] == last;
        assert s[k] == s[|s| - 1];
      } else {
        assert NoDup(s) <==> NoDup(init) by {
          assert forall i :: 0 <= i < |init| ==> s[i] == init[i] && init[i] != last;
        }
      }
    }
  }

  // ---------------------------------------------------------------- ORDER BY id LIMIT n

  /** `chosen` is what ORDER BY id LIMIT n keeps of `candidates`. */
  ghost predicate IsFirst(chosen: set<int>, candidates: set<int>, n: nat) {
    && chosen <= candidates
    && |chosen| <= n
    && (|chosen| < n ==> chosen == candidates)
    && (forall x, y :: x in chosen && y in candidates && y !in chosen ==> x < y)
  }

  lemma MinExists(s: set<int>) returns (m: int)
    requires s != {}
    ensures m in s && forall x :: x in s ==> m <= x
  {
    if forall x :: x !in s { assert false; }
    m :| m in s;
    var rest := s - {m};
    if rest != {} {
      var k := MinExists(rest);
      assert s == rest + {m};
      if k < m { m := k; }
    } else {
      assert s == {m};
    }
  }

  function Min(s: set<int>): (m: int)
    requires s != {}
    ensures m in s && forall x :: x in s ==> m <= x
  {
    assert exists m :: m in s && forall x :: x in s ==> m <= x by { var m := MinExists(s); }
    var m :| m in s && forall x :: x in s ==> m <= x;
    m
  }

  function First(candidates: set<int>, n: nat): (chosen: set<int>)
    ensures IsFirst(chosen, candidates, n)
    decreases n
  {
    if n == 0 || candidates == {} then {}
    else
      var m := Min(candidates);
      var rest := First(candidates - {m}, n - 1);
      assert {m} + rest - {m} == rest;
      {m} + rest
  }
}
