/** Finding a row of a table, and keeping rows apart. */
module Search {
  import opened Wrappers

  /** Where a row satisfying the condition is; the last such row when there are several. */
  function FindIndex<T>(table: seq<T>, wanted: T -> bool): (r: Option<nat>)
    ensures r.Some? ==> r.value < |table| && wanted(table[r.value])
    ensures r.None? ==> forall i :: 0 <= i < |table| ==> !wanted(table[i])
  {
    if table == [] then None
    else if wanted(table[|table| - 1]) then Some(|table| - 1)
    else FindIndex(table[..|table| - 1], wanted)
  }

  ghost predicate Distinct<T>(s: seq<T>) { forall i, j :: 0 <= i < j < |s| ==> s[i] != s[j] }

  lemma Twice<T>(s: seq<T>, i: nat, j: nat)
    requires i < j < |s| && s[i] == s[j]
    ensures multiset(s)[s[i]] >= 2
  {
    assert s == s[..j] + ([s[j]] + s[j + 1..]);
    assert s[..j][i] in multiset(s[..j]);
  }

  lemma Once<T>(s: seq<T>, m: nat)
    requires m < |s| && Distinct(s)
    ensures multiset(s)[s[m]] == 1
  {
    assert s == s[..m] + ([s[m]] + s[m + 1..]);
    assert multiset(s[..m])[s[m]] == 0 && multiset(s[m + 1..])[s[m]] == 0;
  }

  /** Sequences with the same elements are free of repetition together. */
  lemma DistinctStays<T>(a: seq<T>, b: seq<T>)
    requires multiset(a) == multiset(b) && Distinct(a)
    ensures Distinct(b)
  {
    forall i, j | 0 <= i < j < |b|
      ensures b[i] != b[j]
    {
      assert b[i] in multiset(a);
      var m :| 0 <= m < |a| && a[m] == b[i];
      Once(a, m);
      if b[i] == b[j] { Twice(b, i, j); }
    }
  }
}
