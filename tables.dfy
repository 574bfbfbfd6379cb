/** Tables of the document store. A table maps document ids to records; ids are handed out
    in increasing order, so an index scan that returns documents in creation order returns
    them in ascending id order. `IdsWhere` is that scan: every query of the model that
    collects documents (`.withIndex(...).filter(...).collect()`) is an instance of it. */
module Tables {

  /** Strictly ascending ids. */
  ghost predicate Increasing(s: seq<nat>)
  {
    forall i, j :: 0 <= i < j < |s| ==> s[i] < s[j]
  }

  /** No element occurs twice. */
  ghost predicate Distinct<T>(s: seq<T>)
  {
    forall i, j :: 0 <= i < j < |s| ==> s[i] != s[j]
  }

  /** Every id of `table` is below `bound` (the table's next fresh id). */
  ghost predicate KeysBelow<R>(table: map<nat, R>, bound: nat)
  {
    forall k :: k in table ==> k < bound
  }

  /** The ids below `bound` of the records of `table` that satisfy `p`, in ascending order. */
  function IdsWhere<R>(table: map<nat, R>, p: R -> bool, bound: nat): (ids: seq<nat>)
    ensures forall i :: 0 <= i < |ids| ==> ids[i] in table && ids[i] < bound && p(table[ids[i]])
    ensures forall k :: k in table && k < bound && p(table[k]) ==> k in ids
    decreases bound
  {
    if bound == 0 then []
    else
      var prefix := IdsWhere(table, p, bound - 1);
      if bound - 1 in table && p(table[bound - 1]) then prefix + [bound - 1] else prefix
  }

  /** Membership in the scan, as a set: exactly the selected ids below `bound`. */
  lemma IdsWhereMembers<R>(table: map<nat, R>, p: R -> bool, bound: nat)
    ensures forall k :: k in IdsWhere(table, p, bound) <==> k in table && k < bound && p(table[k])
  {
    var ids := IdsWhere(table, p, bound);
    forall k | k in ids
      ensures k in table && k < bound && p(table[k])
    {
      var i :| 0 <= i < |ids| && ids[i] == k;
    }
  }

  /** A scan that selects no record below `bound` is empty. */
  lemma {:induction false} IdsWhereNone<R>(table: map<nat, R>, p: R -> bool, bound: nat)
    requires forall k :: k in table && k < bound ==> !p(table[k])
    ensures IdsWhere(table, p, bound) == []
  {
    if bound > 0 {
      IdsWhereNone(table, p, bound - 1);
    }
  }

  /** The scan depends only on which ids below `bound` are selected. */
  lemma {:induction false} IdsWhereFrame<R>(t1: map<nat, R>, p1: R -> bool, t2: map<nat, R>, p2: R -> bool, bound: nat)
    requires forall k :: k < bound ==> ((k in t1 && p1(t1[k])) <==> (k in t2 && p2(t2[k])))
    ensures IdsWhere(t1, p1, bound) == IdsWhere(t2, p2, bound)
  {
    if bound > 0 {
      IdsWhereFrame(t1, p1, t2, p2, bound - 1);
    }
  }

  /** Inserting a record under the next fresh id appends that id to every scan it satisfies
      and leaves every other scan as it was. */
  lemma IdsWhereInsert<R>(t: map<nat, R>, p: R -> bool, bound: nat, v: R)
    requires KeysBelow(t, bound)
    ensures IdsWhere(t[bound := v], p, bound + 1) == IdsWhere(t, p, bound) + (if p(v) then [bound] else [])
  {
    IdsWhereFrame(t[bound := v], p, t, p, bound);
  }

  lemma IncreasingIsDistinct(s: seq<nat>)
    requires Increasing(s)
    ensures Distinct(s)
  {
  }

  /** The scan is in strictly ascending id order, hence lists no id twice. */
  lemma {:induction false} IdsWhereIncreasing<R>(table: map<nat, R>, p: R -> bool, bound: nat)
    ensures Increasing(IdsWhere(table, p, bound)) && Distinct(IdsWhere(table, p, bound))
  {
    var ids := IdsWhere(table, p, bound);
    if bound > 0 {
      var prefix := IdsWhere(table, p, bound - 1);
      IdsWhereIncreasing(table, p, bound - 1);
      if ids != prefix {
        assert ids == prefix + [bound - 1];
        assert forall i :: 0 <= i < |prefix| ==> prefix[i] < bound - 1;
      }
    }
    IncreasingIsDistinct(ids);
  }

  /** The set of elements of a sequence. */
  ghost function Elements<T>(s: seq<T>): set<T>
  {
    set x | x in s
  }

  /** A sequence without repetitions has as many elements as the set of its elements. */
  lemma {:induction false} DistinctSize<T>(s: seq<T>)
    requires Distinct(s)
    ensures |Elements(s)| == |s|
  {
    if s != [] {
      var init := s[..|s| - 1];
      assert Distinct(init);
      DistinctSize(init);
      assert Elements(s) == Elements(init) + {s[|s| - 1]};
      assert s[|s| - 1] !in Elements(init);
    }
  }

  /** The scan returns exactly as many ids as there are selected records. */
  lemma IdsWhereCount<R>(t: map<nat, R>, p: R -> bool, bound: nat)
    ensures |IdsWhere(t, p, bound)| == |set k | k in t && k < bound && p(t[k])|
  {
    var ids := IdsWhere(t, p, bound);
    IdsWhereIncreasing(t, p, bound);
    DistinctSize(ids);
    forall x | x in ids
      ensures x in t && x < bound && p(t[x])
    {
      var i :| 0 <= i < |ids| && ids[i] == x;
    }
    assert Elements(ids) == set k | k in t && k < bound && p(t[k]);
  }

  /** With every id below `bound` and every record selected, the scan lists each record of the
      table exactly once. */
  lemma ScanAll<R>(t: map<nat, R>, p: R -> bool, bound: nat)
    requires KeysBelow(t, bound)
    requires forall k :: k in t ==> p(t[k])
    ensures |IdsWhere(t, p, bound)| == |t|
    ensures forall k :: k in IdsWhere(t, p, bound) <==> k in t
  {
    IdsWhereCount(t, p, bound);
    IdsWhereMembers(t, p, bound);
    assert (set k | k in t && k < bound && p(t[k])) == t.Keys;
  }
}
