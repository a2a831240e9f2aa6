/** What a reordering of a list keeps: pairs of entries, and with them the
    uniqueness of tags. */
module Reordering {
  import opened Points

  lemma {:induction false} Twice<T>(s: seq<T>, p: T)
    ensures multiset(s)[p] >= 2 <==> exists i, j :: 0 <= i < j < |s| && s[i] == s[j] == p
    ensures multiset(s)[p] >= 1 <==> p in s
  {
    if s == [] {
    } else {
      var init := s[..|s| - 1];
      Twice(init, p);
      assert s == init + [s[|s| - 1]];
      if i, j :| 0 <= i < j < |s| && s[i] == s[j] == p {
        assert init[i] == p;
      }
    }
  }

  /** Two places of t hold what some two places of s hold. */
  lemma PairUnderReordering<T>(s: seq<T>, t: seq<T>, i: nat, j: nat)
    requires multiset(s) == multiset(t) && i < |t| && j < |t| && i != j
    ensures exists a, b :: 0 <= a < |s| && 0 <= b < |s| && a != b && s[a] == t[i] && s[b] == t[j]
  {
    Twice(t, t[i]);
    Twice(s, t[i]);
    assert t[i] in multiset(s) && t[j] in multiset(s) by {
      assert t[i] in multiset(t) && t[j] in multiset(t);
    }
    if t[i] == t[j] {
      var lo, hi := if i < j then i else j, if i < j then j else i;
      assert t[lo] == t[hi] == t[i];
      var a, b :| 0 <= a < b < |s| && s[a] == s[b] == t[i];
    } else {
      var a :| 0 <= a < |s| && s[a] == t[i];
      var b :| 0 <= b < |s| && s[b] == t[j];
    }
  }

  /** Tags stay unique under reordering. */
  lemma UniqueUnderReordering(s: seq<Point>, t: seq<Point>)
    requires UniqueTags(s) && multiset(s) == multiset(t)
    ensures UniqueTags(t) && |s| == |t|
  {
    assert |multiset(s)| == |multiset(t)|;
    forall i, j | 0 <= i < j < |t| ensures t[i].tag != t[j].tag {
      PairUnderReordering(s, t, i, j);
      var a, b :| 0 <= a < |s| && 0 <= b < |s| && a != b && s[a] == t[i] && s[b] == t[j];
      assert s[if a < b then a else b].tag != s[if a < b then b else a].tag;
    }
  }
}
