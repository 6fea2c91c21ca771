/**
 * Sequence helpers shared by the models: concatenating a list of lists
 * (`list.extend` in a loop), filtering rows (`WHERE`), cutting a prefix
 * (`LIMIT`) and ordering by a key (`ORDER BY`).
 */
module Seqs {

  /** The concatenation of the lists in `ss`, in order. */
  function Flatten<T>(ss: seq<seq<T>>): (r: seq<T>)
    ensures |ss| == 0 ==> r == []
    ensures |ss| == 1 ==> r == ss[0]
  {
    if |ss| == 0 then [] else ss[0] + Flatten(ss[1..])
  }

  lemma {:induction false} FlattenAppend<T>(a: seq<seq<T>>, b: seq<seq<T>>)
    ensures Flatten(a + b) == Flatten(a) + Flatten(b)
  {
    if |a| == 0 {
      assert a + b == b;
    } else {
      assert (a + b)[1..] == a[1..] + b;
      FlattenAppend(a[1..], b);
    }
  }

  /** Extending the result with one more list. */
  lemma FlattenSnoc<T>(ss: seq<seq<T>>, s: seq<T>)
    ensures Flatten(ss + [s]) == Flatten(ss) + s
  {
    FlattenAppend(ss, [s]);
  }

  /** An element is in the concatenation exactly when it is in one of the lists. */
  lemma {:induction false} FlattenMember<T>(ss: seq<seq<T>>, x: T)
    ensures x in Flatten(ss) <==> exists k :: 0 <= k < |ss| && x in ss[k]
  {
    if |ss| > 0 {
      FlattenMember(ss[1..], x);
      if x in Flatten(ss[1..]) {
        var k :| 0 <= k < |ss[1..]| && x in ss[1..][k];
        assert x in ss[k + 1];
      }
      if exists k :: 0 <= k < |ss| && x in ss[k] {
        var k :| 0 <= k < |ss| && x in ss[k];
        if k > 0 {
          assert x in ss[1..][k - 1];
        }
      }
    }
  }

  /** A slice of a suffix is a shifted slice of the whole. */
  lemma SliceOfSuffix<T>(s: seq<T>, d: nat, a: nat, b: nat)
    requires d <= |s| && a <= b <= |s| - d
    ensures s[d..][a..b] == s[a + d..b + d]
  {
    forall i | 0 <= i < b - a ensures s[d..][a..b][i] == s[a + d..b + d][i] {
      assert s[d..][a..b][i] == s[d..][a + i] == s[a + i + d];
    }
  }

  /** Appending in two steps is appending the whole. */
  lemma AppendStep<T>(start: seq<T>, earlier: seq<T>, step: seq<T>, later: seq<T>)
    requires later == earlier + step
    ensures start + earlier + step == start + later
  {
  }

  /** The rows that satisfy `keep`, in their original order. */
  function Where<T(!new)>(rows: seq<T>, keep: T -> bool): (r: seq<T>)
    ensures |r| <= |rows|
    ensures forall x :: x in r <==> x in rows && keep(x)
  {
    if |rows| == 0 then []
    else if keep(rows[0]) then [rows[0]] + Where(rows[1..], keep)
    else Where(rows[1..], keep)
  }

  /** The first `n` rows, or all of them when there are fewer. */
  function Take<T>(rows: seq<T>, n: nat): (r: seq<T>)
    ensures |r| <= n && |r| <= |rows|
    ensures |r| == n || r == rows
    ensures r == rows[..|r|]
  {
    if |rows| <= n then rows else rows[..n]
  }

  /** The keys strictly increase along the rows. */
  predicate IncreasingBy<T>(rows: seq<T>, key: T -> int)
  {
    forall i, j :: 0 <= i < j < |rows| ==> key(rows[i]) < key(rows[j])
  }

  /** Filtering keeps the order. */
  lemma {:induction false} WhereIncreasing<T(!new)>(rows: seq<T>, keep: T -> bool, key: T -> int)
    requires IncreasingBy(rows, key)
    ensures IncreasingBy(Where(rows, keep), key)
  {
    if |rows| > 0 {
      WhereIncreasing(rows[1..], keep, key);
      var rest := Where(rows[1..], keep);
      forall x | x in rest ensures key(rows[0]) < key(x) {
        var j :| 0 <= j < |rows[1..]| && rows[1..][j] == x;
        assert rows[j + 1] == x;
      }
    }
  }

  /** A prefix keeps the order. */
  lemma TakeIncreasing<T>(rows: seq<T>, n: nat, key: T -> int)
    requires IncreasingBy(rows, key)
    ensures IncreasingBy(Take(rows, n), key)
  {
  }
}
