/** The static left/right symmetry tables of the pose head and the index
    permutation they describe. */
module Symmetry {

  /** Number of joints of the extended 29-joint skeleton (24 body joints and 5 leaves). */
  const NumJoints: int := 29

  /** Number of non-root joints that carry a (cos, sin) twist pair. */
  const NumTwists: int := 23

  /** Mirror pairs among the 24 body joints; the root (0) and the spine are unpaired. */
  const JointPairs24: seq<(int, int)> :=
    [(1, 2), (4, 5), (7, 8), (10, 11), (13, 14), (16, 17), (18, 19), (20, 21), (22, 23)]

  /** Mirror pairs of the 29-joint skeleton: the 24-joint pairs plus two leaf pairs. */
  const JointPairs29: seq<(int, int)> :=
    [(1, 2), (4, 5), (7, 8), (10, 11), (13, 14), (16, 17), (18, 19), (20, 21), (22, 23), (25, 26), (27, 28)]

  /** Mirror pairs among the twist slots: twist slot k belongs to joint k + 1. */
  const TwistPairs: seq<(int, int)> :=
    [(0, 1), (3, 4), (6, 7), (9, 10), (12, 13), (15, 16), (17, 18), (19, 20), (21, 22)]

  /** The twist table is the 24-joint table lowered by one, pair by pair. */
  lemma TwistPairsLowered()
    ensures |TwistPairs| == |JointPairs24|
    ensures forall i :: 0 <= i < |JointPairs24| ==>
      TwistPairs[i] == (JointPairs24[i].0 - 1, JointPairs24[i].1 - 1)
  {
  }

  /** Joint j occurs in some pair of the table. */
  predicate Listed(pairs: seq<(int, int)>, j: int)
  {
    exists i :: 0 <= i < |pairs| && (pairs[i].0 == j || pairs[i].1 == j)
  }

  /** Every entry lies in [lo, hi). */
  predicate InRange(pairs: seq<(int, int)>, lo: int, hi: int)
  {
    forall i :: 0 <= i < |pairs| ==> lo <= pairs[i].0 < hi && lo <= pairs[i].1 < hi
  }

  /** No index occurs twice in the table: the pairs are disjoint transpositions. */
  predicate Disjoint(pairs: seq<(int, int)>)
  {
    (forall i :: 0 <= i < |pairs| ==> pairs[i].0 != pairs[i].1) &&
    (forall i, k :: 0 <= i < k < |pairs| ==>
      pairs[i].0 != pairs[k].0 && pairs[i].0 != pairs[k].1 &&
      pairs[i].1 != pairs[k].0 && pairs[i].1 != pairs[k].1)
  }

  /** A table of disjoint pairs of indices below n. */
  predicate IsPairing(pairs: seq<(int, int)>, n: int)
  {
    InRange(pairs, 0, n) && Disjoint(pairs)
  }

  /** The joint whose value lands at joint j after the table's swaps: its
      partner if j is listed, j itself otherwise. */
  function Mate(pairs: seq<(int, int)>, j: int): (r: int)
    ensures !Listed(pairs, j) ==> r == j
    ensures r == j || Listed(pairs, r)
  {
    if |pairs| == 0 then j
    else if pairs[0].0 == j then pairs[0].1
    else if pairs[0].1 == j then pairs[0].0
    else
      var r := Mate(pairs[1..], j);
      assert Listed(pairs[1..], j) ==> Listed(pairs, j) by {
        if Listed(pairs[1..], j) {
          var i :| 0 <= i < |pairs| - 1 && (pairs[1..][i].0 == j || pairs[1..][i].1 == j);
          assert pairs[i + 1] == pairs[1..][i];
        }
      }
      assert Listed(pairs[1..], r) ==> Listed(pairs, r) by {
        if Listed(pairs[1..], r) {
          var i :| 0 <= i < |pairs| - 1 && (pairs[1..][i].0 == r || pairs[1..][i].1 == r);
          assert pairs[i + 1] == pairs[1..][i];
        }
      }
      r
  }

  /** The mate of an index below n is an index below n. */
  lemma MateInRange(pairs: seq<(int, int)>, n: int, j: int)
    requires InRange(pairs, 0, n) && 0 <= j < n
    ensures 0 <= Mate(pairs, j) < n
  {
  }

  /** The two members of every listed pair are each other's mates. */
  lemma {:induction false} MateOfPair(pairs: seq<(int, int)>, i: int)
    requires Disjoint(pairs) && 0 <= i < |pairs|
    ensures Mate(pairs, pairs[i].0) == pairs[i].1
    ensures Mate(pairs, pairs[i].1) == pairs[i].0
  {
    if i > 0 {
      assert pairs[1..][i - 1] == pairs[i];
      MateOfPair(pairs[1..], i - 1);
    }
  }

  /** Mate is an involution on a table of disjoint pairs. */
  lemma MateInvolutive(pairs: seq<(int, int)>, j: int)
    requires Disjoint(pairs)
    ensures Mate(pairs, Mate(pairs, j)) == j
  {
    if Listed(pairs, j) {
      var i :| 0 <= i < |pairs| && (pairs[i].0 == j || pairs[i].1 == j);
      MateOfPair(pairs, i);
    }
  }

  /** Extending a table by one pair whose members are not yet listed swaps
      exactly those two members. */
  lemma {:induction false} MateSnoc(pairs: seq<(int, int)>, p: int, q: int, j: int)
    requires !Listed(pairs, p) && !Listed(pairs, q)
    ensures Mate(pairs + [(p, q)], j) ==
      if Listed(pairs, j) then Mate(pairs, j)
      else if j == p then q else if j == q then p else j
  {
    var ext := pairs + [(p, q)];
    if |pairs| == 0 {
    } else if pairs[0].0 == j || pairs[0].1 == j {
      assert ext[0] == pairs[0];
    } else {
      assert ext[1..] == pairs[1..] + [(p, q)];
      assert !Listed(pairs[1..], p) && !Listed(pairs[1..], q) by {
        forall i | 0 <= i < |pairs| - 1
          ensures pairs[1..][i].0 != p && pairs[1..][i].1 != p
          ensures pairs[1..][i].0 != q && pairs[1..][i].1 != q
        {
          assert pairs[1..][i] == pairs[i + 1];
        }
      }
      MateSnoc(pairs[1..], p, q, j);
      assert Listed(pairs, j) <==> Listed(pairs[1..], j) by {
        if Listed(pairs, j) {
          var i :| 0 <= i < |pairs| && (pairs[i].0 == j || pairs[i].1 == j);
          assert pairs[1..][i - 1] == pairs[i];
        }
        if Listed(pairs[1..], j) {
          var i :| 0 <= i < |pairs| - 1 && (pairs[1..][i].0 == j || pairs[1..][i].1 == j);
          assert pairs[i + 1] == pairs[1..][i];
        }
      }
    }
  }

  /** A prefix of a table leaves the members of the later pairs unlisted. */
  lemma LaterPairUnlisted(pairs: seq<(int, int)>, k: int)
    requires Disjoint(pairs) && 0 <= k < |pairs|
    ensures !Listed(pairs[..k], pairs[k].0) && !Listed(pairs[..k], pairs[k].1)
  {
    forall i | 0 <= i < k
      ensures pairs[..k][i].0 != pairs[k].0 && pairs[..k][i].1 != pairs[k].0
      ensures pairs[..k][i].0 != pairs[k].1 && pairs[..k][i].1 != pairs[k].1
    {
      assert pairs[..k][i] == pairs[i];
    }
  }

  /** Pairs listed in increasing order, each pair itself increasing. */
  predicate Ascending(pairs: seq<(int, int)>)
  {
    (forall i :: 0 <= i < |pairs| ==> pairs[i].0 < pairs[i].1) &&
    (forall i :: 0 <= i < |pairs| - 1 ==> pairs[i].1 < pairs[i + 1].0)
  }

  lemma {:induction false} AscendingGap(pairs: seq<(int, int)>, i: int, k: int)
    requires Ascending(pairs) && 0 <= i < k < |pairs|
    ensures pairs[i].1 < pairs[k].0
  {
    if i < k - 1 {
      AscendingGap(pairs, i, k - 1);
    }
  }

  /** An ascending table is a table of disjoint pairs. */
  lemma AscendingDisjoint(pairs: seq<(int, int)>)
    requires Ascending(pairs)
    ensures Disjoint(pairs)
  {
    forall i, k | 0 <= i < k < |pairs|
      ensures pairs[i].1 < pairs[k].0
    {
      AscendingGap(pairs, i, k);
    }
  }

  /** The 29-joint table pairs distinct joints below 29, each at most once. */
  lemma Pairs29IsPairing()
    ensures IsPairing(JointPairs29, NumJoints)
  {
    AscendingDisjoint(JointPairs29);
  }

  /** The 24-joint table pairs distinct joints in [1, 23] (never the root),
      each at most once. */
  lemma Pairs24IsPairing()
    ensures InRange(JointPairs24, 1, 24) && Disjoint(JointPairs24)
  {
    AscendingDisjoint(JointPairs24);
  }

  /** Lowered by one, the 24-joint table pairs distinct twist slots below 23. */
  lemma TwistPairsIsPairing()
    ensures IsPairing(TwistPairs, NumTwists)
  {
    AscendingDisjoint(TwistPairs);
  }
}
