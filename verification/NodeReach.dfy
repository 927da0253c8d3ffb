/**
 What the recursive queries mean: an independent definition of "ancestor" by following the parent
 column k times, and the proof that both queries list exactly the nodes related that way.
 */
module NodeReach {
  import opened Wrappers
  import opened NodeWalks

  // The k-fold parent of m, as long as every row on the way exists.
  function Up(t: Parents, m: NodeId, k: nat): (r: Option<NodeId>)
    ensures r.Some? ==> r.value in t
    decreases k
  {
    if m !in t then None
    else if k == 0 then Some(m)
    else match t[m]
      case None => None
      case Some(p) => Up(t, p, k - 1)
  }

  // n is m itself or an ancestor of m. The chain may pass through a cycle.
  ghost predicate Reaches(t: Parents, m: NodeId, n: NodeId) {
    exists k: nat :: Up(t, m, k) == Some(n)
  }

  ghost predicate IsDistance(t: Parents, m: NodeId, n: NodeId, k: nat) {
    Up(t, m, k) == Some(n) && forall j: nat :: j < k ==> Up(t, m, j) != Some(n)
  }

  // The number of parents between m and n, the shortest way around when there is a cycle.
  ghost function Distance(t: Parents, m: NodeId, n: NodeId): (k: nat)
    requires Reaches(t, m, n)
    ensures IsDistance(t, m, n, k)
  {
    DistanceExists(t, m, n);
    var k: nat :| IsDistance(t, m, n, k);
    k
  }

  lemma DistanceExists(t: Parents, m: NodeId, n: NodeId)
    requires Reaches(t, m, n)
    ensures exists k: nat :: IsDistance(t, m, n, k)
  {
    var k: nat :| Up(t, m, k) == Some(n);
    var j := 0;
    while Up(t, m, j) != Some(n)
      invariant j <= k
      invariant forall i: nat :: i < j ==> Up(t, m, i) != Some(n)
      decreases k - j
    {
      j := j + 1;
    }
    assert IsDistance(t, m, n, j);
  }

  lemma {:induction false} UpAdd(t: Parents, m: NodeId, i: nat, j: nat)
    requires Up(t, m, i).Some?
    ensures Up(t, m, i + j) == Up(t, Up(t, m, i).value, j)
    decreases i
  {
    if i > 0 {
      UpAdd(t, t[m].value, i - 1, j);
    }
  }

  lemma {:induction false} UpPrefix(t: Parents, m: NodeId, i: nat, k: nat)
    requires i <= k && Up(t, m, k).Some?
    ensures Up(t, m, i).Some?
    decreases i
  {
    if i > 0 {
      UpPrefix(t, t[m].value, i - 1, k - 1);
    }
  }

  lemma UpStep(t: Parents, m: NodeId, k: nat)
    ensures Up(t, m, k + 1) ==
            if Up(t, m, k).Some? && t[Up(t, m, k).value].Some? && t[Up(t, m, k).value].value in t
            then t[Up(t, m, k).value] else None
  {
    if Up(t, m, k).Some? {
      UpAdd(t, m, k, 1);
    } else if Up(t, m, k + 1).Some? {
      UpPrefix(t, m, k, k + 1);
    }
  }

  // --- Paths and chains ---

  lemma {:induction false} UpPathIsChain(t: Parents, p: Path, i: nat)
    requires PathFrom(t, false, p) && i < |p|
    ensures Up(t, p[0], i) == Some(p[i])
  {
    if i > 0 {
      UpPathIsChain(t, p, i - 1);
      assert Edge(t, false, p[i - 1], p[i - 1 + 1]);
      UpStep(t, p[0], i - 1);
    }
  }

  lemma UpPathDistance(t: Parents, p: Path)
    requires PathFrom(t, false, p)
    ensures Reaches(t, p[0], Last(p)) && Distance(t, p[0], Last(p)) == |p| - 1
  {
    UpPathIsChain(t, p, |p| - 1);
    forall j: nat | j < |p| - 1 ensures Up(t, p[0], j) != Some(Last(p)) {
      UpPathIsChain(t, p, j);
    }
  }

  lemma UpPathUnique(t: Parents, p: Path, q: Path)
    requires PathFrom(t, false, p) && PathFrom(t, false, q)
    requires p[0] == q[0] && Last(p) == Last(q)
    ensures p == q
  {
    UpPathDistance(t, p);
    UpPathDistance(t, q);
    forall i | 0 <= i < |p| ensures p[i] == q[i] {
      UpPathIsChain(t, p, i);
      UpPathIsChain(t, q, i);
    }
  }

  function Chain(t: Parents, m: NodeId, k: nat): (p: Path)
    requires Up(t, m, k).Some?
    ensures |p| == k + 1 && forall i :: 0 <= i <= k ==> Up(t, m, i) == Some(p[i])
  {
    if k == 0 then [m]
    else
      UpPrefix(t, m, k - 1, k);
      Chain(t, m, k - 1) + [Up(t, m, k).value]
  }

  lemma ChainIsUpPath(t: Parents, m: NodeId, n: NodeId)
    requires Reaches(t, m, n)
    ensures var p := Chain(t, m, Distance(t, m, n));
            PathFrom(t, false, p) && p[0] == m && Last(p) == n
  {
    var k := Distance(t, m, n);
    var p := Chain(t, m, k);
    forall i, j | 0 <= i < j < |p| ensures p[i] != p[j] {
      if p[i] == p[j] {
        UpAdd(t, m, i, k - j);
        UpAdd(t, m, j, k - j);
      }
    }
    forall i | 0 <= i < |p| - 1 ensures Edge(t, false, p[i], p[i + 1]) {
      UpStep(t, m, i);
    }
  }

  function Reversed(p: Path): (r: Path)
    ensures |r| == |p| && forall i :: 0 <= i < |p| ==> r[i] == p[|p| - 1 - i]
  {
    var r := seq(|p|, i requires 0 <= i < |p| => p[|p| - 1 - i]);
    assert |r| == |p|;
    r
  }

  lemma ReversedPath(t: Parents, down: bool, p: Path)
    requires PathFrom(t, down, p)
    ensures PathFrom(t, !down, Reversed(p))
  {
    var r := Reversed(p);
    if |p| > 1 {
      assert Edge(t, down, p[|p| - 2], p[|p| - 2 + 1]);
    }
    forall i | 0 <= i < |r| - 1 ensures Edge(t, !down, r[i], r[i + 1]) {
      var j := |p| - 2 - i;
      assert Edge(t, down, p[j], p[j + 1]);
    }
  }

  lemma DownPathUnique(t: Parents, p: Path, q: Path)
    requires PathFrom(t, true, p) && PathFrom(t, true, q)
    requires p[0] == q[0] && Last(p) == Last(q)
    ensures p == q
  {
    ReversedPath(t, true, p);
    ReversedPath(t, true, q);
    UpPathUnique(t, Reversed(p), Reversed(q));
    forall i | 0 <= i < |p| ensures p[i] == q[i] {
      assert p[i] == Reversed(p)[|p| - 1 - i] == Reversed(q)[|p| - 1 - i];
    }
  }

  // --- The two queries ---

  function DescendantIds(t: Parents, order: seq<NodeId>, n: NodeId): seq<NodeId>
    requires Enumerates(order, t)
  {
    Ends(WalkMany(t, true, order, [n]))
  }

  function AncestorIds(t: Parents, order: seq<NodeId>, n: NodeId): seq<NodeId>
    requires Enumerates(order, t)
  {
    Ends(WalkMany(t, false, order, [n]))
  }

  lemma EndpointsReach(t: Parents, down: bool, root: NodeId, m: NodeId)
    ensures (exists p: Path :: PathFrom(t, down, p) && p[0] == root && Last(p) == m)
            <==> if down then Reaches(t, m, root) else Reaches(t, root, m)
  {
    if p: Path :| PathFrom(t, down, p) && p[0] == root && Last(p) == m {
      if down {
        ReversedPath(t, true, p);
        UpPathDistance(t, Reversed(p));
      } else {
        UpPathDistance(t, p);
      }
    }
    if down && Reaches(t, m, root) {
      ChainIsUpPath(t, m, root);
      var p := Chain(t, m, Distance(t, m, root));
      ReversedPath(t, false, p);
      assert Reversed(p)[0] == root && Last(Reversed(p)) == m;
    }
    if !down && Reaches(t, root, m) {
      ChainIsUpPath(t, root, m);
    }
  }

  lemma QueryLists(t: Parents, down: bool, order: seq<NodeId>, n: NodeId)
    requires Enumerates(order, t)
    ensures var ids := Ends(WalkMany(t, down, order, [n]));
            && Distinct(ids)
            && forall m :: m in ids <==> if down then Reaches(t, m, n) else Reaches(t, n, m)
  {
    WalkManyPaths(t, down, order, [n]);
    var w := WalkMany(t, down, order, [n]);
    var ids := Ends(w);
    forall i, j | 0 <= i < j < |ids| ensures ids[i] != ids[j] {
      assert w[i] in w && w[j] in w;
      if ids[i] == ids[j] {
        if down {
          DownPathUnique(t, w[i], w[j]);
        } else {
          UpPathUnique(t, w[i], w[j]);
        }
      }
    }
    forall m ensures m in ids <==> if down then Reaches(t, m, n) else Reaches(t, n, m) {
      EndpointsReach(t, down, n, m);
      if m in ids {
        var i :| 0 <= i < |ids| && ids[i] == m;
        assert w[i] in w;
      }
      if p: Path :| PathFrom(t, down, p) && p[0] == n && Last(p) == m {
        var i :| 0 <= i < |w| && w[i] == p;
        assert ids[i] == m;
      }
    }
  }

  // Every reachable node exactly once, on any parent map, cyclic or not.
  lemma DescendantsOnce(t: Parents, order: seq<NodeId>, n: NodeId)
    requires Enumerates(order, t)
    ensures Distinct(DescendantIds(t, order, n))
    ensures forall m :: m in DescendantIds(t, order, n) <==> Reaches(t, m, n)
  {
    QueryLists(t, true, order, n);
  }

  lemma AncestorsOnce(t: Parents, order: seq<NodeId>, n: NodeId)
    requires Enumerates(order, t)
    ensures Distinct(AncestorIds(t, order, n))
    ensures forall m :: m in AncestorIds(t, order, n) <==> Reaches(t, n, m)
  {
    QueryLists(t, false, order, n);
  }

  lemma WalksAreDual(t: Parents, order: seq<NodeId>, m: NodeId, n: NodeId)
    requires Enumerates(order, t)
    ensures m in DescendantIds(t, order, n) <==> n in AncestorIds(t, order, m)
  {
    DescendantsOnce(t, order, n);
    AncestorsOnce(t, order, m);
  }

  // --- ORDER BY depth ---

  ghost predicate ByLength(w: seq<Path>, len: nat) {
    (forall i :: 0 <= i < |w| ==> len <= |w[i]|)
    && forall i, j :: 0 <= i < j < |w| ==> |w[i]| <= |w[j]|
  }

  lemma {:induction false} WalkByLength(t: Parents, down: bool, order: seq<NodeId>, work: seq<Path>, len: nat)
    requires Enumerates(order, t) && Round(t, work, len)
    ensures ByLength(Walk(t, down, order, work, len), len)
    decreases |t| + 1 - len
  {
    forall i | 0 <= i < |work| ensures |work[i]| == len {
      assert RoundPath(t, work[i], len);
    }
    if work != [] {
      RoundFits(t, work, len);
      NextRound(t, down, order, work, len);
      var next := JoinRound(t, down, order, work);
      WalkByLength(t, down, order, next, len + 1);
      LongerAfter(work, Walk(t, down, order, next, len + 1), len);
    }
  }

  lemma LongerAfter(work: seq<Path>, rest: seq<Path>, len: nat)
    requires (forall i :: 0 <= i < |work| ==> |work[i]| == len) && ByLength(rest, len + 1)
    ensures ByLength(work + rest, len)
  {
  }

  // The ancestors come nearest first.
  lemma AncestorsByDistance(t: Parents, order: seq<NodeId>, n: NodeId, i: nat, j: nat)
    requires Enumerates(order, t)
    requires i < j < |AncestorIds(t, order, n)|
    ensures var ids := AncestorIds(t, order, n);
            Reaches(t, n, ids[i]) && Reaches(t, n, ids[j]) && Distance(t, n, ids[i]) < Distance(t, n, ids[j])
  {
    var w := WalkMany(t, false, order, [n]);
    WalkManyPaths(t, false, order, [n]);
    WalkByLength(t, false, order, Singletons(SelectIds(order, [n])), 1);
    AncestorsOnce(t, order, n);
    assert w[i] in w && w[j] in w;
    UpPathDistance(t, w[i]);
    UpPathDistance(t, w[j]);
  }

  // A subtree read with ORDER BY depth comes from the root outwards.
  lemma DescendantsByDistance(t: Parents, order: seq<NodeId>, n: NodeId, i: nat, j: nat)
    requires Enumerates(order, t)
    requires i < j < |DescendantIds(t, order, n)|
    ensures var ids := DescendantIds(t, order, n);
            Reaches(t, ids[i], n) && Reaches(t, ids[j], n) && Distance(t, ids[i], n) <= Distance(t, ids[j], n)
  {
    var w := WalkMany(t, true, order, [n]);
    WalkManyPaths(t, true, order, [n]);
    WalkByLength(t, true, order, Singletons(SelectIds(order, [n])), 1);
    DescendantsOnce(t, order, n);
    assert w[i] in w && w[j] in w;
    ReversedPath(t, true, w[i]);
    ReversedPath(t, true, w[j]);
    UpPathDistance(t, Reversed(w[i]));
    UpPathDistance(t, Reversed(w[j]));
  }
}
