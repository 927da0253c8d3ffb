/**
 Which validators a node stakes with: the resolver for one node, and the batched query that says for
 many nodes at once whether the resolver would find any.
 */
module Staking {
  import opened Wrappers
  import opened NodeWalks
  import opened NodeReach
  import opened Sorting

  datatype Validator = Validator(id: nat, nodeId: NodeId, accountId: string, isDefault: bool)

  datatype Resolution = Resolution(validators: seq<Validator>, sourceNodeId: NodeId)

  datatype ResolveError = NodeNotFound

  function IndexOf(ids: seq<NodeId>, x: NodeId): (i: nat)
    ensures i <= |ids|
    ensures i < |ids| <==> x in ids
    ensures i < |ids| ==> ids[i] == x
    ensures forall j :: 0 <= j < i ==> ids[j] != x
  {
    if ids == [] then 0
    else if ids[0] == x then 0
    else IndexOf(ids[1..], x) + 1
  }

  // Defaults first, then by position among the descendants.
  function OwnRank(ids: seq<NodeId>, v: Validator): int {
    IndexOf(ids, v.nodeId) + if v.isDefault then 0 else |ids| + 1
  }

  function OwnCompare(ids: seq<NodeId>, a: Validator, b: Validator): int {
    if a.isDefault != b.isDefault then (if a.isDefault then -1 else 1)
    else IndexOf(ids, a.nodeId) - IndexOf(ids, b.nodeId)
  }

  lemma RankIsCompare(ids: seq<NodeId>, a: Validator, b: Validator)
    ensures OwnRank(ids, a) <= OwnRank(ids, b) <==> OwnCompare(ids, a, b) <= 0
  {
  }

  function FirstAt(s: seq<Validator>, n: NodeId): (r: Option<Validator>)
    ensures r.Some? ==> r.value in s && r.value.nodeId == n
    ensures r.None? ==> forall v :: v in s ==> v.nodeId != n
  {
    if s == [] then None
    else if s[0].nodeId == n then Some(s[0])
    else FirstAt(s[1..], n)
  }

  // `descendants` and `ancestors` are what the two recursive queries returned for n.
  function ResolveFrom(rows: seq<Validator>, n: NodeId, descendants: seq<NodeId>, ancestors: seq<NodeId>): Resolution {
    var own := Filter((v: Validator) => v.nodeId in descendants, rows);
    if own != [] then
      var ordered := SortBy((v: Validator) => OwnRank(descendants, v), own);
      SortKeeps((v: Validator) => OwnRank(descendants, v), own);
      Resolution(ordered, if FirstAt(ordered, n).Some? then n else ordered[0].nodeId)
    else
      var above := Filter((v: Validator) => v.nodeId in ancestors, rows);
      if above == [] then Resolution([], n)
      else
        var ordered := SortBy((v: Validator) => IndexOf(ancestors, v.nodeId), above);
        SortKeeps((v: Validator) => IndexOf(ancestors, v.nodeId), above);
        Resolution(ordered, ordered[0].nodeId)
  }

  // Any order the subtree query may list the descendants in.
  ghost predicate Lists(ids: seq<NodeId>, t: Parents, n: NodeId) {
    Distinct(ids) && forall m :: m in ids <==> Reaches(t, m, n)
  }

  function ResolveForStaking(
    t: Parents, order: seq<NodeId>, rows: seq<Validator>, n: NodeId, descendants: seq<NodeId>
  ): Result<Resolution, ResolveError>
    requires Enumerates(order, t)
  {
    if n !in t then Err(NodeNotFound)
    else Ok(ResolveFrom(rows, n, descendants, AncestorIds(t, order, n)))
  }

  // --- What the resolver returns ---

  ghost predicate BelowOrAt(t: Parents, n: NodeId, v: Validator) { Reaches(t, v.nodeId, n) }
  ghost predicate AboveOrAt(t: Parents, n: NodeId, v: Validator) { Reaches(t, n, v.nodeId) }

  // x does not come after y.
  ghost predicate NotAfter(ids: seq<NodeId>, x: NodeId, y: NodeId) {
    exists a, b :: 0 <= a <= b < |ids| && ids[a] == x && ids[b] == y
  }

  // The default validators first, and each kind in the order of the nodes.
  ghost predicate DefaultsFirst(ids: seq<NodeId>, vs: seq<Validator>) {
    forall i, j :: 0 <= i < j < |vs| ==>
      && (vs[j].isDefault ==> vs[i].isDefault)
      && (vs[i].isDefault == vs[j].isDefault ==> NotAfter(ids, vs[i].nodeId, vs[j].nodeId))
  }

  lemma RanksDefaultsFirst(ids: seq<NodeId>, vs: seq<Validator>)
    requires forall v :: v in vs ==> v.nodeId in ids
    requires forall i, j :: 0 <= i < j < |vs| ==> OwnCompare(ids, vs[i], vs[j]) <= 0
    ensures DefaultsFirst(ids, vs)
  {
    forall i, j | 0 <= i < j < |vs|
      ensures vs[j].isDefault ==> vs[i].isDefault
      ensures vs[i].isDefault == vs[j].isDefault ==> NotAfter(ids, vs[i].nodeId, vs[j].nodeId)
    {
      assert OwnCompare(ids, vs[i], vs[j]) <= 0 && vs[i] in vs && vs[j] in vs;
      var a, b := IndexOf(ids, vs[i].nodeId), IndexOf(ids, vs[j].nodeId);
      assert ids[a] == vs[i].nodeId && ids[b] == vs[j].nodeId;
    }
  }

  // If the subtree has validators, exactly those, the default ones first; the source is the node itself when it bears one.
  lemma ResolvesToSubtree(
    t: Parents, order: seq<NodeId>, rows: seq<Validator>, n: NodeId, descendants: seq<NodeId>
  )
    requires Enumerates(order, t) && n in t && Lists(descendants, t, n)
    requires exists v :: v in rows && BelowOrAt(t, n, v)
    ensures var r := ResolveForStaking(t, order, rows, n, descendants);
            && r.Ok? && r.value.validators != []
            && (forall v :: multiset(r.value.validators)[v] == if BelowOrAt(t, n, v) then multiset(rows)[v] else 0)
            && (forall i, j :: 0 <= i < j < |r.value.validators| ==>
                  OwnCompare(descendants, r.value.validators[i], r.value.validators[j]) <= 0)
            && DefaultsFirst(descendants, r.value.validators)
            && (if exists v :: v in rows && v.nodeId == n then r.value.sourceNodeId == n
                else r.value.sourceNodeId == r.value.validators[0].nodeId)
  {
    var keep := (v: Validator) => v.nodeId in descendants;
    var rank := (v: Validator) => OwnRank(descendants, v);
    var own := Filter(keep, rows);
    var w :| w in rows && BelowOrAt(t, n, w);
    assert w in own;
    var ordered := SortBy(rank, own);
    SortSorts(rank, own);
    SortKeeps(rank, own);
    forall v ensures multiset(ordered)[v] == if BelowOrAt(t, n, v) then multiset(rows)[v] else 0 {
      FilterCount(keep, rows, v);
    }
    forall i, j | 0 <= i < j < |ordered| ensures OwnCompare(descendants, ordered[i], ordered[j]) <= 0 {
      assert rank(ordered[i]) <= rank(ordered[j]);
      RankIsCompare(descendants, ordered[i], ordered[j]);
    }
    assert Up(t, n, 0) == Some(n);
    assert n in descendants;
    RanksDefaultsFirst(descendants, ordered);
  }

  ghost predicate NearestFirst(t: Parents, n: NodeId, vs: seq<Validator>) {
    && (forall v :: v in vs ==> AboveOrAt(t, n, v))
    && forall i, j :: 0 <= i < j < |vs| ==> Nearer(t, n, vs[i], vs[j])
  }

  ghost predicate Nearer(t: Parents, n: NodeId, v: Validator, w: Validator) {
    AboveOrAt(t, n, v) && AboveOrAt(t, n, w) && Distance(t, n, v.nodeId) <= Distance(t, n, w.nodeId)
  }

  lemma AncestorValidators(t: Parents, order: seq<NodeId>, rows: seq<Validator>, n: NodeId)
    returns (above: seq<Validator>, ordered: seq<Validator>)
    requires Enumerates(order, t)
    ensures above == Filter((v: Validator) => v.nodeId in AncestorIds(t, order, n), rows)
    ensures ordered == SortBy((v: Validator) => IndexOf(AncestorIds(t, order, n), v.nodeId), above)
    ensures |above| == |ordered|
    ensures forall v :: multiset(ordered)[v] == if AboveOrAt(t, n, v) then multiset(rows)[v] else 0
    ensures NearestFirst(t, n, ordered)
  {
    var ancestors := AncestorIds(t, order, n);
    AncestorsOnce(t, order, n);
    var keep := (v: Validator) => v.nodeId in AncestorIds(t, order, n);
    var rank := (v: Validator) => IndexOf(AncestorIds(t, order, n), v.nodeId);
    above := Filter(keep, rows);
    ordered := SortBy(rank, above);
    SortSorts(rank, above);
    SortKeeps(rank, above);
    forall v ensures multiset(ordered)[v] == if AboveOrAt(t, n, v) then multiset(rows)[v] else 0 {
      FilterCount(keep, rows, v);
    }
    forall i, j | 0 <= i < j < |ordered| ensures Nearer(t, n, ordered[i], ordered[j]) {
      assert ordered[i] in ordered && ordered[j] in ordered;
      assert rank(ordered[i]) <= rank(ordered[j]);
      NearerFirst(t, order, n, ordered[i].nodeId, ordered[j].nodeId);
    }
  }

  // Otherwise all validators of the ancestors, nearest first, the nearest validator-bearing ancestor being the source.
  lemma ResolvesToAncestors(
    t: Parents, order: seq<NodeId>, rows: seq<Validator>, n: NodeId, descendants: seq<NodeId>
  )
    requires Enumerates(order, t) && n in t && Lists(descendants, t, n)
    requires forall v :: v in rows ==> !BelowOrAt(t, n, v)
    ensures var r := ResolveForStaking(t, order, rows, n, descendants);
            && r.Ok?
            && (forall v :: multiset(r.value.validators)[v] == if AboveOrAt(t, n, v) then multiset(rows)[v] else 0)
            && NearestFirst(t, n, r.value.validators)
            && (r.value.validators == [] ==> r.value.sourceNodeId == n)
            && (r.value.validators != [] ==> NearestSource(t, rows, n, r.value.sourceNodeId))
  {
    var above, ordered := AncestorValidators(t, order, rows, n);
    var own := Filter((v: Validator) => v.nodeId in descendants, rows);
    assert own == [] by {
      if own != [] {
        assert own[0] in own;
        assert BelowOrAt(t, n, own[0]);
      }
    }
    if ordered != [] {
      FirstIsNearest(t, rows, n, ordered);
    }
  }

  // s bears a validator, is an ancestor of n or n itself, and no such node is nearer.
  ghost predicate NearestSource(t: Parents, rows: seq<Validator>, n: NodeId, s: NodeId) {
    && Reaches(t, n, s)
    && (exists v :: v in rows && v.nodeId == s)
    && (forall v :: v in rows && AboveOrAt(t, n, v) ==> Distance(t, n, s) <= Distance(t, n, v.nodeId))
  }

  lemma FirstIsNearest(t: Parents, rows: seq<Validator>, n: NodeId, ordered: seq<Validator>)
    requires ordered != [] && NearestFirst(t, n, ordered)
    requires forall v :: multiset(ordered)[v] == if AboveOrAt(t, n, v) then multiset(rows)[v] else 0
    ensures NearestSource(t, rows, n, ordered[0].nodeId)
  {
    assert ordered[0] in ordered;
    assert multiset(ordered)[ordered[0]] > 0;
    assert multiset(rows)[ordered[0]] > 0;
    forall v | v in rows && AboveOrAt(t, n, v)
      ensures Distance(t, n, ordered[0].nodeId) <= Distance(t, n, v.nodeId)
    {
      assert multiset(ordered)[v] > 0;
      var j :| 0 <= j < |ordered| && ordered[j] == v;
      if j > 0 {
        assert Nearer(t, n, ordered[0], ordered[j]);
      }
    }
  }

  lemma FartherLater(t: Parents, order: seq<NodeId>, n: NodeId, i: nat, j: nat)
    requires Enumerates(order, t) && i <= j < |AncestorIds(t, order, n)|
    ensures var ids := AncestorIds(t, order, n);
            Reaches(t, n, ids[i]) && Reaches(t, n, ids[j]) && Distance(t, n, ids[i]) <= Distance(t, n, ids[j])
  {
    if i < j {
      AncestorsByDistance(t, order, n, i, j);
    } else {
      AncestorsOnce(t, order, n);
      assert AncestorIds(t, order, n)[i] in AncestorIds(t, order, n);
    }
  }

  lemma NearerFirst(t: Parents, order: seq<NodeId>, n: NodeId, a: NodeId, b: NodeId)
    requires Enumerates(order, t) && Reaches(t, n, a) && Reaches(t, n, b)
    requires IndexOf(AncestorIds(t, order, n), a) <= IndexOf(AncestorIds(t, order, n), b)
    ensures Distance(t, n, a) <= Distance(t, n, b)
  {
    var ids := AncestorIds(t, order, n);
    assert a in ids && b in ids by {
      AncestorsOnce(t, order, n);
    }
    FartherLater(t, order, n, IndexOf(ids, a), IndexOf(ids, b));
  }

  // --- The batched query ---

  // (root, id) pairs of a walk over many roots; the root is where a path starts.
  function Pairs(paths: seq<Path>): set<(NodeId, NodeId)> {
    set i | 0 <= i < |paths| :: (paths[i][0], Last(paths[i]))
  }

  function StakeableNodeIds(t: Parents, order: seq<NodeId>, rows: seq<Validator>, ids: seq<NodeId>): set<NodeId>
    requires Enumerates(order, t)
  {
    if ids == [] then {}
    else
      var related := Pairs(WalkMany(t, true, order, ids)) + Pairs(WalkMany(t, false, order, ids));
      set r, i | r in related && 0 <= i < |rows| && rows[i].nodeId == r.1 :: r.0
  }

  lemma PairsMean(t: Parents, down: bool, order: seq<NodeId>, ids: seq<NodeId>, r: NodeId, m: NodeId)
    requires Enumerates(order, t)
    ensures (r, m) in Pairs(WalkMany(t, down, order, ids))
            <==> r in ids && if down then Reaches(t, m, r) else Reaches(t, r, m)
  {
    WalkManyPaths(t, down, order, ids);
    EndpointsReach(t, down, r, m);
    var w := WalkMany(t, down, order, ids);
    if (r, m) in Pairs(w) {
      var i :| 0 <= i < |w| && (w[i][0], Last(w[i])) == (r, m);
      assert w[i] in w;
    }
    if p: Path :| r in ids && PathFrom(t, down, p) && p[0] == r && Last(p) == m {
      assert p in w;
      var i :| 0 <= i < |w| && w[i] == p;
      assert (w[i][0], Last(w[i])) == (r, m);
    }
  }

  lemma StakeableMeans(t: Parents, order: seq<NodeId>, rows: seq<Validator>, ids: seq<NodeId>, n: NodeId)
    requires Enumerates(order, t)
    ensures n in StakeableNodeIds(t, order, rows, ids)
            <==> n in ids && exists v :: v in rows && (BelowOrAt(t, n, v) || AboveOrAt(t, n, v))
  {
    forall m: NodeId
      ensures (n, m) in Pairs(WalkMany(t, true, order, ids)) <==> n in ids && Reaches(t, m, n)
      ensures (n, m) in Pairs(WalkMany(t, false, order, ids)) <==> n in ids && Reaches(t, n, m)
    {
      PairsMean(t, true, order, ids, n, m);
      PairsMean(t, false, order, ids, n, m);
    }
    var related := Pairs(WalkMany(t, true, order, ids)) + Pairs(WalkMany(t, false, order, ids));
    if n in ids && exists v :: v in rows && (BelowOrAt(t, n, v) || AboveOrAt(t, n, v)) {
      var v :| v in rows && (BelowOrAt(t, n, v) || AboveOrAt(t, n, v));
      var i :| 0 <= i < |rows| && rows[i] == v;
      var r := (n, v.nodeId);
      assert r in related && rows[i].nodeId == r.1 && r.0 == n;
      assert ids != [];
    }
    if n in StakeableNodeIds(t, order, rows, ids) {
      var r, i :| r in related && 0 <= i < |rows| && rows[i].nodeId == r.1 && r.0 == n;
      assert r == (n, rows[i].nodeId);
      assert rows[i] in rows;
    }
  }

  // The batch answers for every listed id what the resolver answers for that id alone.
  lemma BatchAgreesWithResolver(
    t: Parents, order: seq<NodeId>, rows: seq<Validator>, ids: seq<NodeId>, n: NodeId, descendants: seq<NodeId>
  )
    requires Enumerates(order, t) && n in ids
    requires n in t ==> Lists(descendants, t, n)
    ensures n in StakeableNodeIds(t, order, rows, ids) <==>
            var r := ResolveForStaking(t, order, rows, n, descendants);
            r.Ok? && r.value.validators != []
  {
    StakeableMeans(t, order, rows, ids, n);
    if n !in t {
      assert forall k: nat, m :: Up(t, n, k) == None && (Up(t, m, k).Some? ==> Up(t, m, k).value in t);
    } else if exists v :: v in rows && BelowOrAt(t, n, v) {
      ResolvesToSubtree(t, order, rows, n, descendants);
    } else {
      ResolvesToAncestors(t, order, rows, n, descendants);
      var found := ResolveForStaking(t, order, rows, n, descendants).value.validators;
      if found != [] {
        assert multiset(found)[found[0]] > 0;
        assert AboveOrAt(t, n, found[0]) && multiset(rows)[found[0]] > 0;
      }
      if v :| v in rows && AboveOrAt(t, n, v) {
        assert multiset(found)[v] > 0;
      }
    }
  }

  lemma OnlyListedAreStakeable(t: Parents, order: seq<NodeId>, rows: seq<Validator>, ids: seq<NodeId>)
    requires Enumerates(order, t)
    ensures forall n :: n in StakeableNodeIds(t, order, rows, ids) ==> n in ids && n in t
  {
    forall n | n in StakeableNodeIds(t, order, rows, ids) ensures n in ids && n in t {
      StakeableMeans(t, order, rows, ids, n);
      var v :| v in rows && (BelowOrAt(t, n, v) || AboveOrAt(t, n, v));
      if AboveOrAt(t, n, v) {
        var k: nat :| Up(t, n, k) == Some(v.nodeId);
      } else {
        var k: nat :| Up(t, v.nodeId, k) == Some(n);
      }
    }
  }
}
