/**
 The recursive queries over the `nodes` table. A query keeps a working table of paths: each round
 joins the paths of the last round with the rows they lead to, skipping a row already on the path,
 until a round yields nothing. Rows are read in the order `order`, which is any enumeration of the table.
 */
module NodeWalks {
  import opened Wrappers

  type NodeId = nat
  // The parent_id column, by id. Nothing is assumed about it: it may hold cycles and dangling references.
  type Parents = map<NodeId, Option<NodeId>>
  type Path = p: seq<NodeId> | p != [] witness [0]

  predicate Distinct<T(==)>(s: seq<T>) {
    forall i, j :: 0 <= i < j < |s| ==> s[i] != s[j]
  }

  ghost predicate Enumerates(order: seq<NodeId>, t: Parents) {
    Distinct(order) && forall x :: x in order <==> x in t
  }

  // The join condition of a round: down follows n.parent_id = x.id, up follows n.id = x.parent_id.
  predicate Edge(t: Parents, down: bool, x: NodeId, y: NodeId) {
    x in t && y in t && (if down then t[y] == Some(x) else t[x] == Some(y))
  }

  function Last(p: Path): NodeId {
    p[|p| - 1]
  }

  // Whether a round turns the path p[..|p|-1] into p.
  predicate Extends(t: Parents, down: bool, p: seq<NodeId>) {
    |p| >= 2 && Edge(t, down, p[|p| - 2], p[|p| - 1]) && p[|p| - 1] !in p[..|p| - 1]
  }

  function JoinPath(t: Parents, down: bool, order: seq<NodeId>, path: Path): seq<Path> {
    if order == [] then []
    else
      (if Extends(t, down, path + [order[0]]) then [path + [order[0]]] else [])
      + JoinPath(t, down, order[1..], path)
  }

  function JoinRound(t: Parents, down: bool, order: seq<NodeId>, work: seq<Path>): seq<Path> {
    if work == [] then []
    else JoinPath(t, down, order, work[0]) + JoinRound(t, down, order, work[1..])
  }

  // What every path of a round looks like; it bounds the number of rounds.
  ghost predicate Round(t: Parents, work: seq<Path>, len: nat) {
    len >= 1 && forall i :: 0 <= i < |work| ==> RoundPath(t, work[i], len)
  }

  ghost predicate RoundPath(t: Parents, p: Path, len: nat) {
    |p| == len && Distinct(p) && forall x :: x in p ==> x in t
  }

  function Walk(t: Parents, down: bool, order: seq<NodeId>, work: seq<Path>, len: nat): seq<Path>
    requires Enumerates(order, t)
    requires Round(t, work, len)
    decreases |t| + 1 - len
  {
    if work == [] then []
    else
      RoundFits(t, work, len);
      NextRound(t, down, order, work, len);
      work + Walk(t, down, order, JoinRound(t, down, order, work), len + 1)
  }

  // --- Termination: a path without repetition is no longer than the table ---

  lemma {:induction false} DistinctFits(p: seq<NodeId>, s: set<NodeId>)
    requires Distinct(p) && forall x :: x in p ==> x in s
    ensures |p| <= |s|
  {
    if p != [] {
      var q := p[..|p| - 1];
      assert forall x :: x in q ==> x in s - {p[|p| - 1]};
      DistinctFits(q, s - {p[|p| - 1]});
    }
  }

  lemma RoundFits(t: Parents, work: seq<Path>, len: nat)
    requires Round(t, work, len) && work != []
    ensures len <= |t|
  {
    DistinctFits(work[0], t.Keys);
  }

  // --- How often each path appears ---

  // Whether one join step from `path` onto a row of `order` yields `q`.
  predicate Yields(t: Parents, down: bool, order: seq<NodeId>, path: Path, q: Path) {
    Extends(t, down, q) && q[..|q| - 1] == path && Last(q) in order
  }

  lemma {:induction false} JoinPathCount(t: Parents, down: bool, order: seq<NodeId>, path: Path, q: Path)
    requires Distinct(order)
    ensures multiset(JoinPath(t, down, order, path))[q] == if Yields(t, down, order, path, q) then 1 else 0
  {
    if order != [] {
      JoinPathCount(t, down, order[1..], path, q);
      AppendedIs(path, order[0], q);
      assert order == [order[0]] + order[1..];
      assert Last(q) in order <==> Last(q) == order[0] || Last(q) in order[1..];
      assert order[0] !in order[1..];
    }
  }

  lemma AppendedIs(path: Path, x: NodeId, q: Path)
    ensures path + [x] == q <==> q[..|q| - 1] == path && Last(q) == x
  {
    if q[..|q| - 1] == path && Last(q) == x {
      assert q == q[..|q| - 1] + [Last(q)];
    }
  }

  lemma {:induction false} JoinRoundCount(t: Parents, down: bool, order: seq<NodeId>, work: seq<Path>, q: Path)
    requires Enumerates(order, t)
    ensures multiset(JoinRound(t, down, order, work))[q] ==
            if Extends(t, down, q) then multiset(work)[q[..|q| - 1]] else 0
  {
    if work != [] {
      JoinPathCount(t, down, order, work[0], q);
      JoinRoundCount(t, down, order, work[1..], q);
      assert work == [work[0]] + work[1..];
    }
  }

  lemma NextRound(t: Parents, down: bool, order: seq<NodeId>, work: seq<Path>, len: nat)
    requires Enumerates(order, t) && Round(t, work, len)
    ensures Round(t, JoinRound(t, down, order, work), len + 1)
  {
    var next := JoinRound(t, down, order, work);
    forall i | 0 <= i < |next|
      ensures RoundPath(t, next[i], len + 1)
    {
      var p := next[i];
      JoinRoundCount(t, down, order, work, p);
      assert multiset(next)[p] > 0;
      var q: Path := p[..|p| - 1];
      assert q in work;
      var j :| 0 <= j < |work| && work[j] == q;
      assert RoundPath(t, work[j], len);
      assert p == q + [Last(p)];
    }
  }

  // A path that from position `len` on could be built round by round.
  predicate GrownFrom(t: Parents, down: bool, q: Path, len: nat) {
    forall i :: len < i <= |q| ==> GrownTo(t, down, q, i)
  }

  predicate GrownTo(t: Parents, down: bool, q: Path, i: nat)
    requires i <= |q|
  {
    Extends(t, down, q[..i])
  }

  function Expected(t: Parents, down: bool, work: seq<Path>, len: nat, q: Path): nat
    requires len >= 1
  {
    if len <= |q| && GrownFrom(t, down, q, len) then multiset(work)[q[..len]] else 0
  }

  lemma {:induction false} WalkCount(t: Parents, down: bool, order: seq<NodeId>, work: seq<Path>, len: nat, q: Path)
    requires Enumerates(order, t) && Round(t, work, len)
    ensures multiset(Walk(t, down, order, work, len))[q] == Expected(t, down, work, len, q)
    decreases |t| + 1 - len
  {
    if work == [] {
      assert Walk(t, down, order, work, len) == [];
    } else {
      var next := JoinRound(t, down, order, work);
      var total := WalkUnfolds(t, down, order, work, len, q);
      WalkCount(t, down, order, next, len + 1, q);
      assert total == multiset(work)[q] + Expected(t, down, next, len + 1, q);
      ExpectedStep(t, down, order, work, len, q);
      assert total == Expected(t, down, work, len, q);
    }
  }

  lemma ExpectedStep(t: Parents, down: bool, order: seq<NodeId>, work: seq<Path>, len: nat, q: Path)
    requires Enumerates(order, t) && Round(t, work, len)
    ensures Expected(t, down, work, len, q)
            == multiset(work)[q] + Expected(t, down, JoinRound(t, down, order, work), len + 1, q)
  {
    if |q| == len {
      assert q[..len] == q;
    } else {
      NotInRound(t, work, len, q);
      if len < |q| {
        NextCount(t, down, order, work, len, q);
      }
    }
  }

  lemma WalkUnfolds(t: Parents, down: bool, order: seq<NodeId>, work: seq<Path>, len: nat, q: Path)
    returns (total: nat)
    requires Enumerates(order, t) && Round(t, work, len) && work != []
    ensures len <= |t|
    ensures total == multiset(Walk(t, down, order, work, len))[q]
    ensures var next := JoinRound(t, down, order, work);
            && Round(t, next, len + 1)
            && total == multiset(work)[q] + multiset(Walk(t, down, order, next, len + 1))[q]
  {
    total := multiset(Walk(t, down, order, work, len))[q];
    RoundFits(t, work, len);
    NextRound(t, down, order, work, len);
  }

  lemma NotInRound(t: Parents, work: seq<Path>, len: nat, q: Path)
    requires Round(t, work, len) && |q| != len
    ensures multiset(work)[q] == 0
  {
  }

  lemma GrownStep(t: Parents, down: bool, q: Path, len: nat)
    requires len < |q|
    ensures GrownFrom(t, down, q, len) <==> GrownFrom(t, down, q, len + 1) && GrownTo(t, down, q, len + 1)
  {
  }

  lemma PrefixCount(t: Parents, down: bool, order: seq<NodeId>, work: seq<Path>, len: nat, q: Path)
    requires Enumerates(order, t) && 0 < len < |q|
    ensures multiset(JoinRound(t, down, order, work))[q[..len + 1]]
            == if GrownTo(t, down, q, len + 1) then multiset(work)[q[..len]] else 0
  {
    var p: Path := q[..len + 1];
    JoinRoundCount(t, down, order, work, p);
    assert p[..|p| - 1] == q[..len];
  }

  lemma NextCount(t: Parents, down: bool, order: seq<NodeId>, work: seq<Path>, len: nat, q: Path)
    requires Enumerates(order, t) && 0 < len < |q|
    ensures Expected(t, down, JoinRound(t, down, order, work), len + 1, q) == Expected(t, down, work, len, q)
  {
    GrownStep(t, down, q, len);
    PrefixCount(t, down, order, work, len, q);
  }

  // --- One query, and a query over many roots at once ---

  function Singletons(roots: seq<NodeId>): (work: seq<Path>)
    ensures |work| == |roots| && forall i :: 0 <= i < |roots| ==> work[i] == [roots[i]]
  {
    seq(|roots|, i requires 0 <= i < |roots| => [roots[i]])
  }

  // WHERE id IN (...): the listed rows, each once, in table order.
  function SelectIds(order: seq<NodeId>, ids: seq<NodeId>): (r: seq<NodeId>)
    requires Distinct(order)
    ensures Distinct(r) && forall x :: x in r <==> x in order && x in ids
  {
    if order == [] then []
    else
      var rest := SelectIds(order[1..], ids);
      if order[0] in ids then [order[0]] + rest else rest
  }

  function WalkMany(t: Parents, down: bool, order: seq<NodeId>, ids: seq<NodeId>): seq<Path>
    requires Enumerates(order, t)
  {
    Walk(t, down, order, Singletons(SelectIds(order, ids)), 1)
  }

  function Ends(paths: seq<Path>): (r: seq<NodeId>)
    ensures |r| == |paths| && forall i :: 0 <= i < |r| ==> r[i] == Last(paths[i])
  {
    seq(|paths|, i requires 0 <= i < |paths| => Last(paths[i]))
  }

  predicate PathFrom(t: Parents, down: bool, p: Path) {
    p[0] in t && Distinct(p) && forall i :: 0 <= i < |p| - 1 ==> Edge(t, down, p[i], p[i + 1])
  }

  lemma {:induction false} DistinctCounts<T>(s: seq<T>, x: T)
    requires Distinct(s)
    ensures multiset(s)[x] == if x in s then 1 else 0
  {
    if s != [] {
      assert s == s[..|s| - 1] + [s[|s| - 1]];
      DistinctCounts(s[..|s| - 1], x);
    }
  }

  lemma CountsDistinct<T(!new)>(s: seq<T>)
    requires forall x :: multiset(s)[x] <= 1
    ensures Distinct(s)
  {
    forall i, j | 0 <= i < j < |s| ensures s[i] != s[j] {
      assert s == s[..j] + [s[j]] + s[j + 1..];
      assert multiset(s)[s[j]] == multiset(s[..j])[s[j]] + 1 + multiset(s[j + 1..])[s[j]];
      assert s[i] in s[..j];
    }
  }

  lemma GrownIsPath(t: Parents, down: bool, p: Path)
    requires p[0] in t
    ensures GrownFrom(t, down, p, 1) <==> PathFrom(t, down, p)
  {
    if GrownFrom(t, down, p, 1) {
      forall i, j | 0 <= i < j < |p| ensures p[i] != p[j] {
        assert GrownTo(t, down, p, j + 1);
        assert p[i] in p[..j + 1][..j];
      }
      forall i | 0 <= i < |p| - 1 ensures Edge(t, down, p[i], p[i + 1]) {
        assert GrownTo(t, down, p, i + 2);
      }
    }
    if PathFrom(t, down, p) {
      forall i | 1 < i <= |p| ensures GrownTo(t, down, p, i) {
        assert Edge(t, down, p[i - 2], p[i - 2 + 1]);
      }
    }
  }

  lemma WalkManyCount(t: Parents, down: bool, order: seq<NodeId>, ids: seq<NodeId>, p: Path)
    requires Enumerates(order, t)
    ensures multiset(WalkMany(t, down, order, ids))[p] == if PathFrom(t, down, p) && p[0] in ids then 1 else 0
  {
    var roots := SelectIds(order, ids);
    var work := Singletons(roots);
    assert Round(t, work, 1);
    WalkCount(t, down, order, work, 1, p);
    assert Distinct(work);
    DistinctCounts(work, p[..1]);
    assert p[..1] == [p[0]];
    if p[0] in roots {
      var i :| 0 <= i < |roots| && roots[i] == p[0];
      assert work[i] == p[..1];
      GrownIsPath(t, down, p);
    } else {
      assert p[..1] !in work;
    }
  }

  // The rows of a walk are exactly the non-repeating paths from its roots, each once.
  lemma WalkManyPaths(t: Parents, down: bool, order: seq<NodeId>, ids: seq<NodeId>)
    requires Enumerates(order, t)
    ensures Distinct(WalkMany(t, down, order, ids))
    ensures forall p: Path :: p in WalkMany(t, down, order, ids) <==> PathFrom(t, down, p) && p[0] in ids
  {
    var w: seq<Path> := WalkMany(t, down, order, ids);
    forall p: Path
      ensures multiset(WalkMany(t, down, order, ids))[p] <= 1
      ensures p in w <==> PathFrom(t, down, p) && p[0] in ids
    {
      WalkManyCount(t, down, order, ids, p);
    }
    CountsDistinct(w);
  }
}
