/**
 The nodes table under concurrent edits. `NodesTable` is the service's sequential code; the state
 machine below it interleaves the statements of many callers, with the table lock that a reparent
 takes. Foreign keys and the slug indexes belong to the state: a statement that would break one aborts.
 */
module NodeForest {
  import opened Wrappers
  import opened NodeWalks
  import opened NodeReach
  import opened NodeTable

  datatype Tables = Tables(nodes: Nodes, tenants: set<TenantId>)

  function ParentsOf(nodes: Nodes): (t: Parents)
    ensures t.Keys == nodes.Keys
    ensures forall n :: n in nodes ==> t[n] == nodes[n].parent
  {
    map n | n in nodes :: nodes[n].parent
  }

  predicate Consistent(db: Tables) {
    NodeRefsExist(db.nodes, db.tenants) && SlugsUnique(db.nodes)
  }

  ghost predicate Acyclic(t: Parents) {
    forall n: NodeId, k: nat :: k >= 1 ==> Up(t, n, k) != Some(n)
  }

  ghost predicate Forest(db: Tables) {
    Consistent(db) && Acyclic(ParentsOf(db.nodes))
  }

  // --- Statements ---

  function Commit(db: Tables, attempt: Tables): Tables {
    if Consistent(attempt) then attempt else db
  }

  // `id` is generated by the database, so `row` cannot mention it: its parent is an earlier row.
  function InsertNode(db: Tables, id: NodeId, row: Row): Tables {
    if id in db.nodes || (row.parent.Some? && row.parent.value !in db.nodes) then db
    else Commit(db, db.(nodes := db.nodes[id := row]))
  }

  function UpdateNode(db: Tables, id: NodeId, row: Row): Tables {
    if id !in db.nodes then db
    else Commit(db, db.(nodes := db.nodes[id := row]))
  }

  function DeleteNode(db: Tables, id: NodeId): Tables {
    Commit(db, db.(nodes := Without(db.nodes, {id})))
  }

  // ON DELETE CASCADE from the tenant to its nodes.
  function DeleteTenant(db: Tables, tenant: TenantId): Tables {
    Commit(db, Tables(Without(db.nodes, NodesOf(db.nodes, tenant)), db.tenants - {tenant}))
  }

  // --- Why each statement keeps the forest ---

  ghost predicate FewerEdges(t: Parents, t': Parents) {
    forall n :: n in t' ==> n in t && (t'[n] == None || t'[n] == t[n])
  }

  lemma {:induction false} FewerEdgesUp(t: Parents, t': Parents, n: NodeId, k: nat)
    requires FewerEdges(t, t') && Up(t', n, k).Some?
    ensures Up(t, n, k) == Up(t', n, k)
    decreases k
  {
    if k > 0 {
      FewerEdgesUp(t, t', t'[n].value, k - 1);
    }
  }

  lemma FewerEdgesAcyclic(t: Parents, t': Parents)
    requires FewerEdges(t, t') && Acyclic(t)
    ensures Acyclic(t')
  {
    forall n: NodeId, k: nat | k >= 1 ensures Up(t', n, k) != Some(n) {
      if Up(t', n, k).Some? {
        FewerEdgesUp(t, t', n, k);
      }
    }
  }

  // As long as a chain does not pass `id`, it does not see that row's new parent.
  lemma {:induction false} SameUntil(t: Parents, t': Parents, id: NodeId, n: NodeId, k: nat)
    requires id in t && id in t' && forall x :: x != id ==> (x in t <==> x in t') && (x in t ==> t[x] == t'[x])
    requires forall j: nat :: j < k ==> Up(t', n, j) != Some(id)
    ensures Up(t', n, k) == Up(t, n, k)
    decreases k
  {
    if k > 0 {
      assert Up(t', n, 0) != Some(id);
      if n in t && t[n].Some? {
        forall j: nat | j < k - 1 ensures Up(t', t[n].value, j) != Some(id) {
          assert Up(t', n, j + 1) == Up(t', t[n].value, j);
        }
        SameUntil(t, t', id, t[n].value, k - 1);
      }
    }
  }

  lemma {:induction false} NewLeafUp(t: Parents, id: NodeId, parent: Option<NodeId>, n: NodeId, k: nat)
    requires id !in t && n != id && forall x :: x in t ==> t[x] != Some(id)
    ensures Up(t[id := parent], n, k) == Up(t, n, k)
    decreases k
  {
    if k > 0 && n in t && t[n].Some? {
      NewLeafUp(t, id, parent, t[n].value, k - 1);
    }
  }

  lemma NewLeafAcyclic(t: Parents, id: NodeId, parent: Option<NodeId>)
    requires Acyclic(t)
    requires id !in t && (forall x :: x in t ==> t[x] != Some(id)) && parent != Some(id)
    ensures Acyclic(t[id := parent])
  {
    var t' := t[id := parent];
    forall n: NodeId, k: nat | k >= 1 ensures Up(t', n, k) != Some(n) {
      if n != id {
        NewLeafUp(t, id, parent, n, k);
      } else if parent.Some? {
        NewLeafUp(t, id, parent, parent.value, k - 1);
      }
    }
  }

  // Moving a node below one that does not descend from it closes no cycle.
  lemma ReparentAcyclic(t: Parents, id: NodeId, p: NodeId)
    requires Acyclic(t) && id in t && !Reaches(t, p, id)
    ensures Acyclic(t[id := Some(p)])
  {
    var t' := t[id := Some(p)];
    assert !Reaches(t', p, id) by {
      if Reaches(t', p, id) {
        var k := Distance(t', p, id);
        SameUntil(t, t', id, p, k);
      }
    }
    forall n: NodeId, k: nat | k >= 1 ensures Up(t', n, k) != Some(n) {
      if Up(t', n, k) == Some(n) {
        if j: nat :| j < k && Up(t', n, j) == Some(id) {
          UpAdd(t', n, j, k - j);
          UpAdd(t', n, k, j);
          assert Up(t', id, k - j) == Some(n);
          UpAdd(t', id, k - j, j);
        } else {
          SameUntil(t, t', id, n, k);
        }
      }
    }
  }

  lemma InsertAcyclic(db: Tables, id: NodeId, row: Row)
    requires Forest(db) && InsertNode(db, id, row) != db
    ensures Acyclic(ParentsOf(InsertNode(db, id, row).nodes))
  {
    assert ParentsOf(db.nodes[id := row]) == ParentsOf(db.nodes)[id := row.parent];
    assert forall n :: n in db.nodes ==> db.nodes[n].parent != Some(id);
    NewLeafAcyclic(ParentsOf(db.nodes), id, row.parent);
  }

  lemma InsertKeepsForest(db: Tables, id: NodeId, row: Row)
    requires Forest(db)
    ensures Forest(InsertNode(db, id, row))
  {
    if InsertNode(db, id, row) != db {
      InsertAcyclic(db, id, row);
    }
  }

  lemma UpdateKeepsForest(db: Tables, id: NodeId, row: Row)
    requires Forest(db)
    requires id in db.nodes ==>
               || row.parent == None
               || row.parent == db.nodes[id].parent
               || !Reaches(ParentsOf(db.nodes), row.parent.value, id)
    ensures Forest(UpdateNode(db, id, row))
  {
    if UpdateNode(db, id, row) != db {
      MoveAcyclic(ParentsOf(db.nodes), id, row.parent);
      assert ParentsOf(db.nodes[id := row]) == ParentsOf(db.nodes)[id := row.parent];
    }
  }

  lemma MoveAcyclic(t: Parents, id: NodeId, parent: Option<NodeId>)
    requires Acyclic(t) && id in t
    requires parent == None || parent == t[id] || !Reaches(t, parent.value, id)
    ensures Acyclic(t[id := parent])
  {
    if parent == None || parent == t[id] {
      FewerEdgesAcyclic(t, t[id := parent]);
    } else {
      ReparentAcyclic(t, id, parent.value);
    }
  }

  lemma WithoutKeepsAcyclic(nodes: Nodes, gone: set<NodeId>)
    requires Acyclic(ParentsOf(nodes))
    ensures Acyclic(ParentsOf(Without(nodes, gone)))
  {
    FewerEdgesAcyclic(ParentsOf(nodes), ParentsOf(Without(nodes, gone)));
  }

  // No child of `id` shares its slug with another root.
  predicate LeavesDistinct(nodes: Nodes, id: NodeId) {
    forall c, r | c in nodes && r in nodes && r != id && c != id && nodes[c].parent == Some(id) && nodes[r].parent == None ::
      nodes[c].slug != nodes[r].slug
  }

  // A delete goes through unless a child it leaves behind would share its slug with a root.
  lemma DeleteGoesThrough(db: Tables, id: NodeId)
    requires Consistent(db) && id in db.nodes
    ensures DeleteNode(db, id).nodes == Without(db.nodes, {id}) <==> LeavesDistinct(db.nodes, id)
  {
    var after := Without(db.nodes, {id});
    assert id !in after;
    assert NodeRefsExist(after, db.tenants);
    if SlugsUnique(after) {
      forall c, r | c in db.nodes && r in db.nodes && r != id && c != id
                    && db.nodes[c].parent == Some(id) && db.nodes[r].parent == None
        ensures db.nodes[c].slug != db.nodes[r].slug
      {
        assert after[c].parent == None && after[r].parent == None;
      }
    }
  }

  // --- The service, one call at a time ---

  datatype NodeError = InvalidSlug | TenantNotFound | ParentNotFound | NodeNotFound | OwnParent | BelowDescendant | ConstraintViolation

  predicate IsSlugChar(c: char) { 'a' <= c <= 'z' || '0' <= c <= '9' }

  // Runs of lower-case letters and digits, separated by single hyphens or underscores.
  predicate ValidSlug(s: string) {
    && s != [] && IsSlugChar(s[0]) && IsSlugChar(s[|s| - 1])
    && (forall i | 0 <= i < |s| :: IsSlugChar(s[i]) || s[i] == '-' || s[i] == '_')
    && (forall i | 0 <= i < |s| - 1 :: IsSlugChar(s[i]) || IsSlugChar(s[i + 1]))
  }

  ghost predicate SlugRun(s: string) {
    s != [] && forall i | 0 <= i < |s| :: 97 <= s[i] as int <= 122 || 48 <= s[i] as int <= 57
  }

  // One run, or a run, a separator and more of the same.
  ghost predicate SlugText(s: string)
    decreases |s|
  {
    SlugRun(s) ||
    exists i :: 0 <= i < |s| && SlugRun(s[..i]) && (s[i] == '-' || s[i] == '_') && SlugText(s[i + 1..])
  }

  lemma {:induction false} SlugTextIsValid(s: string)
    requires SlugText(s)
    ensures ValidSlug(s)
    decreases |s|
  {
    if !SlugRun(s) {
      var i :| 0 <= i < |s| && SlugRun(s[..i]) && (s[i] == '-' || s[i] == '_') && SlugText(s[i + 1..]);
      SlugTextIsValid(s[i + 1..]);
      var rest := s[i + 1..];
      forall j | 0 <= j < |s| ensures IsSlugChar(s[j]) || s[j] == '-' || s[j] == '_' {
        if j < i {
          assert s[..i][j] == s[j];
        } else if j > i {
          assert rest[j - i - 1] == s[j];
        }
      }
      forall j | 0 <= j < |s| - 1 ensures IsSlugChar(s[j]) || IsSlugChar(s[j + 1]) {
        if j < i {
          assert s[..i][j] == s[j];
        } else if j == i {
          assert rest[0] == s[j + 1];
        } else {
          assert rest[j - i - 1] == s[j] && rest[j - i] == s[j + 1];
        }
      }
      assert s[..i][0] == s[0] && rest[|rest| - 1] == s[|s| - 1];
    }
  }

  lemma {:induction false} ValidSlugIsText(s: string)
    requires ValidSlug(s)
    ensures SlugText(s)
    decreases |s|
  {
    if !SlugRun(s) {
      var i := FirstSeparator(s, 0);
      var rest := s[i + 1..];
      assert IsSlugChar(s[i]) || IsSlugChar(s[i + 1]);
      assert rest[0] == s[i + 1] && rest[|rest| - 1] == s[|s| - 1];
      forall j | 0 <= j < |rest| - 1 ensures IsSlugChar(rest[j]) || IsSlugChar(rest[j + 1]) {
        assert rest[j] == s[i + 1 + j] && rest[j + 1] == s[i + 2 + j];
      }
      ValidSlugIsText(rest);
      assert SlugRun(s[..i]);
    }
  }

  lemma {:induction false} FirstSeparator(s: string, from: nat) returns (i: nat)
    requires ValidSlug(s) && from <= |s| && !SlugRun(s) && forall j :: 0 <= j < from ==> IsSlugChar(s[j])
    ensures 0 < i < |s| - 1 && !IsSlugChar(s[i]) && forall j :: 0 <= j < i ==> IsSlugChar(s[j])
    decreases |s| - from
  {
    if from < |s| && !IsSlugChar(s[from]) {
      i := from;
    } else {
      i := FirstSeparator(s, from + 1);
    }
  }

  // A slug is valid exactly if it is made of runs of lower-case letters and digits with single separators between.
  lemma ValidSlugMeans(s: string)
    ensures ValidSlug(s) <==> SlugText(s)
  {
    if ValidSlug(s) {
      ValidSlugIsText(s);
    } else if SlugText(s) {
      SlugTextIsValid(s);
    }
  }

  predicate SlugFits(slug: Option<string>) {
    slug.Some? ==> ValidSlug(slug.value)
  }

  // The update names a parent, and not the node itself.
  predicate Moves(parent: Option<Option<NodeId>>, id: NodeId) {
    parent.Some? && parent.value.Some? && parent.value.value != id
  }

  // Another node of the family has the slug.
  predicate SlugTaken(nodes: Nodes, id: NodeId, parent: Option<NodeId>, slug: string) {
    exists n | n in nodes && n != id :: nodes[n].parent == parent && nodes[n].slug == slug
  }

  class NodesTable {
    var db: Tables

    constructor (db: Tables)
      ensures this.db == db
    {
      this.db := db;
    }

    method Spawn(
      id: NodeId, slug: string, name: string, parent: Option<NodeId>, tenant: Option<TenantId>, metadata: NodeMetadata
    )
      returns (r: Result<NodeId, NodeError>)
      requires Forest(db) && id !in db.nodes
      modifies this
      ensures Forest(db) && db.tenants == old(db.tenants)
      ensures r.Ok? ==> db.nodes == old(db.nodes)[id := Row(parent, tenant, slug, name, metadata)] && r.value == id
      ensures r.Err? ==> db == old(db)
      ensures r == Err(InvalidSlug) <==> !ValidSlug(slug)
      ensures r == Err(TenantNotFound) <==> ValidSlug(slug) && tenant.Some? && tenant.value !in db.tenants
      ensures r == Err(ParentNotFound) <==>
              ValidSlug(slug) && (tenant.Some? ==> tenant.value in db.tenants) && parent.Some? && parent.value !in old(db.nodes)
      ensures r == Err(ConstraintViolation) <==>
              && ValidSlug(slug) && (tenant.Some? ==> tenant.value in db.tenants)
              && (parent.Some? ==> parent.value in old(db.nodes)) && SlugTaken(old(db.nodes), id, parent, slug)
    {
      if !ValidSlug(slug) {
        return Err(InvalidSlug);
      }
      if tenant.Some? && tenant.value !in db.tenants {
        return Err(TenantNotFound);
      }
      if parent.Some? && parent.value !in db.nodes {
        return Err(ParentNotFound);
      }
      InsertKeepsForest(db, id, Row(parent, tenant, slug, name, metadata));
      InsertOutcome(db, id, Row(parent, tenant, slug, name, metadata));
      var after := InsertNode(db, id, Row(parent, tenant, slug, name, metadata));
      if id !in after.nodes {
        return Err(ConstraintViolation);
      }
      db := after;
      r := Ok(id);
    }

    // `parent` is absent when the caller does not mention it, and Some(None) to make the node a root.
    method Update(
      id: NodeId, slug: Option<string>, name: Option<string>, parent: Option<Option<NodeId>>, order: seq<NodeId>
    )
      returns (r: Result<Row, NodeError>)
      requires Forest(db) && Enumerates(order, ParentsOf(db.nodes))
      modifies this
      ensures Forest(db) && db.tenants == old(db.tenants)
      ensures r.Err? ==> db == old(db)
      // What the caller mentions is set, a parent of None included; everything else stays.
      ensures r.Ok? ==>
              && id in old(db.nodes) && db.nodes == old(db.nodes)[id := r.value]
              && (slug.Some? ==> r.value.slug == slug.value) && (slug.None? ==> r.value.slug == old(db.nodes)[id].slug)
              && (name.Some? ==> r.value.name == name.value) && (name.None? ==> r.value.name == old(db.nodes)[id].name)
              && (parent.Some? ==> r.value.parent == parent.value) && (parent.None? ==> r.value.parent == old(db.nodes)[id].parent)
              && r.value.tenant == old(db.nodes)[id].tenant && r.value.metadata == old(db.nodes)[id].metadata
      ensures r == Err(InvalidSlug) <==> slug.Some? && !ValidSlug(slug.value)
      ensures r == Err(OwnParent) <==> SlugFits(slug) && parent == Some(Some(id))
      ensures r == Err(ParentNotFound) <==>
              SlugFits(slug) && Moves(parent, id) && parent.value.value !in old(db.nodes)
      ensures r == Err(BelowDescendant) <==>
              && SlugFits(slug) && Moves(parent, id) && parent.value.value in old(db.nodes)
              && Reaches(ParentsOf(old(db.nodes)), parent.value.value, id)
      ensures r == Err(NodeNotFound) <==>
              && SlugFits(slug) && id !in old(db.nodes) && parent != Some(Some(id))
              && (Moves(parent, id) ==> parent.value.value in old(db.nodes))
      ensures r == Err(ConstraintViolation) <==>
              && SlugFits(slug) && id in old(db.nodes) && parent != Some(Some(id))
              && (Moves(parent, id) ==> parent.value.value in old(db.nodes))
              && (Moves(parent, id) ==> !Reaches(ParentsOf(old(db.nodes)), parent.value.value, id))
              && (exists n :: n in old(db.nodes) && n != id
                         && (parent.Some? ==> old(db.nodes)[n].parent == parent.value)
                         && (parent.None? ==> old(db.nodes)[n].parent == old(db.nodes)[id].parent)
                         && (slug.Some? ==> old(db.nodes)[n].slug == slug.value)
                         && (slug.None? ==> old(db.nodes)[n].slug == old(db.nodes)[id].slug))
    {
      if slug.Some? && !ValidSlug(slug.value) {
        return Err(InvalidSlug);
      }
      if parent.Some? && parent.value.Some? {
        var refused := CheckTarget(id, parent.value.value, order);
        if refused.Some? {
          return Err(refused.value);
        }
      }
      if id !in db.nodes {
        return Err(NodeNotFound);
      }
      var row := Patched(db.nodes[id], slug, name, parent);
      UpdateKeepsForest(db, id, row);
      UpdateOutcome(db, id, row);
      var after := UpdateNode(db, id, row);
      if after.nodes[id] != row {
        return Err(ConstraintViolation);
      }
      db := after;
      r := Ok(row);
    }

    // What the transaction of a move does between taking the lock and writing.
    method CheckTarget(id: NodeId, p: NodeId, order: seq<NodeId>) returns (refused: Option<NodeError>)
      requires Enumerates(order, ParentsOf(db.nodes))
      ensures refused ==
              if p == id then Some(OwnParent)
              else if p !in db.nodes then Some(ParentNotFound)
              else if Reaches(ParentsOf(db.nodes), p, id) then Some(BelowDescendant)
              else None
    {
      if p == id {
        return Some(OwnParent);
      }
      if p !in db.nodes {
        return Some(ParentNotFound);
      }
      var descendants := DescendantIds(ParentsOf(db.nodes), order, id);
      DescendantsOnce(ParentsOf(db.nodes), order, id);
      refused := if p in descendants then Some(BelowDescendant) else None;
    }

    method Delete(id: NodeId) returns (r: Result<bool, NodeError>)
      requires Forest(db)
      modifies this
      ensures Forest(db) && db.tenants == old(db.tenants)
      ensures r.Err? ==> db == old(db) && r.error == ConstraintViolation
      ensures r.Err? <==> id in old(db.nodes) && !LeavesDistinct(old(db.nodes), id)
      ensures r.Ok? ==> db.nodes == Without(old(db.nodes), {id}) && r.value == (id in old(db.nodes))
    {
      var found := id in db.nodes;
      var after := DeleteNode(db, id);
      DeleteOutcome(db, id);
      if id in after.nodes {
        return Err(ConstraintViolation);
      }
      db := after;
      r := Ok(found);
    }
  }

  lemma DeleteOutcome(db: Tables, id: NodeId)
    requires Forest(db)
    ensures Forest(DeleteNode(db, id)) && DeleteNode(db, id).tenants == db.tenants
    ensures id !in DeleteNode(db, id).nodes ==> DeleteNode(db, id).nodes == Without(db.nodes, {id})
    ensures id in DeleteNode(db, id).nodes ==> DeleteNode(db, id) == db
    ensures id in DeleteNode(db, id).nodes <==> id in db.nodes && !LeavesDistinct(db.nodes, id)
  {
    WithoutKeepsAcyclic(db.nodes, {id});
    if id in db.nodes {
      DeleteGoesThrough(db, id);
    } else {
      assert Without(db.nodes, {id}) == db.nodes;
    }
  }

  // A row fits in its place exactly if no other node of the family has its slug.
  lemma FitsUnlessTaken(nodes: Nodes, id: NodeId, row: Row)
    requires SlugsUnique(nodes)
    ensures SlugsUnique(nodes[id := row]) <==> !SlugTaken(nodes, id, row.parent, row.slug)
  {
    var after := nodes[id := row];
    if n :| n in nodes && n != id && nodes[n].parent == row.parent && nodes[n].slug == row.slug {
      assert after[n].parent == after[id].parent && after[n].slug == after[id].slug;
    }
  }

  lemma PlacedConsistent(db: Tables, id: NodeId, row: Row)
    requires Consistent(db)
    requires (row.parent.Some? ==> row.parent.value in db.nodes) && (row.tenant.Some? ==> row.tenant.value in db.tenants)
    ensures Consistent(db.(nodes := db.nodes[id := row])) <==> !SlugTaken(db.nodes, id, row.parent, row.slug)
  {
    FitsUnlessTaken(db.nodes, id, row);
    assert NodeRefsExist(db.nodes[id := row], db.tenants);
  }

  lemma UpdateOutcome(db: Tables, id: NodeId, row: Row)
    requires Forest(db) && id in db.nodes && row.tenant == db.nodes[id].tenant
    requires row.parent.Some? ==> row.parent.value in db.nodes
    ensures var after := UpdateNode(db, id, row);
            && id in after.nodes && after.tenants == db.tenants
            && (after.nodes[id] == row <==> !SlugTaken(db.nodes, id, row.parent, row.slug))
            && (if after.nodes[id] == row then after.nodes == db.nodes[id := row] else after == db)
  {
    PlacedConsistent(db, id, row);
    assert row == db.nodes[id] ==> db.nodes[id := row] == db.nodes;
  }

  lemma InsertOutcome(db: Tables, id: NodeId, row: Row)
    requires Consistent(db) && id !in db.nodes
    requires (row.parent.Some? ==> row.parent.value in db.nodes) && (row.tenant.Some? ==> row.tenant.value in db.tenants)
    ensures id in InsertNode(db, id, row).nodes <==> !SlugTaken(db.nodes, id, row.parent, row.slug)
  {
    PlacedConsistent(db, id, row);
  }

  function Patched(row: Row, slug: Option<string>, name: Option<string>, parent: Option<Option<NodeId>>): Row {
    Row(
      if parent.Some? then parent.value else row.parent,
      row.tenant,
      if slug.Some? then slug.value else row.slug,
      if name.Some? then name.value else row.name,
      row.metadata
    )
  }

  // --- Many callers ---

  type Caller = nat

  datatype Phase = Idle | Locked(id: NodeId, parent: NodeId) | Checked(id: NodeId, parent: NodeId)

  datatype World = World(db: Tables, lock: Option<Caller>, phase: map<Caller, Phase>)

  function PhaseOf(s: World, c: Caller): Phase {
    if c in s.phase then s.phase[c] else Idle
  }

  datatype Event =
    | Spawn(id: NodeId, row: Row)
    | TakeLock(caller: Caller, id: NodeId, parent: NodeId)
    | CheckTarget(caller: Caller)
    | WriteParent(caller: Caller)
    | RollBack(caller: Caller)
    | Edit(id: NodeId, slug: Option<string>, name: Option<string>)
    | MakeRoot(id: NodeId)
    | Delete(id: NodeId)
    | DropTenant(tenant: TenantId)

  // SHARE ROW EXCLUSIVE shuts out other lock holders and every other writer.
  predicate MayWrite(locking: bool, s: World) {
    locking ==> s.lock == None
  }

  function Release(s: World, c: Caller): World {
    s.(lock := None, phase := s.phase[c := Idle])
  }

  // One statement. A statement that has to wait changes nothing yet. Without `locking`, the lock is not taken.
  ghost function Next(locking: bool, s: World, e: Event): World {
    match e
    case Spawn(id, row) =>
      if MayWrite(locking, s) then s.(db := InsertNode(s.db, id, row)) else s
    case TakeLock(c, id, parent) =>
      if MayWrite(locking, s) && PhaseOf(s, c) == Idle then
        s.(lock := if locking then Some(c) else None, phase := s.phase[c := Locked(id, parent)])
      else s
    case CheckTarget(c) =>
      if !PhaseOf(s, c).Locked? then s
      else
        var id, parent := s.phase[c].id, s.phase[c].parent;
        if parent == id || parent !in s.db.nodes || Reaches(ParentsOf(s.db.nodes), parent, id) then Release(s, c)
        else s.(phase := s.phase[c := Checked(id, parent)])
    case WriteParent(c) =>
      if !PhaseOf(s, c).Checked? then s
      else
        var id, parent := s.phase[c].id, s.phase[c].parent;
        if id !in s.db.nodes then Release(s, c)
        else Release(s.(db := UpdateNode(s.db, id, s.db.nodes[id].(parent := Some(parent)))), c)
    case RollBack(c) =>
      if PhaseOf(s, c).Idle? then s else Release(s, c)
    case Edit(id, slug, name) =>
      if MayWrite(locking, s) && id in s.db.nodes then
        s.(db := UpdateNode(s.db, id, Patched(s.db.nodes[id], slug, name, None)))
      else s
    case MakeRoot(id) =>
      if MayWrite(locking, s) && id in s.db.nodes then
        s.(db := UpdateNode(s.db, id, s.db.nodes[id].(parent := None)))
      else s
    case Delete(id) =>
      if MayWrite(locking, s) then s.(db := DeleteNode(s.db, id)) else s
    case DropTenant(tenant) =>
      if MayWrite(locking, s) then s.(db := DeleteTenant(s.db, tenant)) else s
  }

  // The check statement looks the target up in the subtree of `id`; that query decides Reaches.
  lemma CheckDecides(db: Tables, order: seq<NodeId>, id: NodeId, parent: NodeId)
    requires Enumerates(order, ParentsOf(db.nodes))
    ensures parent in DescendantIds(ParentsOf(db.nodes), order, id) <==> Reaches(ParentsOf(db.nodes), parent, id)
  {
    DescendantsOnce(ParentsOf(db.nodes), order, id);
  }

  // While another caller holds the lock, no statement changes the table and nobody takes the lock.
  lemma WritersWait(s: World, e: Event)
    requires s.lock.Some? && !e.CheckTarget? && !e.WriteParent? && !e.RollBack?
    ensures Next(true, s, e) == s
  {
  }

  // A move with nothing in between does what the service's update does, and gives the lock back.
  lemma MoveAlone(s: World, c: Caller, id: NodeId, parent: NodeId)
    requires Forest(s.db) && s.lock == None && PhaseOf(s, c).Idle?
    ensures var after := Next(true, Next(true, Next(true, s, TakeLock(c, id, parent)), CheckTarget(c)), WriteParent(c));
            && after.lock == None && PhaseOf(after, c).Idle? && after.db.tenants == s.db.tenants
            && (parent == id || parent !in s.db.nodes || Reaches(ParentsOf(s.db.nodes), parent, id) || id !in s.db.nodes ==>
                  after.db == s.db)
            && (parent != id && parent in s.db.nodes && !Reaches(ParentsOf(s.db.nodes), parent, id) && id in s.db.nodes ==>
                  after.db.nodes == if SlugTaken(s.db.nodes, id, Some(parent), s.db.nodes[id].slug) then s.db.nodes
                                    else s.db.nodes[id := s.db.nodes[id].(parent := Some(parent))])
  {
    if parent in s.db.nodes && id in s.db.nodes {
      UpdateOutcome(s.db, id, s.db.nodes[id].(parent := Some(parent)));
    }
  }

  // The other statements, when nobody holds the lock: an edit, a node made a root, a deletion, a new node.
  lemma EditAlone(s: World, id: NodeId, slug: Option<string>, name: Option<string>, row: Row)
    requires Forest(s.db) && s.lock == None && id in s.db.nodes
    requires row.parent == s.db.nodes[id].parent && row.tenant == s.db.nodes[id].tenant && row.metadata == s.db.nodes[id].metadata
    requires row.slug == (if slug.Some? then slug.value else s.db.nodes[id].slug)
    requires row.name == (if name.Some? then name.value else s.db.nodes[id].name)
    ensures Next(true, s, Edit(id, slug, name)).db.nodes ==
            if SlugTaken(s.db.nodes, id, row.parent, row.slug) then s.db.nodes else s.db.nodes[id := row]
  {
    EditWrites(s, id, slug, name, row);
    UpdateOutcome(s.db, id, row);
  }

  lemma EditWrites(s: World, id: NodeId, slug: Option<string>, name: Option<string>, row: Row)
    requires s.lock == None && id in s.db.nodes
    requires row.parent == s.db.nodes[id].parent && row.tenant == s.db.nodes[id].tenant && row.metadata == s.db.nodes[id].metadata
    requires row.slug == (if slug.Some? then slug.value else s.db.nodes[id].slug)
    requires row.name == (if name.Some? then name.value else s.db.nodes[id].name)
    ensures Next(true, s, Edit(id, slug, name)).db == UpdateNode(s.db, id, row)
  {
    PatchedIs(s.db.nodes[id], slug, name, row);
  }

  lemma PatchedIs(was: Row, slug: Option<string>, name: Option<string>, row: Row)
    requires row.parent == was.parent && row.tenant == was.tenant && row.metadata == was.metadata
    requires row.slug == (if slug.Some? then slug.value else was.slug)
    requires row.name == (if name.Some? then name.value else was.name)
    ensures row == Patched(was, slug, name, None)
  {
  }

  lemma MakeRootAlone(s: World, id: NodeId)
    requires Forest(s.db) && s.lock == None && id in s.db.nodes
    ensures Next(true, s, MakeRoot(id)).db.nodes ==
            if SlugTaken(s.db.nodes, id, None, s.db.nodes[id].slug) then s.db.nodes
            else s.db.nodes[id := s.db.nodes[id].(parent := None)]
  {
    UpdateOutcome(s.db, id, s.db.nodes[id].(parent := None));
  }

  lemma DeleteAlone(s: World, id: NodeId)
    requires Forest(s.db) && s.lock == None && id in s.db.nodes
    ensures id !in Next(true, s, Delete(id)).db.nodes <==> LeavesDistinct(s.db.nodes, id)
  {
    DeleteOutcome(s.db, id);
  }

  lemma SpawnAlone(s: World, id: NodeId, row: Row)
    requires Forest(s.db) && s.lock == None && id !in s.db.nodes
    requires (row.parent.Some? ==> row.parent.value in s.db.nodes) && (row.tenant.Some? ==> row.tenant.value in s.db.tenants)
    ensures Find(Next(true, s, Spawn(id, row)).db.nodes, id) ==
            if SlugTaken(s.db.nodes, id, row.parent, row.slug) then None else Some(row)
  {
    InsertOutcome(s.db, id, row);
  }

  // A caller that gives up frees the lock and leaves the table as it is.
  lemma RollBackFrees(s: World, c: Caller)
    requires !PhaseOf(s, c).Idle?
    ensures var after := Next(true, s, RollBack(c)); after.db == s.db && after.lock == None && PhaseOf(after, c).Idle?
  {
  }

  ghost function Run(locking: bool, s: World, events: seq<Event>): World
    decreases |events|
  {
    if events == [] then s else Run(locking, Next(locking, s, events[0]), events[1..])
  }

  // A caller past the lock holds it, and what its check established still holds.
  ghost predicate CallerInv(s: World, c: Caller) {
    match PhaseOf(s, c)
    case Idle => s.lock != Some(c)
    case Locked(_, _) => s.lock == Some(c)
    case Checked(id, parent) =>
      s.lock == Some(c) && parent != id && parent in s.db.nodes && !Reaches(ParentsOf(s.db.nodes), parent, id)
  }

  ghost predicate Inv(s: World) {
    Forest(s.db) && forall c: Caller :: CallerInv(s, c)
  }

  lemma NextKeepsInv(s: World, e: Event)
    requires Inv(s)
    ensures Inv(Next(true, s, e))
  {
    var s' := Next(true, s, e);
    match e {
      case Spawn(id, row) =>
        InsertKeepsForest(s.db, id, row);
      case TakeLock(c, id, parent) =>
      case CheckTarget(c) =>
        assert CallerInv(s, c);
      case WriteParent(c) =>
        assert CallerInv(s, c);
        if PhaseOf(s, c).Checked? && s.phase[c].id in s.db.nodes {
          UpdateKeepsForest(s.db, s.phase[c].id, s.db.nodes[s.phase[c].id].(parent := Some(s.phase[c].parent)));
        }
      case RollBack(c) =>
        assert CallerInv(s, c);
      case Edit(id, slug, name) =>
        if id in s.db.nodes {
          UpdateKeepsForest(s.db, id, Patched(s.db.nodes[id], slug, name, None));
        }
      case MakeRoot(id) =>
        if id in s.db.nodes {
          UpdateKeepsForest(s.db, id, s.db.nodes[id].(parent := None));
        }
      case Delete(id) =>
        WithoutKeepsAcyclic(s.db.nodes, {id});
      case DropTenant(tenant) =>
        WithoutKeepsAcyclic(s.db.nodes, NodesOf(s.db.nodes, tenant));
    }
    forall c: Caller ensures CallerInv(s', c) {
      assert CallerInv(s, c);
      if e.TakeLock? || e.CheckTarget? || e.WriteParent? || e.RollBack? {
        assert CallerInv(s, e.caller);
      }
    }
  }

  // Every interleaving keeps the parent graph acyclic and every parent reference existing.
  lemma {:induction false} ForestInEveryRun(s: World, events: seq<Event>)
    requires Inv(s)
    ensures Inv(Run(true, s, events))
    decreases |events|
  {
    if events != [] {
      NextKeepsInv(s, events[0]);
      ForestInEveryRun(Next(true, s, events[0]), events[1..]);
    }
  }

  lemma FromIdle(db: Tables, events: seq<Event>)
    requires Forest(db)
    ensures Forest(Run(true, World(db, None, map[]), events).db)
  {
    ForestInEveryRun(World(db, None, map[]), events);
  }

  // Callers 7 and 8 on a table of two nodes, without the lock.
  function Racing(p1: Option<NodeId>, p2: Option<NodeId>, seven: Phase, eight: Phase): World {
    World(Two(p1, p2), None, map[7 := seven, 8 := eight])
  }

  lemma RacingChecks()
    ensures Next(false, Racing(None, None, Idle, Idle), TakeLock(7, 1, 2)) == Racing(None, None, Locked(1, 2), Idle)
    ensures Next(false, Racing(None, None, Locked(1, 2), Idle), TakeLock(8, 2, 1))
            == Racing(None, None, Locked(1, 2), Locked(2, 1))
    ensures Next(false, Racing(None, None, Locked(1, 2), Locked(2, 1)), CheckTarget(7))
            == Racing(None, None, Checked(1, 2), Locked(2, 1))
    ensures Next(false, Racing(None, None, Checked(1, 2), Locked(2, 1)), CheckTarget(8))
            == Racing(None, None, Checked(1, 2), Checked(2, 1))
  {
    var t := ParentsOf(Two(None, None).nodes);
    assert Up(t, 1, 0) == Some(1) && Up(t, 2, 0) == Some(2);
    assert !Reaches(t, 2, 1) && !Reaches(t, 1, 2);
  }

  lemma FirstWrites()
    ensures Next(false, Racing(None, None, Checked(1, 2), Checked(2, 1)), WriteParent(7))
            == Racing(Some(2), None, Idle, Checked(2, 1))
  {
    TwoConsistent(Some(2), None);
    assert Two(None, None).nodes[1 := Row(Some(2), None, "a", "A", PLAIN)] == Two(Some(2), None).nodes;
  }

  lemma SecondWrites()
    ensures Next(false, Racing(Some(2), None, Idle, Checked(2, 1)), WriteParent(8))
            == Racing(Some(2), Some(1), Idle, Idle)
  {
    TwoConsistent(Some(2), Some(1));
    assert Two(Some(2), None).nodes[2 := Row(Some(1), None, "b", "B", PLAIN)] == Two(Some(2), Some(1)).nodes;
  }

  lemma RunStep(locking: bool, s: World, e: Event, rest: seq<Event>)
    ensures Run(locking, s, [e] + rest) == Run(locking, Next(locking, s, e), rest)
  {
    assert ([e] + rest)[1..] == rest;
  }

  lemma RacingRun() returns (events: seq<Event>)
    ensures Run(false, Racing(None, None, Idle, Idle), events) == Racing(Some(2), Some(1), Idle, Idle)
  {
    RacingChecks();
    FirstWrites();
    SecondWrites();
    var r6 := [WriteParent(8)] + [];
    var r5 := [WriteParent(7)] + r6;
    var r4 := [CheckTarget(8)] + r5;
    var r3 := [CheckTarget(7)] + r4;
    var r2 := [TakeLock(8, 2, 1)] + r3;
    events := [TakeLock(7, 1, 2)] + r2;
    RunStep(false, Racing(None, None, Idle, Idle), TakeLock(7, 1, 2), r2);
    RunStep(false, Racing(None, None, Locked(1, 2), Idle), TakeLock(8, 2, 1), r3);
    RunStep(false, Racing(None, None, Locked(1, 2), Locked(2, 1)), CheckTarget(7), r4);
    RunStep(false, Racing(None, None, Checked(1, 2), Locked(2, 1)), CheckTarget(8), r5);
    RunStep(false, Racing(None, None, Checked(1, 2), Checked(2, 1)), WriteParent(7), r6);
    RunStep(false, Racing(Some(2), None, Idle, Checked(2, 1)), WriteParent(8), []);
  }

  // Without the lock two moves that each pass their check can still close a cycle.
  lemma CycleWithoutLock()
    ensures exists s: World, events: seq<Event> ::
              Inv(s) && !Acyclic(ParentsOf(Run(false, s, events).db.nodes))
  {
    var s := Racing(None, None, Idle, Idle);
    var events := RacingRun();
    TwoConsistent(None, None);
    assert Inv(s);
    var t := ParentsOf(Two(Some(2), Some(1)).nodes);
    assert Up(t, 1, 2) == Up(t, 2, 1) == Up(t, 1, 0) == Some(1);
  }

  const PLAIN: NodeMetadata := NodeMetadata(None, None)

  function Two(p1: Option<NodeId>, p2: Option<NodeId>): Tables {
    Tables(map[1 := Row(p1, None, "a", "A", PLAIN), 2 := Row(p2, None, "b", "B", PLAIN)], {})
  }

  lemma TwoConsistent(p1: Option<NodeId>, p2: Option<NodeId>)
    requires p1.Some? ==> p1.value in {1, 2}
    requires p2.Some? ==> p2.value in {1, 2}
    ensures Consistent(Two(p1, p2))
  {
    assert Two(p1, p2).nodes[1].slug[0] != Two(p1, p2).nodes[2].slug[0];
  }
}
