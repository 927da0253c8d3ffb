/**
 Tenants, nodes, validators and domain bindings as a node proposal creates and releases them.
 `TenantsService` runs each transaction alone; `NodeProposalRuns` interleaves them.
 */
module NodeProposals {
  import opened Wrappers
  import opened NodeTable

  type Id = nat

  datatype Tenant = Tenant(accountId: string, orgId: Option<string>, ownerKind: string, deleted: bool)

  datatype Validator = Validator(node: Id, accountId: string, isDefault: bool)

  datatype Binding = Binding(tenant: Id, hostname: string, primary: bool)

  datatype Tables = Tables(
    tenants: map<Id, Tenant>, nodes: Nodes, validators: map<Id, Validator>, bindings: map<Id, Binding>)

  // An empty proposal id is no proposal id.
  datatype Input = Input(
    kind: Kind, name: string, slug: string, parent: Option<Id>, orgId: string, accountId: string, hostname: string,
    pool: Option<string>, proposalId: string)

  datatype Failure = Conflict | NotFound | BadRequest

  // --- Foreign keys and unique indexes ---

  predicate AllRefsExist(db: Tables) {
    && NodeRefsExist(db.nodes, db.tenants.Keys)
    && (forall v | v in db.validators :: db.validators[v].node in db.nodes)
    && (forall b | b in db.bindings :: db.bindings[b].tenant in db.tenants)
  }

  predicate AccountsUnique(tenants: map<Id, Tenant>) {
    forall s, t | s in tenants && t in tenants && s != t :: tenants[s].accountId != tenants[t].accountId
  }

  predicate OneDefault(validators: map<Id, Validator>) {
    forall v, w | v in validators && w in validators && v != w && validators[v].isDefault && validators[w].isDefault ::
      validators[v].node != validators[w].node
  }

  predicate BindingsUnique(bindings: map<Id, Binding>) {
    forall b, c | b in bindings && c in bindings && b != c ::
      && bindings[b].hostname != bindings[c].hostname
      && !(bindings[b].primary && bindings[c].primary && bindings[b].tenant == bindings[c].tenant)
  }

  predicate Valid(db: Tables) {
    && AllRefsExist(db)
    && AccountsUnique(db.tenants) && SlugsUnique(db.nodes) && OneDefault(db.validators)
    && BindingsUnique(db.bindings)
  }

  // A node may have more validators and a tenant more bindings, as long as one is the default and one the primary.
  lemma OthersAllowed(db: Tables, v: Id, validator: Validator, b: Id, binding: Binding)
    requires Valid(db) && v !in db.validators && validator.node in db.nodes && b !in db.bindings && binding.tenant in db.tenants
    requires !validator.isDefault && !binding.primary && forall c :: c in db.bindings ==> db.bindings[c].hostname != binding.hostname
    ensures Valid(db.(validators := db.validators[v := validator], bindings := db.bindings[b := binding]))
  {
  }

  // --- Finding the proposal's node ---

  predicate Carries(db: Tables, n: Id, proposalId: string) {
    n in db.nodes && db.nodes[n].metadata.proposal == Some(proposalId) && db.nodes[n].tenant.Some?
  }

  predicate OwnedByDao(db: Tables, n: Id, input: Input) {
    && n in db.nodes && db.nodes[n].tenant.Some? && db.nodes[n].tenant.value in db.tenants
    && var tenant := db.tenants[db.nodes[n].tenant.value];
       tenant.accountId == input.accountId && tenant.orgId == Some(input.orgId) && tenant.ownerKind == "dao" &&
       !tenant.deleted
  }

  // The nodes onto which an application may resume. The database picks any of them.
  predicate Resumable(db: Tables, n: Id, input: Input) {
    && input.proposalId != ""
    && (Carries(db, n, input.proposalId) ||
        ((forall m | m in db.nodes :: !Carries(db, m, input.proposalId)) && OwnedByDao(db, n, input)))
  }

  // --- Applying ---

  function Checks(db: Tables, input: Input): Result<(), Failure> {
    if exists t | t in db.tenants :: db.tenants[t].accountId == input.accountId then Err(Conflict)
    else if exists n | n in db.nodes :: db.nodes[n].slug == input.slug then Err(Conflict)
    else if exists b | b in db.bindings :: db.bindings[b].hostname == input.hostname then Err(Conflict)
    else if input.parent.Some? && input.parent.value !in db.nodes then Err(NotFound)
    else
      var parentKind := if input.parent.Some? then db.nodes[input.parent.value].metadata.kind else None;
      if || (input.kind.Country? && input.parent.None?)
         || (input.kind.State? && parentKind == Some(Country))
         || (input.kind.City? && (input.parent.None? || parentKind == Some(Country) || parentKind == Some(State)))
      then Ok(()) else Err(BadRequest)
  }

  datatype Ids = Ids(tenant: Id, node: Id, validator: Id, binding: Id)

  predicate Fresh(db: Tables, ids: Ids) {
    ids.tenant !in db.tenants && ids.node !in db.nodes && ids.validator !in db.validators && ids.binding !in db.bindings
  }

  function NewNode(input: Input, tenant: Id): Row {
    Row(input.parent, Some(tenant), input.slug, input.name,
        NodeMetadata(Some(input.kind), if input.proposalId == "" then None else Some(input.proposalId)))
  }

  // The four inserts.
  function Inserted(db: Tables, input: Input, ids: Ids): Tables {
    Tables(
      db.tenants[ids.tenant := Tenant(input.accountId, Some(input.orgId), "dao", false)],
      db.nodes[ids.node := NewNode(input, ids.tenant)],
      if input.pool.Some? then db.validators[ids.validator := Validator(ids.node, input.pool.value, true)]
      else db.validators,
      db.bindings[ids.binding := Binding(ids.tenant, input.hostname, true)])
  }

  // The node and its tenant, as the application asks for them.
  ghost predicate IsNodeOf(after: Tables, n: Id, input: Input) {
    && n in after.nodes
    && var node := after.nodes[n];
       && node.slug == input.slug && node.name == input.name && node.parent == input.parent
       && node.metadata.kind == Some(input.kind)
       && (input.proposalId != "" ==> node.metadata.proposal == Some(input.proposalId))
       && (input.proposalId == "" ==> node.metadata.proposal == None)
       && node.tenant.Some? && node.tenant.value in after.tenants
       && var tenant := after.tenants[node.tenant.value];
          tenant.accountId == input.accountId && tenant.orgId == Some(input.orgId) && tenant.ownerKind == "dao" &&
          !tenant.deleted
  }

  // One primary binding of its host name, and no other.
  ghost predicate IsBoundTo(after: Tables, tenant: Id, hostname: string) {
    exists b :: b in after.bindings && after.bindings[b].tenant == tenant && after.bindings[b].primary &&
           after.bindings[b].hostname == hostname &&
           forall c :: c in after.bindings && after.bindings[c].tenant == tenant ==> c == b
  }

  // One validator, the default one, if a pool is given, and none otherwise.
  ghost predicate IsValidatedBy(after: Tables, n: Id, pool: Option<string>) {
    match pool
    case None => forall v :: v in after.validators ==> after.validators[v].node != n
    case Some(account) =>
      exists v :: v in after.validators && after.validators[v].node == n && after.validators[v].isDefault &&
             after.validators[v].accountId == account &&
             forall w :: w in after.validators && after.validators[w].node == n ==> w == v
  }

  // Nothing but the new rows has changed.
  ghost predicate OtherRowsStay(before: Tables, after: Tables, n: Id)
    requires n in after.nodes && after.nodes[n].tenant.Some?
  {
    var tenant := after.nodes[n].tenant.value;
    && n !in before.nodes && after.nodes - {n} == before.nodes
    && tenant !in before.tenants && after.tenants - {tenant} == before.tenants
    && (forall b :: b in before.bindings ==> b in after.bindings && after.bindings[b] == before.bindings[b])
    && (forall b :: b in after.bindings && b !in before.bindings ==> after.bindings[b].tenant == tenant)
    && (forall v :: v in before.validators ==> v in after.validators && after.validators[v] == before.validators[v])
    && (forall v :: v in after.validators && v !in before.validators ==> after.validators[v].node == n)
  }

  // The rows that an apply leaves.
  lemma InsertedRows(db: Tables, input: Input, ids: Ids)
    requires AllRefsExist(db) && Fresh(db, ids)
    ensures var after := Inserted(db, input, ids);
            && IsNodeOf(after, ids.node, input) && OtherRowsStay(db, after, ids.node)
            && IsBoundTo(after, after.nodes[ids.node].tenant.value, input.hostname)
            && IsValidatedBy(after, ids.node, input.pool)
  {
    var after := Inserted(db, input, ids);
    assert after.nodes[ids.node].tenant == Some(ids.tenant);
    assert after.bindings[ids.binding].hostname == input.hostname;
    assert input.pool.Some? ==> after.validators[ids.validator].accountId == input.pool.value;
    assert after.nodes - {ids.node} == db.nodes && after.tenants - {ids.tenant} == db.tenants;
  }

  // What the unique indexes and the foreign key let an apply insert.
  predicate Unclaimed(db: Tables, input: Input) {
    && (forall t | t in db.tenants :: db.tenants[t].accountId != input.accountId)
    && (forall n | n in db.nodes :: !(db.nodes[n].parent == input.parent && db.nodes[n].slug == input.slug))
    && (forall b | b in db.bindings :: db.bindings[b].hostname != input.hostname)
    && (input.parent.Some? ==> input.parent.value in db.nodes)
  }

  lemma UnclaimedUnique(db: Tables, input: Input, ids: Ids)
    requires Valid(db) && Fresh(db, ids) && Unclaimed(db, input)
    ensures var after := Inserted(db, input, ids);
            AccountsUnique(after.tenants) && SlugsUnique(after.nodes) && BindingsUnique(after.bindings)
  {
  }

  lemma UnclaimedRefs(db: Tables, input: Input, ids: Ids)
    requires Valid(db) && Fresh(db, ids) && Unclaimed(db, input)
    ensures AllRefsExist(Inserted(db, input, ids)) && OneDefault(Inserted(db, input, ids).validators)
  {
  }

  lemma UnclaimedFits(db: Tables, input: Input, ids: Ids)
    requires Valid(db) && Fresh(db, ids) && Unclaimed(db, input)
    ensures Valid(Inserted(db, input, ids))
  {
    UnclaimedRefs(db, input, ids);
    UnclaimedUnique(db, input, ids);
  }

  // Checks that pass make the inserts safe.
  lemma InsertsFit(db: Tables, input: Input, ids: Ids)
    requires Valid(db) && Fresh(db, ids) && Checks(db, input).Ok?
    ensures Valid(Inserted(db, input, ids))
  {
    UnclaimedFits(db, input, ids);
  }

  // --- Releasing ---

  // The tenant with its nodes, their validators and its bindings; children that stay lose their parent.
  function Cascaded(db: Tables, tenant: Id): Tables {
    var gone := NodesOf(db.nodes, tenant);
    Tables(
      db.tenants - {tenant},
      Without(db.nodes, gone),
      map v | v in db.validators && db.validators[v].node !in gone :: db.validators[v],
      map b | b in db.bindings && db.bindings[b].tenant != tenant :: db.bindings[b])
  }

  function TenantDeleted(db: Tables, tenant: Id): Tables {
    if Valid(Cascaded(db, tenant)) then Cascaded(db, tenant) else db
  }

  predicate HasChild(db: Tables, n: Id) {
    exists m | m in db.nodes :: db.nodes[m].parent == Some(n)
  }

  // `n` is its tenant's only node and no other node's parent.
  predicate Alone(db: Tables, n: Id, tenant: Id) {
    forall m | m in db.nodes && m != n :: db.nodes[m].parent != Some(n) && db.nodes[m].tenant != Some(tenant)
  }

  lemma CascadeRefs(db: Tables, tenant: Id)
    requires AllRefsExist(db)
    ensures AllRefsExist(Cascaded(db, tenant))
  {
  }

  lemma TakesMore(db: Tables, n: Id, tenant: Id, m: Id)
    requires n in db.nodes && db.nodes[n].tenant == Some(tenant)
    requires m in db.nodes && m != n && (db.nodes[m].parent == Some(n) || db.nodes[m].tenant == Some(tenant))
    ensures Cascaded(db, tenant).nodes != db.nodes - {n}
  {
    var after := Cascaded(db, tenant).nodes;
    assert n in NodesOf(db.nodes, tenant) && m in db.nodes - {n};
    assert m in after ==> after[m].parent == None;
  }

  // Deleting the tenant of `n` takes `n` away and leaves every other node as it was exactly if `n` is alone.
  lemma CascadeAlone(db: Tables, n: Id, tenant: Id)
    requires Valid(db) && n in db.nodes && db.nodes[n].tenant == Some(tenant)
    ensures Alone(db, n, tenant) <==> Cascaded(db, tenant).nodes == db.nodes - {n}
    ensures Alone(db, n, tenant) ==> Valid(Cascaded(db, tenant))
  {
    var after := Cascaded(db, tenant);
    if Alone(db, n, tenant) {
      assert NodesOf(db.nodes, tenant) == {n};
      forall m | m in after.nodes ensures after.nodes[m] == db.nodes[m] {
        assert db.nodes[m].parent != Some(n);
      }
      assert after.nodes == db.nodes - {n};
      CascadeRefs(db, tenant);
    } else {
      var m :| m in db.nodes && m != n && (db.nodes[m].parent == Some(n) || db.nodes[m].tenant == Some(tenant));
      TakesMore(db, n, tenant, m);
    }
  }

  predicate Occupied(db: Tables, n: Id)
    requires n in db.nodes && db.nodes[n].tenant.Some?
  {
    HasChild(db, n) || !Alone(db, n, db.nodes[n].tenant.value)
  }

  // Its tenant goes, with nothing else in the forest.
  predicate TakenAway(db: Tables, after: Tables, n: Id)
    requires n in db.nodes && db.nodes[n].tenant.Some?
  {
    after == Cascaded(db, db.nodes[n].tenant.value) && after.nodes == db.nodes - {n}
  }

  ghost predicate OnlyCarrier(db: Tables, n: Id, proposalId: string) {
    Carries(db, n, proposalId) && forall m :: Carries(db, m, proposalId) ==> m == n
  }

  ghost predicate Marked(node: Row, proposalId: string) {
    node.metadata.proposal == Some(proposalId) && node.tenant.Some?
  }

  // Its tenant is the open tenant that the DAO has for the organization.
  ghost predicate OfDao(db: Tables, node: Row, input: Input) {
    && node.tenant.Some? && node.tenant.value in db.tenants
    && db.tenants[node.tenant.value] == Tenant(input.accountId, Some(input.orgId), "dao", false)
  }

  lemma ResumableMeans(db: Tables, n: Id, input: Input)
    ensures Resumable(db, n, input) <==>
      && input.proposalId != "" && n in db.nodes
      && (Marked(db.nodes[n], input.proposalId) ||
          (OfDao(db, db.nodes[n], input) && forall m :: m in db.nodes ==> !Marked(db.nodes[m], input.proposalId)))
  {
    assert forall m :: m in db.nodes ==> (Marked(db.nodes[m], input.proposalId) <==> Carries(db, m, input.proposalId));
    assert n in db.nodes ==> (OfDao(db, db.nodes[n], input) <==> OwnedByDao(db, n, input));
  }

  lemma NotResumable(db: Tables, input: Input)
    requires forall n :: n in db.nodes ==> !Resumable(db, n, input)
    ensures input.proposalId == "" || forall n :: n in db.nodes ==>
              !Marked(db.nodes[n], input.proposalId) && !OfDao(db, db.nodes[n], input)
  {
    forall n | n in db.nodes && input.proposalId != "" ensures !Marked(db.nodes[n], input.proposalId) {
      ResumableMeans(db, n, input);
    }
    forall n | n in db.nodes && input.proposalId != "" ensures !OfDao(db, db.nodes[n], input) {
      ResumableMeans(db, n, input);
    }
  }

  // --- The service's transactions, one at a time ---

  class TenantsService {
    var db: Tables

    constructor (db: Tables)
      ensures this.db == db
    {
      this.db := db;
    }

    // `ids` are what the database generates.
    method ApplyNodeProposal(input: Input, ids: Ids) returns (r: Result<Id, Failure>)
      requires Valid(db) && Fresh(db, ids)
      modifies this
      ensures Valid(db)
      ensures r.Err? ==> db == old(db)
      ensures (exists n :: Resumable(old(db), n, input)) ==>
        db == old(db) && r.Ok? && Resumable(old(db), r.value, input)
      // Resumed: onto a node that carries the proposal, else onto one of the application's DAO and organization.
      ensures input.proposalId != "" && (exists n :: n in old(db).nodes && Marked(old(db).nodes[n], input.proposalId)) ==>
        db == old(db) && r.Ok? && r.value in old(db).nodes && Marked(old(db).nodes[r.value], input.proposalId)
      ensures input.proposalId != "" && !(exists n :: n in old(db).nodes && Marked(old(db).nodes[n], input.proposalId)) &&
              (exists n :: n in old(db).nodes && OfDao(old(db), old(db).nodes[n], input)) ==>
        db == old(db) && r.Ok? && r.value in old(db).nodes && OfDao(old(db), old(db).nodes[r.value], input)
      // Else the first thing that stands against it, or a new node.
      ensures input.proposalId == "" || !(exists n :: n in old(db).nodes &&
                                            (Marked(old(db).nodes[n], input.proposalId) || OfDao(old(db), old(db).nodes[n], input))) ==>
        && (r == Err(Conflict) <==> Taken(old(db), input))
        && (r == Err(NotFound) <==> !Taken(old(db), input) && input.parent.Some? && input.parent.value !in old(db).nodes)
        && (r == Err(BadRequest) <==>
              && !Taken(old(db), input) && (input.parent.Some? ==> input.parent.value in old(db).nodes)
              && !Placed(input.kind, input.parent,
                         if input.parent.Some? then old(db).nodes[input.parent.value].metadata.kind else None))
        && (r.Ok? ==> r.value !in old(db).nodes)
      ensures !(exists n :: Resumable(old(db), n, input)) ==>
        if Checks(old(db), input).Ok? then r == Ok(ids.node) && db == Inserted(old(db), input, ids)
        else r.Err? && r.error == Checks(old(db), input).error
      ensures !(exists n :: Resumable(old(db), n, input)) && r.Ok? ==>
        && IsNodeOf(db, r.value, input) && OtherRowsStay(old(db), db, r.value)
        && IsBoundTo(db, db.nodes[r.value].tenant.value, input.hostname)
        && IsValidatedBy(db, r.value, input.pool)
      ensures r.Ok? && input.proposalId != "" && !(exists n :: OwnedByDao(old(db), n, input)) ==>
        Carries(db, r.value, input.proposalId)
    {
      if exists n | n in db.nodes :: Resumable(db, n, input) {
        var n :| n in db.nodes && Resumable(db, n, input);
        ResumableMeans(db, n, input);
        return Ok(n);
      }
      NotResumable(db, input);
      ChecksMean(db, input);
      var checked := Checks(db, input);
      if checked.Err? {
        return Err(checked.error);
      }
      InsertsFit(db, input, ids);
      InsertedRows(db, input, ids);
      db := Inserted(db, input, ids);
      return Ok(ids.node);
    }

    method ReleaseNodeProposal(proposalId: string) returns (r: ReleaseResult)
      requires Valid(db)
      modifies this
      ensures Valid(db)
      ensures r != Released ==> db == old(db)
      ensures r == NotKnown <==> !exists n :: Carries(old(db), n, proposalId)
      ensures r == Released ==> exists n :: Carries(old(db), n, proposalId) && TakenAway(old(db), db, n)
      ensures forall n :: OnlyCarrier(old(db), n, proposalId) ==> (r == InUse <==> Occupied(old(db), n))
    {
      if !exists n | n in db.nodes :: Carries(db, n, proposalId) {
        return NotKnown;
      }
      var n :| n in db.nodes && Carries(db, n, proposalId);
      var tenant := db.nodes[n].tenant.value;
      if HasChild(db, n) || |NodesOf(db.nodes, tenant)| > 1 {
        OnlyOne(NodesOf(db.nodes, tenant), n);
        return InUse;
      }
      OnlyOne(NodesOf(db.nodes, tenant), n);
      assert forall m :: m in db.nodes && db.nodes[m].tenant == Some(tenant) ==> m in NodesOf(db.nodes, tenant);
      assert Alone(db, n, tenant);
      CascadeAlone(db, n, tenant);
      db := TenantDeleted(db, tenant);
      return Released;
    }
  }

  // A country has no parent, a state is in a country, and a city anywhere but in a city.
  ghost predicate Placed(kind: Kind, parent: Option<Id>, parentKind: Option<Kind>) {
    match kind
    case Country => parent.None?
    case State => parentKind == Some(Country)
    case City => parent.None? || parentKind in {Some(Country), Some(State)}
  }

  // Somebody else has the account, the slug or the host name.
  ghost predicate Taken(db: Tables, input: Input) {
    || (exists t :: t in db.tenants && db.tenants[t].accountId == input.accountId)
    || (exists n :: n in db.nodes && db.nodes[n].slug == input.slug)
    || (exists b :: b in db.bindings && db.bindings[b].hostname == input.hostname)
  }

  // The applications refused, by what stands against them.
  lemma ChecksMean(db: Tables, input: Input)
    ensures Checks(db, input) == Err(Conflict) <==> Taken(db, input)
    ensures Checks(db, input) == Err(NotFound) <==>
      !Taken(db, input) && input.parent.Some? && input.parent.value !in db.nodes
    ensures Checks(db, input) == Err(BadRequest) <==>
      && !Taken(db, input) && (input.parent.Some? ==> input.parent.value in db.nodes)
      && !Placed(input.kind, input.parent, if input.parent.Some? then db.nodes[input.parent.value].metadata.kind else None)
  {
  }

  datatype ReleaseResult = Released | NotKnown | InUse

  lemma OnlyOne(s: set<Id>, n: Id)
    requires n in s
    ensures |s| > 1 <==> exists m :: m in s && m != n
    ensures |s| <= 1 <==> s == {n}
  {
    assert s == {n} + (s - {n});
    if s - {n} != {} {
      var m :| m in s - {n};
    }
  }

  // --- Apply, then release ---

  lemma AddedIsAlone(db: Tables, input: Input, ids: Ids)
    requires AllRefsExist(db) && Fresh(db, ids) && (input.parent.Some? ==> input.parent.value in db.nodes)
    ensures var after := Inserted(db, input, ids);
            !HasChild(after, ids.node) && Alone(after, ids.node, ids.tenant) &&
            NodesOf(after.nodes, ids.tenant) == {ids.node}
  {
  }

  lemma RestoresNodes(nodes: Nodes, n: Id, node: Row)
    requires n !in nodes && forall m :: m in nodes ==> nodes[m].parent != Some(n)
    ensures Without(nodes[n := node], {n}) == nodes
  {
  }

  lemma ReleaseRestores(db: Tables, input: Input, ids: Ids)
    requires AllRefsExist(db) && Fresh(db, ids) && (input.parent.Some? ==> input.parent.value in db.nodes)
    ensures Cascaded(Inserted(db, input, ids), ids.tenant) == db
  {
    var after := Inserted(db, input, ids);
    AddedIsAlone(db, input, ids);
    assert forall m :: m in db.nodes && db.nodes[m].parent.Some? ==> db.nodes[m].parent.value in db.nodes;
    RestoresNodes(db.nodes, ids.node, NewNode(input, ids.tenant));
    RestoresOthers(db, input, ids);
  }

  lemma RestoresOthers(db: Tables, input: Input, ids: Ids)
    requires AllRefsExist(db) && Fresh(db, ids) && NodesOf(Inserted(db, input, ids).nodes, ids.tenant) == {ids.node}
    ensures var back := Cascaded(Inserted(db, input, ids), ids.tenant);
            back.tenants == db.tenants && back.validators == db.validators && back.bindings == db.bindings
  {
    var after := Inserted(db, input, ids);
    var back := Cascaded(after, ids.tenant);
    assert back.validators.Keys == db.validators.Keys;
    assert back.bindings.Keys == db.bindings.Keys;
  }

  // A release takes away exactly what an apply added.
  lemma ReleaseUndoesApply(db: Tables, input: Input, ids: Ids)
    requires Valid(db) && Fresh(db, ids) && Checks(db, input).Ok? && input.proposalId != ""
    requires forall n :: !Carries(db, n, input.proposalId)
    ensures var after := Inserted(db, input, ids);
            && OnlyCarrier(after, ids.node, input.proposalId) && !Occupied(after, ids.node)
            && Cascaded(after, ids.tenant) == db
  {
    var after := Inserted(db, input, ids);
    forall m | Carries(after, m, input.proposalId) ensures m == ids.node {
      assert m != ids.node ==> Carries(db, m, input.proposalId);
    }
    AddedIsAlone(db, input, ids);
    ReleaseRestores(db, input, ids);
  }

  method ApplyThenRelease(service: TenantsService, input: Input, ids: Ids) returns (applied: Result<Id, Failure>)
    requires Valid(service.db) && Fresh(service.db, ids) && input.proposalId != ""
    requires forall n :: !Resumable(service.db, n, input)
    modifies service
    ensures service.db == old(service.db)
    ensures applied.Ok? <==> Checks(old(service.db), input).Ok?
  {
    forall n ensures !Carries(service.db, n, input.proposalId) {
      assert Carries(service.db, n, input.proposalId) ==> Resumable(service.db, n, input);
    }
    ghost var before := service.db;
    applied := service.ApplyNodeProposal(input, ids);
    if applied.Ok? {
      ReleaseUndoesApply(before, input, ids);
      var released := service.ReleaseNodeProposal(input.proposalId);
      assert Carries(Inserted(before, input, ids), ids.node, input.proposalId);
    }
  }
}
