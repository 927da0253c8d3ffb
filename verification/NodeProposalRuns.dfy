/**
 Applies and releases of node proposals racing with each other and with the rest of the service. A
 transaction reads in one step and writes in a later one: what it read may have changed by then.
 */
module NodeProposalRuns {
  import opened Wrappers
  import opened NodeProposals
  import opened NodeTable

  type JobId = nat

  datatype Job = Applying(input: Input) | Releasing(proposalId: string, node: Id, tenant: Id)

  datatype World = World(db: Tables, jobs: map<JobId, Job>)

  datatype Event =
    | ApplyReads(job: JobId, input: Input)
    | ApplyInserts(job: JobId, ids: Ids)
    | ReleaseReads(job: JobId, proposalId: string, node: Id)
    | ReleaseDeletes(job: JobId)
    | AddTenant(tenant: Id, owner: Tenant)
    | AddNode(node: Id, row: Row)
    | CloseTenant(tenant: Id)

  function Commit(db: Tables, attempt: Tables): Tables {
    if Valid(attempt) then attempt else db
  }

  // The database generates an id that nothing refers to yet.
  predicate CanInsert(w: World, job: JobId, ids: Ids) {
    && job in w.jobs && w.jobs[job].Applying? && Fresh(w.db, ids) && w.jobs[job].input.parent != Some(ids.node)
  }

  function Next(w: World, e: Event): World {
    match e
    case ApplyReads(job, input) =>
      if (exists n | n in w.db.nodes :: Resumable(w.db, n, input)) || Checks(w.db, input).Err? then w
      else w.(jobs := w.jobs[job := Applying(input)])
    case ApplyInserts(job, ids) =>
      if CanInsert(w, job, ids)
      then World(Commit(w.db, Inserted(w.db, w.jobs[job].input, ids)), w.jobs - {job}) else w
    case ReleaseReads(job, p, n) =>
      if Carries(w.db, n, p) && !Occupied(w.db, n)
      then w.(jobs := w.jobs[job := Releasing(p, n, w.db.nodes[n].tenant.value)]) else w
    case ReleaseDeletes(job) =>
      if job in w.jobs && w.jobs[job].Releasing?
      then World(TenantDeleted(w.db, w.jobs[job].tenant), w.jobs - {job}) else w
    case AddTenant(t, row) =>
      if t in w.db.tenants then w else w.(db := Commit(w.db, w.db.(tenants := w.db.tenants[t := row])))
    case AddNode(n, row) =>
      if n in w.db.nodes || row.parent == Some(n) then w
      else w.(db := Commit(w.db, w.db.(nodes := w.db.nodes[n := row])))
    case CloseTenant(t) =>
      if t in w.db.tenants then w.(db := w.db.(tenants := w.db.tenants[t := w.db.tenants[t].(deleted := true)])) else w
  }

  function Run(w: World, events: seq<Event>): World
    decreases |events|
  {
    if events == [] then w else Run(Next(w, events[0]), events[1..])
  }

  // --- A transaction alone ---

  // Nothing in between: an apply does what the service's transaction does.
  lemma ApplyAlone(w: World, job: JobId, input: Input, ids: Ids)
    requires Valid(w.db) && Fresh(w.db, ids) && job !in w.jobs && input.parent != Some(ids.node)
    ensures var after := Next(Next(w, ApplyReads(job, input)), ApplyInserts(job, ids));
            && after.jobs == w.jobs
            && after.db == if (exists n :: Resumable(w.db, n, input)) || Checks(w.db, input).Err? then w.db
                           else Inserted(w.db, input, ids)
  {
    if !(exists n :: Resumable(w.db, n, input)) && Checks(w.db, input).Ok? {
      InsertsFit(w.db, input, ids);
    }
    assert w.jobs[job := Applying(input)] - {job} == w.jobs;
  }

  // And a release takes its node away exactly if nothing hangs on it.
  lemma ReleaseAlone(w: World, job: JobId, p: string, n: Id)
    requires Valid(w.db) && job !in w.jobs && Carries(w.db, n, p)
    ensures var after := Next(Next(w, ReleaseReads(job, p, n)), ReleaseDeletes(job));
            var free := forall m :: m in w.db.nodes ==>
                          w.db.nodes[m].parent != Some(n) && (m != n ==> w.db.nodes[m].tenant != w.db.nodes[n].tenant);
            && after.jobs == w.jobs && (!free ==> after == w)
            && (free ==> after.db.nodes == w.db.nodes - {n} && w.db.nodes[n].tenant.value !in after.db.tenants)
  {
    var tenant := w.db.nodes[n].tenant.value;
    CascadeAlone(w.db, n, tenant);
    assert w.jobs[job := Releasing(p, n, tenant)] - {job} == w.jobs;
  }

  // The other writes: a tenant is added or closed, never changed otherwise, and closing keeps it from being found
  // by its account and organization.
  lemma TenantAdded(w: World, t: Id, row: Tenant)
    requires Valid(w.db)
    ensures t in w.db.tenants ==> Next(w, AddTenant(t, row)) == w
    ensures t !in w.db.tenants && (forall s :: s in w.db.tenants ==> w.db.tenants[s].accountId != row.accountId) ==>
              Next(w, AddTenant(t, row)).db == w.db.(tenants := w.db.tenants[t := row])
  {
  }

  lemma TenantClosed(w: World, t: Id)
    ensures forall n, input :: n in w.db.nodes && w.db.nodes[n].tenant == Some(t) ==> !OwnedByDao(Next(w, CloseTenant(t)).db, n, input)
    ensures Next(w, CloseTenant(t)).db.nodes == w.db.nodes && Next(w, CloseTenant(t)).db.tenants.Keys == w.db.tenants.Keys
    ensures forall s :: s in w.db.tenants && s != t ==> Next(w, CloseTenant(t)).db.tenants[s] == w.db.tenants[s]
  {
  }

  // --- One node per proposal ---

  // At most one node carries a proposal.
  ghost predicate Sole(db: Tables) {
    forall m, n, p :: Carries(db, m, p) && Carries(db, n, p) ==> m == n
  }

  predicate Pending(w: World, job: JobId, p: string) {
    p != "" && job in w.jobs && w.jobs[job].Applying? && w.jobs[job].input.proposalId == p
  }

  lemma CommittedWasUnclaimed(db: Tables, input: Input, ids: Ids)
    requires Fresh(db, ids) && input.parent != Some(ids.node) && Valid(Inserted(db, input, ids))
    ensures Unclaimed(db, input)
  {
    var after := Inserted(db, input, ids);
    assert forall t :: t in db.tenants ==> after.tenants[t] == db.tenants[t] && t != ids.tenant;
    assert after.tenants[ids.tenant].accountId == input.accountId;
    assert forall n :: n in db.nodes ==> after.nodes[n] == db.nodes[n] && n != ids.node;
    assert after.nodes[ids.node] == NewNode(input, ids.tenant);
    assert forall b :: b in db.bindings ==> after.bindings[b] == db.bindings[b] && b != ids.binding;
    assert after.bindings[ids.binding].hostname == input.hostname;
  }

  lemma InsertCommits(db: Tables, input: Input, ids: Ids)
    requires Valid(db) && Fresh(db, ids) && input.parent != Some(ids.node)
    ensures Valid(Inserted(db, input, ids)) <==> Unclaimed(db, input)
  {
    if Unclaimed(db, input) {
      UnclaimedFits(db, input, ids);
    } else if Valid(Inserted(db, input, ids)) {
      CommittedWasUnclaimed(db, input, ids);
    }
  }

  predicate Carried(db: Tables, p: string) { exists n | n in db.nodes :: Carries(db, n, p) }

  // An apply that inserts though a node carries its proposal by now: everything its insert needs is unclaimed.
  // Or somebody else adds a row with such a proposal id.
  ghost predicate Doubles(w: World, e: Event) {
    match e
    case ApplyInserts(job, ids) =>
      && CanInsert(w, job, ids)
      && w.jobs[job].input.proposalId != "" && Unclaimed(w.db, w.jobs[job].input)
      && Carried(w.db, w.jobs[job].input.proposalId)
    case AddNode(n, row) =>
      Next(w, e).db != w.db && row.tenant.Some? && row.metadata.proposal.Some? && Carried(w.db, row.metadata.proposal.value)
    case _ => false
  }

  ghost predicate NeverDoubles(w: World, events: seq<Event>)
    decreases |events|
  {
    events == [] || (!Doubles(w, events[0]) && NeverDoubles(Next(w, events[0]), events[1..]))
  }

  ghost predicate SoleThroughout(w: World, events: seq<Event>)
    decreases |events|
  {
    Sole(w.db) && (events == [] || SoleThroughout(Next(w, events[0]), events[1..]))
  }

  lemma CascadeKeepsSole(db: Tables, tenant: Id)
    ensures Sole(db) ==> Sole(Cascaded(db, tenant))
    ensures forall n, p :: Carries(Cascaded(db, tenant), n, p) ==>
      Carries(db, n, p) && db.nodes[n].tenant == Cascaded(db, tenant).nodes[n].tenant && db.nodes[n].tenant != Some(tenant)
  {
    var after := Cascaded(db, tenant);
    forall n | n in after.nodes
      ensures n in db.nodes && after.nodes[n].tenant == db.nodes[n].tenant && db.nodes[n].tenant != Some(tenant)
      ensures after.nodes[n].metadata.proposal == db.nodes[n].metadata.proposal
    {
      assert db.nodes[n].tenant == Some(tenant) ==> n in NodesOf(db.nodes, tenant);
    }
    assert forall n, p :: Carries(after, n, p) ==> Carries(db, n, p);
  }

  lemma NextKeepsValid(w: World, e: Event)
    requires Valid(w.db)
    ensures Valid(Next(w, e).db)
  {
    if e.CloseTenant? && e.tenant in w.db.tenants {
      ClosedKeepsValid(w.db, e.tenant);
    }
  }

  lemma ClosedKeepsValid(db: Tables, t: Id)
    requires Valid(db) && t in db.tenants
    ensures Valid(db.(tenants := db.tenants[t := db.tenants[t].(deleted := true)]))
  {
  }

  lemma {:induction false} ValidInEveryRun(w: World, events: seq<Event>)
    requires Valid(w.db)
    ensures Valid(Run(w, events).db)
    decreases |events|
  {
    if events != [] {
      NextKeepsValid(w, events[0]);
      ValidInEveryRun(Next(w, events[0]), events[1..]);
    }
  }

  lemma NodeDoubles(db: Tables, after: Tables, n: Id, row: Row)
    requires Sole(db) && n !in db.nodes && after.nodes == db.nodes[n := row]
    ensures Sole(after) <==>
      row.tenant.None? || row.metadata.proposal.None? || !Carried(db, row.metadata.proposal.value)
  {
    assert forall m, p :: m != n ==> (Carries(after, m, p) <==> Carries(db, m, p));
    if row.tenant.Some? && row.metadata.proposal.Some? {
      var p := row.metadata.proposal.value;
      assert Carries(after, n, p);
      if m :| m in db.nodes && Carries(db, m, p) {
        assert Carries(after, m, p);
      }
    }
  }

  lemma NextDoubles(w: World, e: Event)
    requires Valid(w.db) && Sole(w.db)
    ensures Sole(Next(w, e).db) <==> !Doubles(w, e)
  {
    match e
    case ApplyInserts(job, ids) =>
      if CanInsert(w, job, ids) {
        var input := w.jobs[job].input;
        InsertCommits(w.db, input, ids);
        NodeDoubles(w.db, Inserted(w.db, input, ids), ids.node, NewNode(input, ids.tenant));
      }
    case ReleaseDeletes(job) =>
      if job in w.jobs && w.jobs[job].Releasing? {
        CascadeKeepsSole(w.db, w.jobs[job].tenant);
      }
    case AddNode(n, row) =>
      if Next(w, e).db != w.db {
        NodeDoubles(w.db, Next(w, e).db, n, row);
      }
    case _ =>
      assert Next(w, e).db.nodes == w.db.nodes;
      assert forall n, p :: Carries(Next(w, e).db, n, p) <==> Carries(w.db, n, p);
  }

  // Whatever runs: one tenant per account, one binding per host name, one primary binding per tenant, one default
  // validator per node, and everything that is referred to is there.
  lemma OneOfEach(w: World, events: seq<Event>)
    requires Valid(w.db)
    ensures var db := Run(w, events).db;
            && (forall s, t :: s in db.tenants && t in db.tenants && db.tenants[s].accountId == db.tenants[t].accountId ==> s == t)
            && (forall b, c :: b in db.bindings && c in db.bindings && db.bindings[b].hostname == db.bindings[c].hostname ==> b == c)
            && (forall b, c | b in db.bindings && c in db.bindings && db.bindings[b].primary && db.bindings[c].primary ::
                  db.bindings[b].tenant == db.bindings[c].tenant ==> b == c)
            && (forall v, x | v in db.validators && x in db.validators && db.validators[v].isDefault && db.validators[x].isDefault ::
                  db.validators[v].node == db.validators[x].node ==> v == x)
            && (forall b :: b in db.bindings ==> db.bindings[b].tenant in db.tenants)
            && (forall v :: v in db.validators ==> db.validators[v].node in db.nodes)
            && (forall n :: n in db.nodes && db.nodes[n].tenant.Some? ==> db.nodes[n].tenant.value in db.tenants)
  {
    ValidInEveryRun(w, events);
  }

  // In every run no two nodes ever carry one proposal, exactly if nobody adds a row with a proposal id that a
  // node carries, and no apply inserts, with its account, slug and host name unclaimed, while another node
  // carries its proposal.
  lemma {:induction false} OneNodeExactly(w: World, events: seq<Event>)
    requires Valid(w.db) && Sole(w.db)
    ensures SoleThroughout(w, events) <==> NeverDoubles(w, events)
    decreases |events|
  {
    if events != [] {
      NextDoubles(w, events[0]);
      NextKeepsValid(w, events[0]);
      if Sole(Next(w, events[0]).db) {
        OneNodeExactly(Next(w, events[0]), events[1..]);
      }
    }
  }

  // --- Applies of one proposal for one account ---

  // An apply comes in for the account of every other apply of its proposal that is under way; once they are
  // over, and any node of theirs released, the proposal can be applied for another account. Only applies write
  // proposal ids.
  ghost predicate Agrees(w: World, e: Event) {
    match e
    case ApplyReads(job, input) =>
      forall other | other in w.jobs && other != job && Pending(w, other, input.proposalId) ::
        w.jobs[other].input.accountId == input.accountId
    case AddNode(_, row) => row.metadata.proposal.None?
    case _ => true
  }

  ghost predicate AgreeThroughout(w: World, events: seq<Event>)
    decreases |events|
  {
    events == [] || (Agrees(w, events[0]) && AgreeThroughout(Next(w, events[0]), events[1..]))
  }

  // What the applies under way are for: the account of a node that carries their proposal, and one account.
  ghost predicate OneAccount(w: World) {
    && (forall job, n, p :: Pending(w, job, p) && Carries(w.db, n, p) ==>
          && w.db.nodes[n].tenant.value in w.db.tenants
          && w.db.tenants[w.db.nodes[n].tenant.value].accountId == w.jobs[job].input.accountId)
    && (forall i, j, p :: Pending(w, i, p) && Pending(w, j, p) ==> w.jobs[i].input.accountId == w.jobs[j].input.accountId)
  }

  ghost predicate Inv(w: World) {
    Valid(w.db) && Sole(w.db) && OneAccount(w)
  }

  lemma ReadsKeep(w: World, job: JobId, input: Input)
    requires OneAccount(w) && Agrees(w, ApplyReads(job, input))
    ensures OneAccount(Next(w, ApplyReads(job, input)))
  {
    var after := Next(w, ApplyReads(job, input));
    if after != w {
      assert forall j, p :: j != job ==> (Pending(after, j, p) <==> Pending(w, j, p));
      assert forall n :: input.proposalId != "" && Carries(w.db, n, input.proposalId) ==> Resumable(w.db, n, input);
    }
  }

  lemma InsertsKeep(w: World, job: JobId, ids: Ids)
    requires Inv(w) && !Doubles(w, ApplyInserts(job, ids))
    ensures OneAccount(Next(w, ApplyInserts(job, ids)))
  {
    var after := Next(w, ApplyInserts(job, ids));
    assert forall j, p :: Pending(after, j, p) ==> Pending(w, j, p) && after.jobs[j] == w.jobs[j];
    if CanInsert(w, job, ids) && after.db != w.db {
      var input := w.jobs[job].input;
      assert after.db == Inserted(w.db, input, ids);
      assert forall n, p :: Carries(after.db, n, p) && n != ids.node ==> Carries(w.db, n, p);
      assert forall n :: n in w.db.nodes && w.db.nodes[n].tenant.Some? ==> w.db.nodes[n].tenant.value in w.db.tenants;
      assert forall p :: Carries(after.db, ids.node, p) ==> Pending(w, job, p);
    }
  }

  lemma DeletesKeep(w: World, job: JobId)
    requires Inv(w)
    ensures OneAccount(Next(w, ReleaseDeletes(job)))
  {
    var after := Next(w, ReleaseDeletes(job));
    assert forall j, p :: Pending(after, j, p) ==> Pending(w, j, p) && after.jobs[j] == w.jobs[j];
    if job in w.jobs && w.jobs[job].Releasing? {
      CascadeKeepsSole(w.db, w.jobs[job].tenant);
    }
  }

  // What an apply under way is for is never inserted twice.
  lemma NoDoubles(w: World, job: JobId, ids: Ids)
    requires OneAccount(w)
    ensures !Doubles(w, ApplyInserts(job, ids))
  {
    if CanInsert(w, job, ids) && w.jobs[job].input.proposalId != "" {
      assert Pending(w, job, w.jobs[job].input.proposalId);
    }
  }

  lemma SameCarriersKeep(w: World, db: Tables)
    requires OneAccount(w)
    requires forall n, p :: Carries(db, n, p) ==> Carries(w.db, n, p) && db.nodes[n] == w.db.nodes[n]
    requires forall t :: t in w.db.tenants ==> t in db.tenants && db.tenants[t].accountId == w.db.tenants[t].accountId
    ensures OneAccount(w.(db := db))
  {
    var after := w.(db := db);
    assert forall job, p :: Pending(after, job, p) <==> Pending(w, job, p);
  }

  lemma NodeAdded(w: World, n: Id, row: Row)
    requires OneAccount(w)
    requires row.metadata.proposal.None?
    ensures OneAccount(Next(w, AddNode(n, row)))
  {
    var after := Next(w, AddNode(n, row));
    SameCarriersKeep(w, after.db);
    assert after == w.(db := after.db);
  }

  lemma TenantChanged(w: World, e: Event)
    requires OneAccount(w) && (e.AddTenant? || e.CloseTenant?)
    ensures OneAccount(Next(w, e))
  {
    var after := Next(w, e);
    assert after.db.nodes == w.db.nodes;
    SameCarriersKeep(w, after.db);
    assert after == w.(db := after.db);
  }

  lemma ReleaseReadsKeep(w: World, e: Event)
    requires OneAccount(w) && e.ReleaseReads?
    ensures OneAccount(Next(w, e))
  {
    var after := Next(w, e);
    assert forall job, p :: Pending(after, job, p) ==> Pending(w, job, p) && after.jobs[job] == w.jobs[job];
  }

  lemma NextKeepsInv(w: World, e: Event)
    requires Inv(w) && Agrees(w, e)
    ensures Inv(Next(w, e)) && !Doubles(w, e)
  {
    NextKeepsValid(w, e);
    match e
    case ApplyReads(job, input) =>
      NextDoubles(w, e);
      ReadsKeep(w, job, input);
    case ApplyInserts(job, ids) =>
      NoDoubles(w, job, ids);
      NextDoubles(w, e);
      InsertsKeep(w, job, ids);
    case ReleaseDeletes(job) =>
      NextDoubles(w, e);
      DeletesKeep(w, job);
    case ReleaseReads(_, _, _) =>
      NextDoubles(w, e);
      ReleaseReadsKeep(w, e);
    case AddNode(n, row) =>
      NextDoubles(w, e);
      NodeAdded(w, n, row);
    case _ =>
      NextDoubles(w, e);
      TenantChanged(w, e);
  }

  lemma {:induction false} InvInEveryRun(w: World, events: seq<Event>)
    requires Inv(w) && AgreeThroughout(w, events)
    ensures Inv(Run(w, events)) && NeverDoubles(w, events)
    decreases |events|
  {
    if events != [] {
      NextKeepsInv(w, events[0]);
      InvInEveryRun(Next(w, events[0]), events[1..]);
    }
  }

  // However applies and releases race, a proposal has at most one node, unless applies of it for different
  // accounts are under way at once.
  lemma {:induction false} OneNodePerProposal(w: World, events: seq<Event>)
    requires Inv(w) && AgreeThroughout(w, events)
    ensures Sole(Run(w, events).db)
  {
    InvInEveryRun(w, events);
  }

  ghost predicate AccountsFixed(e: Event, account: string -> string) {
    && (e.ApplyReads? && e.input.proposalId != "" ==> e.input.accountId == account(e.input.proposalId))
    && (e.AddNode? ==> e.row.metadata.proposal.None?)
  }

  // In particular if each proposal is only ever applied for one account.
  lemma {:induction false} FixedAccountsAgree(w: World, events: seq<Event>, account: string -> string)
    requires forall job, p :: Pending(w, job, p) ==> w.jobs[job].input.accountId == account(p)
    requires forall e :: e in events ==> AccountsFixed(e, account)
    ensures AgreeThroughout(w, events)
    decreases |events|
  {
    if events != [] {
      assert AccountsFixed(events[0], account);
      forall job, p | Pending(Next(w, events[0]), job, p)
        ensures Next(w, events[0]).jobs[job].input.accountId == account(p)
      {
        assert Pending(w, job, p) || (events[0].ApplyReads? && events[0].job == job && events[0].input.proposalId == p);
      }
      FixedAccountsAgree(Next(w, events[0]), events[1..], account);
    }
  }

  // While a node carries the proposal, applying it again finds that node and no other, and an apply that read
  // the tables before the node was there cannot insert a second one: it falls back to the same node.
  lemma AppliesAgree(w: World, p: string, n: Id)
    requires Inv(w) && p != "" && Carries(w.db, n, p)
    ensures forall m, input: Input :: input.proposalId == p ==> (Resumable(w.db, m, input) <==> m == n)
    ensures forall job, ids :: Pending(w, job, p) ==> Next(w, ApplyInserts(job, ids)).db == w.db
  {
    forall job, ids | Pending(w, job, p) ensures Next(w, ApplyInserts(job, ids)).db == w.db {
      if CanInsert(w, job, ids) {
        NoDoubles(w, job, ids);
        InsertCommits(w.db, w.jobs[job].input, ids);
      }
    }
  }

  // --- Two applies of one proposal for different accounts ---

  const EMPTY := World(Tables(map[], map[], map[], map[]), map[])
  const ANDES := Input(Country, "Andes", "andes", None, "o", "andes.near", "andes.org", None, "p")
  const INCAS := Input(Country, "Incas", "incas", None, "o", "incas.near", "incas.org", None, "p")
  const READ_ONCE := World(EMPTY.db, map[0 := Applying(ANDES)])
  const READ_TWICE := World(EMPTY.db, map[0 := Applying(ANDES), 1 := Applying(INCAS)])
  const ONE := Inserted(EMPTY.db, ANDES, Ids(1, 1, 1, 1))
  const TWO := Inserted(ONE, INCAS, Ids(2, 2, 2, 2))

  lemma BothRead()
    ensures Next(EMPTY, ApplyReads(0, ANDES)) == READ_ONCE
    ensures Next(READ_ONCE, ApplyReads(1, INCAS)) == READ_TWICE
  {
  }

  lemma FirstInserts()
    ensures Next(READ_TWICE, ApplyInserts(0, Ids(1, 1, 1, 1))) == World(ONE, map[1 := Applying(INCAS)])
  {
    InsertCommits(EMPTY.db, ANDES, Ids(1, 1, 1, 1));
    assert READ_TWICE.jobs - {0} == map[1 := Applying(INCAS)];
  }

  lemma SecondUnclaimed()
    ensures Valid(ONE) && Unclaimed(ONE, INCAS)
  {
    InsertCommits(EMPTY.db, ANDES, Ids(1, 1, 1, 1));
    assert "andes.near"[0] != "incas.near"[0] && "andes.org"[0] != "incas.org"[0] && "andes"[0] != "incas"[0];
  }

  lemma SecondInserts()
    ensures Next(World(ONE, map[1 := Applying(INCAS)]), ApplyInserts(1, Ids(2, 2, 2, 2))) == World(TWO, map[])
  {
    SecondUnclaimed();
    UnclaimedFits(ONE, INCAS, Ids(2, 2, 2, 2));
    assert map[1 := Applying(INCAS)] - {1} == map[];
  }

  lemma TwoCarried()
    ensures Carries(TWO, 1, "p") && Carries(TWO, 2, "p") && TWO.nodes[1].tenant != TWO.nodes[2].tenant
  {
    assert TWO.nodes[1] == NewNode(ANDES, 1) && TWO.nodes[2] == NewNode(INCAS, 2);
  }

  lemma FourSteps(w0: World, w1: World, w2: World, w3: World, w4: World, e1: Event, e2: Event, e3: Event, e4: Event)
    requires Next(w0, e1) == w1 && Next(w1, e2) == w2 && Next(w2, e3) == w3 && Next(w3, e4) == w4
    ensures Run(w0, [e1, e2, e3, e4]) == w4
  {
    assert [e1, e2, e3, e4] == [e1] + [e2, e3, e4] && [e2, e3, e4] == [e2] + [e3, e4];
    RunStep(w0, e1, [e2, e3, e4]);
    RunStep(w1, e2, [e3, e4]);
    RunTwo(w2, e3, e4);
  }

  lemma EmptyInv()
    ensures Inv(EMPTY)
  {
  }

  lemma FourEvents() returns (w: World, events: seq<Event>)
    ensures w == EMPTY && |events| == 4 && Run(w, events).db == TWO
  {
    w := EMPTY;
    var e1, e2 := ApplyReads(0, ANDES), ApplyReads(1, INCAS);
    var e3, e4 := ApplyInserts(0, Ids(1, 1, 1, 1)), ApplyInserts(1, Ids(2, 2, 2, 2));
    events := [e1, e2, e3, e4];
    BothRead();
    FirstInserts();
    SecondInserts();
    FourSteps(w, READ_ONCE, READ_TWICE, World(ONE, map[1 := Applying(INCAS)]), World(TWO, map[]), e1, e2, e3, e4);
  }

  // Both read before either inserts, and nothing the indexes protect is shared: the proposal gets two nodes.
  lemma TwoNodes() returns (w: World, events: seq<Event>)
    ensures Inv(w) && !AgreeThroughout(w, events) && !NeverDoubles(w, events)
    ensures var db := Run(w, events).db;
            Carries(db, 1, "p") && Carries(db, 2, "p") && db.nodes[1].tenant != db.nodes[2].tenant
  {
    w, events := FourEvents();
    EmptyInv();
    TwoCarried();
    TwoCarriersMean(w, events, "p", 1, 2);
  }

  lemma TwoCarriersMean(w: World, events: seq<Event>, p: string, m: Id, n: Id)
    requires Inv(w) && m != n && Carries(Run(w, events).db, m, p) && Carries(Run(w, events).db, n, p)
    ensures !AgreeThroughout(w, events) && !NeverDoubles(w, events)
  {
    assert !Sole(Run(w, events).db);
    if AgreeThroughout(w, events) {
      InvInEveryRun(w, events);
    }
    OneNodeExactly(w, events);
    if SoleThroughout(w, events) {
      SoleAtTheEnd(w, events);
    }
  }

  lemma SoleAtTheEnd(w: World, events: seq<Event>)
    requires SoleThroughout(w, events)
    ensures Sole(Run(w, events).db)
    decreases |events|
  {
    if events != [] {
      SoleAtTheEnd(Next(w, events[0]), events[1..]);
    }
  }

  // --- A release racing with a new child ---

  // An event that puts a node under `n`, or another node into its tenant. The database never generates an id
  // twice.
  ghost predicate Attaches(w: World, e: Event, n: Id, tenant: Id) {
    match e
    case AddNode(m, row) => row.parent == Some(n) || row.tenant == Some(tenant) || m == n
    case ApplyInserts(job, ids) =>
      (job in w.jobs && w.jobs[job].Applying? && w.jobs[job].input.parent == Some(n)) ||
      ids.tenant == tenant || ids.node == n
    case _ => false
  }

  ghost predicate StaysAlone(w: World, events: seq<Event>, n: Id, tenant: Id)
    decreases |events|
  {
    events == [] ||
    (!Attaches(w, events[0], n, tenant) && StaysAlone(Next(w, events[0]), events[1..], n, tenant))
  }

  predicate AloneIn(db: Tables, n: Id, tenant: Id) {
    Alone(db, n, tenant) && (n in db.nodes ==> db.nodes[n].tenant == Some(tenant))
  }

  lemma CascadeKeepsAlone(db: Tables, other: Id, n: Id, tenant: Id)
    requires AloneIn(db, n, tenant)
    ensures AloneIn(Cascaded(db, other), n, tenant)
  {
  }

  lemma NextStaysAlone(w: World, e: Event, n: Id, tenant: Id)
    requires AloneIn(w.db, n, tenant) && !Attaches(w, e, n, tenant)
    ensures AloneIn(Next(w, e).db, n, tenant)
  {
    if e.ReleaseDeletes? && e.job in w.jobs && w.jobs[e.job].Releasing? {
      CascadeKeepsAlone(w.db, w.jobs[e.job].tenant, n, tenant);
    }
  }

  lemma {:induction false} RunStaysAlone(w: World, events: seq<Event>, n: Id, tenant: Id)
    requires AloneIn(w.db, n, tenant) && StaysAlone(w, events, n, tenant)
    ensures AloneIn(Run(w, events).db, n, tenant)
    decreases |events|
  {
    if events != [] {
      NextStaysAlone(w, events[0], n, tenant);
      RunStaysAlone(Next(w, events[0]), events[1..], n, tenant);
    }
  }

  // A release whose checks passed in `w` takes away its own node and changes no other, as long as nobody
  // attached a node to it in between.
  lemma ReleaseTakesOnlyItsNode(w: World, job: JobId, p: string, n: Id, events: seq<Event>)
    requires Valid(w.db)
    requires Carries(w.db, n, p) && !Occupied(w.db, n)
    requires StaysAlone(Next(w, ReleaseReads(job, p, n)), events, n, w.db.nodes[n].tenant.value)
    ensures var tenant := w.db.nodes[n].tenant.value;
            var later := Run(Next(w, ReleaseReads(job, p, n)), events).db;
            n in later.nodes ==> TenantDeleted(later, tenant).nodes == later.nodes - {n}
  {
    var tenant := w.db.nodes[n].tenant.value;
    var checked := Next(w, ReleaseReads(job, p, n));
    ValidInEveryRun(checked, events);
    RunStaysAlone(checked, events, n, tenant);
    var later := Run(checked, events).db;
    if n in later.nodes {
      CascadeAlone(later, n, tenant);
    }
  }

  // So it does among writes that neither insert a node nor add one below it or to its tenant.
  lemma {:induction false} StaysAloneAmong(w: World, events: seq<Event>, n: Id, tenant: Id)
    requires forall e :: e in events ==>
      !e.ApplyInserts? && (e.AddNode? ==> e.row.parent != Some(n) && e.row.tenant != Some(tenant) && e.node != n)
    ensures StaysAlone(w, events, n, tenant)
    decreases |events|
  {
    if events != [] {
      assert !Attaches(w, events[0], n, tenant);
      StaysAloneAmong(Next(w, events[0]), events[1..], n, tenant);
    }
  }

  // And only then: a node attached in between is taken away too, or loses its parent.
  lemma OtherwiseItTakesMore(db: Tables, n: Id, tenant: Id)
    requires Valid(db) && n in db.nodes && db.nodes[n].tenant == Some(tenant) && Valid(Cascaded(db, tenant))
    ensures TenantDeleted(db, tenant).nodes == db.nodes - {n} <==> Alone(db, n, tenant)
  {
    CascadeAlone(db, n, tenant);
  }

  // --- A child added between the checks and the delete of a release ends up as a root ---

  const PERU := Row(None, Some(1), "peru", "Peru", NodeMetadata(Some(Country), Some("p")))
  const LIMA := Row(Some(1), None, "lima", "Lima", NodeMetadata(Some(City), None))
  const BEFORE := Tables(map[1 := Tenant("peru.near", Some("o"), "dao", false)], map[1 := PERU], map[], map[])
  const BETWEEN := BEFORE.(nodes := map[1 := PERU, 2 := LIMA])
  const AFTER := Tables(map[], map[2 := LIMA.(parent := None)], map[], map[])

  lemma ChildIsAdded()
    ensures Next(World(BEFORE, map[0 := Releasing("p", 1, 1)]), AddNode(2, LIMA)) ==
            World(BETWEEN, map[0 := Releasing("p", 1, 1)])
  {
    assert "peru"[0] != "lima"[0];
    assert BEFORE.nodes[2 := LIMA] == BETWEEN.nodes;
    assert Valid(BETWEEN);
  }

  lemma CascadeOrphans()
    ensures Cascaded(BETWEEN, 1) == AFTER && Valid(AFTER)
  {
    assert NodesOf(BETWEEN.nodes, 1) == {1};
    assert Cascaded(BETWEEN, 1).nodes == AFTER.nodes;
    assert Cascaded(BETWEEN, 1).tenants == AFTER.tenants;
  }

  lemma ChildIsOrphaned()
    ensures Next(World(BETWEEN, map[0 := Releasing("p", 1, 1)]), ReleaseDeletes(0)) == World(AFTER, map[])
  {
    CascadeOrphans();
    assert map[0 := Releasing("p", 1, 1)] - {0} == map[];
  }

  lemma OrphanedChild() returns (w: World, events: seq<Event>)
    ensures Valid(w.db) && w.jobs == map[] && events == [ReleaseReads(0, "p", 1), AddNode(2, LIMA), ReleaseDeletes(0)]
    ensures Run(w, events[..2]).db.nodes == map[1 := PERU, 2 := LIMA]
    ensures Run(w, events).db.nodes == map[2 := LIMA.(parent := None)]
  {
    w := World(BEFORE, map[]);
    events := [ReleaseReads(0, "p", 1), AddNode(2, LIMA), ReleaseDeletes(0)];
    assert Carries(BEFORE, 1, "p") && !Occupied(BEFORE, 1);
    assert Next(w, events[0]) == World(BEFORE, map[0 := Releasing("p", 1, 1)]);
    ChildIsAdded();
    ChildIsOrphaned();
    RunTwo(w, events[0], events[1]);
    assert events[..2] == [events[0], events[1]];
    RunStep(w, events[0], [events[1], events[2]]);
    RunTwo(Next(w, events[0]), events[1], events[2]);
    assert events == [events[0]] + [events[1], events[2]];
  }

  lemma RunStep(w: World, e: Event, rest: seq<Event>)
    ensures Run(w, [e] + rest) == Run(Next(w, e), rest)
  {
    assert ([e] + rest)[1..] == rest;
  }

  lemma RunTwo(w: World, e: Event, f: Event)
    ensures Run(w, [e, f]) == Next(Next(w, e), f)
  {
    assert [e, f] == [e] + [f] && [f] == [f] + [];
    RunStep(w, e, [f]);
    RunStep(Next(w, e), f, []);
  }
}
