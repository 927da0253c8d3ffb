/**
 Any sequence of the operations on activities, from an empty table, and what the two public reads see.
 A disconnect is two steps: it locks its node, so that other operations on that node wait, but it reads the
 activities without locking them, and a moderation locks only the activity.
 */
module LumaRuns {
  import opened Wrappers
  import opened Luma

  datatype Op =
    | Sync(run: Import, events: seq<LumaEvent>, ids: seq<ActivityId>)
    | Save(input: SaveInput, generated: ActivityId, first: Option<ActivityId>)
    | Show(nodeId: NodeId, id: ActivityId, show: bool)
    | DisconnectReads(nodeId: NodeId)
    | DisconnectWrites(nodeId: NodeId)
    | DisconnectFails(nodeId: NodeId)
    | Moderate(id: ActivityId)

  // What an organizer or a moderator decided about hiding an import, and when.
  datatype Decision = Decision(hidden: bool, moderated: bool, at: nat)

  // A disconnect that has read the rows of its node.
  datatype Reading = Reading(rows: Table, from: nat)

  datatype Span = Span(rows: Table, from: nat, to: nat)

  // `decisions`, `spans` and `clock` are history: the last decision about each import, the rows and times of
  // the disconnects that have written, and the number of operations so far.
  datatype World = World(
    t: Table, decisions: map<ActivityId, Decision>, reading: map<NodeId, Reading>, spans: seq<Span>, clock: nat)

  const EMPTY: World := World(map[], map[], map[], [], 0)

  // Only saving, showing or hiding, and moderating an import is a decision.
  function DecisionOf(t: Table, op: Op, at: nat): Option<(ActivityId, Decision)> {
    match op
    case Save(input, _, _) =>
      if input.id.Some? && input.id.value in t && Imported(t[input.id.value])
      then Some((input.id.value, Decision(input.status != Published, false, at))) else None
    case Show(_, id, show) => Some((id, Decision(!show, false, at)))
    case Moderate(id) => if id in t && Imported(t[id]) then Some((id, Decision(true, true, at))) else None
    case _ => None
  }

  // The node that an operation locks.
  function LockedNode(t: Table, op: Op): Option<NodeId> {
    match op
    case Sync(run, _, _) => Some(run.nodeId)
    case Save(input, _, _) =>
      Some(if input.id.Some? && input.id.value in t then t[input.id.value].ownerNodeId else input.ownerNodeId)
    case Show(nodeId, _, _) => Some(nodeId)
    case DisconnectReads(nodeId) => Some(nodeId)
    case _ => None
  }

  predicate Waits(w: World, op: Op) {
    LockedNode(w.t, op).Some? && LockedNode(w.t, op).value in w.reading
  }

  // The table after an operation that succeeds; None if it fails or its inputs cannot occur. A sync finds its
  // imports by their events, which the invariant of the table makes distinct.
  ghost function TableAfter(canonical: Canonical, w: World, op: Op): Option<Table> {
    match op
    case Sync(run, events, ids) =>
      if Inv(w.t) && |events| == |ids| && FreshIds(w.t, ids) then Some(SyncTable(w.t, run, events, ids)) else None
    case Save(input, generated, first) =>
      if generated in w.t || !IsFirst(w.t, canonical(input.url), first) then None
      else ToOption(SaveActivity(w.t, input, canonical, generated, first))
    case Show(nodeId, id, show) => ToOption(SetLumaVisibility(w.t, nodeId, id, show))
    case DisconnectWrites(nodeId) =>
      if nodeId in w.reading then Some(DisconnectWrite(w.t, w.reading[nodeId].rows)) else None
    case Moderate(id) => ToOption(Unpublish(w.t, id))
    case _ => Some(w.t)
  }

  function ToOption<T, E>(r: Result<T, E>): Option<T> {
    if r.Ok? then Some(r.value) else None
  }

  function ReadingAfter(w: World, op: Op): map<NodeId, Reading> {
    match op
    case DisconnectReads(nodeId) => w.reading[nodeId := Reading(RowsOf(w.t, nodeId), w.clock)]
    case DisconnectWrites(nodeId) => w.reading - {nodeId}
    case DisconnectFails(nodeId) => w.reading - {nodeId}
    case _ => w.reading
  }

  function SpansAfter(w: World, op: Op): seq<Span> {
    if op.DisconnectWrites? && op.nodeId in w.reading
    then w.spans + [Span(w.reading[op.nodeId].rows, w.reading[op.nodeId].from, w.clock)]
    else w.spans
  }

  function Decided(decisions: map<ActivityId, Decision>, d: Option<(ActivityId, Decision)>): map<ActivityId, Decision> {
    if d.Some? then decisions[d.value.0 := d.value.1] else decisions
  }

  // An operation that has to wait for a lock changes nothing yet.
  ghost function Next(canonical: Canonical, w: World, op: Op): World {
    var after := TableAfter(canonical, w, op);
    if Waits(w, op) || after == None then w.(clock := w.clock + 1)
    else World(after.value, Decided(w.decisions, DecisionOf(w.t, op, w.clock)), ReadingAfter(w, op), SpansAfter(w, op), w.clock + 1)
  }

  // --- Lost moderations ---

  ghost predicate ReadShown(rows: Table, id: ActivityId) {
    id in rows && Imported(rows[id]) && rows[id].data.luma.value.hidden == Some(false)
  }

  // The last decision about the import is a moderation that fell between a disconnect's read of it, shown,
  // and that disconnect's write.
  ghost predicate Lost(w: World, id: ActivityId) {
    && id in w.decisions && w.decisions[id].moderated
    && exists k :: 0 <= k < |w.spans| && Overtakes(w.spans[k], w.decisions[id].at, id)
  }

  ghost predicate Overtakes(s: Span, at: nat, id: ActivityId) {
    s.from < at < s.to && ReadShown(s.rows, id)
  }

  function LastDecision(w: World, id: ActivityId): bool {
    if id in w.decisions then w.decisions[id].hidden else true
  }

  // --- The invariant ---

  // While a disconnect is under way, only moderations touch the rows it has read.
  ghost predicate Follows(w: World, r: Reading, nodeId: NodeId, id: ActivityId)
    requires id in r.rows
  {
    && id in w.t && r.rows[id].ownerNodeId == nodeId && Visibility(r.rows[id])
    && (w.t[id] == r.rows[id] || w.t[id] == Unpublished(r.rows[id]))
    && (Imported(r.rows[id]) ==>
          if id in w.decisions && w.decisions[id].at > r.from
          then w.decisions[id].moderated && w.t[id] == Unpublished(r.rows[id])
          else w.t[id] == r.rows[id])
  }

  ghost predicate Times(w: World) {
    && (forall id :: id in w.decisions ==>
          id in w.t && w.decisions[id].at < w.clock && (w.decisions[id].moderated ==> w.decisions[id].hidden))
    && (forall n :: n in w.reading ==> w.reading[n].from < w.clock)
    && (forall k :: 0 <= k < |w.spans| ==> w.spans[k].to < w.clock)
  }

  ghost predicate FlagAsDecided(w: World, id: ActivityId)
    requires id in w.t
  {
    Imported(w.t[id]) ==> w.t[id].data.luma.value.hidden == Some(LastDecision(w, id) && !Lost(w, id))
  }

  ghost predicate Good(w: World) {
    && Inv(w.t) && Times(w)
    && (forall id :: id in w.t ==> FlagAsDecided(w, id))
    && (forall n, id :: n in w.reading && id in w.reading[n].rows ==> Follows(w, w.reading[n], n, id))
  }

  // --- Steps ---

  // An operation that leaves an import's flag, its decision and the spans alone leaves its case alone.
  lemma SameFlag(w: World, after: World, id: ActivityId)
    requires id in w.t && id in after.t && FlagAsDecided(w, id) && after.spans == w.spans
    requires Find(after.decisions, id) == Find(w.decisions, id)
    requires Imported(after.t[id]) == Imported(w.t[id])
    requires Imported(w.t[id]) ==> after.t[id].data.luma.value.hidden == w.t[id].data.luma.value.hidden
    ensures FlagAsDecided(after, id)
  {
  }

  // A decision made now is not lost yet.
  lemma NewDecision(w: World, after: World, id: ActivityId)
    requires Times(w) && after.spans == w.spans && id in after.t && Imported(after.t[id])
    requires id in after.decisions && after.decisions[id].at == w.clock
    requires after.t[id].data.luma.value.hidden == Some(after.decisions[id].hidden)
    ensures FlagAsDecided(after, id)
  {
  }

  lemma SyncGood(canonical: Canonical, w: World, run: Import, events: seq<LumaEvent>, ids: seq<ActivityId>)
    requires Good(w) && |events| == |ids| && FreshIds(w.t, ids) && run.nodeId !in w.reading
    ensures Good(Next(canonical, w, Sync(run, events, ids)))
  {
    SyncNow(canonical, w, run, events, ids);
    SyncKeeps(w.t, run, events, ids);
    TableSynced(w, SyncTable(w.t, run, events, ids), run, EventIds(events, |events|));
  }

  lemma TableSynced(w: World, t: Table, run: Import, listed: set<EventKey>)
    requires Good(w) && run.nodeId !in w.reading && Inv(t)
    requires forall id :: id in w.t ==> id in t && SyncedRow(w.t[id], t[id], run, listed)
    requires forall id :: id in t && id !in w.t ==> RowNew(t[id], run.nodeId, listed)
    ensures Good(w.(t := t, clock := w.clock + 1))
  {
    var after := w.(t := t, clock := w.clock + 1);
    forall id | id in t ensures FlagAsDecided(after, id) {
      if id in w.t {
        assert SyncedRow(w.t[id], t[id], run, listed);
        SameFlag(w, after, id);
      } else {
        assert RowNew(t[id], run.nodeId, listed);
      }
    }
    forall n, id | n in w.reading && id in w.reading[n].rows ensures Follows(after, w.reading[n], n, id) {
      assert Follows(w, w.reading[n], n, id);
      assert SyncedRow(w.t[id], t[id], run, listed);
    }
  }

  // An operation that rewrites one row, and decides about it if it is an import.
  lemma OneRowGood(w: World, after: World, id: ActivityId)
    requires Good(w) && Inv(after.t) && after.reading == w.reading && after.spans == w.spans && after.clock == w.clock + 1
    requires id in after.t && after.t == w.t[id := after.t[id]]
    requires if Imported(after.t[id])
             then && id in w.t && id in after.decisions && after.decisions == w.decisions[id := after.decisions[id]]
                  && after.decisions[id].at == w.clock && (after.decisions[id].moderated ==> after.decisions[id].hidden)
                  && after.t[id].data.luma.value.hidden == Some(after.decisions[id].hidden)
             else after.decisions == w.decisions
    requires forall n :: n in w.reading && id in w.reading[n].rows ==> Follows(after, w.reading[n], n, id)
    ensures Good(after)
  {
    forall x | x in after.t ensures FlagAsDecided(after, x) {
      if x != id {
        SameFlag(w, after, x);
      } else if Imported(after.t[id]) {
        NewDecision(w, after, id);
      }
    }
    forall n, x | n in after.reading && x in after.reading[n].rows ensures Follows(after, after.reading[n], n, x) {
      if x != id {
        assert Follows(w, w.reading[n], n, x);
      }
    }
  }

  // No disconnect under way has read a row of a node that nobody disconnects, or a row that is new.
  lemma NotBeingRead(w: World, id: ActivityId, nodeId: NodeId)
    requires Good(w) && nodeId !in w.reading && (id in w.t ==> w.t[id].ownerNodeId == nodeId)
    ensures forall n :: n in w.reading ==> id !in w.reading[n].rows
  {
    assert forall n :: n in w.reading && id in w.reading[n].rows ==> Follows(w, w.reading[n], n, id);
  }

  lemma SaveGood(canonical: Canonical, w: World, input: SaveInput, generated: ActivityId, first: Option<ActivityId>)
    requires Good(w) && generated !in w.t && IsFirst(w.t, canonical(input.url), first)
    requires SaveActivity(w.t, input, canonical, generated, first).Ok? && !Waits(w, Save(input, generated, first))
    ensures Good(Next(canonical, w, Save(input, generated, first)))
  {
    SaveKeeps(w.t, input, canonical, generated, first);
    var after := Next(canonical, w, Save(input, generated, first));
    var data := SavedData(w.t, input, canonical, generated);
    assert after.t == w.t[data.id := Row(data.ownerNodeId, data.url, data)];
    NotBeingRead(w, data.id, data.ownerNodeId);
    OneRowGood(w, after, data.id);
  }

  lemma ShowGood(canonical: Canonical, w: World, nodeId: NodeId, id: ActivityId, show: bool)
    requires Good(w) && SetLumaVisibility(w.t, nodeId, id, show).Ok? && nodeId !in w.reading
    ensures Good(Next(canonical, w, Show(nodeId, id, show)))
  {
    VisibilityKeeps(w.t, nodeId, id, show);
    var after := Next(canonical, w, Show(nodeId, id, show));
    NotBeingRead(w, id, nodeId);
    OneRowGood(w, after, id);
  }

  lemma ModerateGood(canonical: Canonical, w: World, id: ActivityId)
    requires Good(w) && id in w.t
    ensures Good(Next(canonical, w, Moderate(id)))
  {
    UnpublishKeeps(w.t, id);
    var after := Next(canonical, w, Moderate(id));
    forall n | n in w.reading && id in w.reading[n].rows ensures Follows(after, w.reading[n], n, id) {
      assert Follows(w, w.reading[n], n, id);
    }
    OneRowGood(w, after, id);
  }

  lemma ReadGood(canonical: Canonical, w: World, nodeId: NodeId)
    requires Good(w) && nodeId !in w.reading
    ensures Good(Next(canonical, w, DisconnectReads(nodeId)))
  {
    var after := Next(canonical, w, DisconnectReads(nodeId));
    forall n, id | n in after.reading && id in after.reading[n].rows ensures Follows(after, after.reading[n], n, id) {
      assert n != nodeId ==> Follows(w, w.reading[n], n, id);
    }
    forall id | id in after.t ensures FlagAsDecided(after, id) {
      SameFlag(w, after, id);
    }
  }

  // A row of the node being disconnected, before and after the write.
  lemma WriteRow(w: World, nodeId: NodeId, id: ActivityId)
    requires Good(w) && nodeId in w.reading && id in w.t
    ensures var rows := w.reading[nodeId].rows;
            var after := DisconnectWrite(w.t, rows)[id];
            && SameIdentity(w.t[id], after) && Visibility(after)
            && (id !in rows || !Imported(rows[id]) ==> after == w.t[id])
            && (id in rows && Imported(rows[id]) ==>
                  Imported(w.t[id]) && after.data.luma.value.hidden == rows[id].data.luma.value.hidden)
  {
    if id in w.reading[nodeId].rows {
      assert Follows(w, w.reading[nodeId], nodeId, id);
    }
    assert FlagAsDecided(w, id) && Visibility(w.t[id]);
  }

  lemma WriteFlag(canonical: Canonical, w: World, nodeId: NodeId, id: ActivityId)
    requires Good(w) && nodeId in w.reading && id in w.t
    ensures FlagAsDecided(Next(canonical, w, DisconnectWrites(nodeId)), id)
  {
    var after := Next(canonical, w, DisconnectWrites(nodeId));
    var r := w.reading[nodeId];
    WriteRow(w, nodeId, id);
    LostAfterWrite(w, after, id, Span(r.rows, r.from, w.clock));
    if id in r.rows && Imported(r.rows[id]) {
      ReadFlag(w, after, nodeId, id);
    } else {
      assert after.t[id] == w.t[id] && FlagAsDecided(w, id);
    }
  }

  // An import that the disconnect read gets the flag that was read: its own, or the one from before a
  // moderation.
  lemma ReadFlag(w: World, after: World, nodeId: NodeId, id: ActivityId)
    requires Good(w) && nodeId in w.reading && id in w.reading[nodeId].rows && Imported(w.reading[nodeId].rows[id])
    requires id in after.t && Imported(after.t[id]) && after.decisions == w.decisions
    requires after.t[id].data.luma.value.hidden == w.reading[nodeId].rows[id].data.luma.value.hidden
    requires var s := Span(w.reading[nodeId].rows, w.reading[nodeId].from, w.clock);
             Lost(after, id) == (Lost(w, id) ||
               (id in w.decisions && w.decisions[id].moderated && Overtakes(s, w.decisions[id].at, id)))
    ensures FlagAsDecided(after, id)
  {
    var r := w.reading[nodeId];
    assert Follows(w, r, nodeId, id) && FlagAsDecided(w, id);
    if id in w.decisions && w.decisions[id].at > r.from {
      // The moderation was in force, so it was not lost before.
      assert w.t[id].data.luma.value.hidden == Some(true) && !Lost(w, id);
      assert LastDecision(after, id) && Visibility(r.rows[id]);
      var hidden := r.rows[id].data.luma.value.hidden.value;
      assert r.rows[id].data.luma.value.hidden == Some(hidden);
      assert hidden == !Lost(after, id);
    } else {
      assert w.t[id] == r.rows[id];
      assert Lost(after, id) <==> Lost(w, id);
    }
  }

  lemma LostAfterWrite(w: World, after: World, id: ActivityId, s: Span)
    requires after.decisions == w.decisions && after.spans == w.spans + [s]
    ensures Lost(after, id) <==>
      Lost(w, id) || (id in w.decisions && w.decisions[id].moderated && Overtakes(s, w.decisions[id].at, id))
  {
    assert after.spans[|w.spans|] == s;
    assert forall k :: 0 <= k < |w.spans| ==> after.spans[k] == w.spans[k];
  }

  lemma WriteGood(canonical: Canonical, w: World, nodeId: NodeId)
    requires Good(w) && nodeId in w.reading
    ensures Good(Next(canonical, w, DisconnectWrites(nodeId)))
  {
    var after := Next(canonical, w, DisconnectWrites(nodeId));
    forall id | id in w.t ensures SameIdentity(w.t[id], after.t[id]) && Visibility(after.t[id]) {
      WriteRow(w, nodeId, id);
    }
    RewritesKeepInv(w.t, after.t);
    forall id | id in after.t ensures FlagAsDecided(after, id) {
      WriteFlag(canonical, w, nodeId, id);
    }
    OthersFollow(canonical, w, nodeId);
  }

  lemma OthersFollow(canonical: Canonical, w: World, nodeId: NodeId)
    requires Good(w) && nodeId in w.reading
    ensures var after := Next(canonical, w, DisconnectWrites(nodeId));
            forall n, id :: n in after.reading && id in after.reading[n].rows ==> Follows(after, after.reading[n], n, id)
  {
    var after := Next(canonical, w, DisconnectWrites(nodeId));
    forall n, id | n in after.reading && id in after.reading[n].rows ensures Follows(after, after.reading[n], n, id) {
      assert Follows(w, w.reading[n], n, id);
      if id in w.reading[nodeId].rows {
        assert Follows(w, w.reading[nodeId], nodeId, id);
      }
    }
  }

  lemma IdleGood(w: World, after: World)
    requires Good(w) && after.t == w.t && after.decisions == w.decisions && after.spans == w.spans && after.clock == w.clock + 1
    requires after.reading.Keys <= w.reading.Keys && forall n :: n in after.reading ==> after.reading[n] == w.reading[n]
    ensures Good(after)
  {
    forall id | id in after.t ensures FlagAsDecided(after, id) {
      SameFlag(w, after, id);
    }
    forall n, id | n in after.reading && id in after.reading[n].rows ensures Follows(after, after.reading[n], n, id) {
      assert Follows(w, w.reading[n], n, id);
    }
  }

  lemma FailGood(canonical: Canonical, w: World, nodeId: NodeId)
    requires Good(w)
    ensures Good(Next(canonical, w, DisconnectFails(nodeId)))
  {
    IdleGood(w, Next(canonical, w, DisconnectFails(nodeId)));
  }

  lemma NextGood(canonical: Canonical, w: World, op: Op)
    requires Good(w)
    ensures Good(Next(canonical, w, op))
  {
    if Waits(w, op) || TableAfter(canonical, w, op) == None {
      IdleGood(w, w.(clock := w.clock + 1));
    } else {
      match op {
        case Sync(run, events, ids) => SyncGood(canonical, w, run, events, ids);
        case Save(input, generated, first) => SaveGood(canonical, w, input, generated, first);
        case Show(nodeId, id, show) => ShowGood(canonical, w, nodeId, id, show);
        case DisconnectReads(nodeId) => ReadGood(canonical, w, nodeId);
        case DisconnectWrites(nodeId) => WriteGood(canonical, w, nodeId);
        case DisconnectFails(nodeId) => FailGood(canonical, w, nodeId);
        case Moderate(id) => ModerateGood(canonical, w, id);
      }
    }
  }

  ghost function Run(canonical: Canonical, w: World, ops: seq<Op>): World
    decreases |ops|
  {
    if ops == [] then w else Run(canonical, Next(canonical, w, ops[0]), ops[1..])
  }

  lemma {:induction false} GoodInEveryRun(canonical: Canonical, w: World, ops: seq<Op>)
    requires Good(w)
    ensures Good(Run(canonical, w, ops))
    decreases |ops|
  {
    if ops != [] {
      NextGood(canonical, w, ops[0]);
      GoodInEveryRun(canonical, Next(canonical, w, ops[0]), ops[1..]);
    }
  }

  // --- An operation alone ---

  // Nothing in between: a disconnect withdraws the node's imports, as the service's transaction does, and every
  // other activity stays.
  lemma DisconnectAlone(canonical: Canonical, w: World, nodeId: NodeId)
    requires nodeId !in w.reading
    ensures var after := Next(canonical, Next(canonical, w, DisconnectReads(nodeId)), DisconnectWrites(nodeId));
            && after.t == DisconnectLuma(w.t, nodeId) && after.t.Keys == w.t.Keys
            && after.decisions == w.decisions && after.reading == w.reading
            && forall id :: id in w.t ==>
                 if w.t[id].ownerNodeId == nodeId && w.t[id].data.luma.Some?
                 then WithdrawnAs(w.t[id], after.t[id], w.t[id].data.luma.value.syncedAt) else after.t[id] == w.t[id]
  {
    var read := Next(canonical, w, DisconnectReads(nodeId));
    assert read.reading[nodeId].rows == RowsOf(w.t, nodeId) && read.t == w.t;
    assert read.reading - {nodeId} == w.reading;
  }

  ghost predicate IsAt(t: Table, op: Op, nodeId: NodeId) {
    match op
    case Sync(run, _, _) => run.nodeId == nodeId
    case Save(input, _, _) =>
      if input.id.Some? && input.id.value in t then t[input.id.value].ownerNodeId == nodeId else input.ownerNodeId == nodeId
    case Show(n, _, _) => n == nodeId
    case DisconnectReads(n) => n == nodeId
    case _ => false
  }

  // While a node is being disconnected, nobody syncs it, shows or hides its imports, saves one of its activities
  // or disconnects it; a disconnect that fails lets them.
  lemma OthersWait(canonical: Canonical, w: World, nodeId: NodeId, op: Op)
    requires nodeId in w.reading && IsAt(w.t, op, nodeId)
    ensures Next(canonical, w, op) == w.(clock := w.clock + 1)
    ensures var freed := Next(canonical, w, DisconnectFails(nodeId));
            freed.t == w.t && freed.reading == w.reading - {nodeId} && freed.decisions == w.decisions && freed.spans == w.spans
  {
  }

  // Otherwise an operation does to the table what the service does, and a decision is remembered with its time.
  lemma OperationAlone(canonical: Canonical, w: World, op: Op)
    requires Inv(w.t) && w.reading == map[]
    ensures op.Sync? && |op.events| == |op.ids| && FreshIds(w.t, op.ids) ==>
              Next(canonical, w, op).t == SyncTable(w.t, op.run, op.events, op.ids) && Next(canonical, w, op).decisions == w.decisions
    ensures op.Save? && op.generated !in w.t && IsFirst(w.t, canonical(op.input.url), op.first) ==>
              var saved := SaveActivity(w.t, op.input, canonical, op.generated, op.first);
              Next(canonical, w, op).t == if saved.Ok? then saved.value else w.t
    ensures op.Show? ==>
              var shown := SetLumaVisibility(w.t, op.nodeId, op.id, op.show);
              && Next(canonical, w, op).t == (if shown.Ok? then shown.value else w.t)
              && (shown.Ok? ==> Find(Next(canonical, w, op).decisions, op.id) == Some(Decision(!op.show, false, w.clock)))
    ensures op.Moderate? && op.id in w.t ==>
              && Next(canonical, w, op).t == w.t[op.id := Unpublished(w.t[op.id])]
              && (Imported(w.t[op.id]) ==> Find(Next(canonical, w, op).decisions, op.id) == Some(Decision(true, true, w.clock)))
    ensures op.Moderate? && op.id !in w.t ==> Next(canonical, w, op).t == w.t
  {
  }

  // Saving an import is a decision: to show it exactly if it is published.
  lemma SavingDecides(canonical: Canonical, w: World, op: Op)
    requires op.Save? && w.reading == map[] && op.generated !in w.t && IsFirst(w.t, canonical(op.input.url), op.first)
    requires op.input.id.Some? && op.input.id.value in w.t && Imported(w.t[op.input.id.value])
    requires SaveActivity(w.t, op.input, canonical, op.generated, op.first).Ok?
    ensures Find(Next(canonical, w, op).decisions, op.input.id.value) == Some(Decision(!op.input.status.Published?, false, w.clock))
  {
  }

  // --- What holds in every run ---

  // In every reachable state, an import's hidden flag differs from the last decision about it exactly if that
  // decision is a moderation lost to a disconnect, and then the import is shown.
  lemma FlagIsLastDecision(canonical: Canonical, ops: seq<Op>, id: ActivityId)
    requires id in Run(canonical, EMPTY, ops).t && Imported(Run(canonical, EMPTY, ops).t[id])
    ensures var w := Run(canonical, EMPTY, ops);
            var hidden := w.t[id].data.luma.value.hidden;
            && (hidden != Some(LastDecision(w, id)) <==> Lost(w, id))
            && (Lost(w, id) ==> hidden == Some(false))
  {
    GoodInEveryRun(canonical, EMPTY, ops);
    assert FlagAsDecided(Run(canonical, EMPTY, ops), id);
  }

  // A published import is listed on Luma and not hidden.
  lemma PublishedIsVisible(canonical: Canonical, ops: seq<Op>, id: ActivityId)
    requires id in Run(canonical, EMPTY, ops).t && Imported(Run(canonical, EMPTY, ops).t[id])
    requires Run(canonical, EMPTY, ops).t[id].data.status == Published
    ensures var w := Run(canonical, EMPTY, ops);
            var link := w.t[id].data.luma.value;
            link.available && link.hidden == Some(false) && (!LastDecision(w, id) || Lost(w, id))
  {
    GoodInEveryRun(canonical, EMPTY, ops);
    var w := Run(canonical, EMPTY, ops);
    assert Visibility(w.t[id]) && FlagAsDecided(w, id);
  }

  // An operation that is no decision about `id` leaves its flag alone, unless it is the write of a disconnect
  // to which its moderation is lost.
  lemma OnlyDecisionsHide(canonical: Canonical, w: World, op: Op, id: ActivityId)
    requires Good(w) && id in w.t && Imported(w.t[id])
    requires DecisionOf(w.t, op, w.clock).None? || DecisionOf(w.t, op, w.clock).value.0 != id
    ensures var w' := Next(canonical, w, op);
            && id in w'.t && Imported(w'.t[id])
            && (w'.t[id].data.luma.value.hidden == w.t[id].data.luma.value.hidden ||
                (op.DisconnectWrites? && !Lost(w, id) && Lost(w', id)))
  {
    if op.DisconnectWrites? && op.nodeId in w.reading {
      WriteMayLose(canonical, w, op.nodeId, id);
    } else if op.Sync? && !Waits(w, op) && TableAfter(canonical, w, op).Some? {
      SyncNow(canonical, w, op.run, op.events, op.ids);
      SyncKeeps(w.t, op.run, op.events, op.ids);
    }
    assert id in Next(canonical, w, op).t;
  }

  lemma WriteMayLose(canonical: Canonical, w: World, nodeId: NodeId, id: ActivityId)
    requires Good(w) && nodeId in w.reading && id in w.t && Imported(w.t[id])
    ensures var w' := Next(canonical, w, DisconnectWrites(nodeId));
            && id in w'.t && Imported(w'.t[id])
            && (w'.t[id].data.luma.value.hidden == w.t[id].data.luma.value.hidden || (!Lost(w, id) && Lost(w', id)))
  {
    var w' := Next(canonical, w, DisconnectWrites(nodeId));
    WriteRow(w, nodeId, id);
    WriteFlag(canonical, w, nodeId, id);
    LostAfterWrite(w, w', id, Span(w.reading[nodeId].rows, w.reading[nodeId].from, w.clock));
    assert FlagAsDecided(w, id);
  }

  // A sync that finds the event again publishes it exactly if the last decision was to show it or was lost,
  // unless it leaves the activity as it was because its link is taken.
  lemma RelistedAsDecided(canonical: Canonical, w: World, run: Import, events: seq<LumaEvent>, ids: seq<ActivityId>, id: ActivityId)
    requires Good(w) && |events| == |ids| && FreshIds(w.t, ids)
    requires id in w.t && Imported(w.t[id]) && w.t[id].ownerNodeId == run.nodeId
    requires w.t[id].data.luma.value.eventId in EventIds(events, |events|)
    ensures var after := SyncTable(w.t, run, events, ids);
            id in after && AsDecided(w.t[id], after[id], LastDecision(w, id) && !Lost(w, id))
  {
    SyncKeeps(w.t, run, events, ids);
    assert FlagAsDecided(w, id);
    SyncedAsDecided(w.t[id], SyncTable(w.t, run, events, ids)[id], run, EventIds(events, |events|),
                    LastDecision(w, id) && !Lost(w, id));
  }

  ghost predicate AsDecided(row: Row, after: Row, hidden: bool) {
    after == row || (Imported(after) && after.data.luma.value.available && (after.data.status == Published <==> !hidden))
  }

  lemma SyncedAsDecided(row: Row, after: Row, run: Import, listed: set<EventKey>, hidden: bool)
    requires SyncedRow(row, after, run, listed) && Imported(row) && row.ownerNodeId == run.nodeId
    requires row.data.luma.value.eventId in listed && row.data.luma.value.hidden == Some(hidden)
    ensures AsDecided(row, after, hidden)
  {
  }

  // --- The two public reads ---

  // `eligible`: the node's profile is published and its tenant active.
  function PublicActivity(t: Table, id: ActivityId, now: Time, eligible: NodeId -> bool): Option<Activity> {
    if id !in t then None
    else
      var a := t[id].data;
      if a.status == Draft || (a.luma.Some? && !a.luma.value.available) || (a.luma.Some? && a.luma.value.hidden == Some(true))
         || a.publishedAt > now || !eligible(a.ownerNodeId)
      then None
      else Some(a.(nodeIds := set n | n in a.nodeIds && eligible(n)))
  }

  // The directory's query, which does not look at `available`.
  predicate DirectoryLists(t: Table, id: ActivityId, now: Time, eligible: NodeId -> bool) {
    && id in t
    && eligible(t[id].ownerNodeId)
    && t[id].data.status == Published
    && !(t[id].data.luma.Some? && t[id].data.luma.value.hidden == Some(true))
    && t[id].data.publishedAt <= now
  }

  lemma ReadsAgree(canonical: Canonical, ops: seq<Op>, id: ActivityId, now: Time, eligible: NodeId -> bool)
    ensures var t := Run(canonical, EMPTY, ops).t;
            DirectoryLists(t, id, now, eligible)
            <==> PublicActivity(t, id, now, eligible).Some? && PublicActivity(t, id, now, eligible).value.status == Published
  {
    GoodInEveryRun(canonical, EMPTY, ops);
    var t := Run(canonical, EMPTY, ops).t;
    if id in t {
      assert Visibility(t[id]);
    }
  }

  // The single read never shows a draft, an import that is hidden or that Luma does not list, an activity before its
  // time, or one of an owner who is not eligible; any other it shows, at the eligible ones of its nodes.
  lemma PublicReadShows(t: Table, id: ActivityId, now: Time, eligible: NodeId -> bool)
    requires id in t
    ensures var a := t[id].data;
            var kept := a.status.Draft? || now < a.publishedAt || !eligible(a.ownerNodeId) ||
                        (a.luma.Some? && (a.luma.value.hidden == Some(true) || !a.luma.value.available));
            if kept then PublicActivity(t, id, now, eligible).None?
            else && PublicActivity(t, id, now, eligible).Some?
                 && var shown := PublicActivity(t, id, now, eligible).value;
                    shown == a.(nodeIds := shown.nodeIds) && forall n :: n in shown.nodeIds <==> n in a.nodeIds && eligible(n)
    ensures var a := t[id].data;
            DirectoryLists(t, id, now, eligible) <==>
              a.status.Published? && a.publishedAt <= now && eligible(t[id].ownerNodeId) &&
              (a.luma.Some? ==> a.luma.value.hidden != Some(true))
  {
  }

  // A saved activity is on the public reads exactly if it was saved as published, from its time on, for an
  // eligible owner.
  lemma SavedIsShown(
    t: Table, input: SaveInput, canonical: Canonical, generated: ActivityId, first: Option<ActivityId>, now: Time,
    eligible: NodeId -> bool
  )
    requires generated !in t && SaveActivity(t, input, canonical, generated, first).Ok?
    ensures var after := SaveActivity(t, input, canonical, generated, first).value;
            var id := if input.id.Some? then input.id.value else generated;
            var shown := input.status.Published? && eligible(input.ownerNodeId) && input.publishedAt <= now;
            && (DirectoryLists(after, id, now, eligible) <==> shown)
            && (shown ==> PublicActivity(after, id, now, eligible).Some? &&
                          PublicActivity(after, id, now, eligible).value.details == input.details)
            && (input.status.Draft? ==> PublicActivity(after, id, now, eligible).None?)
  {
    SavedIsStored(t, input, canonical, generated, first);
  }

  // --- A lost moderation ---

  const DETAILS: Details := Details("Meetup", "", "Luma", Some(0), Some(1), "UTC", "Lisbon")

  const MEETUP: LumaEvent := LumaEvent("evt", "u", 0, DETAILS)

  // The event's activity, whose link is `u`.
  function Listed(u: Url): Row {
    Row(1, u, Activity(9, 1, {1}, EventKind, DETAILS, u, 0, Draft, Some(LumaLink("cal", "evt", 0, true, Some(true)))))
  }

  function Shown(u: Url): Row {
    Row(1, u, Activity(9, 1, {1}, EventKind, DETAILS, u, 0, Published, Some(LumaLink("cal", "evt", 0, true, Some(false)))))
  }

  // An activity with no other at its node is published again when its event is listed, if it is not hidden.
  lemma RelistedAlone(t: Table, run: Import, event: LumaEvent, ids: seq<ActivityId>, id: ActivityId)
    requires Inv(t) && t.Keys == {id} && |ids| == 1 && ids[0] != id
    requires Imported(t[id]) && t[id].ownerNodeId == run.nodeId
    requires t[id].data.luma.value.eventId == event.id && t[id].data.luma.value.hidden == Some(false)
    ensures id in SyncTable(t, run, [event], ids) && SyncTable(t, run, [event], ids)[id].data.status == Published
  {
    var existing := RowsOf(t, run.nodeId);
    var byId := ByNode(t, run.nodeId);
    assert id in existing && event.id in byId;
    assert IsPrevious(existing, event.id, byId[event.id]);
    assert byId[event.id] == id;
    ImportEventsKeep(t, run, existing, byId, [event], ids, 0);
    var start := ImportEvents(t, run, existing, byId, [event], ids, 0);
    var drawn, row := ImportEventIs(start, t, run, existing, byId, FirstIds(ids, 0), event, ids[0]);
    assert !LinkTaken(start.table, run.nodeId, row.canonicalUrl, id);
    var p := ImportEvents(t, run, existing, byId, [event], ids, 1);
    assert p == ImportEvent(start, run, existing, byId, event, ids[0]);
    assert p.table[id] == row;
    assert !Vanished(existing, p.seen, id);
  }

  function AfterImport(u: Url): World { World(map[9 := Listed(u)], map[], map[], [], 1) }

  function AfterShow(u: Url): World { World(map[9 := Shown(u)], map[9 := Decision(false, false, 1)], map[], [], 2) }

  function AfterRead(u: Url): World {
    World(map[9 := Shown(u)], map[9 := Decision(false, false, 1)], map[1 := Reading(map[9 := Shown(u)], 2)], [], 3)
  }

  function AfterModeration(u: Url): World {
    World(map[9 := Unpublished(Shown(u))], map[9 := Decision(true, true, 3)],
          map[1 := Reading(map[9 := Shown(u)], 2)], [], 4)
  }

  function AfterWrite(u: Url): World {
    World(map[9 := Withdrawn(Shown(u), None)], map[9 := Decision(true, true, 3)], map[],
          [Span(map[9 := Shown(u)], 2, 4)], 5)
  }

  lemma FirstImport(canonical: Canonical)
    ensures SyncTable(map[], Import(1, "cal", 0, canonical), [MEETUP], [9]) == map[9 := Listed(canonical("u"))]
  {
    var run, none: Table := Import(1, "cal", 0, canonical), map[];
    assert RowsOf(none, 1) == none && ByNode(none, 1) == map[];
    var start := ImportEvents(none, run, none, map[], [MEETUP], [9], 0);
    assert ImportEvents(none, run, none, map[], [MEETUP], [9], 1) == ImportEvent(start, run, none, map[], MEETUP, 9);
  }

  lemma SyncFirst(canonical: Canonical)
    ensures Next(canonical, EMPTY, Sync(Import(1, "cal", 0, canonical), [MEETUP], [9])) == AfterImport(canonical("u"))
  {
    FirstImport(canonical);
    SyncNow(canonical, EMPTY, Import(1, "cal", 0, canonical), [MEETUP], [9]);
  }

  lemma ShowStep(canonical: Canonical, u: Url)
    ensures Next(canonical, AfterImport(u), Show(1, 9, true)) == AfterShow(u)
  {
  }

  lemma ReadStep(canonical: Canonical, u: Url)
    ensures Next(canonical, AfterShow(u), DisconnectReads(1)) == AfterRead(u)
  {
    assert RowsOf(AfterShow(u).t, 1) == AfterShow(u).t;
  }

  lemma ModerateStep(canonical: Canonical, u: Url)
    ensures Next(canonical, AfterRead(u), Moderate(9)) == AfterModeration(u)
  {
  }

  lemma WrittenBack(u: Url)
    ensures DisconnectWrite(AfterModeration(u).t, map[9 := Shown(u)]) == AfterWrite(u).t
  {
    assert DisconnectWrite(AfterModeration(u).t, map[9 := Shown(u)])[9] == Withdrawn(Shown(u), None);
  }

  lemma WriteStep(canonical: Canonical, u: Url)
    ensures Next(canonical, AfterModeration(u), DisconnectWrites(1)) == AfterWrite(u)
  {
    WrittenBack(u);
    assert AfterModeration(u).reading - {1} == map[];
  }

  lemma RelistStep(canonical: Canonical, u: Url, run: Import, ids: seq<ActivityId>)
    requires Good(AfterWrite(u)) && |ids| == 1 && ids[0] != 9 && run.nodeId == 1
    ensures var w := Next(canonical, AfterWrite(u), Sync(run, [MEETUP], ids));
            9 in w.t && w.t[9].data.status == Published && LastDecision(w, 9)
  {
    assert AfterWrite(u).t.Keys == {9} && FreshIds(AfterWrite(u).t, ids);
    RelistedAlone(AfterWrite(u).t, run, MEETUP, ids, 9);
    SyncNow(canonical, AfterWrite(u), run, [MEETUP], ids);
  }

  lemma TwoRun(canonical: Canonical, w0: World, w1: World, w2: World, op1: Op, op2: Op, rest: seq<Op>)
    requires Next(canonical, w0, op1) == w1 && Next(canonical, w1, op2) == w2
    ensures Run(canonical, w0, [op1, op2] + rest) == Run(canonical, w2, rest)
  {
    assert [op1, op2] + rest == [op1] + ([op2] + rest);
    RunStep(canonical, w0, op1, [op2] + rest);
    RunStep(canonical, w1, op2, rest);
  }

  lemma LastThree(canonical: Canonical, u: Url)
    ensures Run(canonical, AfterShow(u), [DisconnectReads(1), Moderate(9)] + ([DisconnectWrites(1)] + [])) == AfterWrite(u)
  {
    ReadStep(canonical, u);
    ModerateStep(canonical, u);
    WriteStep(canonical, u);
    TwoRun(canonical, AfterShow(u), AfterRead(u), AfterModeration(u), DisconnectReads(1), Moderate(9), [DisconnectWrites(1)] + []);
    RunStep(canonical, AfterModeration(u), DisconnectWrites(1), []);
  }

  lemma FiveSteps(canonical: Canonical) returns (ops: seq<Op>)
    ensures ops == [Sync(Import(1, "cal", 0, canonical), [MEETUP], [9]), Show(1, 9, true), DisconnectReads(1), Moderate(9),
                    DisconnectWrites(1)]
    ensures Run(canonical, EMPTY, ops) == AfterWrite(canonical("u"))
  {
    var u := canonical("u");
    var first := Sync(Import(1, "cal", 0, canonical), [MEETUP], [9]);
    ops := [first, Show(1, 9, true)] + ([DisconnectReads(1), Moderate(9)] + ([DisconnectWrites(1)] + []));
    SyncFirst(canonical);
    ShowStep(canonical, u);
    TwoRun(canonical, EMPTY, AfterImport(u), AfterShow(u), first, Show(1, 9, true), ops[2..]);
    LastThree(canonical, u);
    assert ops[2..] == [DisconnectReads(1), Moderate(9)] + ([DisconnectWrites(1)] + []);
  }

  // A moderator hides an activity between the read and the write of a disconnect; when the calendar is
  // connected again the activity is published.
  lemma ModerationLost(canonical: Canonical, ids: seq<ActivityId>) returns (ops: seq<Op>)
    requires |ids| == 1 && ids[0] != 9
    ensures |ops| == 6 && ops[2] == DisconnectReads(1) && ops[3] == Moderate(9) && ops[4] == DisconnectWrites(1)
    ensures var w := Run(canonical, EMPTY, ops);
            9 in w.t && w.t[9].data.status == Published && LastDecision(w, 9)
  {
    var five := FiveSteps(canonical);
    var again := Sync(Import(1, "cal", 1, canonical), [MEETUP], ids);
    ops := five + [again];
    GoodInEveryRun(canonical, EMPTY, five);
    RunThen(canonical, EMPTY, five, again);
    RelistStep(canonical, canonical("u"), Import(1, "cal", 1, canonical), ids);
  }

  lemma {:induction false} RunThen(canonical: Canonical, w: World, ops: seq<Op>, last: Op)
    ensures Run(canonical, w, ops + [last]) == Next(canonical, Run(canonical, w, ops), last)
    decreases |ops|
  {
    if ops == [] {
      assert ops + [last] == [last] + [];
      RunStep(canonical, w, last, []);
    } else {
      assert ops + [last] == [ops[0]] + (ops[1..] + [last]);
      RunStep(canonical, w, ops[0], ops[1..] + [last]);
      RunThen(canonical, Next(canonical, w, ops[0]), ops[1..], last);
    }
  }

  lemma SyncNow(canonical: Canonical, w: World, run: Import, events: seq<LumaEvent>, ids: seq<ActivityId>)
    requires Inv(w.t) && run.nodeId !in w.reading && |events| == |ids| && FreshIds(w.t, ids)
    ensures Next(canonical, w, Sync(run, events, ids)) == w.(t := SyncTable(w.t, run, events, ids), clock := w.clock + 1)
  {
  }

  lemma RunStep(canonical: Canonical, w: World, op: Op, rest: seq<Op>)
    ensures Run(canonical, w, [op] + rest) == Run(canonical, Next(canonical, w, op), rest)
  {
    assert ([op] + rest)[1..] == rest;
  }
}
