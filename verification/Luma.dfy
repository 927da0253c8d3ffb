/**
 Activities on the public directory: those an organizer writes, and those imported from a Luma calendar.
 Import, withdrawal, disconnecting, saving, showing or hiding, and moderation all write the same three
 fields of an imported activity: its status, whether Luma still lists it, and whether it is hidden.
 Every operation is one transaction; the unique indexes are part of the state.
 */
module Luma {
  import opened Wrappers

  type NodeId = nat
  type ActivityId = nat
  type EventKey = string
  type Url = string
  type Time = int
  // The canonical form of a link; nothing is assumed about it, not even that it is idempotent.
  type Canonical = Url -> Url

  datatype Status = Draft | Published | Cancelled

  datatype Kind = EventKind | SocialKind

  datatype LumaLink = LumaLink(calendarId: string, eventId: EventKey, syncedAt: Time, available: bool, hidden: Option<bool>)

  // The fields of an activity that the lifecycle does not look into.
  datatype Details = Details(
    title: string, summary: string, source: string, startsAt: Option<Time>, endsAt: Option<Time>, timezone: string, venue: string)

  datatype Activity = Activity(
    id: ActivityId, ownerNodeId: NodeId, nodeIds: set<NodeId>, kind: Kind, details: Details, url: Url, publishedAt: Time,
    status: Status, luma: Option<LumaLink>)

  datatype Row = Row(ownerNodeId: NodeId, canonicalUrl: Url, data: Activity)

  type Table = map<ActivityId, Row>

  // --- Invariants ---

  predicate Imported(row: Row) { row.data.luma.Some? }

  // Each row's columns agree with its data.
  ghost predicate Columns(t: Table) {
    forall id :: id in t ==>
      t[id].data.id == id && t[id].data.ownerNodeId == t[id].ownerNodeId && t[id].data.url == t[id].canonicalUrl
  }

  // discovery_luma_node_url, and more: a node uses a link once, be it for an imported or a manual activity.
  ghost predicate LinkOncePerNode(t: Table) {
    forall a, b :: a in t && b in t && t[a].ownerNodeId == t[b].ownerNodeId && t[a].canonicalUrl == t[b].canonicalUrl ==> a == b
  }

  // discovery_manual_url.
  ghost predicate ManualLinkOnce(t: Table) {
    forall a, b :: a in t && b in t && !Imported(t[a]) && !Imported(t[b]) && t[a].canonicalUrl == t[b].canonicalUrl ==> a == b
  }

  ghost predicate EventOncePerNode(t: Table) {
    forall a, b :: a in t && b in t && SameEvent(t[a], t[b]) ==> a == b
  }

  ghost predicate SameEvent(r: Row, q: Row) {
    && Imported(r) && Imported(q) && r.ownerNodeId == q.ownerNodeId
    && r.data.luma.value.eventId == q.data.luma.value.eventId
  }

  // A published import is listed on Luma and not hidden.
  ghost predicate Visibility(row: Row) {
    Imported(row) ==>
      && row.data.luma.value.hidden.Some?
      && (row.data.status == Published ==> row.data.luma.value.available && row.data.luma.value.hidden == Some(false))
  }

  ghost predicate Inv(t: Table) {
    && Columns(t) && LinkOncePerNode(t) && ManualLinkOnce(t) && EventOncePerNode(t)
    && forall id :: id in t ==> Visibility(t[id])
  }

  // --- Importing a calendar ---

  datatype LumaEvent = LumaEvent(id: EventKey, url: Url, createdAt: Time, details: Details)

  datatype Import = Import(nodeId: NodeId, calendarId: string, syncedAt: Time, canonical: Canonical)

  datatype Counts = Counts(imported: nat, updated: nat, withdrawn: nat, skipped: nat)

  datatype Progress = Progress(table: Table, seen: set<EventKey>, counts: Counts)

  function RowsOf(t: Table, nodeId: NodeId): Table {
    map id | id in t && t[id].ownerNodeId == nodeId :: t[id]
  }

  // The imported row of an event among the rows read at the start.
  ghost predicate IsPrevious(existing: Table, event: EventKey, id: ActivityId) {
    id in existing && Imported(existing[id]) && existing[id].data.luma.value.eventId == event
  }

  function ImportedById(existing: Table, nodeId: NodeId): (m: map<EventKey, ActivityId>)
    requires EventOncePerNode(existing) && forall id :: id in existing ==> existing[id].ownerNodeId == nodeId
    ensures forall event :: event in m ==> IsPrevious(existing, event, m[event])
    ensures forall id :: id in existing && Imported(existing[id]) ==> existing[id].data.luma.value.eventId in m
  {
    map id | id in existing && Imported(existing[id]) :: existing[id].data.luma.value.eventId := id
  }

  function HiddenOf(previous: Option<Row>): bool {
    if previous.Some? && Imported(previous.value) && previous.value.data.luma.value.hidden.Some?
    then previous.value.data.luma.value.hidden.value
    else true
  }

  function ImportedData(i: Import, event: LumaEvent, id: ActivityId, previous: Option<Row>): Activity {
    var hidden := HiddenOf(previous);
    Activity(
      id, i.nodeId, if previous.Some? then previous.value.data.nodeIds else {i.nodeId}, EventKind, event.details,
      i.canonical(event.url), event.createdAt, if hidden then Draft else Published,
      Some(LumaLink(i.calendarId, event.id, i.syncedAt, true, Some(hidden))))
  }

  predicate LinkTaken(t: Table, nodeId: NodeId, url: Url, id: ActivityId) {
    exists other | other in t :: other != id && t[other].ownerNodeId == nodeId && t[other].canonicalUrl == url
  }

  // ON CONFLICT DO NOTHING.
  predicate InsertConflicts(t: Table, id: ActivityId, row: Row) {
    id in t || exists other | other in t ::
      t[other].canonicalUrl == row.canonicalUrl
      && (if Imported(row) then Imported(t[other]) && t[other].ownerNodeId == row.ownerNodeId else !Imported(t[other]))
  }

  function Previous(existing: Table, byId: map<EventKey, ActivityId>, event: EventKey): Option<Row> {
    if event in byId && byId[event] in existing then Some(existing[byId[event]]) else None
  }

  // One event of the snapshot; `generated` is the id drawn if it is new.
  function ImportEvent(
    p: Progress, i: Import, existing: Table, byId: map<EventKey, ActivityId>, event: LumaEvent, generated: ActivityId
  ): Progress {
    if event.id in p.seen then p
    else
      var previous := Previous(existing, byId, event.id);
      var id := if previous.Some? then byId[event.id] else generated;
      var data := ImportedData(i, event, id, previous);
      var seen := p.seen + {event.id};
      if LinkTaken(p.table, i.nodeId, data.url, id) then
        Progress(p.table, seen, p.counts.(skipped := p.counts.skipped + 1))
      else if previous.Some? then
        Progress(
          if id in p.table then p.table[id := p.table[id].(canonicalUrl := data.url, data := data)] else p.table,
          seen, p.counts.(updated := p.counts.updated + 1))
      else if InsertConflicts(p.table, id, Row(i.nodeId, data.url, data)) then
        Progress(p.table, seen, p.counts.(skipped := p.counts.skipped + 1))
      else
        Progress(p.table[id := Row(i.nodeId, data.url, data)], seen, p.counts.(imported := p.counts.imported + 1))
  }

  function ImportEvents(
    t: Table, i: Import, existing: Table, byId: map<EventKey, ActivityId>, events: seq<LumaEvent>, ids: seq<ActivityId>, n: nat
  ): Progress
    requires n <= |events| == |ids|
  {
    if n == 0 then Progress(t, {}, Counts(0, 0, 0, 0))
    else ImportEvent(ImportEvents(t, i, existing, byId, events, ids, n - 1), i, existing, byId, events[n - 1], ids[n - 1])
  }

  function Withdrawn(row: Row, syncedAt: Option<Time>): Row {
    if !Imported(row) then row
    else
      var link := row.data.luma.value;
      row.(data := row.data.(
          status := Draft,
          luma := Some(link.(available := false, syncedAt := if syncedAt.Some? then syncedAt.value else link.syncedAt))))
  }

  predicate Vanished(existing: Table, seen: set<EventKey>, id: ActivityId) {
    id in existing && Imported(existing[id]) && existing[id].data.luma.value.eventId !in seen
  }

  // What the calendar no longer lists is withdrawn.
  function Withdraw(t: Table, existing: Table, seen: set<EventKey>, syncedAt: Time): Table {
    map id | id in t ::
      if Vanished(existing, seen, id) then t[id].(data := Withdrawn(existing[id], Some(syncedAt)).data) else t[id]
  }

  // The ids drawn for new activities are new, and differ.
  ghost predicate FreshIds(t: Table, ids: seq<ActivityId>) {
    (forall k :: 0 <= k < |ids| ==> ids[k] !in t) && forall k, l :: 0 <= k < l < |ids| ==> ids[k] != ids[l]
  }

  function ByNode(t: Table, nodeId: NodeId): map<EventKey, ActivityId>
    requires Inv(t)
  {
    ImportedById(RowsOf(t, nodeId), nodeId)
  }

  function SyncTable(t: Table, i: Import, events: seq<LumaEvent>, ids: seq<ActivityId>): Table
    requires Inv(t) && |events| == |ids|
  {
    var existing := RowsOf(t, i.nodeId);
    var p := ImportEvents(t, i, existing, ByNode(t, i.nodeId), events, ids, |events|);
    Withdraw(p.table, existing, p.seen, i.syncedAt)
  }

  // --- What one imported event keeps ---

  // A row that was there: it stays with its node; a manual row, a row of another node and an import of an
  // event not seen yet are as they were; any import keeps its event id and its hidden flag.
  ghost predicate RowKept(row: Row, after: Row, nodeId: NodeId, seen: set<EventKey>) {
    && after.ownerNodeId == row.ownerNodeId
    && (!(Imported(row) && row.ownerNodeId == nodeId && row.data.luma.value.eventId in seen) ==> after == row)
    && (Imported(row) ==>
          && Imported(after)
          && after.data.luma.value.eventId == row.data.luma.value.eventId
          && after.data.luma.value.hidden == row.data.luma.value.hidden
          && (after == row || Relisted(after)))
  }

  // An import that Luma lists again: published exactly if it is not hidden.
  ghost predicate Relisted(row: Row) {
    Imported(row) && row.data.luma.value.available
    && (row.data.status == Published <==> row.data.luma.value.hidden == Some(false))
  }

  // A row that was not: the hidden import of a seen event.
  ghost predicate RowNew(after: Row, nodeId: NodeId, seen: set<EventKey>) {
    && Relisted(after) && after.ownerNodeId == nodeId
    && after.data.luma.value.eventId in seen && after.data.luma.value.hidden == Some(true)
  }

  ghost predicate RowsKept(t: Table, after: Table, nodeId: NodeId, seen: set<EventKey>, used: set<ActivityId>) {
    && (forall id :: id in t ==> id in after && RowKept(t[id], after[id], nodeId, seen))
    && (forall id :: id in after && id !in t ==> id in used && RowNew(after[id], nodeId, seen))
  }

  ghost predicate Tallied(p: Progress) {
    p.counts.imported + p.counts.updated + p.counts.skipped == |p.seen| && p.counts.withdrawn == 0
  }

  ghost predicate ImportInv(p: Progress, t: Table, i: Import, used: set<ActivityId>) {
    Inv(p.table) && RowsKept(t, p.table, i.nodeId, p.seen, used) && Tallied(p)
  }

  lemma RowsKeptMoreSeen(t: Table, after: Table, nodeId: NodeId, seen: set<EventKey>, used: set<ActivityId>, event: EventKey, generated: ActivityId)
    requires RowsKept(t, after, nodeId, seen, used)
    ensures RowsKept(t, after, nodeId, seen + {event}, used + {generated})
  {
    forall x | x in t ensures RowKept(t[x], after[x], nodeId, seen + {event}) {
      assert RowKept(t[x], after[x], nodeId, seen);
    }
    forall x | x in after && x !in t ensures RowNew(after[x], nodeId, seen + {event}) {
      assert RowNew(after[x], nodeId, seen);
    }
  }

  lemma RowsKeptWrite(
    t: Table, after: Table, nodeId: NodeId, seen: set<EventKey>, used: set<ActivityId>, event: EventKey, generated: ActivityId,
    id: ActivityId, row: Row
  )
    requires RowsKept(t, after, nodeId, seen, used)
    requires id in t || id == generated
    requires if id in t then RowKept(t[id], row, nodeId, seen + {event}) else RowNew(row, nodeId, seen + {event})
    ensures RowsKept(t, after[id := row], nodeId, seen + {event}, used + {generated})
  {
    RowsKeptMoreSeen(t, after, nodeId, seen, used, event, generated);
  }

  ghost predicate Start(t: Table, i: Import, existing: Table, byId: map<EventKey, ActivityId>) {
    Inv(t) && existing == RowsOf(t, i.nodeId) && byId == ByNode(t, i.nodeId)
  }

  // A row replaced by one for the same event and node, with a link nobody else at the node uses.
  lemma ReplaceKeepsInv(t: Table, id: ActivityId, row: Row)
    requires Inv(t) && Visibility(row) && row.data.id == id && row.data.ownerNodeId == row.ownerNodeId && row.data.url == row.canonicalUrl
    requires !LinkTaken(t, row.ownerNodeId, row.canonicalUrl, id)
    requires Imported(row)
    requires forall other :: other in t && other != id ==> !SameEvent(t[other], row)
    ensures Inv(t[id := row])
  {
  }

  // The row that importing `event` is about to write, and why it may be written.
  lemma ImportedRow(
    p: Progress, t: Table, i: Import, existing: Table, byId: map<EventKey, ActivityId>, used: set<ActivityId>,
    event: LumaEvent, generated: ActivityId
  )
    returns (id: ActivityId, row: Row)
    requires Start(t, i, existing, byId) && ImportInv(p, t, i, used)
    requires generated !in t && generated !in used && event.id !in p.seen
    ensures var previous := Previous(existing, byId, event.id);
            && id == (if previous.Some? then byId[event.id] else generated)
            && row == Row(i.nodeId, i.canonical(event.url), ImportedData(i, event, id, previous))
            && (previous.Some? <==> id in p.table)
            && (previous.Some? ==> id in t && Imported(t[id]) && t[id].ownerNodeId == i.nodeId && t[id] == previous.value
                                   && t[id].data.luma.value.eventId == event.id && p.table[id] == t[id])
    ensures !LinkTaken(p.table, i.nodeId, row.canonicalUrl, id) ==> Inv(p.table[id := row])
  {
    var previous := Previous(existing, byId, event.id);
    id := if previous.Some? then byId[event.id] else generated;
    row := Row(i.nodeId, i.canonical(event.url), ImportedData(i, event, id, previous));
    forall other | other in p.table && other != id ensures !SameEvent(p.table[other], row) {
      assert other in t ==> (other in existing <==> t[other].ownerNodeId == i.nodeId);
    }
    if !LinkTaken(p.table, i.nodeId, row.canonicalUrl, id) {
      ReplaceKeepsInv(p.table, id, row);
    }
  }

  // What importing an unseen event comes to: nothing but a count when another activity of the node has
  // the link, otherwise its row. The insert of a new activity never runs into an index.
  lemma ImportEventIs(
    p: Progress, t: Table, i: Import, existing: Table, byId: map<EventKey, ActivityId>, used: set<ActivityId>,
    event: LumaEvent, generated: ActivityId
  )
    returns (id: ActivityId, row: Row)
    requires Start(t, i, existing, byId) && ImportInv(p, t, i, used)
    requires generated !in t && generated !in used && event.id !in p.seen
    ensures var previous := Previous(existing, byId, event.id);
            var after := ImportEvent(p, i, existing, byId, event, generated);
            && id == (if previous.Some? then byId[event.id] else generated)
            && row == Row(i.nodeId, i.canonical(event.url), ImportedData(i, event, id, previous))
            && (previous.Some? ==> id in t && Imported(t[id]) && t[id].ownerNodeId == i.nodeId && t[id] == previous.value
                                   && t[id].data.luma.value.eventId == event.id && p.table[id] == t[id])
            && (previous.None? ==> id !in t && id !in p.table)
            && after.seen == p.seen + {event.id}
            && (if LinkTaken(p.table, i.nodeId, row.canonicalUrl, id) then
                  after.table == p.table && after.counts == p.counts.(skipped := p.counts.skipped + 1)
                else
                  && after.table == p.table[id := row] && Inv(after.table)
                  && after.counts == if previous.Some? then p.counts.(updated := p.counts.updated + 1)
                                     else p.counts.(imported := p.counts.imported + 1))
  {
    id, row := ImportedRow(p, t, i, existing, byId, used, event, generated);
    if Previous(existing, byId, event.id).None? && !LinkTaken(p.table, i.nodeId, row.canonicalUrl, id) {
      FreeLinkInserts(p.table, id, row);
    }
    ImportEventCases(p, i, existing, byId, event, generated, id, row);
  }

  lemma ImportEventCases(
    p: Progress, i: Import, existing: Table, byId: map<EventKey, ActivityId>, event: LumaEvent, generated: ActivityId,
    id: ActivityId, row: Row
  )
    requires event.id !in p.seen
    requires var previous := Previous(existing, byId, event.id);
             && id == (if previous.Some? then byId[event.id] else generated)
             && row == Row(i.nodeId, i.canonical(event.url), ImportedData(i, event, id, previous))
             && (previous.Some? ==> id in p.table && p.table[id].ownerNodeId == i.nodeId)
             && (previous.None? && !LinkTaken(p.table, i.nodeId, row.canonicalUrl, id) ==> !InsertConflicts(p.table, id, row))
    ensures ImportEvent(p, i, existing, byId, event, generated) ==
            if LinkTaken(p.table, i.nodeId, row.canonicalUrl, id) then
              Progress(p.table, p.seen + {event.id}, p.counts.(skipped := p.counts.skipped + 1))
            else
              Progress(p.table[id := row], p.seen + {event.id},
                       if Previous(existing, byId, event.id).Some? then p.counts.(updated := p.counts.updated + 1)
                       else p.counts.(imported := p.counts.imported + 1))
  {
    if Previous(existing, byId, event.id).Some? {
      assert p.table[id].(canonicalUrl := row.canonicalUrl, data := row.data) == row;
    }
  }

  lemma FreeLinkInserts(t: Table, id: ActivityId, row: Row)
    requires id !in t && Imported(row) && !LinkTaken(t, row.ownerNodeId, row.canonicalUrl, id)
    ensures !InsertConflicts(t, id, row)
  {
  }

  lemma WrittenRow(
    t: Table, i: Import, event: LumaEvent, id: ActivityId, row: Row, previous: Option<Row>, seen: set<EventKey>
  )
    requires row == Row(i.nodeId, i.canonical(event.url), ImportedData(i, event, id, previous)) && event.id in seen
    requires Inv(t)
    requires if previous.None? then id !in t
             else id in t && Imported(t[id]) && t[id].ownerNodeId == i.nodeId && t[id] == previous.value &&
                  t[id].data.luma.value.eventId == event.id
    ensures if id in t then RowKept(t[id], row, i.nodeId, seen) else RowNew(row, i.nodeId, seen)
  {
  }

  lemma ImportEventKeeps(
    p: Progress, t: Table, i: Import, existing: Table, byId: map<EventKey, ActivityId>, used: set<ActivityId>,
    event: LumaEvent, generated: ActivityId
  )
    requires Start(t, i, existing, byId) && ImportInv(p, t, i, used)
    requires generated !in t && generated !in used
    ensures ImportInv(ImportEvent(p, i, existing, byId, event, generated), t, i, used + {generated})
  {
    if event.id !in p.seen {
      var id, row := ImportEventIs(p, t, i, existing, byId, used, event, generated);
      if LinkTaken(p.table, i.nodeId, row.canonicalUrl, id) {
        RowsKeptMoreSeen(t, p.table, i.nodeId, p.seen, used, event.id, generated);
      } else {
        WrittenRow(t, i, event, id, row, Previous(existing, byId, event.id), p.seen + {event.id});
        RowsKeptWrite(t, p.table, i.nodeId, p.seen, used, event.id, generated, id, row);
      }
    }
  }

  function EventIds(events: seq<LumaEvent>, n: nat): set<EventKey>
    requires n <= |events|
  {
    set k | 0 <= k < n :: events[k].id
  }

  function FirstIds(ids: seq<ActivityId>, n: nat): set<ActivityId>
    requires n <= |ids|
  {
    set k | 0 <= k < n :: ids[k]
  }

  lemma ImportEventSees(
    p: Progress, i: Import, existing: Table, byId: map<EventKey, ActivityId>, event: LumaEvent, generated: ActivityId
  )
    ensures ImportEvent(p, i, existing, byId, event, generated).seen == p.seen + {event.id}
  {
  }

  lemma {:induction false} ImportEventsSee(
    t: Table, i: Import, existing: Table, byId: map<EventKey, ActivityId>, events: seq<LumaEvent>, ids: seq<ActivityId>, n: nat
  )
    requires n <= |events| == |ids|
    ensures ImportEvents(t, i, existing, byId, events, ids, n).seen == EventIds(events, n)
  {
    if n > 0 {
      ImportEventsSee(t, i, existing, byId, events, ids, n - 1);
      ImportEventSees(ImportEvents(t, i, existing, byId, events, ids, n - 1), i, existing, byId, events[n - 1], ids[n - 1]);
    }
  }

  lemma NothingImported(t: Table, i: Import)
    requires Inv(t)
    ensures ImportInv(Progress(t, {}, Counts(0, 0, 0, 0)), t, i, {})
  {
    forall id | id in t ensures RowKept(t[id], t[id], i.nodeId, {}) {
    }
  }

  lemma FirstIdsGrow(t: Table, ids: seq<ActivityId>, n: nat)
    requires 0 < n <= |ids| && FreshIds(t, ids)
    ensures FirstIds(ids, n) == FirstIds(ids, n - 1) + {ids[n - 1]}
    ensures ids[n - 1] !in t && ids[n - 1] !in FirstIds(ids, n - 1)
  {
  }

  lemma {:induction false} ImportEventsKeep(
    t: Table, i: Import, existing: Table, byId: map<EventKey, ActivityId>, events: seq<LumaEvent>, ids: seq<ActivityId>, n: nat
  )
    requires Start(t, i, existing, byId) && n <= |events| == |ids| && FreshIds(t, ids)
    ensures ImportInv(ImportEvents(t, i, existing, byId, events, ids, n), t, i, FirstIds(ids, n))
  {
    if n == 0 {
      NothingImported(t, i);
      assert FirstIds(ids, 0) == {};
    } else {
      ImportEventsKeep(t, i, existing, byId, events, ids, n - 1);
      FirstIdsGrow(t, ids, n);
      ImportEventKeeps(ImportEvents(t, i, existing, byId, events, ids, n - 1), t, i, existing, byId,
                       FirstIds(ids, n - 1), events[n - 1], ids[n - 1]);
    }
  }

  // Every distinct event of the snapshot is counted once: imported, updated or skipped.
  lemma EveryEventCounted(t: Table, i: Import, events: seq<LumaEvent>, ids: seq<ActivityId>)
    requires Inv(t) && |events| == |ids| && FreshIds(t, ids)
    ensures var c := ImportEvents(t, i, RowsOf(t, i.nodeId), ByNode(t, i.nodeId), events, ids, |events|).counts;
            c.imported + c.updated + c.skipped == |EventIds(events, |events|)|
  {
    ImportEventsKeep(t, i, RowsOf(t, i.nodeId), ByNode(t, i.nodeId), events, ids, |events|);
    ImportEventsSee(t, i, RowsOf(t, i.nodeId), ByNode(t, i.nodeId), events, ids, |events|);
  }

  // What a row may become under a sync: an import of this node may change, but not its event or its hidden
  // flag. If its event is gone it is withdrawn; if not, it is re-listed, or skipped and left as it was.
  ghost predicate SyncedRow(row: Row, after: Row, i: Import, listed: set<EventKey>) {
    && after.ownerNodeId == row.ownerNodeId
    && (!(Imported(row) && row.ownerNodeId == i.nodeId) ==> after == row)
    && (Imported(row) ==>
          && Imported(after)
          && after.data.luma.value.eventId == row.data.luma.value.eventId
          && after.data.luma.value.hidden == row.data.luma.value.hidden
          && (row.ownerNodeId == i.nodeId && row.data.luma.value.eventId !in listed ==>
                after.data.status == Draft && !after.data.luma.value.available && after.canonicalUrl == row.canonicalUrl)
          && (row.ownerNodeId == i.nodeId && row.data.luma.value.eventId in listed ==> after == row || Relisted(after)))
  }

  lemma SyncKeeps(t: Table, i: Import, events: seq<LumaEvent>, ids: seq<ActivityId>)
    requires Inv(t) && |events| == |ids| && FreshIds(t, ids)
    ensures Inv(SyncTable(t, i, events, ids))
    ensures forall id :: id in t ==>
              id in SyncTable(t, i, events, ids)
              && SyncedRow(t[id], SyncTable(t, i, events, ids)[id], i, EventIds(events, |events|))
    ensures forall id :: id in SyncTable(t, i, events, ids) && id !in t ==>
              id in ids && RowNew(SyncTable(t, i, events, ids)[id], i.nodeId, EventIds(events, |events|))
  {
    var existing := RowsOf(t, i.nodeId);
    var p := ImportEvents(t, i, existing, ByNode(t, i.nodeId), events, ids, |events|);
    ImportEventsKeep(t, i, existing, ByNode(t, i.nodeId), events, ids, |events|);
    ImportEventsSee(t, i, existing, ByNode(t, i.nodeId), events, ids, |events|);
    var after := SyncTable(t, i, events, ids);
    WithdrawKeeps(t, i, p, FirstIds(ids, |events|), after);
  }

  lemma WithdrawKeeps(t: Table, i: Import, p: Progress, used: set<ActivityId>, after: Table)
    requires Inv(t) && ImportInv(p, t, i, used) && after == Withdraw(p.table, RowsOf(t, i.nodeId), p.seen, i.syncedAt)
    ensures Inv(after) && after.Keys == p.table.Keys
    ensures forall id :: id in t ==> id in after && SyncedRow(t[id], after[id], i, p.seen)
    ensures forall id :: id in after && id !in t ==> id in used && RowNew(after[id], i.nodeId, p.seen)
  {
    WithdrawIs(t, i, p, used, after);
    WithdrawnKeepsInv(p.table, after);
    forall id | id in t ensures id in after && SyncedRow(t[id], after[id], i, p.seen) {
      var gone := Vanished(RowsOf(t, i.nodeId), p.seen, id);
      assert RowKept(t[id], p.table[id], i.nodeId, p.seen);
      SyncedIs(t[id], p.table[id], after[id], i, p.seen, gone);
    }
  }

  lemma SyncedIs(row: Row, imported: Row, after: Row, i: Import, seen: set<EventKey>, gone: bool)
    requires RowKept(row, imported, i.nodeId, seen)
    requires gone <==> row.ownerNodeId == i.nodeId && Imported(row) && row.data.luma.value.eventId !in seen
    requires after == if gone then Withdrawn(row, Some(i.syncedAt)) else imported
    ensures SyncedRow(row, after, i, seen)
  {
  }

  // A withdrawal touches rows that the imports left as they were.
  lemma WithdrawIs(t: Table, i: Import, p: Progress, used: set<ActivityId>, after: Table)
    requires ImportInv(p, t, i, used) && after == Withdraw(p.table, RowsOf(t, i.nodeId), p.seen, i.syncedAt)
    ensures after.Keys == p.table.Keys
    ensures forall id :: id in p.table ==>
      if Vanished(RowsOf(t, i.nodeId), p.seen, id)
      then id in t && p.table[id] == t[id] && after[id] == Withdrawn(t[id], Some(i.syncedAt))
      else after[id] == p.table[id]
  {
    forall id | id in p.table && Vanished(RowsOf(t, i.nodeId), p.seen, id)
      ensures id in t && p.table[id] == t[id] && after[id] == Withdrawn(t[id], Some(i.syncedAt))
    {
      assert RowKept(t[id], p.table[id], i.nodeId, p.seen);
    }
  }

  // --- What a sync writes ---

  // The row says what the calendar says about the event, for the nodes given.
  ghost predicate ListedAs(row: Row, event: LumaEvent, i: Import, id: ActivityId, nodeIds: set<NodeId>) {
    && row.canonicalUrl == i.canonical(event.url)
    && row.data.id == id && row.data.ownerNodeId == i.nodeId && row.data.nodeIds == nodeIds && row.data.kind.EventKind?
    && row.data.details == event.details && row.data.url == i.canonical(event.url)
    && row.data.publishedAt == event.createdAt
    && row.data.luma.Some? && row.data.luma.value.calendarId == i.calendarId
    && row.data.luma.value.eventId == event.id && row.data.luma.value.syncedAt == i.syncedAt
    && row.data.luma.value.available
  }

  // The row as it was, but for being a draft that Luma does not list any more.
  ghost predicate WithdrawnAs(row: Row, after: Row, at: Time) {
    && after.ownerNodeId == row.ownerNodeId && after.canonicalUrl == row.canonicalUrl
    && after.data.id == row.data.id && after.data.ownerNodeId == row.data.ownerNodeId
    && after.data.nodeIds == row.data.nodeIds && after.data.kind == row.data.kind
    && after.data.details == row.data.details && after.data.url == row.data.url
    && after.data.publishedAt == row.data.publishedAt && after.data.status.Draft?
    && row.data.luma.Some? && after.data.luma.Some?
    && after.data.luma.value.calendarId == row.data.luma.value.calendarId
    && after.data.luma.value.eventId == row.data.luma.value.eventId
    && after.data.luma.value.hidden == row.data.luma.value.hidden
    && !after.data.luma.value.available && after.data.luma.value.syncedAt == at
  }

  ghost function NodesFor(t: Table, i: Import, id: ActivityId): set<NodeId> {
    if id in t && t[id].ownerNodeId == i.nodeId then t[id].data.nodeIds else {i.nodeId}
  }

  ghost predicate Imports(t: Table, table: Table, i: Import, events: seq<LumaEvent>, n: nat, id: ActivityId)
    requires n <= |events| && id in table
  {
    (id in t && table[id] == t[id]) || exists k :: 0 <= k < n && ListedAs(table[id], events[k], i, id, NodesFor(t, i, id))
  }

  lemma ImportedIsListed(i: Import, event: LumaEvent, id: ActivityId, previous: Option<Row>, row: Row)
    requires row.canonicalUrl == i.canonical(event.url) && row.data == ImportedData(i, event, id, previous)
    ensures ListedAs(row, event, i, id, if previous.Some? then previous.value.data.nodeIds else {i.nodeId})
  {
  }

  lemma ImportOneContent(
    p: Progress, t: Table, i: Import, existing: Table, byId: map<EventKey, ActivityId>, event: LumaEvent, generated: ActivityId,
    id: ActivityId
  )
    requires existing == RowsOf(t, i.nodeId) && generated !in t
    requires id in ImportEvent(p, i, existing, byId, event, generated).table
    ensures var after := ImportEvent(p, i, existing, byId, event, generated).table;
            (id in p.table && after[id] == p.table[id]) || ListedAs(after[id], event, i, id, NodesFor(t, i, id))
  {
    var after := ImportEvent(p, i, existing, byId, event, generated).table;
    var previous := Previous(existing, byId, event.id);
    if !(id in p.table && after[id] == p.table[id]) {
      assert previous.Some? ==> previous.value == t[id] && id in existing;
      ImportedIsListed(i, event, id, previous, after[id]);
    }
  }

  lemma {:induction false} ImportContent(
    t: Table, i: Import, existing: Table, byId: map<EventKey, ActivityId>, events: seq<LumaEvent>, ids: seq<ActivityId>, n: nat,
    id: ActivityId
  )
    requires existing == RowsOf(t, i.nodeId) && n <= |events| == |ids| && FreshIds(t, ids)
    requires id in ImportEvents(t, i, existing, byId, events, ids, n).table
    ensures Imports(t, ImportEvents(t, i, existing, byId, events, ids, n).table, i, events, n, id)
  {
    if n > 0 {
      var p := ImportEvents(t, i, existing, byId, events, ids, n - 1);
      ImportOneContent(p, t, i, existing, byId, events[n - 1], ids[n - 1], id);
      if id in p.table {
        ImportContent(t, i, existing, byId, events, ids, n - 1, id);
      }
    }
  }

  lemma WithdrawnIsAs(row: Row, at: Time)
    requires Imported(row)
    ensures WithdrawnAs(row, Withdrawn(row, Some(at)), at)
  {
  }

  // A row of the sync is the one the imports left, or a withdrawn one.
  lemma SyncLeaves(t: Table, i: Import, events: seq<LumaEvent>, ids: seq<ActivityId>, id: ActivityId) returns (left: bool)
    requires Inv(t) && |events| == |ids| && FreshIds(t, ids) && id in SyncTable(t, i, events, ids)
    ensures var table := ImportEvents(t, i, RowsOf(t, i.nodeId), ByNode(t, i.nodeId), events, ids, |events|).table;
            var after := SyncTable(t, i, events, ids);
            if left then id in table && after[id] == table[id]
            else && id in t && t[id].ownerNodeId == i.nodeId && Imported(t[id]) && after[id] == Withdrawn(t[id], Some(i.syncedAt))
                 && t[id].data.luma.value.eventId !in EventIds(events, |events|)
  {
    var existing, byId := RowsOf(t, i.nodeId), ByNode(t, i.nodeId);
    var p := ImportEvents(t, i, existing, byId, events, ids, |events|);
    ImportEventsKeep(t, i, existing, byId, events, ids, |events|);
    ImportEventsSee(t, i, existing, byId, events, ids, |events|);
    WithdrawIs(t, i, p, FirstIds(ids, |events|), SyncTable(t, i, events, ids));
    left := !Vanished(existing, p.seen, id);
  }

  // After a sync each row is as it was, or says what a listed event says, or is withdrawn because its event is
  // not listed.
  lemma SyncWrites(t: Table, i: Import, events: seq<LumaEvent>, ids: seq<ActivityId>, id: ActivityId)
    requires Inv(t) && |events| == |ids| && FreshIds(t, ids) && id in SyncTable(t, i, events, ids)
    ensures var after := SyncTable(t, i, events, ids);
            || (id in t && after[id] == t[id])
            || (exists k :: 0 <= k < |events| &&
                  ListedAs(after[id], events[k], i, id,
                           if id in t && t[id].ownerNodeId == i.nodeId then t[id].data.nodeIds else {i.nodeId}))
            || (&& id in t && t[id].ownerNodeId == i.nodeId && WithdrawnAs(t[id], after[id], i.syncedAt)
                && forall k :: 0 <= k < |events| ==> events[k].id != t[id].data.luma.value.eventId)
  {
    var existing, byId := RowsOf(t, i.nodeId), ByNode(t, i.nodeId);
    var left := SyncLeaves(t, i, events, ids, id);
    if left {
      ImportContent(t, i, existing, byId, events, ids, |events|, id);
    } else {
      WithdrawnIsAs(t[id], i.syncedAt);
      assert forall k :: 0 <= k < |events| ==> events[k].id in EventIds(events, |events|);
    }
  }

  // The identity of a row: what the indexes and the columns say.
  ghost predicate SameIdentity(row: Row, after: Row) {
    && after.ownerNodeId == row.ownerNodeId && after.canonicalUrl == row.canonicalUrl
    && after.data.id == row.data.id && after.data.ownerNodeId == row.data.ownerNodeId && after.data.url == row.data.url
    && Imported(after) == Imported(row)
    && (Imported(row) ==> after.data.luma.value.eventId == row.data.luma.value.eventId)
  }

  lemma RewritesKeepInv(t: Table, after: Table)
    requires Inv(t) && after.Keys == t.Keys
    requires forall id :: id in t ==> SameIdentity(t[id], after[id]) && Visibility(after[id])
    ensures Inv(after)
  {
  }

  lemma WithdrawnKeepsInv(t: Table, after: Table)
    requires Inv(t) && after.Keys == t.Keys
    requires forall id :: id in t ==> after[id] == t[id] || exists at: Option<Time> :: after[id] == Withdrawn(t[id], at)
    ensures Inv(after)
  {
    forall id | id in t ensures SameIdentity(t[id], after[id]) && Visibility(after[id]) {
      assert Visibility(t[id]);
    }
    RewritesKeepInv(t, after);
  }

  // --- The other writers ---

  datatype ActivityError = NotFound | OwnershipFixed | EditInLuma | NotPublic | LinkInUse | NotLuma

  datatype SaveInput = SaveInput(
    id: Option<ActivityId>, ownerNodeId: NodeId, nodeIds: set<NodeId>, kind: Kind, details: Details, url: Url, publishedAt: Time,
    status: Status)

  function SavedData(t: Table, input: SaveInput, canonical: Canonical, generated: ActivityId): Activity {
    var id := if input.id.Some? then input.id.value else generated;
    Activity(
      id, input.ownerNodeId, input.nodeIds, input.kind, input.details, canonical(input.url), input.publishedAt, input.status,
      if id in t && Imported(t[id]) then Some(t[id].data.luma.value.(hidden := Some(input.status != Published))) else None)
  }

  // What SELECT ... WHERE canonical_url = url returns first: any of the rows, if there are some.
  ghost predicate IsFirst(t: Table, url: Url, first: Option<ActivityId>) {
    if first.Some? then first.value in t && t[first.value].canonicalUrl == url
    else forall id :: id in t ==> t[id].canonicalUrl != url
  }

  function SaveActivity(
    t: Table, input: SaveInput, canonical: Canonical, generated: ActivityId, first: Option<ActivityId>
  ): Result<Table, ActivityError> {
    var data := SavedData(t, input, canonical, generated);
    if input.id.Some? && input.id.value !in t then Err(NotFound)
    else if input.id.Some? && !(t[data.id].data.ownerNodeId == input.ownerNodeId && t[data.id].data.kind == input.kind) then
      Err(OwnershipFixed)
    else if input.id.Some? && Imported(t[data.id])
            && !(t[data.id].data.details == input.details && t[data.id].data.url == input.url && t[data.id].data.publishedAt == input.publishedAt) then
      Err(EditInLuma)
    else if input.id.Some? && Imported(t[data.id]) && !t[data.id].data.luma.value.available && input.status != Draft then
      Err(NotPublic)
    else if first.Some? && first.value != data.id then Err(LinkInUse)
    else Ok(t[data.id := Row(data.ownerNodeId, data.url, data)])
  }

  // The activity as the organizer gave it, under its canonical link, and no other row changed. An import keeps
  // its event and its availability, and is hidden unless it is published.
  ghost predicate StoredAs(t: Table, after: Table, id: ActivityId, input: SaveInput, url: Url) {
    && id in after && after - {id} == t - {id}
    && after[id].ownerNodeId == input.ownerNodeId && after[id].canonicalUrl == url
    && var data := after[id].data;
       && data.id == id && data.ownerNodeId == input.ownerNodeId && data.nodeIds == input.nodeIds
       && data.kind == input.kind && data.details == input.details && data.url == url
       && data.publishedAt == input.publishedAt && data.status == input.status
       && if id in t && t[id].data.luma.Some? then
            var was := t[id].data.luma.value;
            data.luma.Some? && data.luma.value.calendarId == was.calendarId && data.luma.value.eventId == was.eventId &&
            data.luma.value.syncedAt == was.syncedAt && data.luma.value.available == was.available &&
            data.luma.value.hidden.Some? && (data.luma.value.hidden.value <==> !input.status.Published?)
          else data.luma.None?
  }

  lemma SavedIsStored(t: Table, input: SaveInput, canonical: Canonical, generated: ActivityId, first: Option<ActivityId>)
    requires SaveActivity(t, input, canonical, generated, first).Ok?
    ensures var after := SaveActivity(t, input, canonical, generated, first).value;
            StoredAs(t, after, if input.id.Some? then input.id.value else generated, input, canonical(input.url))
  {
    var id := if input.id.Some? then input.id.value else generated;
    var after := SaveActivity(t, input, canonical, generated, first).value;
    assert after == t[id := after[id]];
  }

  function SetLumaVisibility(t: Table, nodeId: NodeId, id: ActivityId, show: bool): Result<Table, ActivityError> {
    if id !in t || t[id].ownerNodeId != nodeId then Err(NotFound)
    else if !Imported(t[id]) then Err(NotLuma)
    else if show && !t[id].data.luma.value.available then Err(NotPublic)
    else
      Ok(t[id := t[id].(data := t[id].data.(
                          status := if show then Published else Draft,
                          luma := Some(t[id].data.luma.value.(hidden := Some(!show)))))])
  }

  // The rows were read as `existing`; each import among them is written back withdrawn.
  function DisconnectWrite(t: Table, existing: Table): Table {
    map id | id in t ::
      if id in existing && Imported(existing[id]) then t[id].(data := Withdrawn(existing[id], None).data) else t[id]
  }

  function DisconnectLuma(t: Table, nodeId: NodeId): Table {
    DisconnectWrite(t, RowsOf(t, nodeId))
  }

  function Unpublished(row: Row): Row {
    row.(data := row.data.(
        status := Draft, luma := if Imported(row) then Some(row.data.luma.value.(hidden := Some(true))) else None))
  }

  function Unpublish(t: Table, id: ActivityId): Result<Table, ActivityError> {
    if id !in t then Err(NotFound)
    else
      Ok(t[id := Unpublished(t[id])])
  }

  lemma SaveKeeps(t: Table, input: SaveInput, canonical: Canonical, generated: ActivityId, first: Option<ActivityId>)
    requires Inv(t) && generated !in t && IsFirst(t, canonical(input.url), first)
    requires SaveActivity(t, input, canonical, generated, first).Ok?
    ensures Inv(SaveActivity(t, input, canonical, generated, first).value)
  {
    var data := SavedData(t, input, canonical, generated);
    var after := t[data.id := Row(data.ownerNodeId, data.url, data)];
    assert SaveActivity(t, input, canonical, generated, first).value == after;
    // Either the activity has this link already, or nobody has it.
    assert (data.id in t && t[data.id].canonicalUrl == data.url) || (forall id :: id in t ==> t[id].canonicalUrl != data.url);
    assert Visibility(after[data.id]);
  }

  lemma VisibilityKeeps(t: Table, nodeId: NodeId, id: ActivityId, show: bool)
    requires Inv(t) && SetLumaVisibility(t, nodeId, id, show).Ok?
    ensures Inv(SetLumaVisibility(t, nodeId, id, show).value)
  {
  }

  lemma DisconnectKeeps(t: Table, nodeId: NodeId)
    requires Inv(t)
    ensures Inv(DisconnectLuma(t, nodeId))
  {
    var after := DisconnectLuma(t, nodeId);
    forall id | id in t ensures after[id] == t[id] || after[id] == Withdrawn(t[id], None) {
    }
    WithdrawnKeepsInv(t, after);
  }

  lemma UnpublishKeeps(t: Table, id: ActivityId)
    requires Inv(t) && Unpublish(t, id).Ok?
    ensures Inv(Unpublish(t, id).value)
  {
  }
}
