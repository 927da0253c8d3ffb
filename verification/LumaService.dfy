/** The service's transactions on activities, statement by statement, each against its table function. */
module LumaService {
  import opened Wrappers
  import opened Luma

  datatype Connection = Connection(calendarId: string, nextAttemptAt: Time)

  datatype SyncError = CalendarUnavailable

  const RETRY_AFTER: int := 5 * 60_000

  datatype Outcome = Imported | Updated | Skipped

  function Count(c: Counts, o: Outcome): Counts {
    match o
    case Imported => c.(imported := c.imported + 1)
    case Updated => c.(updated := c.updated + 1)
    case Skipped => c.(skipped := c.skipped + 1)
  }

  class Discovery {
    const canonical: Canonical
    var activities: Table
    var connections: map<NodeId, Connection>

    constructor (canonical: Canonical)
      ensures this.canonical == canonical && activities == map[] && connections == map[]
    {
      this.canonical := canonical;
      activities, connections := map[], map[];
    }

    // The body of the loop over the snapshot, for an event not seen before.
    method ImportOne(
      i: Import, existing: Table, byId: map<EventKey, ActivityId>, event: LumaEvent, generated: ActivityId, ghost p: Progress
    )
      returns (outcome: Outcome)
      requires p.table == activities && event.id !in p.seen && LinkOncePerNode(activities)
      modifies this`activities
      ensures var after := ImportEvent(p, i, existing, byId, event, generated);
              activities == after.table && after.counts == Count(p.counts, outcome)
    {
      var previous := Previous(existing, byId, event.id);
      var id := if previous.Some? then byId[event.id] else generated;
      var data := ImportedData(i, event, id, previous);
      if duplicate :| duplicate in activities && activities[duplicate].canonicalUrl == data.url
                      && activities[duplicate].ownerNodeId == i.nodeId
      {
        if duplicate != id {
          return Skipped;
        }
      }
      assert !LinkTaken(activities, i.nodeId, data.url, id);
      var row := Row(i.nodeId, data.url, data);
      if previous.Some? {
        if id in activities {
          activities := activities[id := activities[id].(canonicalUrl := data.url, data := data)];
        }
        return Updated;
      }
      if InsertConflicts(activities, id, row) {
        return Skipped;
      }
      activities := activities[id := row];
      outcome := Imported;
    }

    method ImportAll(i: Import, existing: Table, byId: map<EventKey, ActivityId>, events: seq<LumaEvent>, ids: seq<ActivityId>)
      returns (seen: set<EventKey>, counts: Counts)
      requires Start(activities, i, existing, byId) && |events| == |ids| && FreshIds(activities, ids)
      modifies this`activities
      ensures Progress(activities, seen, counts) == ImportEvents(old(activities), i, existing, byId, events, ids, |events|)
      ensures seen == EventIds(events, |events|)
    {
      seen, counts := {}, Counts(0, 0, 0, 0);
      var n := 0;
      while n < |events|
        invariant n <= |events|
        invariant Progress(activities, seen, counts) == ImportEvents(old(activities), i, existing, byId, events, ids, n)
      {
        if events[n].id !in seen {
          ghost var p := Progress(activities, seen, counts);
          ImportEventsKeep(old(activities), i, existing, byId, events, ids, n);
          var outcome := ImportOne(i, existing, byId, events[n], ids[n], p);
          ImportEventSees(p, i, existing, byId, events[n], ids[n]);
          seen := seen + {events[n].id};
          counts := Count(counts, outcome);
        }
        n := n + 1;
      }
      ImportEventsSee(old(activities), i, existing, byId, events, ids, |events|);
    }

    // The update of one row that is not listed any more.
    method WriteWithdrawn(existing: Table, id: ActivityId, at: Option<Time>, ghost before: Table, ghost done: set<ActivityId>)
      requires id in existing && id in before && id !in done
      requires activities == Rewritten(before, existing, done, at)
      modifies this`activities
      ensures activities == Rewritten(before, existing, done + {id}, at)
    {
      RewriteOne(before, existing, done, id, at);
      activities := activities[id := activities[id].(data := Withdrawn(existing[id], at).data)];
    }

    // The body of the loop below; `done` are the rows written so far.
    method WithdrawRow(
      existing: Table, chosen: set<ActivityId>, id: ActivityId, at: Option<Time>, count: nat, ghost before: Table,
      ghost done: set<ActivityId>
    )
      returns (withdrawn: nat, ghost now: set<ActivityId>)
      requires id in existing && id in before && id !in done && count == |done|
      requires activities == Rewritten(before, existing, done, at)
      modifies this`activities
      ensures now == (if id in chosen then done + {id} else done) && withdrawn == |now|
      ensures activities == Rewritten(before, existing, now, at)
    {
      withdrawn, now := count, done;
      if id in chosen {
        WriteWithdrawn(existing, id, at, before, done);
        withdrawn, now := count + 1, done + {id};
      }
    }

    // A loop over the rows read, which writes the chosen ones back withdrawn.
    method WithdrawEach(existing: Table, chosen: set<ActivityId>, at: Option<Time>) returns (withdrawn: nat)
      requires chosen <= existing.Keys <= activities.Keys
      modifies this`activities
      ensures activities == Rewritten(old(activities), existing, chosen, at)
      ensures withdrawn == |chosen|
    {
      var left := existing.Keys;
      withdrawn := 0;
      ghost var done: set<ActivityId> := {};
      while left != {}
        invariant left <= existing.Keys && done == chosen - left && withdrawn == |done|
        invariant activities == Rewritten(old(activities), existing, done, at)
        decreases left
      {
        var id :| id in left;
        OneLess(chosen, left, id);
        withdrawn, done := WithdrawRow(existing, chosen, id, at, withdrawn, old(activities), done);
        left := left - {id};
      }
      assert done == chosen;
    }

    method ImportSnapshot(run: Import, events: seq<LumaEvent>, ids: seq<ActivityId>) returns (counts: Counts)
      requires Inv(activities) && |events| == |ids| && FreshIds(activities, ids)
      modifies this`activities
      ensures Inv(activities) && activities == SyncTable(old(activities), run, events, ids)
      ensures counts.imported + counts.updated + counts.skipped == |EventIds(events, |events|)|
      ensures counts.withdrawn == |AllVanished(RowsOf(old(activities), run.nodeId), EventIds(events, |events|))|
    {
      var existing := RowsOf(activities, run.nodeId);
      var byId := ImportedById(existing, run.nodeId);
      SyncKeeps(activities, run, events, ids);
      EveryEventCounted(activities, run, events, ids);
      ImportEventsKeep(activities, run, existing, byId, events, ids, |ids|);
      var seen;
      ghost var p := ImportEvents(activities, run, existing, byId, events, ids, |ids|);
      seen, counts := ImportAll(run, existing, byId, events, ids);
      var withdrawn := WithdrawEach(existing, AllVanished(existing, seen), Some(run.syncedAt));
      RewrittenIsWithdraw(p.table, existing, seen, run.syncedAt);
      counts := counts.(withdrawn := withdrawn);
    }

    // `snapshot` is what the calendar answers, None if it cannot be read. A scheduled sync (not `byOrganizer`)
    // runs only for the connected calendar, when it is due.
    method SyncLuma(
      nodeId: NodeId, calendarId: string, byOrganizer: bool, snapshot: Option<seq<LumaEvent>>, ids: seq<ActivityId>, now: Time
    )
      returns (r: Result<Counts, SyncError>)
      requires Inv(activities) && FreshIds(activities, ids)
      requires snapshot.Some? ==> |snapshot.value| == |ids|
      modifies this
      ensures Inv(activities)
      // An organizer's sync always runs, a scheduled one only for the calendar connected and from its next attempt on.
      ensures !byOrganizer && (nodeId in old(connections) ==>
                               old(connections)[nodeId].calendarId != calendarId || now < old(connections)[nodeId].nextAttemptAt) ==>
                r == Ok(Counts(0, 0, 0, 0)) && activities == old(activities) && connections == old(connections)
      ensures r.Err? <==> snapshot.None? && (byOrganizer || DueFor(old(connections), nodeId, calendarId, now))
      ensures r.Err? ==> activities == old(activities) && connections == old(connections)
      ensures snapshot.Some? && (byOrganizer || DueFor(old(connections), nodeId, calendarId, now)) ==>
                && activities == SyncTable(old(activities), Import(nodeId, calendarId, now, canonical), snapshot.value, ids)
                && r.Ok? && r.value.imported + r.value.updated + r.value.skipped == |EventIds(snapshot.value, |snapshot.value|)|
                && r.value.withdrawn == |AllVanished(RowsOf(old(activities), nodeId), EventIds(snapshot.value, |snapshot.value|))|
                && connections == old(connections)[nodeId := Connection(calendarId, now + RETRY_AFTER)]
    {
      if NotDue(connections, nodeId, calendarId, byOrganizer, now) {
        return Ok(Counts(0, 0, 0, 0));
      }
      if snapshot.None? {
        return Err(CalendarUnavailable);
      }
      var counts := ImportSnapshot(Import(nodeId, calendarId, now, canonical), snapshot.value, ids);
      connections := connections[nodeId := Connection(calendarId, now + RETRY_AFTER)];
      r := Ok(counts);
    }

    method SaveActivity(input: SaveInput, generated: ActivityId, first: Option<ActivityId>)
      returns (r: Result<Activity, ActivityError>)
      requires Inv(activities) && generated !in activities && IsFirst(activities, canonical(input.url), first)
      modifies this`activities
      ensures Inv(activities)
      ensures var saved := Luma.SaveActivity(old(activities), input, canonical, generated, first);
              if saved.Err? then r == Err(saved.error) && activities == old(activities)
              else r.Ok? && activities == saved.value
      ensures r.Ok? ==>
        && r.value.id == (if input.id.Some? then input.id.value else generated)
        && StoredAs(old(activities), activities, r.value.id, input, canonical(input.url))
        && r.value == activities[r.value.id].data
      ensures r == Err(NotFound) <==> input.id.Some? && input.id.value !in old(activities)
      ensures input.id.Some? && input.id.value in old(activities) ==>
        var was := old(activities)[input.id.value].data;
        && (r == Err(OwnershipFixed) <==> was.ownerNodeId != input.ownerNodeId || was.kind != input.kind)
        && (r == Err(EditInLuma) <==>
              && was.ownerNodeId == input.ownerNodeId && was.kind == input.kind && was.luma.Some?
              && (was.details != input.details || was.url != input.url || was.publishedAt != input.publishedAt))
        && (r == Err(NotPublic) <==>
              && was.ownerNodeId == input.ownerNodeId && was.kind == input.kind && was.luma.Some?
              && was.details == input.details && was.url == input.url && was.publishedAt == input.publishedAt
              && !was.luma.value.available && !input.status.Draft?)
      ensures r.Ok? ==> forall id :: id in old(activities) && old(activities)[id].canonicalUrl == canonical(input.url) ==>
        first == Some(r.value.id)
      ensures input.id.None? ==> (r == Err(LinkInUse) <==> exists id :: id in old(activities) && old(activities)[id].canonicalUrl == canonical(input.url))
    {
      if input.id.Some? {
        if input.id.value !in activities {
          return Err(NotFound);
        }
        var previous := activities[input.id.value].data;
        if previous.ownerNodeId != input.ownerNodeId || previous.kind != input.kind {
          return Err(OwnershipFixed);
        }
        if previous.luma.Some? {
          if previous.details != input.details || previous.url != input.url || previous.publishedAt != input.publishedAt {
            return Err(EditInLuma);
          }
          if !previous.luma.value.available && input.status != Draft {
            return Err(NotPublic);
          }
        }
      }
      var id := if input.id.Some? then input.id.value else generated;
      var luma: Option<LumaLink> := None;
      if input.id.Some? && activities[id].data.luma.Some? {
        luma := Some(activities[id].data.luma.value.(hidden := Some(input.status != Published)));
      }
      var data := Activity(id, input.ownerNodeId, input.nodeIds, input.kind, input.details, canonical(input.url),
                           input.publishedAt, input.status, luma);
      if first.Some? && first.value != data.id {
        return Err(LinkInUse);
      }
      SaveKeeps(activities, input, canonical, generated, first);
      SavedIsStored(activities, input, canonical, generated, first);
      activities := activities[data.id := Row(data.ownerNodeId, data.url, data)];
      r := Ok(data);
    }

    method SetLumaVisibility(nodeId: NodeId, id: ActivityId, show: bool) returns (r: Result<Activity, ActivityError>)
      requires Inv(activities)
      modifies this`activities
      ensures Inv(activities)
      ensures var set_ := Luma.SetLumaVisibility(old(activities), nodeId, id, show);
              if set_.Err? then r == Err(set_.error) && activities == old(activities)
              else activities == set_.value && r == Ok(activities[id].data)
    {
      if id !in activities || activities[id].ownerNodeId != nodeId {
        return Err(NotFound);
      }
      var row := activities[id];
      if row.data.luma.None? {
        return Err(NotLuma);
      }
      if show && !row.data.luma.value.available {
        return Err(NotPublic);
      }
      VisibilityKeeps(activities, nodeId, id, show);
      var data := row.data.(status := if show then Published else Draft, luma := Some(row.data.luma.value.(hidden := Some(!show))));
      activities := activities[id := row.(data := data)];
      r := Ok(data);
    }

    method DisconnectLuma(nodeId: NodeId)
      requires Inv(activities)
      modifies this
      ensures Inv(activities)
      ensures activities == Luma.DisconnectLuma(old(activities), nodeId)
      ensures connections == old(connections) - {nodeId}
    {
      connections := connections - {nodeId};
      DisconnectKeeps(activities, nodeId);
      var rows := RowsOf(activities, nodeId);
      RewrittenIsDisconnect(activities, rows);
      var withdrawn := WithdrawEach(rows, AllImports(rows), None);
    }

    // Moderation of a reported activity with the action "unpublish".
    method Unpublish(id: ActivityId) returns (r: Result<bool, ActivityError>)
      requires Inv(activities)
      modifies this`activities
      ensures Inv(activities)
      ensures var unpublished := Luma.Unpublish(old(activities), id);
              if unpublished.Err? then r == Err(unpublished.error) && activities == old(activities)
              else r == Ok(true) && activities == unpublished.value
    {
      if id !in activities {
        return Err(NotFound);
      }
      UnpublishKeeps(activities, id);
      var row := activities[id];
      activities := activities[id := row.(data := row.data.(
        status := Draft,
        luma := if row.data.luma.Some? then Some(row.data.luma.value.(hidden := Some(true))) else None))];
      r := Ok(true);
    }
  }

  function AllImports(existing: Table): set<ActivityId> {
    set id | id in existing && Luma.Imported(existing[id])
  }

  // The rows in `ids` written back withdrawn, as they were read.
  function Rewritten(t: Table, existing: Table, ids: set<ActivityId>, at: Option<Time>): Table {
    map id | id in t :: if id in ids && id in existing then t[id].(data := Withdrawn(existing[id], at).data) else t[id]
  }

  lemma OneLess(chosen: set<ActivityId>, left: set<ActivityId>, id: ActivityId)
    requires id in left
    ensures chosen - (left - {id}) == if id in chosen then (chosen - left) + {id} else chosen - left
  {
  }

  lemma RewriteOne(t: Table, existing: Table, done: set<ActivityId>, id: ActivityId, at: Option<Time>)
    requires id in existing && id in t && id !in done
    ensures Rewritten(t, existing, done, at)[id] == t[id]
    ensures Rewritten(t, existing, done + {id}, at)
            == Rewritten(t, existing, done, at)[id := t[id].(data := Withdrawn(existing[id], at).data)]
  {
  }

  lemma RewrittenIsWithdraw(t: Table, existing: Table, seen: set<EventKey>, at: Time)
    ensures Rewritten(t, existing, AllVanished(existing, seen), Some(at)) == Withdraw(t, existing, seen, at)
  {
  }

  lemma RewrittenIsDisconnect(t: Table, existing: Table)
    ensures Rewritten(t, existing, AllImports(existing), None) == DisconnectWrite(t, existing)
  {
  }

  function AllVanished(existing: Table, seen: set<EventKey>): set<ActivityId> {
    set id | id in existing && Vanished(existing, seen, id)
  }

  // The node is connected to the calendar, and its next attempt has come.
  ghost predicate DueFor(connections: map<NodeId, Connection>, nodeId: NodeId, calendarId: string, now: Time) {
    nodeId in connections && connections[nodeId].calendarId == calendarId && connections[nodeId].nextAttemptAt <= now
  }

  predicate NotDue(connections: map<NodeId, Connection>, nodeId: NodeId, calendarId: string, byOrganizer: bool, now: Time) {
    !byOrganizer
    && (nodeId !in connections || connections[nodeId].calendarId != calendarId || connections[nodeId].nextAttemptAt > now)
  }
}
