/** The record a member sees: attended events, check-ins without a community event, and coverage. */
module AttendanceHistory {
  import opened Wrappers
  import opened Attendance

  datatype Attended = Attended(org: OrgId, event: EventId, eventName: string, checkedInAt: Time)

  datatype Loose = Loose(org: OrgId, code: CodeId, eventName: string, checkedInAt: Time)

  datatype Stored = Stored(org: OrgId, code: CodeId, checkIn: CheckIn) {
    // Whether the row counts as attending that event.
    predicate Attends(key: (OrgId, EventId)) {
      checkIn.classified && checkIn.eventId == Some(key.1) && org == key.0
    }
  }

  // One entry per event, at the member's earliest check-in; the other rows are listed as they are.
  method AttendedEvents(rows: seq<Stored>)
    returns (attended: map<(OrgId, EventId), Attended>, unclassified: seq<Loose>)
    ensures forall key :: key in attended <==> exists i :: 0 <= i < |rows| && rows[i].Attends(key)
    ensures forall key :: key in attended ==> Earliest(rows, |rows|, key, attended[key])
    ensures forall x :: x in unclassified <==>
              exists i :: 0 <= i < |rows| && !CountsAsEvent(rows[i]) && x == LooseOf(rows[i])
    ensures |unclassified| == CountLoose(rows, |rows|)
  {
    attended, unclassified := map[], [];
    var n := 0;
    while n < |rows|
      invariant n <= |rows|
      invariant forall key :: key in attended <==> exists i :: 0 <= i < n && rows[i].Attends(key)
      invariant forall key :: key in attended ==> Earliest(rows, n, key, attended[key])
      invariant forall x :: x in unclassified <==> exists i :: 0 <= i < n && !CountsAsEvent(rows[i]) && x == LooseOf(rows[i])
      invariant |unclassified| == CountLoose(rows, n)
    {
      var row := rows[n];
      if !CountsAsEvent(row) {
        unclassified := unclassified + [LooseOf(row)];
      } else {
        var key := (row.org, row.checkIn.eventId.value);
        assert row.Attends(key);
        if !(key in attended && attended[key].checkedInAt <= row.checkIn.checkedInAt) {
          attended := attended[key := Attended(row.org, key.1, row.checkIn.eventName, row.checkIn.checkedInAt)];
        }
      }
      n := n + 1;
    }
  }

  predicate CountsAsEvent(row: Stored) { row.checkIn.classified && row.checkIn.eventId.Some? }

  function LooseOf(row: Stored): Loose {
    Loose(row.org, row.code, row.checkIn.eventName, row.checkIn.checkedInAt)
  }

  function CountLoose(rows: seq<Stored>, n: nat): nat
    requires n <= |rows|
  {
    if n == 0 then 0 else CountLoose(rows, n - 1) + if CountsAsEvent(rows[n - 1]) then 0 else 1
  }

  ghost predicate Earliest(rows: seq<Stored>, n: nat, key: (OrgId, EventId), a: Attended)
    requires n <= |rows|
  {
    && a.org == key.0 && a.event == key.1
    && (exists i :: 0 <= i < n && rows[i].Attends(key)
          && a.checkedInAt == rows[i].checkIn.checkedInAt && a.eventName == rows[i].checkIn.eventName)
    && (forall i :: 0 <= i < n && rows[i].Attends(key) ==> a.checkedInAt <= rows[i].checkIn.checkedInAt)
  }

  method CoverageReasons(t: Tables, org: OrgId, events: seq<CommunityEvent>) returns (reasons: set<Reason>)
    ensures forall reason :: reason in reasons <==> HasReason(t, org, events, reason)
  {
    reasons := if (org, Sweep) in t.rows && t.rows[(org, Sweep)].failed then {Failed} else {};
    var n := 0;
    while n < |events|
      invariant n <= |events|
      invariant forall reason :: reason in reasons <==> HasReason(t, org, events[..n], reason)
    {
      var row := Find(t.rows, (org, Event(events[n].id)));
      ghost var before := reasons;
      if row.None? {
        reasons := reasons + {NotSynced};
      }
      if row.Some? && row.value.failed {
        reasons := reasons + {Failed};
      }
      if row.Some? && row.value.truncated {
        reasons := reasons + {Truncated};
      }
      forall reason ensures reason in reasons <==> HasReason(t, org, events[..n + 1], reason) {
        ReasonOfOneMore(t, org, events, n, reason);
      }
      n := n + 1;
    }
    assert events[..|events|] == events;
  }

  lemma ReasonOfOneMore(t: Tables, org: OrgId, events: seq<CommunityEvent>, n: nat, reason: Reason)
    requires n < |events|
    ensures HasReason(t, org, events[..n + 1], reason) <==>
              HasReason(t, org, events[..n], reason)
              || var row := Find(t.rows, (org, Event(events[n].id)));
                 match reason
                 case NotSynced => row.None?
                 case Truncated => row.Some? && row.value.truncated
                 case Failed => row.Some? && row.value.failed
  {
    var less, more := events[..n], events[..n + 1];
    assert more[n] == events[n];
    assert forall i :: 0 <= i < n ==> less[i] == more[i];
    if HasReason(t, org, less, reason) && !(reason.Failed? && (org, Sweep) in t.rows && t.rows[(org, Sweep)].failed) {
      var i :| 0 <= i < n && Explains(t, org, less[i], reason);
      assert Explains(t, org, more[i], reason);
    }
    if Explains(t, org, more[n], reason) {
      assert HasReason(t, org, more, reason);
    }
  }

  ghost predicate Explains(t: Tables, org: OrgId, e: CommunityEvent, reason: Reason) {
    var row := Find(t.rows, (org, Event(e.id)));
    match reason
    case NotSynced => row.None?
    case Truncated => row.Some? && row.value.truncated
    case Failed => row.Some? && row.value.failed
  }

  datatype Status = Synced | Incomplete

  // A community without events and without history is not reported at all; otherwise it is "synced"
  // exactly when its record is complete.
  method CommunityStatus(t: Tables, org: OrgId, events: seq<CommunityEvent>, hasHistory: bool) returns (status: Option<Status>)
    ensures status == None <==> events == [] && !hasHistory
    ensures status.Some? ==> (status.value == Status.Synced <==> Complete(t, org, events))
  {
    if events == [] && !hasHistory {
      return None;
    }
    var reasons := CoverageReasons(t, org, events);
    status := Some(if reasons == {} then Status.Synced else Incomplete);
    if reasons != {} {
      var reason :| reason in reasons;
      assert HasReason(t, org, events, reason);
    }
  }
}
