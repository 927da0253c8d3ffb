/**
 Confirmed attendance: an incremental sync of onboarding codes, and the coverage report that says
 whether a community's record is complete.
 */
module Attendance {
  import opened Wrappers

  type OrgId = nat
  type EventId = nat
  type CodeId = nat
  type UserId = nat
  type Time = int

  // What a reconciliation row is about: one event, or the organization-wide sweep.
  datatype Scope = Event(id: EventId) | Sweep

  datatype CommunityEvent = CommunityEvent(id: EventId, title: string, startsAt: Option<Time>)

  datatype UpstreamCode = UpstreamCode(id: CodeId, eventId: Option<EventId>, usedCount: nat)

  datatype Join = Join(userId: UserId, createdAt: Time)

  datatype CodeStatus = CodeStatus(eventId: Option<EventId>, eventName: string, joined: seq<Join>)

  // An answer of the auth service to a listing.
  datatype Listing = Codes(codes: seq<UpstreamCode>) | AccessDenied | Unavailable

  // Everything upstream answers during one reconcile; None is a failed status read.
  datatype Upstream = Upstream(
    latest: Listing,
    ofEvent: EventId -> Listing,
    status: (Scope, CodeId) -> Option<CodeStatus>
  )

  type CheckInKey = (OrgId, CodeId, UserId)

  datatype CheckIn = CheckIn(
    eventId: Option<EventId>, eventName: string, communityName: string, classified: bool, checkedInAt: Time)

  datatype EventRow = EventRow(truncated: bool, failed: bool, reconciledAt: Time)

  datatype Tables = Tables(
    checkIns: map<CheckInKey, CheckIn>,
    checkpoints: map<(OrgId, CodeId), nat>,
    rows: map<(OrgId, Scope), EventRow>
  )

  const UPSTREAM_CODE_PAGE_LIMIT: nat := 20
  const SETTLED_AFTER: int := 14 * 24 * 3_600_000

  // --- Recording one code ---

  function UpsertJoin(
    t: map<CheckInKey, CheckIn>, key: CheckInKey, incoming: CheckIn
  ): map<CheckInKey, CheckIn> {
    if key in t then
      t[key := t[key].(
          eventId := incoming.eventId,
          eventName := incoming.eventName,
          checkedInAt := incoming.checkedInAt,
          classified := t[key].classified || incoming.classified)]
    else t[key := incoming]
  }

  function FreshCheckIn(community: string, status: CodeStatus, known: set<EventId>, join: Join): CheckIn {
    CheckIn(status.eventId, status.eventName, community,
            status.eventId.Some? && status.eventId.value in known, join.createdAt)
  }

  // INSERT ... ON CONFLICT DO UPDATE of the first n joins.
  function UpsertJoins(
    t: map<CheckInKey, CheckIn>, org: OrgId, code: CodeId, community: string, status: CodeStatus, known: set<EventId>, n: nat
  ): map<CheckInKey, CheckIn>
    requires n <= |status.joined|
  {
    if n == 0 then t
    else
      UpsertJoin(UpsertJoins(t, org, code, community, status, known, n - 1),
                 (org, code, status.joined[n - 1].userId),
                 FreshCheckIn(community, status, known, status.joined[n - 1]))
  }

  // A statement that would touch a row twice aborts.
  predicate UsersDistinct(joined: seq<Join>) {
    forall i, j | 0 <= i < j < |joined| :: joined[i].userId != joined[j].userId
  }

  function Committed(t: Tables, org: OrgId, community: string, code: UpstreamCode, known: set<EventId>, status: CodeStatus): Tables {
    Tables(
      UpsertJoins(t.checkIns, org, code.id, community, status, known, |status.joined|),
      t.checkpoints[(org, code.id) := code.usedCount],
      t.rows)
  }

  // Nothing recorded is lost, and no check-in loses its classification.
  ghost predicate KeepsCheckIns(before: map<CheckInKey, CheckIn>, after: map<CheckInKey, CheckIn>) {
    forall k :: k in before ==> k in after && (before[k].classified ==> after[k].classified)
  }

  lemma {:induction false} UpsertKeeps(
    t: map<CheckInKey, CheckIn>, org: OrgId, code: CodeId, community: string, status: CodeStatus, known: set<EventId>, n: nat
  )
    requires n <= |status.joined|
    ensures var after := UpsertJoins(t, org, code, community, status, known, n);
            && KeepsCheckIns(t, after)
            && (forall k :: k in after <==> k in t || exists i :: 0 <= i < n && k == (org, code, status.joined[i].userId))
  {
    if n > 0 {
      UpsertKeeps(t, org, code, community, status, known, n - 1);
    }
  }

  // With one join per user, an upsert leaves each user's row merged once and touches no other row.
  lemma {:induction false} UpsertRows(
    t: map<CheckInKey, CheckIn>, org: OrgId, code: CodeId, community: string, status: CodeStatus, known: set<EventId>, n: nat,
    k: CheckInKey
  )
    requires n <= |status.joined| && UsersDistinct(status.joined)
    ensures var after := UpsertJoins(t, org, code, community, status, known, n);
            && (forall i :: 0 <= i < n && k == (org, code, status.joined[i].userId) ==>
                  Find(after, k) == Find(UpsertJoin(t, k, FreshCheckIn(community, status, known, status.joined[i])), k))
            && ((forall i :: 0 <= i < n ==> k != (org, code, status.joined[i].userId)) ==> Find(after, k) == Find(t, k))
  {
    if n > 0 {
      UpsertRows(t, org, code, community, status, known, n - 1, k);
    }
  }

  // --- What stands behind a checkpoint ---

  type StatusReads = (Scope, CodeId) -> Option<CodeStatus>

  // Some status of the code was read, and everyone in it is recorded.
  ghost predicate ReadAndRecorded(checkIns: map<CheckInKey, CheckIn>, org: OrgId, code: CodeId, status: StatusReads) {
    exists scope :: RecordedAs(checkIns, org, code, status(scope, code))
  }

  ghost predicate RecordedAs(checkIns: map<CheckInKey, CheckIn>, org: OrgId, code: CodeId, status: Option<CodeStatus>) {
    status.Some? && forall i :: 0 <= i < |status.value.joined| ==> (org, code, status.value.joined[i].userId) in checkIns
  }

  // A checkpoint is either the one the reconciliation started from, or its code was read and recorded since.
  ghost predicate Grounded(
    base: map<(OrgId, CodeId), nat>, checkpoints: map<(OrgId, CodeId), nat>, checkIns: map<CheckInKey, CheckIn>,
    org: OrgId, status: StatusReads
  ) {
    forall k :: k in checkpoints ==>
      Find(base, k) == Some(checkpoints[k]) || (k.0 == org && ReadAndRecorded(checkIns, org, k.1, status))
  }

  // A listed code that counts as synced: unchanged since the last time, or read and recorded now.
  ghost predicate Synced(
    base: map<(OrgId, CodeId), nat>, checkIns: map<CheckInKey, CheckIn>, org: OrgId, code: UpstreamCode, status: StatusReads
  ) {
    Find(base, (org, code.id)) == Some(code.usedCount) || ReadAndRecorded(checkIns, org, code.id, status)
  }

  lemma RecordedLasts(
    before: map<CheckInKey, CheckIn>, after: map<CheckInKey, CheckIn>, org: OrgId, code: CodeId, status: StatusReads
  )
    requires KeepsCheckIns(before, after) && ReadAndRecorded(before, org, code, status)
    ensures ReadAndRecorded(after, org, code, status)
  {
    var scope :| RecordedAs(before, org, code, status(scope, code));
    assert RecordedAs(after, org, code, status(scope, code));
  }

  lemma CommitGrounds(
    base: map<(OrgId, CodeId), nat>, t: Tables, org: OrgId, community: string, code: UpstreamCode, known: set<EventId>,
    scope: Scope, status: StatusReads
  )
    requires Grounded(base, t.checkpoints, t.checkIns, org, status) && status(scope, code.id).Some?
    ensures var after := Committed(t, org, community, code, known, status(scope, code.id).value);
            Grounded(base, after.checkpoints, after.checkIns, org, status) && ReadAndRecorded(after.checkIns, org, code.id, status)
  {
    var read := status(scope, code.id).value;
    var after := Committed(t, org, community, code, known, read);
    UpsertKeeps(t.checkIns, org, code.id, community, read, known, |read.joined|);
    assert RecordedAs(after.checkIns, org, code.id, status(scope, code.id));
    forall k | k in after.checkpoints && k != (org, code.id)
      ensures Find(base, k) == Some(after.checkpoints[k]) || (k.0 == org && ReadAndRecorded(after.checkIns, org, k.1, status))
    {
      if Find(base, k) != Some(t.checkpoints[k]) {
        RecordedLasts(t.checkIns, after.checkIns, org, k.1, status);
      }
    }
  }

  // --- What the rows written say ---

  ghost predicate HasJoin(status: Option<CodeStatus>, user: UserId, i: int) {
    status.Some? && 0 <= i < |status.value.joined| && status.value.joined[i].userId == user
  }

  ghost predicate EventKnown(status: CodeStatus, known: set<EventId>) { status.eventId.Some? && status.eventId.value in known }

  // The row says what a status that was read says about the user.
  ghost predicate Says(row: CheckIn, status: CodeStatus, i: int, known: set<EventId>)
    requires 0 <= i < |status.joined|
  {
    && row.eventId == status.eventId && row.eventName == status.eventName
    && row.checkedInAt == status.joined[i].createdAt && (EventKnown(status, known) ==> row.classified)
  }

  ghost predicate ReadAsKnown(key: CheckInKey, known: set<EventId>, status: StatusReads) {
    exists scope, i :: HasJoin(status(scope, key.1), key.2, i) && EventKnown(status(scope, key.1).value, known)
  }

  ghost predicate ReadFor(row: CheckIn, key: CheckInKey, known: set<EventId>, status: StatusReads) {
    exists scope, i :: HasJoin(status(scope, key.1), key.2, i) && Says(row, status(scope, key.1).value, i, known)
  }

  // A row is as it was, or says what was read: a new one names the community, an old one keeps its name. It is
  // classified exactly if it was or its event is known.
  ghost predicate RowRead(
    base: map<CheckInKey, CheckIn>, now: map<CheckInKey, CheckIn>, org: OrgId, community: string, known: set<EventId>,
    status: StatusReads, key: CheckInKey
  ) {
    key in now ==>
      || Find(base, key) == Some(now[key])
      || (&& key.0 == org && ReadFor(now[key], key, known, status)
          && now[key].communityName == (if key in base then base[key].communityName else community)
          && (now[key].classified ==> (key in base && base[key].classified) || ReadAsKnown(key, known, status)))
  }

  ghost predicate RowsRead(
    base: map<CheckInKey, CheckIn>, now: map<CheckInKey, CheckIn>, org: OrgId, community: string, known: set<EventId>,
    status: StatusReads
  ) {
    forall key :: RowRead(base, now, org, community, known, status, key)
  }

  lemma CommitReads(
    base: map<CheckInKey, CheckIn>, t: Tables, org: OrgId, community: string, code: UpstreamCode, known: set<EventId>,
    scope: Scope, status: StatusReads
  )
    requires RowsRead(base, t.checkIns, org, community, known, status)
    requires status(scope, code.id).Some? && UsersDistinct(status(scope, code.id).value.joined)
    requires KeepsCheckIns(base, t.checkIns)
    ensures RowsRead(base, Committed(t, org, community, code, known, status(scope, code.id).value).checkIns,
                     org, community, known, status)
  {
    var read := status(scope, code.id).value;
    var after := Committed(t, org, community, code, known, read).checkIns;
    UpsertKeeps(t.checkIns, org, code.id, community, read, known, |read.joined|);
    forall key ensures RowRead(base, after, org, community, known, status, key) {
      assert RowRead(base, t.checkIns, org, community, known, status, key);
      UpsertRows(t.checkIns, org, code.id, community, read, known, |read.joined|, key);
      if i :| 0 <= i < |read.joined| && key == (org, code.id, read.joined[i].userId) {
        assert HasJoin(status(scope, key.1), key.2, i);
        assert Says(after[key], read, i, known);
      }
    }
  }

  // --- Which events are due ---

  function FreshCodes(latest: seq<UpstreamCode>, checkpoints: map<(OrgId, CodeId), nat>, org: OrgId): set<Option<EventId>> {
    set i | 0 <= i < |latest| && Find(checkpoints, (org, latest[i].id)) != Some(latest[i].usedCount) :: latest[i].eventId
  }

  predicate Due(t: Tables, org: OrgId, latest: Listing, now: Time, event: CommunityEvent) {
    var row := Find(t.rows, (org, Event(event.id)));
    if row.None? || row.value.failed || row.value.truncated || !latest.Codes? then true
    else if Some(event.id) in FreshCodes(latest.codes, t.checkpoints, org) then true
    else event.startsAt.None? || event.startsAt.value > now - SETTLED_AFTER
  }

  // A clean row, nothing new in the latest codes, and a start long ago.
  ghost predicate NothingNew(t: Tables, org: OrgId, latest: Listing, now: Time, event: CommunityEvent) {
    && (org, Event(event.id)) in t.rows
    && !t.rows[(org, Event(event.id))].failed && !t.rows[(org, Event(event.id))].truncated
    && latest.Codes?
    && (forall i :: 0 <= i < |latest.codes| && latest.codes[i].eventId == Some(event.id) ==>
          (org, latest.codes[i].id) in t.checkpoints && t.checkpoints[(org, latest.codes[i].id)] == latest.codes[i].usedCount)
    && event.startsAt.Some? && event.startsAt.value <= now - SETTLED_AFTER
  }

  // An event is due exactly if something about it may be new.
  lemma DueMeans(t: Tables, org: OrgId, latest: Listing, now: Time, event: CommunityEvent)
    ensures Due(t, org, latest, now, event) <==> !NothingNew(t, org, latest, now, event)
  {
    if latest.Codes? && (forall i :: 0 <= i < |latest.codes| && latest.codes[i].eventId == Some(event.id) ==>
                           Find(t.checkpoints, (org, latest.codes[i].id)) == Some(latest.codes[i].usedCount)) {
      assert Some(event.id) !in FreshCodes(latest.codes, t.checkpoints, org);
    }
  }

  // --- Reconciling a community ---

  datatype Outcome = Outcome(scope: Scope, truncated: bool, ok: bool)

  datatype Summary = Summary(events: nat, truncated: seq<Scope>, failed: seq<Scope>)

  datatype ReconcileError = Forbidden | StatementFailed

  predicate EventsDistinct(events: seq<CommunityEvent>) {
    forall i, j | 0 <= i < j < |events| :: events[i].id != events[j].id
  }

  predicate ScopesDistinct(results: seq<Outcome>) {
    forall i, j | 0 <= i < j < |results| :: results[i].scope != results[j].scope
  }

  function RowAfter(previous: Option<EventRow>, result: Outcome, now: Time): EventRow {
    if result.ok then EventRow(result.truncated, false, now)
    else if previous.Some? then previous.value.(failed := true)
    else EventRow(false, true, now)
  }

  // --- The coverage report ---

  datatype Reason = NotSynced | Truncated | Failed

  ghost predicate HasReason(t: Tables, org: OrgId, events: seq<CommunityEvent>, reason: Reason) {
    match reason
    case NotSynced => exists i :: 0 <= i < |events| && (org, Event(events[i].id)) !in t.rows
    case Truncated => exists i :: 0 <= i < |events| && (org, Event(events[i].id)) in t.rows && t.rows[(org, Event(events[i].id))].truncated
    case Failed =>
      || ((org, Sweep) in t.rows && t.rows[(org, Sweep)].failed)
      || exists i :: 0 <= i < |events| && (org, Event(events[i].id)) in t.rows && t.rows[(org, Event(events[i].id))].failed
  }

  ghost predicate Complete(t: Tables, org: OrgId, events: seq<CommunityEvent>) {
    forall reason :: !HasReason(t, org, events, reason)
  }

  // How a due event, a skipped event and the sweep stand right after a reconcile that returned `s`.
  ghost predicate Reported(t: Tables, org: OrgId, s: Summary, scope: Scope) {
    && (org, scope) in t.rows
    && (scope in s.failed <==> t.rows[(org, scope)].failed)
    && (scope !in s.failed ==> (scope in s.truncated <==> t.rows[(org, scope)].truncated))
  }

  ghost predicate AllReported(t: Tables, org: OrgId, events: seq<CommunityEvent>, s: Summary) {
    && Reported(t, org, s, Sweep) && Sweep !in s.truncated
    && (forall i :: 0 <= i < |events| ==> Reported(t, org, s, Event(events[i].id)))
    && (forall x :: x in s.failed || x in s.truncated ==> x == Sweep || exists i :: 0 <= i < |events| && x == Event(events[i].id))
  }

  lemma ReportMeansCoverage(t: Tables, org: OrgId, events: seq<CommunityEvent>, s: Summary)
    requires AllReported(t, org, events, s)
    ensures Complete(t, org, events) <==> s.failed == [] && s.truncated == []
  {
    assert s.failed != [] ==> s.failed[0] in s.failed;
    assert s.truncated != [] ==> s.truncated[0] in s.truncated;
    if Complete(t, org, events) {
      assert !HasReason(t, org, events, Failed) && !HasReason(t, org, events, Truncated);
    } else {
      var reason :| HasReason(t, org, events, reason);
      if reason.Failed? && (org, Sweep) in t.rows && t.rows[(org, Sweep)].failed {
        assert Sweep in s.failed;
      } else {
        var i :| 0 <= i < |events| &&
                 var key := (org, Event(events[i].id));
                 key !in t.rows || (reason.Truncated? && t.rows[key].truncated) || (reason.Failed? && t.rows[key].failed);
        assert Reported(t, org, s, Event(events[i].id));
      }
    }
  }

  predicate LongListing(l: Listing) {
    l.Codes? && |l.codes| >= UPSTREAM_CODE_PAGE_LIMIT
  }

  ghost predicate ListingSynced(
    base: map<(OrgId, CodeId), nat>, checkIns: map<CheckInKey, CheckIn>, org: OrgId, l: Listing, status: StatusReads
  ) {
    l.Codes? && forall i :: 0 <= i < |l.codes| ==> Synced(base, checkIns, org, l.codes[i], status)
  }

  ghost predicate OutcomeOf(
    base: map<(OrgId, CodeId), nat>, checkIns: map<CheckInKey, CheckIn>, org: OrgId, event: CommunityEvent,
    upstream: Upstream, o: Outcome
  ) {
    && o.scope == Event(event.id)
    && (o.truncated <==> LongListing(upstream.ofEvent(event.id)))
    && (o.ok ==> ListingSynced(base, checkIns, org, upstream.ofEvent(event.id), upstream.status))
    && (!o.ok ==> upstream.ofEvent(event.id).Unavailable? || ListsUnreadable(upstream, event))
  }

  // The event lists a code whose status could not be read.
  ghost predicate ListsUnreadable(upstream: Upstream, event: CommunityEvent) {
    var l := upstream.ofEvent(event.id);
    l.Codes? && exists i :: 0 <= i < |l.codes| && upstream.status(Event(event.id), l.codes[i].id) == None
  }

  lemma OutcomeLasts(
    base: map<(OrgId, CodeId), nat>, before: map<CheckInKey, CheckIn>, after: map<CheckInKey, CheckIn>, org: OrgId,
    event: CommunityEvent, upstream: Upstream, o: Outcome
  )
    requires KeepsCheckIns(before, after) && OutcomeOf(base, before, org, event, upstream, o)
    ensures OutcomeOf(base, after, org, event, upstream, o)
  {
    if o.ok {
      var codes := upstream.ofEvent(event.id).codes;
      forall i | 0 <= i < |codes| ensures Synced(base, after, org, codes[i], upstream.status) {
        if Find(base, (org, codes[i].id)) != Some(codes[i].usedCount) {
          RecordedLasts(before, after, org, codes[i].id, upstream.status);
        }
      }
    }
  }

  class AttendanceService {
    var checkIns: map<CheckInKey, CheckIn>
    var checkpoints: map<(OrgId, CodeId), nat>
    var rows: map<(OrgId, Scope), EventRow>

    function State(): Tables
      reads this
    {
      Tables(checkIns, checkpoints, rows)
    }

    constructor (t: Tables)
      ensures State() == t
    {
      checkIns, checkpoints, rows := t.checkIns, t.checkpoints, t.rows;
    }

    // Ok(true): the code is up to date. Ok(false): its status could not be read.
    method RecordCode(
      org: OrgId, community: string, code: UpstreamCode, known: set<EventId>, status: Option<CodeStatus>
    )
      returns (r: Result<bool, ReconcileError>)
      modifies this
      ensures Find(old(checkpoints), (org, code.id)) == Some(code.usedCount) ==> r == Ok(true) && State() == old(State())
      ensures Find(old(checkpoints), (org, code.id)) != Some(code.usedCount) ==>
                if status.None? then r == Ok(false) && State() == old(State())
                else if !UsersDistinct(status.value.joined) then r == Err(StatementFailed) && State() == old(State())
                else r == Ok(true) && State() == Committed(old(State()), org, community, code, known, status.value)
      ensures rows == old(rows) && KeepsCheckIns(old(checkIns), checkIns)
    {
      if Find(checkpoints, (org, code.id)) == Some(code.usedCount) {
        return Ok(true);
      }
      if status.None? {
        return Ok(false);
      }
      var joined := status.value.joined;
      if !UsersDistinct(joined) {
        return Err(StatementFailed);
      }
      var n := 0;
      while n < |joined|
        invariant n <= |joined|
        invariant rows == old(rows) && checkpoints == old(checkpoints)
        invariant checkIns == UpsertJoins(old(checkIns), org, code.id, community, status.value, known, n)
      {
        checkIns := UpsertJoin(checkIns, (org, code.id, joined[n].userId), FreshCheckIn(community, status.value, known, joined[n]));
        n := n + 1;
      }
      checkpoints := checkpoints[(org, code.id) := code.usedCount];
      UpsertKeeps(old(checkIns), org, code.id, community, status.value, known, |joined|);
      r := Ok(true);
    }

    // recordCode over a list; true when every code is up to date.
    method RecordCodes(
      org: OrgId, community: string, codes: seq<UpstreamCode>, known: set<EventId>, scope: Scope, status: StatusReads,
      ghost base: map<(OrgId, CodeId), nat>
    )
      returns (r: Result<bool, ReconcileError>)
      requires Grounded(base, checkpoints, checkIns, org, status)
      modifies this
      ensures rows == old(rows) && KeepsCheckIns(old(checkIns), checkIns)
      ensures RowsRead(old(checkIns), checkIns, org, community, known, status)
      ensures Grounded(base, checkpoints, checkIns, org, status)
      ensures r == Ok(true) ==> forall i :: 0 <= i < |codes| ==> Synced(base, checkIns, org, codes[i], status)
      ensures r == Ok(false) ==> exists i :: 0 <= i < |codes| && status(scope, codes[i].id) == None
      ensures r != Err(Forbidden)
    {
      var all := true;
      var i := 0;
      while i < |codes|
        invariant i <= |codes|
        invariant rows == old(rows) && KeepsCheckIns(old(checkIns), checkIns)
        invariant Grounded(base, checkpoints, checkIns, org, status)
        invariant RowsRead(old(checkIns), checkIns, org, community, known, status)
        invariant all ==> forall j :: 0 <= j < i ==> Synced(base, checkIns, org, codes[j], status)
        invariant !all ==> exists j :: 0 <= j < i && status(scope, codes[j].id) == None
      {
        ghost var before := State();
        var recorded := RecordCode(org, community, codes[i], known, status(scope, codes[i].id));
        if recorded.Err? {
          return recorded;
        }
        if recorded.value && Find(before.checkpoints, (org, codes[i].id)) != Some(codes[i].usedCount) {
          CommitGrounds(base, before, org, community, codes[i], known, scope, status);
          CommitReads(old(checkIns), before, org, community, codes[i], known, scope, status);
        }
        forall j | 0 <= j < i && Synced(base, before.checkIns, org, codes[j], status)
          ensures Synced(base, checkIns, org, codes[j], status)
        {
          if Find(base, (org, codes[j].id)) != Some(codes[j].usedCount) {
            RecordedLasts(before.checkIns, checkIns, org, codes[j].id, status);
          }
        }
        all := all && recorded.value;
        i := i + 1;
      }
      r := Ok(all);
    }

    method ReconcileEvent(
      org: OrgId, community: string, event: CommunityEvent, known: set<EventId>, upstream: Upstream,
      ghost base: map<(OrgId, CodeId), nat>
    )
      returns (r: Result<Outcome, ReconcileError>)
      requires Grounded(base, checkpoints, checkIns, org, upstream.status)
      modifies this
      ensures rows == old(rows) && KeepsCheckIns(old(checkIns), checkIns)
      ensures RowsRead(old(checkIns), checkIns, org, community, known, upstream.status)
      ensures Grounded(base, checkpoints, checkIns, org, upstream.status)
      ensures r.Ok? ==> OutcomeOf(base, checkIns, org, event, upstream, r.value)
      ensures r == Err(Forbidden) <==> upstream.ofEvent(event.id).AccessDenied?
    {
      match upstream.ofEvent(event.id)
      case AccessDenied => return Err(Forbidden);
      case Unavailable => return Ok(Outcome(Event(event.id), false, false));
      case Codes(codes) =>
        var recorded := RecordCodes(org, community, codes, known, Event(event.id), upstream.status, base);
        if recorded.Err? {
          return Err(StatementFailed);
        }
        r := Ok(Outcome(Event(event.id), |codes| >= UPSTREAM_CODE_PAGE_LIMIT, recorded.value));
    }

    // The two upserts at the end: the succeeded results, then the failed ones.
    method StoreResults(org: OrgId, results: seq<Outcome>, now: Time)
      requires ScopesDistinct(results)
      modifies this`rows
      ensures forall i :: 0 <= i < |results| ==>
                Find(rows, (org, results[i].scope)) == Some(RowAfter(Find(old(rows), (org, results[i].scope)), results[i], now))
      ensures forall k :: (forall i :: 0 <= i < |results| ==> k != (org, results[i].scope)) ==> Find(rows, k) == Find(old(rows), k)
    {
      var i := 0;
      while i < |results|
        invariant i <= |results|
        invariant forall j :: 0 <= j < i && results[j].ok ==>
                    Find(rows, (org, results[j].scope)) == Some(RowAfter(Find(old(rows), (org, results[j].scope)), results[j], now))
        invariant forall k :: (forall j :: 0 <= j < i && results[j].ok ==> k != (org, results[j].scope)) ==>
                    Find(rows, k) == Find(old(rows), k)
      {
        if results[i].ok {
          rows := rows[(org, results[i].scope) := EventRow(results[i].truncated, false, now)];
        }
        i := i + 1;
      }
      i := 0;
      while i < |results|
        invariant i <= |results|
        invariant forall j :: 0 <= j < |results| && (results[j].ok || j < i) ==>
                    Find(rows, (org, results[j].scope)) == Some(RowAfter(Find(old(rows), (org, results[j].scope)), results[j], now))
        invariant forall k :: (forall j :: 0 <= j < |results| && (results[j].ok || j < i) ==> k != (org, results[j].scope)) ==>
                    Find(rows, k) == Find(old(rows), k)
      {
        if !results[i].ok {
          var key := (org, results[i].scope);
          assert Find(rows, key) == Find(old(rows), key);
          rows := rows[key := if key in rows then rows[key].(failed := true) else EventRow(false, true, now)];
        }
        i := i + 1;
      }
    }

    // Steps 1 and 2: every due event, then the latest codes that belong to no known event.
    method ReconcileDue(org: OrgId, community: string, events: seq<CommunityEvent>, known: set<EventId>, upstream: Upstream, now: Time)
      returns (r: Result<seq<Outcome>, ReconcileError>)
      requires EventsDistinct(events)
      modifies this
      ensures rows == old(rows) && KeepsCheckIns(old(checkIns), checkIns)
      ensures Grounded(old(checkpoints), checkpoints, checkIns, org, upstream.status)
      ensures RowsRead(old(checkIns), checkIns, org, community, known, upstream.status)
      ensures r.Ok? ==> ResultsOf(old(State()), checkIns, org, events, upstream, now, r.value, |events|)
    {
      var snapshot := State();
      var results: seq<Outcome> := [];
      var i := 0;
      while i < |events|
        invariant i <= |events|
        invariant rows == old(rows) && KeepsCheckIns(old(checkIns), checkIns)
        invariant Grounded(old(checkpoints), checkpoints, checkIns, org, upstream.status)
        invariant RowsRead(old(checkIns), checkIns, org, community, known, upstream.status)
        invariant ResultsOf(snapshot, checkIns, org, events, upstream, now, results, i)
      {
        if Due(snapshot, org, upstream.latest, now, events[i]) {
          ghost var before := checkIns;
          var result := ReconcileEvent(org, community, events[i], known, upstream, snapshot.checkpoints);
          ReadsOn(old(checkIns), before, checkIns, org, community, known, upstream.status);
          if result.Err? {
            return Err(result.error);
          }
          ResultAdded(snapshot, before, checkIns, org, events, upstream, now, results, i, result.value);
          results := results + [result.value];
        }
        i := i + 1;
      }
      r := Ok(results);
    }

    method Reconcile(org: OrgId, community: string, events: seq<CommunityEvent>, upstream: Upstream, now: Time)
      returns (r: Result<Summary, ReconcileError>)
      requires EventsDistinct(events)
      modifies this
      ensures KeepsCheckIns(old(checkIns), checkIns)
      ensures RowsRead(old(checkIns), checkIns, org, community, set i | 0 <= i < |events| :: events[i].id, upstream.status)
      ensures r.Err? ==> rows == old(rows)
      ensures upstream.latest.AccessDenied? ==> r == Err(Forbidden)
      // What the summary says is what the rows say, for due events, skipped ones and the sweep.
      ensures r.Ok? ==> AllReported(State(), org, events, r.value)
      ensures r.Ok? ==> r.value.events == |DueEvents(old(State()), org, upstream.latest, now, events, |events|)|
      ensures r.Ok? ==> forall j :: 0 <= j < |events| ==>
                EventStored(old(State()), State(), org, events[j], upstream, now, r.value)
      // The sweep fails only without a listing, or over a code of no known event whose status could not be read.
      ensures r.Ok? && Sweep !in r.value.failed ==> upstream.latest.Codes?
      ensures r.Ok? && Sweep in r.value.failed && upstream.latest.Codes? ==>
                exists code :: code in upstream.latest.codes && upstream.status(Sweep, code.id) == None &&
                          forall j :: 0 <= j < |events| ==> code.eventId != Some(events[j].id)
      // A listed code with a new used count was read, or its failure is reported.
      ensures r.Ok? && upstream.latest.Codes? ==>
                forall code :: code in upstream.latest.codes ==>
                  CodeCovered(old(checkpoints), checkIns, org, events, upstream, r.value, code)
      // The coverage report right afterwards is complete exactly when nothing failed or was cut off.
      ensures r.Ok? ==> (Complete(State(), org, events) <==> r.value.failed == [] && r.value.truncated == [])
      // Whatever did fail or was cut off is due next time.
      ensures r.Ok? ==> forall e, latest, later :: e in events && (Event(e.id) in r.value.failed || Event(e.id) in r.value.truncated) ==>
                Due(State(), org, latest, later, e)
    {
      if upstream.latest.AccessDenied? {
        return Err(Forbidden);
      }
      ghost var before := State();
      var due := ReconcileDue(org, community, events, KnownIds(events), upstream, now);
      if due.Err? {
        return Err(due.error);
      }
      ghost var middle := checkIns;
      var sweepOk := false;
      if upstream.latest.Codes? {
        var outside := Outside(upstream.latest.codes, KnownIds(events));
        var recorded := RecordCodes(org, community, outside, KnownIds(events), Sweep, upstream.status, before.checkpoints);
        if recorded.Err? {
          ReadsOn(old(checkIns), middle, checkIns, org, community, KnownIds(events), upstream.status);
          return Err(recorded.error);
        }
        sweepOk := recorded.value;
        ReadsOn(old(checkIns), middle, checkIns, org, community, KnownIds(events), upstream.status);
        if !sweepOk {
          OutsideOnly(upstream.latest.codes, KnownIds(events));
        }
      }
      ResultsLast(before, middle, checkIns, org, events, upstream, now, due.value);
      var all := due.value + [Outcome(Sweep, false, sweepOk)];
      assert all[..|all| - 1] == due.value;
      ResultsDistinct(before, checkIns, org, events, upstream, now, all);
      StoreResults(org, all, now);
      var summary := Summary(|due.value|, ScopesWhere(all, (x: Outcome) => x.truncated), ScopesWhere(all, (x: Outcome) => !x.ok));
      assert summary == SummaryOf(all);
      Stored(before, State(), org, events, upstream, now, all);
      if upstream.latest.Codes? {
        AllCovered(before, State(), org, events, upstream, now, summary);
      }
      ReportMeansCoverage(State(), org, events, summary);
      r := Ok(summary);
    }
  }

  function KnownIds(events: seq<CommunityEvent>): set<EventId> {
    set i | 0 <= i < |events| :: events[i].id
  }

  function DueEvents(
    t: Tables, org: OrgId, latest: Listing, now: Time, events: seq<CommunityEvent>, n: nat
  ): seq<CommunityEvent>
    requires n <= |events|
  {
    if n == 0 then []
    else
      DueEvents(t, org, latest, now, events, n - 1)
      + if Due(t, org, latest, now, events[n - 1]) then [events[n - 1]] else []
  }

  // One result per due event, among the first n events.
  ghost predicate ResultsOf(
    t: Tables, checkIns: map<CheckInKey, CheckIn>, org: OrgId, events: seq<CommunityEvent>, upstream: Upstream, now: Time,
    results: seq<Outcome>, n: nat
  )
    requires n <= |events|
  {
    var due := DueEvents(t, org, upstream.latest, now, events, n);
    |results| == |due| && forall k :: 0 <= k < |due| ==> OutcomeOf(t.checkpoints, checkIns, org, due[k], upstream, results[k])
  }

  lemma ResultAdded(
    t: Tables, before: map<CheckInKey, CheckIn>, checkIns: map<CheckInKey, CheckIn>, org: OrgId, events: seq<CommunityEvent>,
    upstream: Upstream, now: Time, results: seq<Outcome>, n: nat, o: Outcome
  )
    requires n < |events| && ResultsOf(t, before, org, events, upstream, now, results, n)
    requires KeepsCheckIns(before, checkIns)
    requires Due(t, org, upstream.latest, now, events[n])
    requires OutcomeOf(t.checkpoints, checkIns, org, events[n], upstream, o)
    ensures ResultsOf(t, checkIns, org, events, upstream, now, results + [o], n + 1)
  {
    var due := DueEvents(t, org, upstream.latest, now, events, n);
    forall k | 0 <= k < |due| ensures OutcomeOf(t.checkpoints, checkIns, org, due[k], upstream, results[k]) {
      OutcomeLasts(t.checkpoints, before, checkIns, org, due[k], upstream, results[k]);
    }
  }

  lemma ResultsLast(
    t: Tables, before: map<CheckInKey, CheckIn>, checkIns: map<CheckInKey, CheckIn>, org: OrgId, events: seq<CommunityEvent>,
    upstream: Upstream, now: Time, results: seq<Outcome>
  )
    requires ResultsOf(t, before, org, events, upstream, now, results, |events|) && KeepsCheckIns(before, checkIns)
    ensures ResultsOf(t, checkIns, org, events, upstream, now, results, |events|)
  {
    var due := DueEvents(t, org, upstream.latest, now, events, |events|);
    forall k | 0 <= k < |due| ensures OutcomeOf(t.checkpoints, checkIns, org, due[k], upstream, results[k]) {
      OutcomeLasts(t.checkpoints, before, checkIns, org, due[k], upstream, results[k]);
    }
  }

  lemma {:induction false} DueAt(t: Tables, org: OrgId, latest: Listing, now: Time, events: seq<CommunityEvent>, n: nat, k: nat)
    returns (j: nat)
    requires n <= |events| && k < |DueEvents(t, org, latest, now, events, n)|
    ensures j < n && DueEvents(t, org, latest, now, events, n)[k] == events[j] && Due(t, org, latest, now, events[j])
  {
    if k < |DueEvents(t, org, latest, now, events, n - 1)| {
      j := DueAt(t, org, latest, now, events, n - 1, k);
    } else {
      j := n - 1;
    }
  }

  lemma {:induction false} DueIndex(t: Tables, org: OrgId, latest: Listing, now: Time, events: seq<CommunityEvent>, n: nat, j: nat)
    returns (k: nat)
    requires j < n <= |events| && Due(t, org, latest, now, events[j])
    ensures k < |DueEvents(t, org, latest, now, events, n)| && DueEvents(t, org, latest, now, events, n)[k] == events[j]
  {
    if j < n - 1 {
      k := DueIndex(t, org, latest, now, events, n - 1, j);
    } else {
      k := |DueEvents(t, org, latest, now, events, n - 1)|;
    }
  }

  lemma {:induction false} DueDistinct(
    t: Tables, org: OrgId, latest: Listing, now: Time, events: seq<CommunityEvent>, n: nat, k: nat, l: nat
  )
    requires n <= |events| && EventsDistinct(events) && k < l < |DueEvents(t, org, latest, now, events, n)|
    ensures DueEvents(t, org, latest, now, events, n)[k].id != DueEvents(t, org, latest, now, events, n)[l].id
  {
    if l < |DueEvents(t, org, latest, now, events, n - 1)| {
      DueDistinct(t, org, latest, now, events, n - 1, k, l);
    } else {
      var j := DueAt(t, org, latest, now, events, n - 1, k);
    }
  }

  function Outside(codes: seq<UpstreamCode>, known: set<EventId>): seq<UpstreamCode> {
    if codes == [] then []
    else
      (if codes[0].eventId.None? || codes[0].eventId.value !in known then [codes[0]] else [])
      + Outside(codes[1..], known)
  }

  function ScopesWhere(results: seq<Outcome>, keep: Outcome -> bool): (r: seq<Scope>)
    ensures forall s :: s in r <==> exists i :: 0 <= i < |results| && keep(results[i]) && s == results[i].scope
  {
    if results == [] then []
    else
      var rest := ScopesWhere(results[..|results| - 1], keep);
      var last := results[|results| - 1];
      assert forall i :: 0 <= i < |results| - 1 ==> results[..|results| - 1][i] == results[i];
      if keep(last) then rest + [last.scope] else rest
  }

  // All results of a reconciliation: one per due event, and the sweep last.
  ghost predicate Results(
    before: Tables, checkIns: map<CheckInKey, CheckIn>, org: OrgId, events: seq<CommunityEvent>, upstream: Upstream, now: Time,
    all: seq<Outcome>
  ) {
    && EventsDistinct(events)
    && all != [] && all[|all| - 1].scope == Sweep && !all[|all| - 1].truncated
    && ResultsOf(before, checkIns, org, events, upstream, now, all[..|all| - 1], |events|)
  }

  lemma ResultAt(
    before: Tables, checkIns: map<CheckInKey, CheckIn>, org: OrgId, events: seq<CommunityEvent>, upstream: Upstream, now: Time,
    all: seq<Outcome>, k: nat
  )
    returns (j: nat)
    requires Results(before, checkIns, org, events, upstream, now, all) && k < |all| - 1
    ensures j < |events| && Due(before, org, upstream.latest, now, events[j])
    ensures OutcomeOf(before.checkpoints, checkIns, org, events[j], upstream, all[k])
  {
    var due := DueEvents(before, org, upstream.latest, now, events, |events|);
    j := DueAt(before, org, upstream.latest, now, events, |events|, k);
    assert OutcomeOf(before.checkpoints, checkIns, org, due[k], upstream, all[..|all| - 1][k]);
  }

  lemma ResultsDistinct(
    before: Tables, checkIns: map<CheckInKey, CheckIn>, org: OrgId, events: seq<CommunityEvent>, upstream: Upstream, now: Time,
    all: seq<Outcome>
  )
    requires Results(before, checkIns, org, events, upstream, now, all)
    ensures ScopesDistinct(all)
  {
    var due := DueEvents(before, org, upstream.latest, now, events, |events|);
    forall k, l | 0 <= k < l < |all| ensures all[k].scope != all[l].scope {
      assert OutcomeOf(before.checkpoints, checkIns, org, due[k], upstream, all[..|all| - 1][k]);
      if l < |all| - 1 {
        assert OutcomeOf(before.checkpoints, checkIns, org, due[l], upstream, all[..|all| - 1][l]);
        DueDistinct(before, org, upstream.latest, now, events, |events|, k, l);
      }
    }
  }

  ghost predicate RowsStored(before: Tables, after: Tables, org: OrgId, all: seq<Outcome>, now: Time) {
    && (forall i :: 0 <= i < |all| ==>
          Find(after.rows, (org, all[i].scope)) == Some(RowAfter(Find(before.rows, (org, all[i].scope)), all[i], now)))
    && (forall k :: (forall i :: 0 <= i < |all| ==> k != (org, all[i].scope)) ==> Find(after.rows, k) == Find(before.rows, k))
  }

  function SummaryOf(all: seq<Outcome>): Summary {
    Summary(if |all| > 0 then |all| - 1 else 0,
            ScopesWhere(all, (x: Outcome) => x.truncated), ScopesWhere(all, (x: Outcome) => !x.ok))
  }

  lemma ResultReported(before: Tables, after: Tables, org: OrgId, all: seq<Outcome>, now: Time, i: nat)
    requires ScopesDistinct(all) && RowsStored(before, after, org, all, now) && i < |all|
    ensures Reported(after, org, SummaryOf(all), all[i].scope)
    ensures all[i].scope in SummaryOf(all).failed <==> !all[i].ok
    ensures all[i].scope in SummaryOf(all).truncated <==> all[i].truncated
  {
  }

  lemma DueStored(
    before: Tables, after: Tables, org: OrgId, events: seq<CommunityEvent>, upstream: Upstream, now: Time, all: seq<Outcome>, j: nat
  )
    requires Results(before, after.checkIns, org, events, upstream, now, all) && RowsStored(before, after, org, all, now)
    requires j < |events| && Due(before, org, upstream.latest, now, events[j])
    ensures Reported(after, org, SummaryOf(all), Event(events[j].id))
    ensures Event(events[j].id) in SummaryOf(all).truncated <==> LongListing(upstream.ofEvent(events[j].id))
    ensures Event(events[j].id) !in SummaryOf(all).failed ==>
              ListingSynced(before.checkpoints, after.checkIns, org, upstream.ofEvent(events[j].id), upstream.status)
  {
    var k := DueIndex(before, org, upstream.latest, now, events, |events|, j);
    assert OutcomeOf(before.checkpoints, after.checkIns, org, events[j], upstream, all[..|all| - 1][k]);
    ResultsDistinct(before, after.checkIns, org, events, upstream, now, all);
    ResultReported(before, after, org, all, now, k);
  }

  lemma SkippedStored(
    before: Tables, after: Tables, org: OrgId, events: seq<CommunityEvent>, upstream: Upstream, now: Time, all: seq<Outcome>, j: nat
  )
    requires Results(before, after.checkIns, org, events, upstream, now, all) && RowsStored(before, after, org, all, now)
    requires j < |events| && !Due(before, org, upstream.latest, now, events[j])
    ensures Find(after.rows, (org, Event(events[j].id))) == Find(before.rows, (org, Event(events[j].id)))
    ensures Reported(after, org, SummaryOf(all), Event(events[j].id))
    ensures Event(events[j].id) !in SummaryOf(all).truncated
  {
    forall i | 0 <= i < |all| ensures all[i].scope != Event(events[j].id) {
      if i < |all| - 1 {
        var m := ResultAt(before, after.checkIns, org, events, upstream, now, all, i);
      }
    }
  }

  lemma Stored(
    before: Tables, after: Tables, org: OrgId, events: seq<CommunityEvent>, upstream: Upstream, now: Time, all: seq<Outcome>
  )
    requires Results(before, after.checkIns, org, events, upstream, now, all) && RowsStored(before, after, org, all, now)
    ensures AllReported(after, org, events, SummaryOf(all))
    ensures Sweep in SummaryOf(all).failed <==> !all[|all| - 1].ok
    ensures forall j :: 0 <= j < |events| ==>
              EventStored(before, after, org, events[j], upstream, now, SummaryOf(all))
  {
    ResultsDistinct(before, after.checkIns, org, events, upstream, now, all);
    ResultReported(before, after, org, all, now, |all| - 1);
    forall j | 0 <= j < |events|
      ensures Reported(after, org, SummaryOf(all), Event(events[j].id))
      ensures EventStored(before, after, org, events[j], upstream, now, SummaryOf(all))
    {
      DueMeans(before, org, upstream.latest, now, events[j]);
      if Due(before, org, upstream.latest, now, events[j]) {
        DueStored(before, after, org, events, upstream, now, all, j);
      } else {
        SkippedStored(before, after, org, events, upstream, now, all, j);
      }
    }
    forall i | 0 <= i < |all|
      ensures all[i].scope == Sweep || exists j :: 0 <= j < |events| && all[i].scope == Event(events[j].id)
    {
      if i < |all| - 1 {
        var j := ResultAt(before, after.checkIns, org, events, upstream, now, all, i);
      }
    }
  }

  // Unless its used count is still the one recorded, the code of a known event goes with that event, any other
  // with the sweep: that failed, or all is synced.
  ghost predicate CodeCovered(
    base: map<(OrgId, CodeId), nat>, checkIns: map<CheckInKey, CheckIn>, org: OrgId, events: seq<CommunityEvent>,
    upstream: Upstream, s: Summary, code: UpstreamCode
  ) {
    if (org, code.id) in base && base[(org, code.id)] == code.usedCount then true
    else if code.eventId.Some? && exists j :: 0 <= j < |events| && events[j].id == code.eventId.value then
      Event(code.eventId.value) in s.failed ||
      ListingSynced(base, checkIns, org, upstream.ofEvent(code.eventId.value), upstream.status)
    else Sweep in s.failed || Synced(base, checkIns, org, code, upstream.status)
  }

  lemma {:induction false} OutsideHas(codes: seq<UpstreamCode>, known: set<EventId>, i: nat) returns (j: nat)
    requires i < |codes| && (codes[i].eventId.None? || codes[i].eventId.value !in known)
    ensures j < |Outside(codes, known)| && Outside(codes, known)[j] == codes[i]
  {
    if i == 0 {
      j := 0;
    } else {
      var k := OutsideHas(codes[1..], known, i - 1);
      j := |Outside(codes, known)| - |Outside(codes[1..], known)| + k;
    }
  }

  lemma {:induction false} OutsideOnly(codes: seq<UpstreamCode>, known: set<EventId>)
    ensures forall code :: code in Outside(codes, known) ==>
              code in codes && (code.eventId.None? || code.eventId.value !in known)
  {
    if codes != [] {
      OutsideOnly(codes[1..], known);
      assert codes == [codes[0]] + codes[1..];
    }
  }

  lemma ReadsOn(
    base: map<CheckInKey, CheckIn>, mid: map<CheckInKey, CheckIn>, now: map<CheckInKey, CheckIn>, org: OrgId,
    community: string, known: set<EventId>, status: StatusReads
  )
    requires RowsRead(base, mid, org, community, known, status) && RowsRead(mid, now, org, community, known, status)
    requires KeepsCheckIns(base, mid)
    ensures RowsRead(base, now, org, community, known, status)
  {
    forall key ensures RowRead(base, now, org, community, known, status, key) {
      assert RowRead(base, mid, org, community, known, status, key);
      assert RowRead(mid, now, org, community, known, status, key);
    }
  }

  lemma AllCovered(
    before: Tables, after: Tables, org: OrgId, events: seq<CommunityEvent>, upstream: Upstream, now: Time, s: Summary
  )
    requires upstream.latest.Codes?
    requires forall j :: 0 <= j < |events| ==> EventStored(before, after, org, events[j], upstream, now, s)
    requires Sweep !in s.failed ==>
               ListingSynced(before.checkpoints, after.checkIns, org, Codes(Outside(upstream.latest.codes, KnownIds(events))), upstream.status)
    ensures forall code :: code in upstream.latest.codes ==>
              CodeCovered(before.checkpoints, after.checkIns, org, events, upstream, s, code)
  {
    var codes := upstream.latest.codes;
    forall i | 0 <= i < |codes| && Find(before.checkpoints, (org, codes[i].id)) != Some(codes[i].usedCount)
      ensures CodeCovered(before.checkpoints, after.checkIns, org, events, upstream, s, codes[i])
    {
      if codes[i].eventId.Some? && exists j :: 0 <= j < |events| && events[j].id == codes[i].eventId.value {
        var j :| 0 <= j < |events| && events[j].id == codes[i].eventId.value;
        assert EventStored(before, after, org, events[j], upstream, now, s);
        assert !NothingNew(before, org, upstream.latest, now, events[j]);
      } else {
        var k := OutsideHas(codes, KnownIds(events), i);
      }
    }
  }

  // What a successful reconcile means for one of the events it was given.
  ghost predicate EventStored(
    before: Tables, after: Tables, org: OrgId, e: CommunityEvent, upstream: Upstream, now: Time, s: Summary
  ) {
    var due := !NothingNew(before, org, upstream.latest, now, e);
    && (!due ==> Find(after.rows, (org, Event(e.id))) == Find(before.rows, (org, Event(e.id))))
    && (Event(e.id) in s.truncated <==> due && LongListing(upstream.ofEvent(e.id)))
    // An event that did not fail left every code it listed synced.
    && (due && Event(e.id) !in s.failed ==>
          ListingSynced(before.checkpoints, after.checkIns, org, upstream.ofEvent(e.id), upstream.status))
  }
}
