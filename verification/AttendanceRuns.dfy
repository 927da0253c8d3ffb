/**
 Reconciliations racing with each other and with members checking in. Every step of recording a code
 (being listed, reading the checkpoint, reading the status, committing) is its own event.
 */
module AttendanceRuns {
  import opened Wrappers
  import opened Attendance

  type JobId = nat

  // A check-in upstream, with the code's used count right after it.
  datatype Arrival = Arrival(join: Join, count: nat)

  datatype UpstreamState = UpstreamState(eventId: Option<EventId>, eventName: string, usedCount: nat, arrivals: seq<Arrival>)

  function StatusOf(u: UpstreamState): CodeStatus {
    CodeStatus(u.eventId, u.eventName, Joins(u.arrivals))
  }

  function Joins(arrivals: seq<Arrival>): (joins: seq<Join>)
    ensures |joins| == |arrivals| && forall i :: 0 <= i < |joins| ==> joins[i] == arrivals[i].join
  {
    seq(|arrivals|, i requires 0 <= i < |arrivals| => arrivals[i].join)
  }

  // Where one recordCode stands: `listed` is the code as the listing showed it.
  datatype Job =
    | Listed(listed: UpstreamCode, known: set<EventId>)
    | Reading(listed: UpstreamCode, known: set<EventId>)
    | Committing(listed: UpstreamCode, known: set<EventId>, status: CodeStatus)

  // `commits` is history: the recordings that have been written.
  datatype World = World(
    org: OrgId, db: Tables, codes: map<CodeId, UpstreamState>, jobs: map<JobId, Job>, commits: seq<Job>)

  datatype Event =
    | CheckInUpstream(code: CodeId, join: Join, raise: nat)
    | EditCode(code: CodeId, eventId: Option<EventId>, eventName: string)
    | ListCode(job: JobId, code: CodeId, known: set<EventId>)
    | ReadCheckpoint(job: JobId)
    | ReadStatus(job: JobId, fails: bool)
    | Commit(job: JobId, community: string)

  function Drop(w: World, job: JobId): World {
    w.(jobs := w.jobs - {job})
  }

  function Next(w: World, e: Event): World {
    match e
    case CheckInUpstream(code, join, more) =>
      if code !in w.codes || exists i | 0 <= i < |w.codes[code].arrivals| :: w.codes[code].arrivals[i].join.userId == join.userId
      then w
      else
        var count := w.codes[code].usedCount + 1 + more;
        w.(codes := w.codes[code := w.codes[code].(usedCount := count, arrivals := w.codes[code].arrivals + [Arrival(join, count)])])
    case EditCode(code, eventId, eventName) =>
      if code !in w.codes then w
      else w.(codes := w.codes[code := w.codes[code].(eventId := eventId, eventName := eventName)])
    case ListCode(job, code, known) =>
      if code !in w.codes || job in w.jobs then w
      else w.(jobs := w.jobs[job := Listed(UpstreamCode(code, w.codes[code].eventId, w.codes[code].usedCount), known)])
    case ReadCheckpoint(job) =>
      if job !in w.jobs || !w.jobs[job].Listed? then w
      else
        var j := w.jobs[job];
        if Find(w.db.checkpoints, (w.org, j.listed.id)) == Some(j.listed.usedCount) then Drop(w, job)
        else w.(jobs := w.jobs[job := Reading(j.listed, j.known)])
    case ReadStatus(job, fails) =>
      if job !in w.jobs || !w.jobs[job].Reading? || w.jobs[job].listed.id !in w.codes then w
      else if fails then Drop(w, job)
      else
        var j := w.jobs[job];
        w.(jobs := w.jobs[job := Committing(j.listed, j.known, StatusOf(w.codes[j.listed.id]))])
    case Commit(job, community) =>
      if job !in w.jobs || !w.jobs[job].Committing? then w
      else
        var j := w.jobs[job];
        Drop(w.(db := Committed(w.db, w.org, community, j.listed, j.known, j.status), commits := w.commits + [j]), job)
  }

  function Run(w: World, events: seq<Event>): World
    decreases |events|
  {
    if events == [] then w else Run(Next(w, events[0]), events[1..])
  }

  // --- One recording alone ---

  // Nothing in between: a listed code is skipped, fails, or is recorded, as the service's method does it.
  lemma RecordAlone(w: World, job: JobId, code: CodeId, known: set<EventId>, fails: bool, community: string)
    requires code in w.codes && job !in w.jobs
    ensures var u := w.codes[code];
            var after := Next(Next(Next(Next(w, ListCode(job, code, known)), ReadCheckpoint(job)), ReadStatus(job, fails)), Commit(job, community));
            && after.jobs == w.jobs && after.codes == w.codes
            && after.db == if Find(w.db.checkpoints, (w.org, code)) == Some(u.usedCount) || fails then w.db
                           else Committed(w.db, w.org, community, UpstreamCode(code, u.eventId, u.usedCount), known, StatusOf(u))
  {
    var u := w.codes[code];
    var listed := UpstreamCode(code, u.eventId, u.usedCount);
    var w1 := Next(w, ListCode(job, code, known));
    assert w1 == w.(jobs := w.jobs[job := Listed(listed, known)]) && w1.jobs - {job} == w.jobs;
    var w2 := Next(w1, ReadCheckpoint(job));
    if Find(w.db.checkpoints, (w.org, code)) == Some(u.usedCount) {
      assert w2 == w;
    } else {
      assert w2 == w.(jobs := w.jobs[job := Reading(listed, known)]) && w2.jobs - {job} == w.jobs;
      var w3 := Next(w2, ReadStatus(job, fails));
      if fails {
        assert w3 == w;
      } else {
        assert w3 == w.(jobs := w.jobs[job := Committing(listed, known, StatusOf(u))]) && w3.jobs - {job} == w.jobs;
      }
    }
  }

  // The steps of a recording come in their order.
  lemma StepsInOrder(w: World, job: JobId, code: CodeId, known: set<EventId>, fails: bool, community: string)
    ensures job in w.jobs ==> Next(w, ListCode(job, code, known)) == w
    ensures !(job in w.jobs && w.jobs[job].Listed?) ==> Next(w, ReadCheckpoint(job)) == w
    ensures !(job in w.jobs && w.jobs[job].Reading?) ==> Next(w, ReadStatus(job, fails)) == w
    ensures !(job in w.jobs && w.jobs[job].Committing?) ==> Next(w, Commit(job, community)) == w
  {
  }

  // Someone new who checks in with a code raises its used count, and is in its next status.
  lemma ArrivalCounts(w: World, code: CodeId, join: Join, more: nat)
    requires code in w.codes && forall i :: 0 <= i < |w.codes[code].arrivals| ==> w.codes[code].arrivals[i].join.userId != join.userId
    ensures var after := Next(w, CheckInUpstream(code, join, more));
            && after.db == w.db && after.jobs == w.jobs && code in after.codes
            && after.codes[code].usedCount > w.codes[code].usedCount
            && StatusOf(after.codes[code]).joined == StatusOf(w.codes[code]).joined + [join]
            && after.codes - {code} == w.codes - {code}
  {
  }

  // --- The invariant ---

  // Everyone who was counted when the count stood at k is in the list of users.
  ghost predicate Counted(u: UpstreamState, k: nat, users: iset<UserId>) {
    forall i :: 0 <= i < |u.arrivals| && u.arrivals[i].count <= k ==> u.arrivals[i].join.userId in users
  }

  ghost function Recorded(w: World, code: CodeId): iset<UserId> {
    iset user | (w.org, code, user) in w.db.checkIns
  }

  ghost function Users(status: CodeStatus): iset<UserId> {
    iset i | 0 <= i < |status.joined| :: status.joined[i].userId
  }

  ghost predicate UpstreamInv(u: UpstreamState) {
    && UsersDistinct(Joins(u.arrivals))
    && forall i :: 0 <= i < |u.arrivals| ==> u.arrivals[i].count <= u.usedCount
  }

  // A status read earlier: people who had joined by then.
  ghost predicate IsStatusOf(u: UpstreamState, status: CodeStatus) {
    && UsersDistinct(status.joined)
    && forall k :: 0 <= k < |status.joined| ==> HasArrived(u, status.joined[k])
  }

  ghost predicate HasArrived(u: UpstreamState, join: Join) {
    exists i :: 0 <= i < |u.arrivals| && u.arrivals[i].join == join
  }

  ghost predicate JobInv(w: World, j: Job) {
    && j.listed.id in w.codes && j.listed.usedCount <= w.codes[j.listed.id].usedCount
    && (j.Committing? ==>
          && Counted(w.codes[j.listed.id], j.listed.usedCount, Users(j.status))
          && IsStatusOf(w.codes[j.listed.id], j.status))
  }

  // A commit that wrote the user's row.
  ghost predicate Records(j: Job, code: CodeId, user: UserId) {
    j.Committing? && j.listed.id == code && user in Users(j.status)
  }

  // And knew the code's event.
  ghost predicate Classifies(j: Job, code: CodeId, user: UserId) {
    Records(j, code, user) && j.status.eventId.Some? && j.status.eventId.value in j.known
  }

  ghost predicate LastRecord(commits: seq<Job>, code: CodeId, user: UserId, k: nat) {
    && k < |commits| && Records(commits[k], code, user)
    && forall l :: k < l < |commits| ==> !Records(commits[l], code, user)
  }

  // A stored row names the event that the last commit that wrote it had read, and is classified exactly if some
  // commit that wrote it knew its event.
  ghost predicate RowInv(w: World, code: CodeId, user: UserId) {
    if (w.org, code, user) !in w.db.checkIns then
      forall k :: 0 <= k < |w.commits| ==> !Records(w.commits[k], code, user)
    else
      var row := w.db.checkIns[(w.org, code, user)];
      && code in w.codes && HasArrived(w.codes[code], Join(user, row.checkedInAt))
      && (exists k: nat :: LastRecord(w.commits, code, user, k) && Names(row, w.commits[k].status))
      && (row.classified <==> exists k :: 0 <= k < |w.commits| && Classifies(w.commits[k], code, user))
  }

  predicate Names(row: CheckIn, status: CodeStatus) {
    row.eventId == status.eventId && row.eventName == status.eventName
  }

  ghost predicate CodeInv(w: World, code: CodeId) {
    code in w.codes ==>
      && UpstreamInv(w.codes[code])
      && ((w.org, code) in w.db.checkpoints ==>
            && w.db.checkpoints[(w.org, code)] <= w.codes[code].usedCount
            && Counted(w.codes[code], w.db.checkpoints[(w.org, code)], Recorded(w, code)))
  }

  ghost predicate Inv(w: World) {
    && (forall code: CodeId :: CodeInv(w, code))
    && (forall job :: job in w.jobs ==> JobInv(w, w.jobs[job]))
    && (forall code: CodeId, user: UserId :: RowInv(w, code, user))
    && (forall k :: 0 <= k < |w.commits| ==> w.commits[k].Committing?)
  }

  // The people who checked in with a code only become more.
  ghost predicate Grows(u: UpstreamState, v: UpstreamState) { u.arrivals <= v.arrivals }

  lemma GrownStatus(u: UpstreamState, v: UpstreamState, status: CodeStatus)
    requires Grows(u, v) && IsStatusOf(u, status)
    ensures IsStatusOf(v, status)
  {
    forall k | 0 <= k < |status.joined| ensures HasArrived(v, status.joined[k]) {
      GrownArrival(u, v, status.joined[k]);
    }
  }

  lemma GrownArrival(u: UpstreamState, v: UpstreamState, join: Join)
    requires Grows(u, v) && HasArrived(u, join)
    ensures HasArrived(v, join)
  {
    var i :| 0 <= i < |u.arrivals| && u.arrivals[i].join == join;
    assert v.arrivals[i] == u.arrivals[i];
  }

  lemma RowStays(w: World, w': World, code: CodeId, user: UserId)
    requires RowInv(w, code, user) && w'.db == w.db && w'.org == w.org && w'.commits == w.commits
    requires code in w.codes ==> code in w'.codes && Grows(w.codes[code], w'.codes[code])
    ensures RowInv(w', code, user)
  {
    if (w.org, code, user) in w.db.checkIns {
      GrownArrival(w.codes[code], w'.codes[code], Join(user, w.db.checkIns[(w.org, code, user)].checkedInAt));
    }
  }

  lemma CommitKeepsRow(w: World, e: Event, code: CodeId, user: UserId)
    requires Inv(w) && e.Commit? && e.job in w.jobs && w.jobs[e.job].Committing?
    ensures RowInv(Next(w, e), code, user)
  {
    var j, w', key := w.jobs[e.job], Next(w, e), (w.org, code, user);
    assert JobInv(w, j) && RowInv(w, code, user);
    UpsertKeeps(w.db.checkIns, w.org, j.listed.id, e.community, j.status, j.known, |j.status.joined|);
    UpsertRows(w.db.checkIns, w.org, j.listed.id, e.community, j.status, j.known, |j.status.joined|, key);
    ClassifiedNow(w, j, code, user);
    if code == j.listed.id && user in Users(j.status) {
      var i :| 0 <= i < |j.status.joined| && j.status.joined[i].userId == user;
      assert key == (w.org, code, j.status.joined[i].userId);
      WrittenRow(w, w', j, e.community, code, user, i);
    } else {
      forall i | 0 <= i < |j.status.joined| ensures key != (w.org, j.listed.id, j.status.joined[i].userId) {
        assert j.status.joined[i].userId in Users(j.status);
      }
      assert Find(w'.db.checkIns, key) == Find(w.db.checkIns, key);
      UnwrittenRow(w, w', j, code, user);
    }
  }

  lemma UnwrittenRow(w: World, w': World, j: Job, code: CodeId, user: UserId)
    requires RowInv(w, code, user) && !Records(j, code, user)
    requires w'.org == w.org && w'.codes == w.codes && w'.commits == w.commits + [j]
    requires Find(w'.db.checkIns, (w.org, code, user)) == Find(w.db.checkIns, (w.org, code, user))
    ensures RowInv(w', code, user)
  {
    ClassifiedNow(w, j, code, user);
    if (w.org, code, user) in w.db.checkIns {
      var k: nat :| LastRecord(w.commits, code, user, k) && Names(w.db.checkIns[(w.org, code, user)], w.commits[k].status);
      assert LastRecord(w'.commits, code, user, k) && w'.commits[k] == w.commits[k];
    }
  }

  lemma ClassifiedNow(w: World, j: Job, code: CodeId, user: UserId)
    ensures (exists k :: 0 <= k < |w.commits + [j]| && Classifies((w.commits + [j])[k], code, user)) <==>
            (exists k :: 0 <= k < |w.commits| && Classifies(w.commits[k], code, user)) || Classifies(j, code, user)
  {
    var all := w.commits + [j];
    if Classifies(j, code, user) {
      assert all[|w.commits|] == j;
    }
    if k :| 0 <= k < |w.commits| && Classifies(w.commits[k], code, user) {
      assert all[k] == w.commits[k];
    }
  }

  lemma WrittenRow(w: World, w': World, j: Job, community: string, code: CodeId, user: UserId, i: nat)
    requires RowInv(w, code, user) && JobInv(w, j) && j.Committing? && code == j.listed.id
    requires i < |j.status.joined| && j.status.joined[i].userId == user
    requires w'.org == w.org && w'.codes == w.codes && w'.commits == w.commits + [j]
    requires var key := (w.org, code, user);
             Find(w'.db.checkIns, key) ==
             Find(UpsertJoin(w.db.checkIns, key, FreshCheckIn(community, j.status, j.known, j.status.joined[i])), key)
    ensures RowInv(w', code, user)
  {
    ClassifiedNow(w, j, code, user);
    assert user in Users(j.status);
    assert LastRecord(w'.commits, code, user, |w.commits|) && w'.commits[|w.commits|] == j;
    assert Records(j, code, user);
    assert HasArrived(w.codes[code], j.status.joined[i]);
    assert j.status.joined[i] == Join(user, j.status.joined[i].createdAt);
  }

  lemma CommitKeepsInv(w: World, e: Event)
    requires Inv(w) && e.Commit?
    ensures Inv(Next(w, e)) && KeepsCheckIns(w.db.checkIns, Next(w, e).db.checkIns)
  {
    if e.job in w.jobs && w.jobs[e.job].Committing? {
      var j := w.jobs[e.job];
      var w' := Next(w, e);
      assert JobInv(w, j);
      UpsertKeeps(w.db.checkIns, w.org, j.listed.id, e.community, j.status, j.known, |j.status.joined|);
      forall code: CodeId, user: UserId ensures RowInv(w', code, user) {
        CommitKeepsRow(w, e, code, user);
      }
      forall code: CodeId ensures CodeInv(w', code) {
        assert CodeInv(w, code);
        if code in w.codes && code == j.listed.id {
          assert forall user :: user in Users(j.status) ==> user in Recorded(w', code);
        } else {
          assert forall user :: user in Recorded(w, code) ==> user in Recorded(w', code);
        }
      }
      forall job | job in w'.jobs ensures JobInv(w', w'.jobs[job]) {
        assert JobInv(w, w.jobs[job]);
      }
    }
  }

  lemma CheckInKeepsInv(w: World, e: Event)
    requires Inv(w) && e.CheckInUpstream?
    ensures Inv(Next(w, e))
  {
    var w' := Next(w, e);
    if w' != w {
      assert CodeInv(w, e.code);
      assert UpstreamInv(w.codes[e.code]);
      var u := w'.codes[e.code];
      forall i, j | 0 <= i < j < |u.arrivals| ensures u.arrivals[i].join.userId != u.arrivals[j].join.userId {
        assert Joins(w.codes[e.code].arrivals)[i] == u.arrivals[i].join;
        if j < |w.codes[e.code].arrivals| {
          assert Joins(w.codes[e.code].arrivals)[j] == u.arrivals[j].join;
        }
      }
      forall code: CodeId ensures CodeInv(w', code) {
        assert CodeInv(w, code);
        assert Recorded(w', code) == Recorded(w, code);
      }
      var was := w.codes[e.code];
      assert Grows(was, u);
      forall job | job in w'.jobs ensures JobInv(w', w'.jobs[job]) {
        var j := w.jobs[job];
        assert JobInv(w, j);
        if j.Committing? && j.listed.id == e.code {
          GrownStatus(was, u, j.status);
        }
      }
      forall code: CodeId, user: UserId ensures RowInv(w', code, user) {
        assert RowInv(w, code, user);
        RowStays(w, w', code, user);
      }
    }
  }

  lemma EditKeepsInv(w: World, e: Event)
    requires Inv(w) && e.EditCode?
    ensures Inv(Next(w, e))
  {
    var w' := Next(w, e);
    assert forall code: CodeId :: code in w.codes ==> w'.codes[code].arrivals == w.codes[code].arrivals;
    forall code: CodeId ensures CodeInv(w', code) {
      assert CodeInv(w, code);
      assert Recorded(w', code) == Recorded(w, code);
    }
    forall job | job in w'.jobs ensures JobInv(w', w'.jobs[job]) {
      assert JobInv(w, w.jobs[job]);
      if w.jobs[job].Committing? {
        GrownStatus(w.codes[w.jobs[job].listed.id], w'.codes[w.jobs[job].listed.id], w.jobs[job].status);
      }
    }
    forall code: CodeId, user: UserId ensures RowInv(w', code, user) {
      assert RowInv(w, code, user);
      RowStays(w, w', code, user);
    }
  }

  lemma NextKeepsInv(w: World, e: Event)
    requires Inv(w)
    ensures Inv(Next(w, e)) && KeepsCheckIns(w.db.checkIns, Next(w, e).db.checkIns)
  {
    var w' := Next(w, e);
    if e.Commit? {
      CommitKeepsInv(w, e);
    } else if e.CheckInUpstream? {
      CheckInKeepsInv(w, e);
    } else if e.EditCode? {
      EditKeepsInv(w, e);
    } else {
      forall code: CodeId ensures CodeInv(w', code) {
        assert CodeInv(w, code);
        assert Recorded(w', code) == Recorded(w, code);
      }
      forall job | job in w'.jobs ensures JobInv(w', w'.jobs[job]) {
        if job in w.jobs {
          assert JobInv(w, w.jobs[job]);
        }
        if e.ReadStatus? && job == e.job && w' != w {
          var u := w.codes[w.jobs[job].listed.id];
          assert CodeInv(w, w.jobs[job].listed.id);
          assert forall i :: 0 <= i < |u.arrivals| ==> StatusOf(u).joined[i] == u.arrivals[i].join;
        }
      }
      forall code: CodeId, user: UserId ensures RowInv(w', code, user) {
        assert RowInv(w, code, user);
        RowStays(w, w', code, user);
      }
    }
  }

  // Recorded check-ins are never lost, and a classified one stays classified, however runs interleave.
  lemma {:induction false} InvInEveryRun(w: World, events: seq<Event>)
    requires Inv(w)
    ensures Inv(Run(w, events)) && KeepsCheckIns(w.db.checkIns, Run(w, events).db.checkIns)
    decreases |events|
  {
    if events != [] {
      NextKeepsInv(w, events[0]);
      InvInEveryRun(Next(w, events[0]), events[1..]);
    }
  }

  // --- Skipping a code ---

  // A checkpoint at the current used count means that everyone who joined is recorded.
  lemma CheckpointMeansRecorded(w: World, events: seq<Event>, code: CodeId, i: nat)
    requires Inv(w)
    requires var now := Run(w, events);
             && code in now.codes && i < |now.codes[code].arrivals|
             && Find(now.db.checkpoints, (now.org, code)) == Some(now.codes[code].usedCount)
    ensures var now := Run(w, events); (now.org, code, now.codes[code].arrivals[i].join.userId) in now.db.checkIns
  {
    InvInEveryRun(w, events);
    var now := Run(w, events);
    assert CodeInv(now, code);
    assert now.codes[code].arrivals[i].join.userId in Recorded(now, code);
  }

  function Reread(row: CheckIn, u: UpstreamState, known: set<EventId>): CheckIn {
    row.(eventId := u.eventId, eventName := u.eventName,
         classified := row.classified || (u.eventId.Some? && u.eventId.value in known))
  }

  // What reading a skipped code again would write to the row of a member who checked in with it.
  lemma RereadRow(now: World, code: CodeId, community: string, known: set<EventId>, i: nat)
    requires Inv(now) && code in now.codes && i < |now.codes[code].arrivals|
    requires Find(now.db.checkpoints, (now.org, code)) == Some(now.codes[code].usedCount)
    ensures var u, key := now.codes[code], (now.org, code, now.codes[code].arrivals[i].join.userId);
            key in now.db.checkIns &&
            UpsertJoin(now.db.checkIns, key, FreshCheckIn(community, StatusOf(u), known, u.arrivals[i].join))[key] ==
            Reread(now.db.checkIns[key], u, known)
  {
    var u := now.codes[code];
    var user := u.arrivals[i].join.userId;
    assert CodeInv(now, code) && RowInv(now, code, user);
    assert user in Recorded(now, code);
    var join := Join(user, now.db.checkIns[(now.org, code, user)].checkedInAt);
    assert HasArrived(u, join);
    var j :| 0 <= j < |u.arrivals| && u.arrivals[j].join == join;
    assert Joins(u.arrivals)[i] == u.arrivals[i].join && Joins(u.arrivals)[j] == join;
  }

  // Some row of the code is not classified though its event is known.
  ghost predicate Lags(now: World, code: CodeId, known: set<EventId>)
    requires code in now.codes
  {
    && now.codes[code].eventId.Some? && now.codes[code].eventId.value in known
    && exists user :: user in Recorded(now, code) && !now.db.checkIns[(now.org, code, user)].classified
  }

  // The last recording of some row had read another event, or another name, than the code has now.
  ghost predicate Outdated(now: World, code: CodeId)
    requires code in now.codes
  {
    exists user, k: nat :: user in Recorded(now, code) && LastRecord(now.commits, code, user, k) &&
                      ReadOther(now.commits[k].status, now.codes[code])
  }

  predicate ReadOther(status: CodeStatus, u: UpstreamState) {
    status.eventId != u.eventId || status.eventName != u.eventName
  }

  lemma OneLastRecord(commits: seq<Job>, code: CodeId, user: UserId, k: nat, l: nat)
    requires LastRecord(commits, code, user, k) && LastRecord(commits, code, user, l)
    ensures k == l
  {
  }

  lemma OutdatedRow(now: World, code: CodeId, user: UserId)
    requires Inv(now) && code in now.codes && user in Recorded(now, code)
    ensures (exists k: nat :: LastRecord(now.commits, code, user, k) && ReadOther(now.commits[k].status, now.codes[code])) <==>
            !Names(now.db.checkIns[(now.org, code, user)], StatusOf(now.codes[code]))
  {
    assert RowInv(now, code, user);
    var row := now.db.checkIns[(now.org, code, user)];
    var k: nat :| LastRecord(now.commits, code, user, k) && Names(row, now.commits[k].status);
    if l: nat :| LastRecord(now.commits, code, user, l) && ReadOther(now.commits[l].status, now.codes[code]) {
      OneLastRecord(now.commits, code, user, k, l);
    }
  }

  // Everyone recorded for a code did check in with it.
  lemma RecordedArrived(now: World, code: CodeId, user: UserId) returns (i: nat)
    requires Inv(now) && code in now.codes && user in Recorded(now, code)
    ensures i < |now.codes[code].arrivals| && now.codes[code].arrivals[i].join.userId == user
  {
    assert RowInv(now, code, user);
    var join := Join(user, now.db.checkIns[(now.org, code, user)].checkedInAt);
    assert HasArrived(now.codes[code], join);
    i :| 0 <= i < |now.codes[code].arrivals| && now.codes[code].arrivals[i].join == join;
  }

  // In every run, reading a code again that the sync skips adds no check-in, and changes a table exactly if
  // the code's event is known by now and some row of the code is not classified, or the last recording of some
  // row had read another event or name.
  lemma SkipAgainstReread(w: World, events: seq<Event>, code: CodeId, community: string, known: set<EventId>)
    requires Inv(w)
    requires var now := Run(w, events);
             code in now.codes && Find(now.db.checkpoints, (now.org, code)) == Some(now.codes[code].usedCount)
    ensures var now := Run(w, events);
            var u := now.codes[code];
            var reread := Committed(now.db, now.org, community, UpstreamCode(code, u.eventId, u.usedCount), known, StatusOf(u));
            && reread.checkIns.Keys == now.db.checkIns.Keys
            && (reread != now.db <==> Lags(now, code, known) || Outdated(now, code))
  {
    InvInEveryRun(w, events);
    var now := Run(w, events);
    var u := now.codes[code];
    RereadKeys(now, code, community, known);
    var after := UpsertJoins(now.db.checkIns, now.org, code, community, StatusOf(u), known, |u.arrivals|);
    if Lags(now, code, known) {
      var user :| user in Recorded(now, code) && !now.db.checkIns[(now.org, code, user)].classified;
      RereadAt(now, code, community, known, (now.org, code, user));
      assert after[(now.org, code, user)] != now.db.checkIns[(now.org, code, user)];
    } else if Outdated(now, code) {
      var user, k: nat :| user in Recorded(now, code) && LastRecord(now.commits, code, user, k) &&
                          ReadOther(now.commits[k].status, u);
      OutdatedRow(now, code, user);
      RereadAt(now, code, community, known, (now.org, code, user));
      assert after[(now.org, code, user)] != now.db.checkIns[(now.org, code, user)];
    } else {
      forall key | key in now.db.checkIns ensures after[key] == now.db.checkIns[key] {
        RereadAt(now, code, community, known, key);
        if key.0 == now.org && key.1 == code {
          assert key == (now.org, code, key.2) && key.2 in Recorded(now, code);
          OutdatedRow(now, code, key.2);
        }
      }
      assert after == now.db.checkIns;
      assert now.db.checkpoints[(now.org, code) := u.usedCount] == now.db.checkpoints;
    }
  }

  lemma RereadKeys(now: World, code: CodeId, community: string, known: set<EventId>)
    requires Inv(now) && code in now.codes
    requires Find(now.db.checkpoints, (now.org, code)) == Some(now.codes[code].usedCount)
    ensures UpsertJoins(now.db.checkIns, now.org, code, community, StatusOf(now.codes[code]), known, |now.codes[code].arrivals|).Keys
            == now.db.checkIns.Keys
  {
    var u := now.codes[code];
    UpsertKeeps(now.db.checkIns, now.org, code, community, StatusOf(u), known, |u.arrivals|);
    forall i | 0 <= i < |u.arrivals| ensures (now.org, code, StatusOf(u).joined[i].userId) in now.db.checkIns {
      RereadRow(now, code, community, known, i);
    }
    var after := UpsertJoins(now.db.checkIns, now.org, code, community, StatusOf(u), known, |u.arrivals|);
    assert forall k :: k in after <==> k in now.db.checkIns;
  }

  lemma RereadAt(now: World, code: CodeId, community: string, known: set<EventId>, key: CheckInKey)
    requires Inv(now) && code in now.codes && key in now.db.checkIns
    requires Find(now.db.checkpoints, (now.org, code)) == Some(now.codes[code].usedCount)
    ensures var after := UpsertJoins(now.db.checkIns, now.org, code, community, StatusOf(now.codes[code]), known,
                                     |now.codes[code].arrivals|);
            key in after &&
            after[key] == if key.0 == now.org && key.1 == code then Reread(now.db.checkIns[key], now.codes[code], known)
                          else now.db.checkIns[key]
  {
    var u := now.codes[code];
    assert CodeInv(now, code);
    RereadKeys(now, code, community, known);
    UpsertRows(now.db.checkIns, now.org, code, community, StatusOf(u), known, |u.arrivals|, key);
    if key.0 == now.org && key.1 == code {
      assert key == (now.org, code, key.2) && key.2 in Recorded(now, code);
      var i := RecordedArrived(now, code, key.2);
      RereadRow(now, code, community, known, i);
      assert StatusOf(u).joined[i] == u.arrivals[i].join;
    }
  }

  // An edit upstream raises no used count, so a code recorded before it is skipped with its old name.
  lemma EditIsMissed(w: World, code: CodeId, user: UserId, eventId: Option<EventId>, eventName: string)
    requires Inv(w) && code in w.codes && user in Recorded(w, code)
    requires w.db.checkIns[(w.org, code, user)].eventId != eventId || w.db.checkIns[(w.org, code, user)].eventName != eventName
    ensures var after := Next(w, EditCode(code, eventId, eventName));
            && after.codes[code].usedCount == w.codes[code].usedCount && after.db == w.db
            && Outdated(after, code)
  {
    var e := EditCode(code, eventId, eventName);
    var after := Next(w, e);
    EditKeepsInv(w, e);
    assert user in Recorded(after, code);
    OutdatedRow(after, code, user);
  }

  // A stored row is unclassified exactly if no recording that wrote it knew its event.
  lemma UnclassifiedMeans(w: World, events: seq<Event>, code: CodeId, user: UserId)
    requires Inv(w) && (Run(w, events).org, code, user) in Run(w, events).db.checkIns
    ensures var now := Run(w, events);
            !now.db.checkIns[(now.org, code, user)].classified <==>
            forall k :: 0 <= k < |now.commits| ==> !Classifies(now.commits[k], code, user)
  {
    InvInEveryRun(w, events);
    assert RowInv(Run(w, events), code, user);
  }

  lemma RunStep(w: World, e: Event, rest: seq<Event>)
    ensures Run(w, [e] + rest) == Run(Next(w, e), rest)
  {
    assert ([e] + rest)[1..] == rest;
  }

  // A meetup that the organizer's event list does not contain yet, then does.
  const CODE: UpstreamCode := UpstreamCode(7, Some(5), 1)
  const JOIN: Join := Join(40, 1000)
  const STATUS: CodeStatus := CodeStatus(Some(5), "Meetup", [JOIN])

  const COMMIT: Job := Committing(CODE, {}, STATUS)

  function Arrived(db: Tables, jobs: map<JobId, Job>): World {
    World(1, db, map[7 := UpstreamState(Some(5), "Meetup", 1, [Arrival(JOIN, 1)])], jobs,
          if db == NOTHING then [] else [COMMIT])
  }

  const NOTHING: Tables := Tables(map[], map[], map[])
  const RECORDED: Tables := Committed(NOTHING, 1, "Lisbon", CODE, {}, STATUS)

  lemma FirstReconciliation(rest: seq<Event>)
    ensures Run(Arrived(NOTHING, map[]),
                [ListCode(1, 7, {})] + ([ReadCheckpoint(1)] + ([ReadStatus(1, false)] + ([Commit(1, "Lisbon")] + rest))))
            == Run(Arrived(RECORDED, map[]), rest)
  {
    var r4 := [Commit(1, "Lisbon")] + rest;
    var r3 := [ReadStatus(1, false)] + r4;
    var r2 := [ReadCheckpoint(1)] + r3;
    RunStep(Arrived(NOTHING, map[]), ListCode(1, 7, {}), r2);
    RunStep(Arrived(NOTHING, map[1 := Listed(CODE, {})]), ReadCheckpoint(1), r3);
    RunStep(Arrived(NOTHING, map[1 := Reading(CODE, {})]), ReadStatus(1, false), r4);
    assert StatusOf(Arrived(NOTHING, map[]).codes[7]) == STATUS;
    assert (1, 7) in RECORDED.checkpoints;
    assert Next(Arrived(NOTHING, map[1 := COMMIT]), Commit(1, "Lisbon")) == Arrived(RECORDED, map[]);
    RunStep(Arrived(NOTHING, map[1 := COMMIT]), Commit(1, "Lisbon"), rest);
  }

  lemma SecondReconciliation()
    ensures Run(Arrived(RECORDED, map[]), [ListCode(2, 7, {5})] + ([ReadCheckpoint(2)] + [])) == Arrived(RECORDED, map[])
  {
    RunStep(Arrived(RECORDED, map[]), ListCode(2, 7, {5}), [ReadCheckpoint(2)] + []);
    RunStep(Arrived(RECORDED, map[2 := Listed(CODE, {5})]), ReadCheckpoint(2), []);
    assert Next(Arrived(RECORDED, map[2 := Listed(CODE, {5})]), ReadCheckpoint(2)) == Arrived(RECORDED, map[]);
  }

  // The difference does occur: a check-in recorded before its event was known stays unclassified, because
  // the next reconciliation, which knows the event, skips the code.
  lemma ClassificationLags()
    ensures Inv(Arrived(NOTHING, map[]))
    ensures var events := [ListCode(1, 7, {})] + ([ReadCheckpoint(1)] + ([ReadStatus(1, false)] + ([Commit(1, "Lisbon")]
                          + ([ListCode(2, 7, {5})] + ([ReadCheckpoint(2)] + [])))));
            var now := Run(Arrived(NOTHING, map[]), events);
            && now == Arrived(RECORDED, map[])
            && (1, 7, 40) in now.db.checkIns
            && !now.db.checkIns[(1, 7, 40)].classified
            && Lags(now, 7, {5})
  {
    FirstReconciliation([ListCode(2, 7, {5})] + ([ReadCheckpoint(2)] + []));
    SecondReconciliation();
    forall code: CodeId, user: UserId
      ensures CodeInv(Arrived(NOTHING, map[]), code) && RowInv(Arrived(NOTHING, map[]), code, user)
    {
    }
    assert 40 in Recorded(Arrived(RECORDED, map[]), 7);
    assert RECORDED.checkIns == UpsertJoin(UpsertJoins(map[], 1, 7, "Lisbon", STATUS, {}, 0), (1, 7, 40), FreshCheckIn("Lisbon", STATUS, {}, JOIN));
  }
}
