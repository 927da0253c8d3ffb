/**
 The handlers of team requests, interleaved: a decision reads that the request is pending, may add the
 requester to the team upstream, and settles the request last.
 */
module TeamRequestRuns {
  import opened Wrappers
  import opened TeamRequests

  type JobId = nat

  datatype Job =
    | Deciding(request: Id, decidedBy: string)
    | Added(request: Id, decidedBy: string)
    | Withdrawing(request: Id, decidedBy: string)
    | Closing(closures: Closures)

  // `added`, `tried` and `wins` are history: the requests whose requester was added to the team by a decision,
  // those for which such a decision has run its settle, and the writes that took a request out of pending.
  datatype World = World(
    requests: Requests, jobs: map<JobId, Job>, teamMembers: set<(string, string)>, added: set<Id>,
    tried: set<Id>, wins: seq<(Id, Status)>)

  datatype Event =
    | Create(id: Id, row: Request)
    | DecideReads(job: JobId, id: Id, decidedBy: string)
    | DecideAdds(job: JobId)
    | DecideSettles(job: JobId)
    | WithdrawReads(job: JobId, id: Id)
    | WithdrawSettles(job: JobId)
    | CloseReads(job: JobId, closures: Closures)
    | CloseWrites(job: JobId, reason: Reason)
    | LeavesTeam(team: string, user: string)

  const EMPTY := World(map[], map[], {}, {}, {}, [])

  function Settled(w: World, job: JobId, id: Id, status: Status, decidedBy: string): World {
    if IsPending(w.requests, id) then
      w.(requests := w.requests[id := w.requests[id].(status := status, decidedBy := Some(decidedBy))],
         wins := w.wins + [(id, status)], jobs := w.jobs - {job})
    else w.(jobs := w.jobs - {job})
  }

  // The rows that one statement of a close takes, in any order.
  ghost function ClosedWins(closed: set<Id>): (r: seq<(Id, Status)>)
    ensures |r| == |closed|
    ensures forall i :: i in closed <==> (i, Closed) in r
    ensures forall p :: p in r ==> p.1 == Closed
    ensures forall k, l :: 0 <= k < l < |r| ==> r[k].0 != r[l].0
    decreases closed
  {
    if closed == {} then []
    else
      var i :| i in closed;
      var rest := ClosedWins(closed - {i});
      assert forall k :: 0 <= k < |rest| ==> rest[k] in rest && (rest[k].0, Closed) == rest[k];
      [(i, Closed)] + rest
  }

  ghost function Next(w: World, e: Event): World {
    match e
    case Create(id, row) =>
      if id in w.requests || !row.status.Pending? || HasPending(w.requests, row.team, row.user) then w
      else w.(requests := w.requests[id := row])
    case DecideReads(job, id, decidedBy) =>
      if IsPending(w.requests, id) then w.(jobs := w.jobs[job := Deciding(id, decidedBy)]) else w
    case DecideAdds(job) =>
      if job in w.jobs && w.jobs[job].Deciding? && w.jobs[job].request in w.requests then
        var id := w.jobs[job].request;
        w.(jobs := w.jobs[job := Added(id, w.jobs[job].decidedBy)], added := w.added + {id},
           teamMembers := w.teamMembers + {(w.requests[id].team, w.requests[id].user)})
      else w
    case DecideSettles(job) =>
      if job !in w.jobs then w
      else if w.jobs[job].Added? then
        Settled(w, job, w.jobs[job].request, Approved, w.jobs[job].decidedBy).(tried := w.tried + {w.jobs[job].request})
      else if w.jobs[job].Deciding? then Settled(w, job, w.jobs[job].request, Declined, w.jobs[job].decidedBy)
      else w
    case WithdrawReads(job, id) =>
      if IsPending(w.requests, id) then w.(jobs := w.jobs[job := Withdrawing(id, w.requests[id].user)]) else w
    case WithdrawSettles(job) =>
      if job in w.jobs && w.jobs[job].Withdrawing?
      then Settled(w, job, w.jobs[job].request, Withdrawn, w.jobs[job].decidedBy) else w
    case CloseReads(job, closures) => w.(jobs := w.jobs[job := Closing(closures)])
    case CloseWrites(job, reason) =>
      if job in w.jobs && w.jobs[job].Closing? then
        var ids := IdsWith(w.jobs[job].closures, reason);
        w.(requests := WithReason(w.requests, ids, reason),
           wins := w.wins + ClosedWins(set i | i in ids && IsPending(w.requests, i)))
      else w
    case LeavesTeam(team, user) => w.(teamMembers := w.teamMembers - {(team, user)})
  }

  ghost function Run(w: World, events: seq<Event>): World
    decreases |events|
  {
    if events == [] then w else Run(Next(w, events[0]), events[1..])
  }

  // --- A handler alone ---

  // Nothing in between: a pending request ends approved, with its requester on the team, declined, or withdrawn.
  lemma DecisionAlone(w: World, job: JobId, id: Id, decider: string)
    requires IsPending(w.requests, id) && job !in w.jobs
    ensures var row := w.requests[id];
            var begun := Next(w, DecideReads(job, id, decider));
            var approved := Next(Next(begun, DecideAdds(job)), DecideSettles(job));
            var declined := Next(begun, DecideSettles(job));
            && approved.requests == w.requests[id := row.(status := Approved, decidedBy := Some(decider))]
            && approved.teamMembers == w.teamMembers + {(row.team, row.user)} && approved.added == w.added + {id}
            && approved.wins == w.wins + [(id, Approved)] && approved.tried == w.tried + {id} && approved.jobs == w.jobs
            && declined.requests == w.requests[id := row.(status := Declined, decidedBy := Some(decider))]
            && declined.teamMembers == w.teamMembers && declined.added == w.added
            && declined.wins == w.wins + [(id, Declined)] && declined.jobs == w.jobs
  {
    var begun := Next(w, DecideReads(job, id, decider));
    assert begun.jobs - {job} == w.jobs;
    assert Next(begun, DecideAdds(job)).jobs - {job} == w.jobs;
  }

  lemma WithdrawalAlone(w: World, job: JobId, id: Id)
    requires IsPending(w.requests, id) && job !in w.jobs
    ensures var row := w.requests[id];
            var after := Next(Next(w, WithdrawReads(job, id)), WithdrawSettles(job));
            && after.requests == w.requests[id := row.(status := Withdrawn, decidedBy := Some(row.user))]
            && after.teamMembers == w.teamMembers && after.added == w.added && after.wins == w.wins + [(id, Withdrawn)]
            && after.jobs == w.jobs
  {
    assert Next(w, WithdrawReads(job, id)).jobs - {job} == w.jobs;
  }

  // What is not pending any more is left alone by every handler; a new request is stored, leaving a team forgets
  // the member, and one statement of a close takes the pending requests listed with its reason.
  lemma OtherSteps(w: World, job: JobId, id: Id, decider: string, row: Request, closures: Closures, reason: Reason)
    requires job !in w.jobs
    ensures !IsPending(w.requests, id) ==>
              Next(w, DecideReads(job, id, decider)) == w && Next(w, WithdrawReads(job, id)) == w
    ensures id !in w.requests && row.status.Pending? && !HasPending(w.requests, row.team, row.user) ==>
              Next(w, Create(id, row)) == w.(requests := w.requests[id := row])
    ensures Next(w, LeavesTeam(row.team, row.user)) == w.(teamMembers := w.teamMembers - {(row.team, row.user)})
    ensures var after := Next(Next(w, CloseReads(job, closures)), CloseWrites(job, reason));
            && after.requests.Keys == w.requests.Keys && after.teamMembers == w.teamMembers
            && forall i :: i in w.requests ==>
                 after.requests[i] == if w.requests[i].status.Pending? && (i, reason) in closures
                                      then w.requests[i].(status := Closed, closedReason := Some(reason)) else w.requests[i]
  {
    var after := Next(Next(w, CloseReads(job, closures)), CloseWrites(job, reason));
    forall i | i in w.requests
      ensures after.requests[i] == if w.requests[i].status.Pending? && (i, reason) in closures
                                   then w.requests[i].(status := Closed, closedReason := Some(reason)) else w.requests[i]
    {
      if (i, reason) in closures {
        assert (i, reason).1 == reason && (i, reason).0 == i;
      }
    }
  }

  // --- Every run ---

  // A request is pending until its one win, and from then on what that win made it.
  ghost predicate WinsAgree(w: World) {
    && (forall k, l :: 0 <= k < l < |w.wins| ==> w.wins[k].0 != w.wins[l].0)
    && (forall p :: p in w.wins ==> p.0 in w.requests && w.requests[p.0].status == p.1 && !p.1.Pending?)
    && (forall i :: i in w.requests && !w.requests[i].status.Pending? ==> (i, w.requests[i].status) in w.wins)
  }

  ghost predicate Inv(w: World) {
    && OnePending(w.requests)
    && WinsAgree(w)
    && (forall job :: job in w.jobs && w.jobs[job].Added? ==> w.jobs[job].request in w.added)
    && w.added <= w.requests.Keys
    && (forall i :: i in w.tried ==> i in w.requests && !w.requests[i].status.Pending?)
    && (forall i :: i in w.requests && w.requests[i].status.Approved? ==> i in w.added)
  }

  lemma WinsGrow(w: World, after: World, more: seq<(Id, Status)>)
    requires WinsAgree(w) && after.wins == w.wins + more && after.requests.Keys == w.requests.Keys
    requires forall k, l :: 0 <= k < l < |more| ==> more[k].0 != more[l].0
    requires forall p :: p in more ==> IsPending(w.requests, p.0) && after.requests[p.0].status == p.1 && !p.1.Pending?
    requires forall i :: i in w.requests && (forall p :: p in more ==> p.0 != i) ==>
      after.requests[i].status == w.requests[i].status
    ensures WinsAgree(after)
  {
    forall k, l | 0 <= k < l < |after.wins| ensures after.wins[k].0 != after.wins[l].0 {
      if k < |w.wins| <= l {
        assert w.wins[k] in w.wins && more[l - |w.wins|] in more;
      }
    }
    forall p | p in after.wins
      ensures p.0 in after.requests && after.requests[p.0].status == p.1 && !p.1.Pending?
    {
      if p in w.wins {
        assert !IsPending(w.requests, p.0);
      }
    }
    forall i | i in after.requests && !after.requests[i].status.Pending?
      ensures (i, after.requests[i].status) in after.wins
    {
      if p :| p in more && p.0 == i {
        assert p == (i, after.requests[i].status);
      }
    }
  }

  lemma SettledKeeps(w: World, job: JobId, id: Id, status: Status, decidedBy: string)
    requires Inv(w) && !status.Pending? && (status.Approved? ==> id in w.added)
    ensures Inv(Settled(w, job, id, status, decidedBy))
  {
    var after := Settled(w, job, id, status, decidedBy);
    if IsPending(w.requests, id) {
      assert (id, status) in [(id, status)];
      WinsGrow(w, after, [(id, status)]);
    }
  }

  lemma ClosedWinsAgree(w: World, after: World, ids: set<Id>, reason: Reason)
    requires WinsAgree(w) && after.requests == WithReason(w.requests, ids, reason)
    requires after.wins == w.wins + ClosedWins(set i | i in ids && IsPending(w.requests, i))
    ensures WinsAgree(after)
  {
    var closed := set i | i in ids && IsPending(w.requests, i);
    var more := ClosedWins(closed);
    forall p | p in more ensures IsPending(w.requests, p.0) && p.0 in ids && p.1 == Closed {
      assert p == (p.0, Closed);
      assert p.0 in closed;
    }
    forall i | i in w.requests && (forall p :: p in more ==> p.0 != i)
      ensures after.requests[i].status == w.requests[i].status
    {
      assert i in closed ==> (i, Closed) in more;
    }
    WinsGrow(w, after, more);
  }

  lemma ClosedOnePending(requests: Requests, ids: set<Id>, reason: Reason)
    requires OnePending(requests)
    ensures OnePending(WithReason(requests, ids, reason))
  {
  }

  lemma ClosedKeeps(w: World, job: JobId, reason: Reason)
    requires Inv(w)
    ensures Inv(Next(w, CloseWrites(job, reason)))
  {
    if job in w.jobs && w.jobs[job].Closing? {
      var ids := IdsWith(w.jobs[job].closures, reason);
      ClosedWinsAgree(w, Next(w, CloseWrites(job, reason)), ids, reason);
      ClosedOnePending(w.requests, ids, reason);
    }
  }

  lemma CreateKeeps(w: World, id: Id, row: Request)
    requires Inv(w)
    ensures Inv(Next(w, Create(id, row)))
  {
    if !(id in w.requests || !row.status.Pending? || HasPending(w.requests, row.team, row.user)) {
      var after := Next(w, Create(id, row));
      WinsGrow(w.(requests := after.requests), after, []);
    }
  }

  lemma NextKeepsInv(w: World, e: Event)
    requires Inv(w)
    ensures Inv(Next(w, e))
  {
    match e
    case Create(id, row) => CreateKeeps(w, id, row);
    case DecideSettles(job) =>
      if job in w.jobs && w.jobs[job].Added? {
        SettledKeeps(w, job, w.jobs[job].request, Approved, w.jobs[job].decidedBy);
      } else if job in w.jobs && w.jobs[job].Deciding? {
        SettledKeeps(w, job, w.jobs[job].request, Declined, w.jobs[job].decidedBy);
      }
    case WithdrawSettles(job) =>
      if job in w.jobs && w.jobs[job].Withdrawing? {
        SettledKeeps(w, job, w.jobs[job].request, Withdrawn, w.jobs[job].decidedBy);
      }
    case CloseWrites(job, reason) => ClosedKeeps(w, job, reason);
    case _ =>
  }

  lemma {:induction false} InvInEveryRun(w: World, events: seq<Event>)
    requires Inv(w)
    ensures Inv(Run(w, events))
    ensures w.wins <= Run(w, events).wins
    decreases |events|
  {
    if events != [] {
      NextKeepsInv(w, events[0]);
      NextKeepsWins(w, events[0]);
      InvInEveryRun(Next(w, events[0]), events[1..]);
      PrefixOn(w.wins, Next(w, events[0]).wins, Run(Next(w, events[0]), events[1..]).wins);
    }
  }

  lemma NextKeepsWins(w: World, e: Event)
    ensures w.wins <= Next(w, e).wins
  {
  }

  lemma PrefixOn<T>(a: seq<T>, b: seq<T>, c: seq<T>)
    requires a <= b <= c
    ensures a <= c
  {
  }

  // However the handlers interleave: at most one pending request per team and user, at most one win per
  // request, and the request's state is what its win made it.
  lemma OneWinner(events: seq<Event>, i: Id)
    ensures var w := Run(EMPTY, events);
            && OnePending(w.requests)
            && (forall k, l :: 0 <= k < |w.wins| && 0 <= l < |w.wins| && w.wins[k].0 == i == w.wins[l].0 ==> k == l)
            && (i in w.requests ==> (w.requests[i].status.Pending? <==> forall p :: p in w.wins ==> p.0 != i))
            && (forall k :: 0 <= k < |w.wins| && w.wins[k].0 == i ==>
                  i in w.requests && w.requests[i].status == w.wins[k].1)
  {
    InvInEveryRun(EMPTY, events);
    var w := Run(EMPTY, events);
    assert forall k :: 0 <= k < |w.wins| ==> w.wins[k] in w.wins;
  }

  // Once decided, a request stays as it was decided.
  lemma DecisionsAreFinal(events: seq<Event>, more: seq<Event>, i: Id)
    requires i in Run(EMPTY, events).requests && !Run(EMPTY, events).requests[i].status.Pending?
    ensures var later := Run(Run(EMPTY, events), more);
            i in later.requests && later.requests[i].status == Run(EMPTY, events).requests[i].status
  {
    InvInEveryRun(EMPTY, events);
    var w := Run(EMPTY, events);
    InvInEveryRun(w, more);
    var p := (i, w.requests[i].status);
    var k :| 0 <= k < |w.wins| && w.wins[k] == p;
    assert Run(w, more).wins[k] == p;
  }

  // An approved requester was added to the team before the request was settled.
  lemma ApprovedAfterAdd(events: seq<Event>, i: Id)
    requires i in Run(EMPTY, events).requests && Run(EMPTY, events).requests[i].status.Approved?
    ensures i in Run(EMPTY, events).added
  {
    InvInEveryRun(EMPTY, events);
  }

  // A request whose requester a decision has added is not approved exactly if something else won it, or
  // nothing has; and nothing has only as long as none of the decisions that added the requester has settled.
  lemma AddedButNotApproved(events: seq<Event>, i: Id)
    requires i in Run(EMPTY, events).added
    ensures var w := Run(EMPTY, events);
            && i in w.requests
            && (!w.requests[i].status.Approved? <==>
                (exists s :: s != Approved && (i, s) in w.wins) || (forall s :: (i, s) !in w.wins))
            && ((forall s :: (i, s) !in w.wins) ==> i !in w.tried && w.requests[i].status.Pending?)
  {
    InvInEveryRun(EMPTY, events);
    var w := Run(EMPTY, events);
    assert !w.requests[i].status.Pending? ==> (i, w.requests[i].status) in w.wins;
  }

  // It does happen: the handler adds the requester and never settles,
  lemma OnTheTeamUndecided() returns (events: seq<Event>)
    ensures var w := Run(EMPTY, events);
            0 in w.requests && w.requests[0].status == Pending && ("core", "ada") in w.teamMembers && w.wins == []
  {
    var row := Request("o", "core", "ada", Pending, None, None);
    events := [Create(0, row), DecideReads(1, 0, "rita"), DecideAdds(1)];
    var a := Next(EMPTY, events[0]);
    var b := Next(a, events[1]);
    var c := Next(b, events[2]);
    assert c.requests == map[0 := row] && c.wins == [];
    RunStep(EMPTY, events);
    RunStep(a, events[1..]);
    RunStep(b, events[2..]);
  }

  // or the requester withdraws before it settles.
  lemma OnTheTeamUnapproved() returns (events: seq<Event>)
    ensures var w := Run(EMPTY, events);
            0 in w.requests && w.requests[0].status == Withdrawn && ("core", "ada") in w.teamMembers
  {
    var row := Request("o", "core", "ada", Pending, None, None);
    events := [Create(0, row), DecideReads(1, 0, "rita"), WithdrawReads(2, 0), DecideAdds(1), WithdrawSettles(2),
               DecideSettles(1)];
    var a := Next(EMPTY, events[0]);
    assert IsPending(a.requests, 0);
    var b := Next(a, events[1]);
    var c := Next(b, events[2]);
    var d := Next(c, events[3]);
    var e := Next(d, events[4]);
    assert e.requests[0].status == Withdrawn;
    var f := Next(e, events[5]);
    assert f.requests == e.requests && f.teamMembers == e.teamMembers;
    RunStep(EMPTY, events);
    RunStep(a, events[1..]);
    RunStep(b, events[2..]);
    RunStep(c, events[3..]);
    RunStep(d, events[4..]);
    RunStep(e, events[5..]);
  }

  lemma RunStep(w: World, events: seq<Event>)
    requires events != []
    ensures Run(w, events) == Run(Next(w, events[0]), events[1..])
  {
  }
}
