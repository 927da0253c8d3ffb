/**
 The member signing controller: one request at a time, a reset that orphans the request in flight, and
 a lock-out after a request whose outcome is not known. Each await of a request is an event here.
 */
module SigningController {
  import opened Wrappers

  type RequestId = nat
  type Epoch = nat
  type Value = nat

  datatype Failure = Cancelled | Credential | Network | Unconfirmed | Rejected | Mismatch | SignedOut | Unknown

  datatype Shown =
    | Idle
    | Connecting
    | Signing
    | Submitted(result: Value)
    | Failed(failure: Failure)

  // Where a request's async function is suspended, and the epoch it remembers.
  datatype Suspended = AwaitsWallet(epoch: Epoch) | AwaitsTask(epoch: Epoch)

  datatype Controller = Controller(
    shown: Shown,
    inFlight: Option<RequestId>,
    requestSeq: RequestId,
    resetEpoch: Epoch,
    suspended: map<RequestId, Suspended>
  )

  datatype Event =
    | Submit
    | WalletSettles(request: RequestId, connected: Result<bool, Failure>)
    | TaskSettles(request: RequestId, outcome: Result<Value, Failure>)
    | Reset

  // What the promise that submit returns is.
  datatype Answer = Joined(request: RequestId) | Resolved(result: Value) | Refused | Started(request: RequestId)

  const INITIAL: Controller := Controller(Idle, None, 0, 0, map[])

  function SubmitAnswer(c: Controller): Answer {
    if c.inFlight.Some? then Joined(c.inFlight.value)
    else if c.shown.Submitted? then Resolved(c.shown.result)
    else if c.shown == Failed(Unconfirmed) then Refused
    else Started(c.requestSeq + 1)
  }

  // The catch and finally blocks: only a current request shows its end, only the last one frees the slot.
  function Settle(c: Controller, request: RequestId, end: Shown): Controller
    requires request in c.suspended
  {
    c.(
      shown := if c.suspended[request].epoch == c.resetEpoch then end else c.shown,
      inFlight := if request == c.requestSeq then None else c.inFlight,
      suspended := c.suspended - {request}
    )
  }

  function Next(c: Controller, e: Event): Controller {
    match e
    case Submit =>
      var a := SubmitAnswer(c);
      if a.Started? then
        c.(shown := Connecting, inFlight := Some(a.request), requestSeq := a.request,
           suspended := c.suspended[a.request := AwaitsWallet(c.resetEpoch)])
      else c
    case WalletSettles(r, connected) =>
      if r !in c.suspended || !c.suspended[r].AwaitsWallet? then c
      else if connected.Err? then Settle(c, r, Failed(connected.error))
      else if c.suspended[r].epoch != c.resetEpoch then Settle(c, r, Failed(SignedOut))
      else c.(shown := Signing, suspended := c.suspended[r := AwaitsTask(c.suspended[r].epoch)])
    case TaskSettles(r, outcome) =>
      if r !in c.suspended || !c.suspended[r].AwaitsTask? then c
      else Settle(c, r, if outcome.Ok? then Submitted(outcome.value) else Failed(outcome.error))
    case Reset =>
      c.(shown := Idle, resetEpoch := c.resetEpoch + 1)
  }

  // --- The controller object ---

  class MemberSigningController {
    var shown: Shown
    var inFlight: Option<RequestId>
    var requestSeq: RequestId
    var resetEpoch: Epoch
    var suspended: map<RequestId, Suspended>

    ghost function Model(): Controller
      reads this
    {
      Controller(shown, inFlight, requestSeq, resetEpoch, suspended)
    }

    constructor ()
      ensures Model() == INITIAL
    {
      shown, inFlight, requestSeq, resetEpoch, suspended := Idle, None, 0, 0, map[];
    }

    method Submit() returns (a: Answer)
      modifies this
      ensures a == SubmitAnswer(old(Model()))
      ensures Model() == Next(old(Model()), Event.Submit)
    {
      if inFlight.Some? {
        return Joined(inFlight.value);
      }
      if shown.Submitted? {
        return Resolved(shown.result);
      }
      if shown == Failed(Unconfirmed) {
        return Refused;
      }
      var epoch := resetEpoch;
      requestSeq := requestSeq + 1;
      var request := requestSeq;
      shown := Connecting;
      suspended := suspended[request := AwaitsWallet(epoch)];
      inFlight := Some(request);
      a := Started(request);
    }

    method WalletSettles(request: RequestId, connected: Result<bool, Failure>)
      requires request in suspended && suspended[request].AwaitsWallet?
      modifies this
      ensures Model() == Next(old(Model()), Event.WalletSettles(request, connected))
    {
      var epoch := suspended[request].epoch;
      if connected.Err? {
        Finish(request, Failed(connected.error));
      } else if epoch != resetEpoch {
        Finish(request, Failed(SignedOut));
      } else {
        shown := Signing;
        suspended := suspended[request := AwaitsTask(epoch)];
      }
    }

    method TaskSettles(request: RequestId, outcome: Result<Value, Failure>)
      requires request in suspended && suspended[request].AwaitsTask?
      modifies this
      ensures Model() == Next(old(Model()), Event.TaskSettles(request, outcome))
    {
      if outcome.Ok? {
        Finish(request, Submitted(outcome.value));
      } else {
        Finish(request, Failed(outcome.error));
      }
    }

    method Finish(request: RequestId, end: Shown)
      requires request in suspended
      modifies this
      ensures Model() == Settle(old(Model()), request, end)
    {
      if suspended[request].epoch == resetEpoch {
        shown := end;
      }
      if request == requestSeq {
        inFlight := None;
      }
      suspended := suspended - {request};
    }

    method Reset()
      modifies this
      ensures Model() == Next(old(Model()), Event.Reset)
    {
      resetEpoch := resetEpoch + 1;
      shown := Idle;
    }
  }

  // --- Runs ---

  // An ended request, by the epoch it was submitted in.
  datatype Ended = Ended(request: RequestId, epoch: Epoch, end: Shown)

  function EndsOf(c: Controller, e: Event): seq<Ended> {
    match e
    case WalletSettles(r, connected) =>
      if r !in c.suspended || !c.suspended[r].AwaitsWallet? then []
      else if connected.Err? then [Ended(r, c.suspended[r].epoch, Failed(connected.error))]
      else if c.suspended[r].epoch != c.resetEpoch then [Ended(r, c.suspended[r].epoch, Failed(SignedOut))]
      else []
    case TaskSettles(r, outcome) =>
      if r !in c.suspended || !c.suspended[r].AwaitsTask? then []
      else [Ended(r, c.suspended[r].epoch,
                  if outcome.Ok? then Submitted(outcome.value) else Failed(outcome.error))]
    case _ => []
  }

  function After(events: seq<Event>): Controller {
    if events == [] then INITIAL else Next(After(events[..|events| - 1]), events[|events| - 1])
  }

  function Ends(events: seq<Event>): seq<Ended> {
    if events == [] then []
    else Ends(events[..|events| - 1]) + EndsOf(After(events[..|events| - 1]), events[|events| - 1])
  }

  // The member may have sent a transaction: the request succeeded, or nobody knows.
  predicate Decisive(end: Shown) { end.Submitted? || end == Failed(Unconfirmed) }

  function DecisiveIn(log: seq<Ended>, epoch: Epoch): nat {
    if log == [] then 0
    else DecisiveIn(log[..|log| - 1], epoch)
         + if log[|log| - 1].epoch == epoch && Decisive(log[|log| - 1].end) then 1 else 0
  }

  function RunningIn(c: Controller, epoch: Epoch): nat {
    if c.inFlight.Some? && c.inFlight.value in c.suspended && c.suspended[c.inFlight.value].epoch == epoch then 1 else 0
  }

  ghost predicate Alone(c: Controller) {
    && c.suspended.Keys == (if c.inFlight.Some? then {c.inFlight.value} else {})
    && (c.inFlight.Some? ==> c.inFlight.value == c.requestSeq)
    && (forall r :: r in c.suspended ==> c.suspended[r].epoch <= c.resetEpoch)
  }

  // What `decided` ends of the epoch's requests mean for the controller.
  predicate Counts(c: Controller, decided: nat, epoch: Epoch) {
    && decided + RunningIn(c, epoch) <= 1
    && (epoch > c.resetEpoch ==> decided == 0)
    && (epoch == c.resetEpoch ==> (decided == 1 <==> Decisive(c.shown)))
  }

  ghost predicate EpochInv(c: Controller, log: seq<Ended>, epoch: Epoch) {
    Counts(c, DecisiveIn(log, epoch), epoch)
  }

  ghost predicate Inv(c: Controller, log: seq<Ended>) {
    Alone(c) && forall epoch: Epoch :: EpochInv(c, log, epoch)
  }

  // Whether the event ends a request of `epoch` submitted or unconfirmed.
  function Decides(c: Controller, e: Event, epoch: Epoch): nat {
    var ends := EndsOf(c, e);
    if ends != [] && ends[0].epoch == epoch && Decisive(ends[0].end) then 1 else 0
  }

  lemma NextKeepsCounts(c: Controller, decided: nat, e: Event, epoch: Epoch)
    requires Alone(c) && Counts(c, decided, epoch)
    ensures Counts(Next(c, e), decided + Decides(c, e, epoch), epoch)
  {
  }

  lemma NextKeepsEpoch(c: Controller, log: seq<Ended>, e: Event, epoch: Epoch)
    requires Alone(c) && EpochInv(c, log, epoch)
    ensures EpochInv(Next(c, e), log + EndsOf(c, e), epoch)
  {
    NextKeepsCounts(c, DecisiveIn(log, epoch), e, epoch);
    var ends := EndsOf(c, e);
    DecisiveOn(log, ends, epoch);
  }

  lemma NextKeepsInv(c: Controller, log: seq<Ended>, e: Event)
    requires Inv(c, log)
    ensures Inv(Next(c, e), log + EndsOf(c, e))
  {
    forall epoch: Epoch ensures EpochInv(Next(c, e), log + EndsOf(c, e), epoch) {
      assert EpochInv(c, log, epoch);
      NextKeepsEpoch(c, log, e, epoch);
    }
  }

  lemma DecisiveOn(log: seq<Ended>, ends: seq<Ended>, epoch: Epoch)
    requires |ends| <= 1
    ensures DecisiveIn(log + ends, epoch) ==
            DecisiveIn(log, epoch) + if ends != [] && ends[0].epoch == epoch && Decisive(ends[0].end) then 1 else 0
  {
    if ends == [] {
      assert log + ends == log;
    } else {
      assert (log + ends)[..|log + ends| - 1] == log;
    }
  }

  lemma {:induction false} InvInEveryRun(events: seq<Event>)
    ensures Inv(After(events), Ends(events))
  {
    if events != [] {
      InvInEveryRun(events[..|events| - 1]);
      NextKeepsInv(After(events[..|events| - 1]), Ends(events[..|events| - 1]), events[|events| - 1]);
    }
  }

  // Never two requests alive, so never two tasks, resets or not.
  lemma {:induction false} SingleFlight(events: seq<Event>)
    ensures forall r, q :: r in After(events).suspended && q in After(events).suspended ==> r == q
    ensures forall r :: r in After(events).suspended ==> After(events).inFlight == Some(r)
  {
    InvInEveryRun(events);
  }

  // Between two resets at most one of the requests submitted there ends submitted or unconfirmed.
  lemma OneDecisionPerEpoch(events: seq<Event>, epoch: Epoch)
    ensures DecisiveIn(Ends(events), epoch) <= 1
  {
    InvInEveryRun(events);
    assert EpochInv(After(events), Ends(events), epoch);
  }

  // After such an end, until the next reset, submit starts nothing.
  lemma DecisionLocksOut(events: seq<Event>)
    requires DecisiveIn(Ends(events), After(events).resetEpoch) == 1
    ensures !SubmitAnswer(After(events)).Started?
    ensures Next(After(events), Submit) == After(events)
  {
    InvInEveryRun(events);
    assert EpochInv(After(events), Ends(events), After(events).resetEpoch);
  }

  // What submit answers in any run: the request under way, whatever resets came; else the last result; nothing
  // after an unknown outcome; and otherwise a new request, numbered on.
  lemma SubmitAnswers(events: seq<Event>)
    ensures var c, a := After(events), SubmitAnswer(After(events));
            && (forall r :: a == Joined(r) <==> r in c.suspended)
            && (c.suspended == map[] ==>
                  if c.shown.Submitted? then a == Resolved(c.shown.result)
                  else if c.shown.Failed? && c.shown.failure.Unconfirmed? then a == Refused
                  else a == Started(c.requestSeq + 1))
  {
    InvInEveryRun(events);
  }

  // The outcome of a task decides the next answer: its result again, nothing if it is unknown, and a new request
  // after any other failure, or if a reset came since.
  lemma AnswersAfterTask(events: seq<Event>, r: RequestId, outcome: Result<Value, Failure>)
    requires var c := After(events); r in c.suspended && c.suspended[r].AwaitsTask?
    ensures var c, c' := After(events), After(events + [TaskSettles(r, outcome)]);
            var a := SubmitAnswer(c');
            && c'.suspended == map[]
            && (c.suspended[r].epoch == c.resetEpoch && outcome.Ok? ==> c'.shown == Submitted(outcome.value) && a == Resolved(outcome.value))
            && (c.suspended[r].epoch == c.resetEpoch && outcome.Err? ==> c'.shown == Failed(outcome.error))
            && (c.suspended[r].epoch == c.resetEpoch && outcome == Err(Unconfirmed) ==> a == Refused)
            && (c.suspended[r].epoch == c.resetEpoch && outcome.Err? && !outcome.error.Unconfirmed? ==> a.Started?)
            && (c.suspended[r].epoch != c.resetEpoch ==> c'.shown == Idle && a.Started?)
  {
    var e := TaskSettles(r, outcome);
    AfterOne(events, e);
    SubmitAnswers(events + [e]);
    InvInEveryRun(events);
    if After(events).suspended[r].epoch != After(events).resetEpoch {
      StaleIsIdle(events, r);
    }
  }

  lemma AfterOne(events: seq<Event>, e: Event)
    ensures After(events + [e]) == Next(After(events), e)
  {
    assert (events + [e])[..|events + [e]| - 1] == events;
  }

  // While a request from before a reset is under way, nothing is shown.
  lemma {:induction false} StaleIsIdle(events: seq<Event>, r: RequestId)
    requires r in After(events).suspended && After(events).suspended[r].epoch != After(events).resetEpoch
    ensures After(events).shown == Idle
  {
    if events != [] {
      var before, e := events[..|events| - 1], events[|events| - 1];
      InvInEveryRun(before);
      InvInEveryRun(events);
      var c := After(before);
      if r in c.suspended && c.suspended[r].epoch != c.resetEpoch {
        StaleIsIdle(before, r);
      }
    }
  }

  // A wallet that connects leads to the task, unless a reset came; a failure to connect allows a new request.
  lemma AnswersAfterWallet(events: seq<Event>, r: RequestId, connected: Result<bool, Failure>)
    requires var c := After(events); r in c.suspended && c.suspended[r].AwaitsWallet?
    ensures var c, c' := After(events), After(events + [WalletSettles(r, connected)]);
            var a := SubmitAnswer(c');
            && (c.suspended[r].epoch == c.resetEpoch && connected.Ok? ==>
                  c'.shown == Signing && c'.suspended == map[r := AwaitsTask(c.resetEpoch)] && a == Joined(r))
            && (c.suspended[r].epoch != c.resetEpoch ==> c'.shown == Idle && c'.suspended == map[] && a.Started?)
            && (c.suspended[r].epoch == c.resetEpoch && connected.Err? ==>
                  c'.suspended == map[] && c'.shown == Failed(connected.error) && (a.Started? <==> !connected.error.Unconfirmed?))
  {
    var e := WalletSettles(r, connected);
    AfterOne(events, e);
    SubmitAnswers(events + [e]);
    InvInEveryRun(events);
    InvInEveryRun(events + [e]);
    if After(events).suspended[r].epoch != After(events).resetEpoch {
      StaleIsIdle(events, r);
    }
  }

  // The log is complete: a request that is over was logged once, with its epoch, and with what is shown if no reset
  // came since.
  lemma EndsAreLogged(events: seq<Event>, e: Event)
    ensures var c, c', ends := After(events), Next(After(events), e), EndsOf(After(events), e);
            && |ends| <= 1 && (ends == [] <==> c.suspended.Keys <= c'.suspended.Keys)
            && (ends != [] ==>
                  && ends[0].request in c.suspended && ends[0].request !in c'.suspended
                  && ends[0].epoch == c.suspended[ends[0].request].epoch
                  && (ends[0].epoch == c.resetEpoch ==> c'.shown == ends[0].end)
                  && (ends[0].epoch != c.resetEpoch ==> c'.shown == c.shown)
                  && (e.TaskSettles? && e.outcome.Ok? ==> ends[0].end == Submitted(e.outcome.value))
                  && (e.TaskSettles? && e.outcome.Err? ==> ends[0].end == Failed(e.outcome.error)))
  {
    InvInEveryRun(events);
  }

  // A request from before a reset shows nothing when it settles, and does not reach its task.
  lemma StaleIsSilent(events: seq<Event>, e: Event)
    requires e.WalletSettles? || e.TaskSettles?
    requires e.request in After(events).suspended && After(events).suspended[e.request].epoch != After(events).resetEpoch
    ensures var c := Next(After(events), e);
            c.shown == After(events).shown
            && (e.request in c.suspended ==> c.suspended[e.request] == After(events).suspended[e.request])
  {
  }

  // A task starts only for the request in flight, and only if no reset came since it was submitted.
  lemma TaskNeedsItsEpoch(events: seq<Event>, e: Event, r: RequestId)
    requires var c, c' := After(events), Next(After(events), e);
             r in c'.suspended && c'.suspended[r].AwaitsTask? && !(r in c.suspended && c.suspended[r].AwaitsTask?)
    ensures e.WalletSettles? && e.request == r && e.connected.Ok?
    ensures After(events).inFlight == Some(r) && After(events).suspended[r] == AwaitsWallet(After(events).resetEpoch)
    ensures Next(After(events), e).shown == Signing
  {
    InvInEveryRun(events);
  }

  lemma Unfold(events: seq<Event>, e: Event)
    ensures After(events + [e]) == Next(After(events), e)
    ensures Ends(events + [e]) == Ends(events) + EndsOf(After(events), e)
  {
    assert (events + [e])[..|events|] == events;
  }

  // --- Tasks counted by the reset they end after ---

  predicate TaskRuns(c: Controller) {
    exists r | r in c.suspended :: c.suspended[r].AwaitsTask?
  }

  // No task runs at the reset that opens the epoch.
  ghost predicate OpensCalmly(events: seq<Event>, epoch: Epoch) {
    forall i :: 0 <= i < |events| && events[i].Reset? && After(events[..i]).resetEpoch + 1 == epoch ==>
      !TaskRuns(After(events[..i]))
  }

  predicate EndsTask(c: Controller, e: Event, epoch: Epoch) {
    && e.TaskSettles? && e.request in c.suspended && c.suspended[e.request].AwaitsTask? && c.resetEpoch == epoch
    && (e.outcome.Ok? || e.outcome.error.Unconfirmed?)
  }

  lemma EndsTaskMeans(c: Controller, e: Event, epoch: Epoch)
    ensures EndsTask(c, e, epoch) <==>
      c.resetEpoch == epoch && e.TaskSettles? && EndsOf(c, e) != [] && Decisive(EndsOf(c, e)[0].end)
  {
  }

  // The tasks that end submitted or unconfirmed between two resets, whenever they were started.
  function TasksEnded(events: seq<Event>, epoch: Epoch): nat {
    if events == [] then 0
    else TasksEnded(events[..|events| - 1], epoch)
         + if EndsTask(After(events[..|events| - 1]), events[|events| - 1], epoch) then 1 else 0
  }

  lemma CalmPrefix(events: seq<Event>, epoch: Epoch)
    requires events != [] && OpensCalmly(events, epoch)
    ensures OpensCalmly(events[..|events| - 1], epoch)
  {
    var before := events[..|events| - 1];
    forall i | 0 <= i < |before| && before[i].Reset? && After(before[..i]).resetEpoch + 1 == epoch
      ensures !TaskRuns(After(before[..i]))
    {
      assert events[i].Reset? && events[..i] == before[..i];
    }
  }

  // In an epoch opened calmly every running task belongs to it.
  lemma {:induction false} CalmTasksAreCurrent(events: seq<Event>, epoch: Epoch)
    requires OpensCalmly(events, epoch) && After(events).resetEpoch == epoch
    ensures forall r :: r in After(events).suspended && After(events).suspended[r].AwaitsTask? ==>
      After(events).suspended[r].epoch == epoch
  {
    if events != [] {
      var before := events[..|events| - 1];
      CalmPrefix(events, epoch);
      if After(before).resetEpoch == epoch {
        CalmTasksAreCurrent(before, epoch);
      } else {
        assert events[|events| - 1].Reset?;
        assert !TaskRuns(After(before));
      }
    }
  }

  lemma {:induction false} CalmTasksAreDecisions(events: seq<Event>, epoch: Epoch)
    requires OpensCalmly(events, epoch)
    ensures TasksEnded(events, epoch) <= DecisiveIn(Ends(events), epoch)
  {
    if events != [] {
      var before, e := events[..|events| - 1], events[|events| - 1];
      CalmPrefix(events, epoch);
      CalmTasksAreDecisions(before, epoch);
      if After(before).resetEpoch == epoch {
        CalmTasksAreCurrent(before, epoch);
      }
      DecisiveOn(Ends(before), EndsOf(After(before), e), epoch);
    }
  }

  // If no task runs at the reset that opens it, at most one task ends submitted or unconfirmed before the next.
  lemma OneTaskBetweenResets(events: seq<Event>, epoch: Epoch)
    requires OpensCalmly(events, epoch)
    ensures TasksEnded(events, epoch) <= 1
  {
    CalmTasksAreDecisions(events, epoch);
    OneDecisionPerEpoch(events, epoch);
  }

  // A reset while task `r` runs, its end, and a second request that runs to its end.
  function Twice(c: Controller, r: RequestId): seq<Event> {
    var s := c.requestSeq + 1;
    [Reset, TaskSettles(r, Ok(0)), Submit, WalletSettles(s, Ok(true)), TaskSettles(s, Ok(0))]
  }

  lemma BothEnd(c: Controller, r: RequestId)
    requires c.inFlight == Some(r) && r == c.requestSeq && c.suspended.Keys == {r} && c.suspended[r].AwaitsTask?
    requires c.suspended[r].epoch <= c.resetEpoch
    ensures var es := Twice(c, r);
            var c1 := Next(c, es[0]);
            var c2 := Next(c1, es[1]);
            var c3 := Next(c2, es[2]);
            var c4 := Next(c3, es[3]);
            EndsTask(c1, es[1], c.resetEpoch + 1) && EndsTask(c4, es[4], c.resetEpoch + 1)
  {
    var c2 := Next(Next(c, Reset), TaskSettles(r, Ok(0)));
    assert c.suspended - {r} == map[];
    assert c2 == Controller(Idle, None, r, c.resetEpoch + 1, map[]);
    var c3 := Next(c2, Submit);
    assert c3 == Controller(Connecting, Some(r + 1), r + 1, c.resetEpoch + 1, map[r + 1 := AwaitsWallet(c.resetEpoch + 1)]);
  }

  // And whenever a task does run at a reset, two may end before the next.
  lemma TwoTasksAfterReset(events: seq<Event>) returns (more: seq<Event>)
    requires TaskRuns(After(events))
    ensures |more| > 0 && more[0] == Reset && (forall i :: 0 < i < |more| ==> !more[i].Reset?)
    ensures TasksEnded(events + more, After(events).resetEpoch + 1) >= 2
  {
    InvInEveryRun(events);
    var r :| r in After(events).suspended && After(events).suspended[r].AwaitsTask?;
    more := Twice(After(events), r);
    BothEnd(After(events), r);
    TwoFrom(After(events), more, After(events).resetEpoch + 1);
    CountSplits(events, more, After(events).resetEpoch + 1);
  }

  function EndedFrom(c: Controller, more: seq<Event>, epoch: Epoch): nat
    decreases |more|
  {
    if more == [] then 0
    else (if EndsTask(c, more[0], epoch) then 1 else 0) + EndedFrom(Next(c, more[0]), more[1..], epoch)
  }

  lemma {:induction false} CountSplits(events: seq<Event>, more: seq<Event>, epoch: Epoch)
    ensures TasksEnded(events + more, epoch) == TasksEnded(events, epoch) + EndedFrom(After(events), more, epoch)
    decreases |more|
  {
    if more == [] {
      assert events + more == events;
    } else {
      var next := events + [more[0]];
      assert events + more == next + more[1..];
      CountSplits(next, more[1..], epoch);
      assert After(next) == Next(After(events), more[0]) by {
        Unfold(events, more[0]);
      }
      CountOn(events, more[0], epoch);
    }
  }

  lemma TwoFrom(c: Controller, more: seq<Event>, epoch: Epoch)
    requires |more| == 5
    requires var c1 := Next(c, more[0]);
             var c4 := Next(Next(Next(c1, more[1]), more[2]), more[3]);
             EndsTask(c1, more[1], epoch) && EndsTask(c4, more[4], epoch)
    ensures EndedFrom(c, more, epoch) >= 2
  {
    var c1 := Next(c, more[0]);
    var c2 := Next(c1, more[1]);
    var c3 := Next(c2, more[2]);
    var c4 := Next(c3, more[3]);
    var m1, m2, m3, m4 := more[1..], more[2..], more[3..], more[4..];
    assert m1[1..] == m2 && m2[1..] == m3 && m3[1..] == m4;
    assert EndedFrom(c4, m4, epoch) >= 1;
    assert EndedFrom(c2, m2, epoch) >= EndedFrom(c3, m3, epoch) >= EndedFrom(c4, m4, epoch);
    assert EndedFrom(c1, m1, epoch) >= 1 + EndedFrom(c2, m2, epoch);
  }

  lemma CountOn(events: seq<Event>, e: Event, epoch: Epoch)
    ensures TasksEnded(events + [e], epoch) ==
            TasksEnded(events, epoch) + if EndsTask(After(events), e, epoch) then 1 else 0
  {
    assert (events + [e])[..|events|] == events;
  }
}
