/**
 Who owns an organization while setups that name their applicant interleave, one plugin call at a time. A setup
 gives its reviewer's ownership away only after it has seen, or made, its applicant an owner.
 */
module CommunityOwners {
  import opened Wrappers
  import opened AuthStore
  import opened CommunitySpec

  type JobId = nat

  // A setup that has found or created its organization. `bound`: it found one without its stamp, or one that its
  // application names, and the bind checks let it through. `granted`: its ownership step is over.
  datatype Setup = Setup(org: Id, applicant: Id, reviewer: Id, bound: bool, granted: bool)

  datatype World = World(auth: Auth, setups: map<JobId, Setup>)

  datatype Event =
    | Creates(job: JobId, org: Id, record: Org, proposalId: Id, applicant: Id, reviewer: Id)
    | Binds(job: JobId, org: Id, input: Input)
    | Finds(job: JobId, org: Id, applicant: Id, reviewer: Id)
    | SeesOwner(job: JobId)
    | Grants(job: JobId)
    | Seats(job: JobId)
    | Stops(job: JobId)
    | Writes(write: Write)

  predicate TouchesNobody(write: Write) { !write.Create? && !write.SetMember? }

  // The plugin never generates an id twice.
  predicate NewHere(w: World, o: Id) { forall job | job in w.setups :: w.setups[job].org != o }

  predicate OwnerAt(a: Auth, o: Id, u: Id) { o in a.orgs && Find(a.orgs[o].members, u) == Some(Owner) }

  // Whoever creates an organization owns it. `Seats` adds the reviewer, or takes the ownership away; the checks
  // made before it only make it happen less often. `Writes` is any other call, deletions included.
  function Next(w: World, e: Event): World {
    match e
    case Creates(job, o, record, p, applicant, reviewer) =>
      if CanWrite(w.auth, Create(o, record, p)) && NewHere(w, o) && record.members == map[reviewer := Owner]
      then World(Apply(w.auth, Create(o, record, p)), w.setups[job := Setup(o, applicant, reviewer, false, false)])
      else w
    case Binds(job, o, input) =>
      if o in w.auth.orgs && input.proposer.Some? && !BindRefused(w.auth.orgs[o], input)
      then w.(setups := w.setups[job := Setup(o, input.proposer.value, input.reviewer, true, false)]) else w
    case Finds(job, o, applicant, reviewer) =>
      if o in w.auth.orgs then w.(setups := w.setups[job := Setup(o, applicant, reviewer, false, false)]) else w
    case SeesOwner(job) =>
      if job in w.setups && OwnerAt(w.auth, w.setups[job].org, w.setups[job].applicant)
      then w.(setups := w.setups[job := w.setups[job].(granted := true)]) else w
    case Grants(job) =>
      if job in w.setups
      then World(Apply(w.auth, SetMember(w.setups[job].org, w.setups[job].applicant, Owner)),
                 w.setups[job := w.setups[job].(granted := true)])
      else w
    case Seats(job) =>
      if job in w.setups && w.setups[job].granted && w.setups[job].reviewer != w.setups[job].applicant
      then w.(auth := Apply(w.auth, SetMember(w.setups[job].org, w.setups[job].reviewer, Admin))) else w
    case Stops(job) => w.(setups := w.setups - {job})
    case Writes(write) => if TouchesNobody(write) then w.(auth := Apply(w.auth, write)) else w
  }

  function Run(w: World, events: seq<Event>): World
    decreases |events|
  {
    if events == [] then w else Run(Next(w, events[0]), events[1..])
  }

  // Two setups of different applicants in one organization, one of them reviewed by the other's applicant.
  ghost predicate Crossing(s: Setup, t: Setup) {
    s.org == t.org && s.applicant != t.applicant && (s.reviewer == t.applicant || t.reviewer == s.applicant)
  }

  ghost predicate Uncrossed(w: World) {
    forall i, j | i in w.setups && j in w.setups :: !Crossing(w.setups[i], w.setups[j])
  }

  ghost predicate UncrossedThroughout(w: World, events: seq<Event>)
    decreases |events|
  {
    Uncrossed(w) && (events == [] || UncrossedThroughout(Next(w, events[0]), events[1..]))
  }

  // While a setup is under way and past its ownership step, its applicant owns the organization.
  ghost predicate GrantsHold(w: World) {
    forall job :: job in w.setups && w.setups[job].granted && w.setups[job].org in w.auth.orgs ==>
      OwnerAt(w.auth, w.setups[job].org, w.setups[job].applicant)
  }

  ghost predicate Inv(w: World) { AllOwned(w.auth) && GrantsHold(w) }

  // A setup gives ownership away only beside its own applicant's.
  lemma SeatsKeep(w: World, job: JobId)
    requires Inv(w) && Uncrossed(w)
    ensures Inv(Next(w, Seats(job)))
  {
    var after := Next(w, Seats(job));
    if after != w {
      var s := w.setups[job];
      assert s.org in w.auth.orgs && OwnerAt(w.auth, s.org, s.applicant);
      forall o | o in after.auth.orgs ensures HasOwner(after.auth.orgs[o]) {
        if o == s.org {
          assert OwnerAt(after.auth, o, s.applicant);
        } else {
          assert after.auth.orgs[o] == w.auth.orgs[o];
        }
      }
      forall i | i in after.setups && after.setups[i].granted && after.setups[i].org in after.auth.orgs
        ensures OwnerAt(after.auth, after.setups[i].org, after.setups[i].applicant)
      {
        assert !Crossing(s, w.setups[i]);
      }
    }
  }

  lemma GrantsKeep(w: World, job: JobId)
    requires Inv(w)
    ensures Inv(Next(w, Grants(job)))
  {
    var after := Next(w, Grants(job));
    if job in w.setups {
      var s := w.setups[job];
      forall o | o in after.auth.orgs ensures HasOwner(after.auth.orgs[o]) {
        if o == s.org {
          assert OwnerAt(after.auth, o, s.applicant);
        } else {
          assert after.auth.orgs[o] == w.auth.orgs[o];
        }
      }
    }
  }

  lemma CreatesKeep(w: World, e: Event)
    requires Inv(w) && e.Creates?
    ensures Inv(Next(w, e))
  {
    var after := Next(w, e);
    forall o | o in after.auth.orgs ensures HasOwner(after.auth.orgs[o]) {
      if o == e.org && after != w {
        assert e.reviewer in after.auth.orgs[o].members;
      } else {
        assert after.auth.orgs[o] == w.auth.orgs[o];
      }
    }
  }

  lemma WritesKeep(w: World, write: Write)
    requires Inv(w)
    ensures Inv(Next(w, Writes(write)))
  {
    var after := Next(w, Writes(write));
    forall o | o in after.auth.orgs ensures o in w.auth.orgs && after.auth.orgs[o].members == w.auth.orgs[o].members {
    }
  }

  lemma NextKeepsInv(w: World, e: Event)
    requires Inv(w) && Uncrossed(w)
    ensures Inv(Next(w, e))
  {
    match e
    case Creates(_, _, _, _, _, _) => CreatesKeep(w, e);
    case Grants(job) => GrantsKeep(w, job);
    case Seats(job) => SeatsKeep(w, job);
    case Writes(write) => WritesKeep(w, write);
    case _ =>
  }

  // However setups with named applicants interleave, and wherever they stop, every organization has an owner at
  // every moment, as long as no two of them cross.
  lemma {:induction false} OwnedInEveryRun(w: World, events: seq<Event>)
    requires Inv(w) && UncrossedThroughout(w, events)
    ensures AllOwned(Run(w, events).auth)
    decreases |events|
  {
    if events != [] {
      NextKeepsInv(w, events[0]);
      OwnedInEveryRun(Next(w, events[0]), events[1..]);
    }
  }

  ghost predicate IsFor(e: Event, applicant: Id) {
    (e.Creates? || e.Finds? ==> e.applicant == applicant) && (e.Binds? ==> e.input.proposer == Some(applicant))
  }

  // Setups cross only in one organization, for different applicants, one reviewed by the other's applicant.
  lemma CrossingMeans(s: Setup, t: Setup)
    ensures Crossing(s, t) <==>
      !(s.org != t.org || s.applicant == t.applicant || (s.reviewer != t.applicant && t.reviewer != s.applicant))
  {
  }

  // Setups of one application never cross, whoever reviews them.
  lemma {:induction false} OneApplicationUncrossed(w: World, events: seq<Event>, applicant: Id)
    requires forall job :: job in w.setups ==> w.setups[job].applicant == applicant
    requires forall e :: e in events ==> IsFor(e, applicant)
    ensures UncrossedThroughout(w, events)
    decreases |events|
  {
    if events != [] {
      assert IsFor(events[0], applicant);
      OneApplicationUncrossed(Next(w, events[0]), events[1..], applicant);
    }
  }

  lemma OneApplicationOwned(w: World, events: seq<Event>, applicant: Id)
    requires Inv(w) && forall job :: job in w.setups ==> w.setups[job].applicant == applicant
    requires forall e :: e in events ==> IsFor(e, applicant)
    ensures AllOwned(Run(w, events).auth)
  {
    OneApplicationUncrossed(w, events, applicant);
    OwnedInEveryRun(w, events);
  }

  // --- A setup alone ---

  function CallsOf(job: JobId, entry: Event, org: Org, input: Input): seq<Event> {
    [entry, Grants(job)] + if SeatsNeeded(org, input) then [Seats(job)] else []
  }

  lemma GrantStep(w: World, job: JobId, o: Id, s: Setup)
    requires o in w.auth.orgs && Find(w.setups, job) == Some(s) && s.org == o
    ensures var after := Next(w, Grants(job));
            && Find(after.auth.orgs, o) == Some(Granted(w.auth.orgs[o], s.applicant))
            && Find(after.setups, job) == Some(s.(granted := true))
  {
  }

  lemma SeatStep(w: World, job: JobId, o: Id, s: Setup)
    requires o in w.auth.orgs && Find(w.setups, job) == Some(s) && s.org == o && s.granted && s.reviewer != s.applicant
    ensures var after := Next(w, Seats(job));
            o in after.auth.orgs && after.auth.orgs[o].members == w.auth.orgs[o].members[s.reviewer := Admin]
  {
  }

  predicate SeatsNeeded(org: Org, input: Input) {
    input.proposer != Some(input.reviewer) && (input.reviewer !in org.members || org.members[input.reviewer].Owner?)
  }

  lemma MembersMatch(org: Org, input: Input)
    requires input.proposer.Some?
    ensures SeatedBeside(Granted(org, input.proposer.value), input.reviewer, input.proposer, true).members ==
            if SeatsNeeded(org, input) then org.members[input.proposer.value := Owner][input.reviewer := Admin]
            else org.members[input.proposer.value := Owner]
  {
  }

  lemma CallsRun(w: World, job: JobId, entry: Event, o: Id, input: Input, bound: bool)
    requires o in w.auth.orgs && input.proposer.Some?
    requires Next(w, entry) == w.(setups := w.setups[job := Setup(o, input.proposer.value, input.reviewer, bound, false)])
    ensures var granted := Granted(w.auth.orgs[o], input.proposer.value);
            var after := Run(w, CallsOf(job, entry, w.auth.orgs[o], input)).auth;
            o in after.orgs && after.orgs[o].members == SeatedBeside(granted, input.reviewer, input.proposer, true).members
  {
    var s := Setup(o, input.proposer.value, input.reviewer, bound, false);
    var first := Next(w, entry);
    GrantStep(first, job, o, s);
    MembersMatch(w.auth.orgs[o], input);
    var second := Next(first, Grants(job));
    if SeatsNeeded(w.auth.orgs[o], input) {
      TwoRun(w, first, second, entry, Grants(job), [Seats(job)]);
      SeatStep(second, job, o, s.(granted := true));
      OneRun(second, Seats(job));
    } else {
      TwoRun(w, first, second, entry, Grants(job), []);
    }
  }

  lemma OneRun(w: World, e: Event)
    ensures Run(w, [e]) == Next(w, e)
  {
    assert [e][1..] == [];
  }

  // The calls of an undisturbed setup with a named applicant leave the members that its specification says:
  // adopted, resumed or newly created.
  lemma SetupAlone(w: World, job: JobId, o: Id, input: Input)
    requires o in w.auth.orgs && input.proposer.Some? && !Legacy(input)
    ensures var org := w.auth.orgs[o];
            var entry := if Resumes(org, input) then Finds(job, o, input.proposer.value, input.reviewer) else Binds(job, o, input);
            var after := Run(w, CallsOf(job, entry, org, input)).auth;
            && (!Resumes(org, input) && !BindRefused(org, input) ==>
                  o in after.orgs && after.orgs[o].members == Bound(org, input, true).members)
            && (Resumes(org, input) ==> o in after.orgs && after.orgs[o].members == Resumed(org, input).members)
  {
    var org := w.auth.orgs[o];
    if Resumes(org, input) {
      CallsRun(w, job, Finds(job, o, input.proposer.value, input.reviewer), o, input, false);
    } else if !BindRefused(org, input) {
      CallsRun(w, job, Binds(job, o, input), o, input, true);
    }
  }

  // A setup that creates its organization goes on in it, and other calls take effect at any moment.
  lemma CreationAndOthers(w: World, e: Event)
    requires e.Creates? ==> CanWrite(w.auth, Create(e.org, e.record, e.proposalId)) &&
                            (forall job :: job in w.setups ==> w.setups[job].org != e.org) &&
                            e.record.members == map[e.reviewer := Owner]
    ensures e.Creates? ==>
      && Find(Next(w, e).auth.orgs, e.org) == Some(e.record)
      && Find(Next(w, e).setups, e.job) == Some(Setup(e.org, e.applicant, e.reviewer, false, false))
    ensures e.Writes? && !e.write.Create? && !e.write.SetMember? ==> Next(w, e).auth == Apply(w.auth, e.write)
    ensures e.Writes? && e.write.SetMember? ==> Next(w, e) == w
  {
  }

  // --- Whose organization a bind may give away ---

  // The applicant of a bind under way is the organization's requester, if it has one, or owned it at some point.
  ghost predicate Entitled(start: World, events: seq<Event>, job: JobId) {
    var w := Run(start, events);
    job in w.setups && w.setups[job].bound && w.setups[job].org in w.auth.orgs ==>
      var s := w.setups[job];
      var requester := w.auth.orgs[s.org].requestedBy;
      requester == None || requester == Some(s.applicant) ||
      exists k :: 0 <= k <= |events| && OwnerAt(Run(start, events[..k]).auth, s.org, s.applicant)
  }

  lemma {:induction false} RunThen(w: World, events: seq<Event>, last: Event)
    ensures Run(w, events + [last]) == Next(Run(w, events), last)
    decreases |events|
  {
    if events == [] {
      assert (events + [last])[1..] == [];
    } else {
      assert (events + [last])[1..] == events[1..] + [last];
      RunThen(Next(w, events[0]), events[1..], last);
    }
  }

  lemma KeepsRequester(w: World, e: Event, o: Id, job: JobId)
    requires job in w.setups && w.setups[job].org == o && o in Next(w, e).auth.orgs
    ensures o in w.auth.orgs && Next(w, e).auth.orgs[o].requestedBy == w.auth.orgs[o].requestedBy
  {
  }

  lemma OnlyBindsBind(w: World, e: Event, job: JobId)
    requires job in Next(w, e).setups && Next(w, e).setups[job].bound
    ensures (e.Binds? && e.job == job && Next(w, e) != w) ||
      (job in w.setups && w.setups[job].bound && w.setups[job].org == Next(w, e).setups[job].org &&
       w.setups[job].applicant == Next(w, e).setups[job].applicant)
  {
  }

  // In every run, a bind makes a user an owner only where nobody or that user requested the organization, or
  // where the user had owned it before.
  lemma {:induction false} BindGivesNothingAway(start: World, events: seq<Event>, job: JobId)
    requires start.setups == map[]
    ensures Entitled(start, events, job)
    decreases |events|
  {
    var w := Run(start, events);
    if events != [] && job in w.setups && w.setups[job].bound && w.setups[job].org in w.auth.orgs {
      var n := |events| - 1;
      var before := Run(start, events[..n]);
      assert events == events[..n] + [events[n]];
      RunThen(start, events[..n], events[n]);
      OnlyBindsBind(before, events[n], job);
      var s := w.setups[job];
      if job in before.setups && before.setups[job].bound && before.setups[job].org == s.org &&
         before.setups[job].applicant == s.applicant {
        BindGivesNothingAway(start, events[..n], job);
        KeepsRequester(before, events[n], s.org, job);
        if k :| 0 <= k <= n && OwnerAt(Run(start, events[..n][..k]).auth, s.org, s.applicant) {
          assert events[..n][..k] == events[..k];
        }
      } else {
        BoundEntitled(before, events[n], job);
      }
    }
  }

  lemma BoundEntitled(w: World, e: Event, job: JobId)
    requires e.Binds? && e.job == job && Next(w, e) != w
    ensures var s := Next(w, e).setups[job];
            && s.org in w.auth.orgs && Next(w, e).auth == w.auth
            && (w.auth.orgs[s.org].requestedBy == None || w.auth.orgs[s.org].requestedBy == Some(s.applicant) ||
                OwnerAt(w.auth, s.org, s.applicant))
  {
  }

  // --- Two setups that cross ---

  const ADAS := Org("near", Active, None, map[], map["ada" := Owner], [], [], 0)
  const BOTHS := ADAS.(members := map["ada" := Owner, "rita" := Owner])
  const ONE := ADAS.(members := map["ada" := Owner, "rita" := Admin])
  const NOBODYS := ADAS.(members := map["ada" := Admin, "rita" := Admin])
  const FOR_ADA := Setup("o", "ada", "rita", false, false)
  const FOR_RITA := Setup("o", "rita", "ada", false, false)

  function With(org: Org, setups: map<JobId, Setup>): World { World(Auth(map["o" := org], map[]), setups) }

  function Past(s: Setup): Setup { s.(granted := true) }

  lemma FirstGrants()
    ensures Next(With(ADAS, map[]), Finds(1, "o", "ada", "rita")) == With(ADAS, map[1 := FOR_ADA])
    ensures Next(With(ADAS, map[1 := FOR_ADA]), SeesOwner(1)) == With(ADAS, map[1 := Past(FOR_ADA)])
  {
  }

  lemma SecondGrants()
    ensures Next(With(ADAS, map[1 := Past(FOR_ADA)]), Finds(2, "o", "rita", "ada")) ==
            With(ADAS, map[1 := Past(FOR_ADA), 2 := FOR_RITA])
    ensures Next(With(ADAS, map[1 := Past(FOR_ADA), 2 := FOR_RITA]), Grants(2)) ==
            With(BOTHS, map[1 := Past(FOR_ADA), 2 := Past(FOR_RITA)])
  {
    assert ADAS.members["rita" := Owner] == map["ada" := Owner, "rita" := Owner];
  }

  lemma BothSeat()
    ensures var setups := map[1 := Past(FOR_ADA), 2 := Past(FOR_RITA)];
            && Next(With(BOTHS, setups), Seats(1)) == With(ONE, setups)
            && Next(With(ONE, setups), Seats(2)) == With(NOBODYS, setups)
  {
    assert "ada"[0] != "rita"[0];
    assert BOTHS.members["rita" := Admin] == ONE.members;
    assert ONE.members["ada" := Admin] == NOBODYS.members;
  }

  lemma TwoRun(w0: World, w1: World, w2: World, e1: Event, e2: Event, rest: seq<Event>)
    requires Next(w0, e1) == w1 && Next(w1, e2) == w2
    ensures Run(w0, [e1, e2] + rest) == Run(w2, rest)
  {
    assert ([e1, e2] + rest)[1..] == [e2] + rest && ([e2] + rest)[1..] == rest;
  }

  lemma SixSteps() returns (w: World, events: seq<Event>)
    ensures w == With(ADAS, map[]) && Run(w, events).auth.orgs == map["o" := NOBODYS]
  {
    w := With(ADAS, map[]);
    var setups := map[1 := Past(FOR_ADA), 2 := Past(FOR_RITA)];
    var last := [Seats(1), Seats(2)] + [];
    var middle := [Finds(2, "o", "rita", "ada"), Grants(2)] + last;
    events := [Finds(1, "o", "ada", "rita"), SeesOwner(1)] + middle;
    FirstGrants();
    TwoRun(w, With(ADAS, map[1 := FOR_ADA]), With(ADAS, map[1 := Past(FOR_ADA)]),
           Finds(1, "o", "ada", "rita"), SeesOwner(1), middle);
    SecondGrants();
    TwoRun(With(ADAS, map[1 := Past(FOR_ADA)]), With(ADAS, map[1 := Past(FOR_ADA), 2 := FOR_RITA]),
           With(BOTHS, setups), Finds(2, "o", "rita", "ada"), Grants(2), last);
    BothSeat();
    TwoRun(With(BOTHS, setups), With(ONE, setups), With(NOBODYS, setups), Seats(1), Seats(2), []);
  }

  // Each reviewed by the other's applicant, both demote after both have granted: nobody owns the organization.
  lemma OwnershipLost() returns (w: World, events: seq<Event>)
    ensures Inv(w) && w.setups == map[] && !UncrossedThroughout(w, events)
    ensures "o" in Run(w, events).auth.orgs && !HasOwner(Run(w, events).auth.orgs["o"])
  {
    w, events := SixSteps();
    assert ADAS.members["ada"].Owner?;
    assert Inv(w);
    NobodyOwns();
    assert "o" in Run(w, events).auth.orgs && Run(w, events).auth.orgs["o"] == NOBODYS;
    UnownedMeansCrossed(w, events, "o");
  }

  lemma UnownedMeansCrossed(w: World, events: seq<Event>, o: Id)
    requires Inv(w) && o in Run(w, events).auth.orgs && !HasOwner(Run(w, events).auth.orgs[o])
    ensures !UncrossedThroughout(w, events)
  {
    assert !AllOwned(Run(w, events).auth);
    if UncrossedThroughout(w, events) {
      OwnedInEveryRun(w, events);
    }
  }

  lemma NobodyOwns()
    ensures !HasOwner(NOBODYS)
  {
  }
}
