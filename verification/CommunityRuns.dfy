/**
 Setups, resubmissions and releases of any applications racing with each other, one plugin call at a time. A setup that
 binds an existing organization remembers the metadata it fetched and writes its stamp from that later.
 */
module CommunityRuns {
  import opened Wrappers
  import opened AuthStore
  import opened CommunitySpec

  type JobId = nat

  // A fetched organization that the bind checks let through. `since`: how many stamps had been put by then.
  datatype Fetched = Fetched(input: Input, org: Id, read: Metadata, since: nat)

  datatype StampPut = StampPut(org: Id, proposalId: Id)

  // `legacy`: the applications that name an existing organization by now. `marked`: the organizations on which a
  // setup of an application found its stamp, or put it. `recorded` is the organization step of each
  // application's record. A release in `starting` has read the application, one in `releasing` has passed its
  // checks. `puts` and `deleted` are history: the stamps written, and the organizations deleted.
  datatype World = World(
    auth: Auth, legacy: set<Id>, fetched: map<JobId, Fetched>, marked: set<(Id, Id)>, recorded: map<Id, Id>,
    starting: map<JobId, (Id, Id)>, releasing: map<JobId, (Id, Id)>, puts: seq<StampPut>, deleted: seq<(Id, Id)>)

  datatype Event =
    | SetupWrites(proposalId: Id, write: Write)
    | SetupFetches(job: JobId, input: Input, org: Id)
    | SetupStamps(job: JobId)
    | SetupResumes(proposalId: Id, org: Id)
    | SetupRecords(proposalId: Id, org: Id)
    | Resubmits(proposalId: Id, namesOrg: bool)
    | ReleaseStarts(job: JobId, proposalId: Id)
    | ReleaseReads(job: JobId)
    | ReleaseDeletes(job: JobId)

  function StampWrite(f: Fetched): Write {
    PutMetadata(f.org, f.read + BindStamp(f.input, !Legacy(f.input)))
  }

  // The stamp differs from what was fetched, and the organization is still there to write it to.
  predicate Stamps(w: World, job: JobId) {
    && job in w.fetched && w.fetched[job].org in w.auth.orgs
    && var stamp := BindStamp(w.fetched[job].input, !Legacy(w.fetched[job].input));
       exists k | k in stamp :: Find(w.fetched[job].read, k) != Some(stamp[k])
  }

  // A setup goes by the application it read, which may name no organization though the application does by now.
  predicate Binds(w: World, input: Input, o: Id) {
    && input.proposalId != "" && (Legacy(input) ==> input.proposalId in w.legacy)
    && o in w.auth.orgs && !BindRefused(w.auth.orgs[o], input)
    && (!Legacy(input) ==> !Resumes(w.auth.orgs[o], input))
  }

  predicate Carries(w: World, p: Id, o: Id) { o in w.auth.orgs && Stamp(w.auth.orgs[o]) == Some(p) }

  // The record keeps the first completed step until the application is rejected or submitted again. A release of
  // a legacy application deletes nothing; the checks about members, invitations and codes only make fewer
  // releases pass.
  function Next(w: World, e: Event): World {
    match e
    case SetupWrites(p, write) =>
      if p != "" && Allowed(p, p in w.legacy, write) && !write.PutMetadata? && CanWrite(w.auth, write) then
        if write.Create? then
          w.(auth := Apply(w.auth, write), puts := w.puts + [StampPut(write.org, p)], marked := w.marked + {(p, write.org)})
        else w.(auth := Apply(w.auth, write))
      else w
    case SetupFetches(job, input, o) =>
      if Binds(w, input, o)
      then w.(fetched := w.fetched[job := Fetched(input, o, w.auth.orgs[o].metadata, |w.puts|)]) else w
    case SetupStamps(job) =>
      if !Stamps(w, job) then w.(fetched := w.fetched - {job})
      else
        var f := w.fetched[job];
        w.(auth := Apply(w.auth, StampWrite(f)), puts := w.puts + [StampPut(f.org, f.input.proposalId)],
           marked := w.marked + {(f.input.proposalId, f.org)}, fetched := w.fetched - {job})
    case SetupResumes(p, o) => if p != "" && Carries(w, p, o) then w.(marked := w.marked + {(p, o)}) else w
    case SetupRecords(p, o) =>
      if (p, o) in w.marked && p !in w.recorded then w.(recorded := w.recorded[p := o]) else w
    case Resubmits(p, namesOrg) =>
      w.(recorded := w.recorded - {p}, legacy := w.legacy + if namesOrg then {p} else {})
    case ReleaseStarts(job, p) =>
      if p !in w.legacy && p in w.recorded then w.(starting := w.starting[job := (p, w.recorded[p])]) else w
    case ReleaseReads(job) =>
      if job in w.starting && Carries(w, w.starting[job].0, w.starting[job].1) &&
         !Linked(w.auth.orgs[w.starting[job].1])
      then w.(releasing := w.releasing[job := w.starting[job]]) else w
    case ReleaseDeletes(job) =>
      if job in w.releasing && w.releasing[job].1 in w.auth.orgs then
        w.(auth := Apply(w.auth, Delete(w.releasing[job].1)), deleted := w.deleted + [w.releasing[job]])
      else w
  }

  function Run(w: World, events: seq<Event>): World
    decreases |events|
  {
    if events == [] then w else Run(Next(w, events[0]), events[1..])
  }

  // --- A release deletes only what its application created ---

  // An organization that a setup has marked carries somebody's stamp from then on.
  ghost predicate MarksStay(w: World) {
    forall p, o :: (p, o) in w.marked && o in w.auth.orgs ==> Stamp(w.auth.orgs[o]) != None && Stamp(w.auth.orgs[o]) != Some("")
  }

  ghost predicate RecordsMarked(w: World) {
    && (forall p :: p in w.recorded ==> (p, w.recorded[p]) in w.marked)
    && (forall job :: job in w.starting ==> w.starting[job] in w.marked)
  }

  ghost predicate Created(w: World, p: Id, o: Id) { Find(w.auth.created, o) == Some(p) }

  // `p` created the organization, or whatever stamp of `p` it carries, now or after a write under way, says that
  // it was linked.
  ghost predicate LinkedIfStamped(w: World, p: Id, o: Id) {
    || Created(w, p, o)
    || ((Carries(w, p, o) ==> Linked(w.auth.orgs[o])) &&
        (forall job :: job in w.fetched && LegacyBind(w.fetched[job], p, o) ==>
          Find(w.fetched[job].read, CommunityLinkedOrg) == Some("true")))
  }

  predicate LegacyBind(f: Fetched, p: Id, o: Id) { f.org == o && f.input.proposalId == p && Legacy(f.input) }

  ghost predicate MarksHonest(w: World) {
    && StampsHonest(w.auth, w.legacy) && MarksStay(w) && RecordsMarked(w)
    && (forall job :: job in w.fetched ==>
          w.fetched[job].input.proposalId != "" &&
          (Legacy(w.fetched[job].input) ==> w.fetched[job].input.proposalId in w.legacy))
  }

  ghost predicate StartsHonest(w: World) {
    forall job :: job in w.starting ==> LinkedIfStamped(w, w.starting[job].0, w.starting[job].1)
  }

  ghost predicate DeletesHonest(w: World) {
    && (forall job :: job in w.releasing ==> Created(w, w.releasing[job].0, w.releasing[job].1))
    && (forall i :: 0 <= i < |w.deleted| ==> Created(w, w.deleted[i].0, w.deleted[i].1))
  }

  ghost predicate Honest(w: World) { MarksHonest(w) && StartsHonest(w) && DeletesHonest(w) }

  lemma StampWriteAllowed(f: Fetched)
    ensures Allowed(f.input.proposalId, Legacy(f.input), StampWrite(f))
    ensures Legacy(f.input) ==>
      Find(StampWrite(f).metadata, CommunityLinkedOrg) == Find(f.read, CommunityLinkedOrg)
  {
    var stamp := BindStamp(f.input, !Legacy(f.input));
    assert Find(stamp, CommunityProposalId) == Some(f.input.proposalId);
    assert Legacy(f.input) ==> CommunityLinkedOrg !in stamp;
  }

  lemma CreatedStays(w: World, e: Event, p: Id, o: Id)
    requires Created(w, p, o)
    ensures Created(Next(w, e), p, o)
  {
  }

  lemma PassedWasCreated(w: World, job: JobId)
    requires Honest(w) && job in w.starting && Next(w, ReleaseReads(job)) != w
    ensures Created(w, w.starting[job].0, w.starting[job].1)
  {
    assert LinkedIfStamped(w, w.starting[job].0, w.starting[job].1);
  }

  lemma NextReleasing(w: World, e: Event, job: JobId)
    requires Honest(w) && job in Next(w, e).releasing
    ensures Created(w, Next(w, e).releasing[job].0, Next(w, e).releasing[job].1)
  {
    if e.ReleaseReads? && Next(w, e) != w {
      PassedWasCreated(w, e.job);
    }
  }

  lemma NextDeleted(w: World, e: Event, i: nat)
    requires DeletesHonest(w) && i < |Next(w, e).deleted|
    ensures Created(w, Next(w, e).deleted[i].0, Next(w, e).deleted[i].1)
  {
  }

  lemma NextDeletesHonest(w: World, e: Event)
    requires Honest(w)
    ensures DeletesHonest(Next(w, e))
  {
    var after := Next(w, e);
    forall job | job in after.releasing ensures Created(after, after.releasing[job].0, after.releasing[job].1) {
      NextReleasing(w, e, job);
      CreatedStays(w, e, after.releasing[job].0, after.releasing[job].1);
    }
    forall i: nat | i < |after.deleted| ensures Created(after, after.deleted[i].0, after.deleted[i].1) {
      NextDeleted(w, e, i);
      CreatedStays(w, e, after.deleted[i].0, after.deleted[i].1);
    }
  }

  lemma WriteMarks(w: World, p: Id, write: Write)
    requires MarksHonest(w)
    ensures MarksHonest(Next(w, SetupWrites(p, write)))
  {
    if p != "" && Allowed(p, p in w.legacy, write) && !write.PutMetadata? && CanWrite(w.auth, write) {
      AllowedKeepsStamps(w.auth, w.legacy, p, write);
    }
  }

  lemma WriteStarts(w: World, p: Id, write: Write)
    requires Honest(w)
    ensures StartsHonest(Next(w, SetupWrites(p, write)))
  {
    var after := Next(w, SetupWrites(p, write));
    forall job | job in after.starting ensures LinkedIfStamped(after, after.starting[job].0, after.starting[job].1) {
      assert LinkedIfStamped(w, w.starting[job].0, w.starting[job].1);
    }
  }

  lemma StampMarks(w: World, job: JobId)
    requires MarksHonest(w)
    ensures MarksHonest(Next(w, SetupStamps(job)))
  {
    if Stamps(w, job) {
      var f := w.fetched[job];
      StampWriteAllowed(f);
      AllowedKeepsStamps(w.auth, w.legacy, f.input.proposalId, StampWrite(f));
    }
  }

  lemma StampLinks(w: World, job: JobId, p: Id, o: Id)
    requires LinkedIfStamped(w, p, o) && Stamps(w, job)
    ensures LinkedIfStamped(Next(w, SetupStamps(job)), p, o)
  {
    var f := w.fetched[job];
    StampWriteAllowed(f);
    assert f.org == o && f.input.proposalId == p && Legacy(f.input) ==> LegacyBind(f, p, o);
  }

  lemma StampStarts(w: World, job: JobId)
    requires StartsHonest(w)
    ensures StartsHonest(Next(w, SetupStamps(job)))
  {
    var after := Next(w, SetupStamps(job));
    forall j | j in after.starting ensures LinkedIfStamped(after, after.starting[j].0, after.starting[j].1) {
      var (p, o) := w.starting[j];
      assert LinkedIfStamped(w, p, o);
      if Stamps(w, job) {
        StampLinks(w, job, p, o);
      }
    }
  }

  // A release starts only for an application that names no organization yet. A binding of one that comes later
  // finds the mark, so the stamp and with it the link.
  lemma FetchStarts(w: World, job: JobId, input: Input, o: Id)
    requires Honest(w)
    ensures StartsHonest(Next(w, SetupFetches(job, input, o)))
  {
    if Binds(w, input, o) {
      var after := Next(w, SetupFetches(job, input, o));
      forall j | j in after.starting ensures LinkedIfStamped(after, after.starting[j].0, after.starting[j].1) {
        var (p, x) := w.starting[j];
        assert LinkedIfStamped(w, p, x) && (p, x) in w.marked;
        assert LegacyBind(after.fetched[job], p, x) ==> Carries(w, p, x);
      }
    }
  }

  lemma OtherLinks(w: World, e: Event, p: Id, o: Id)
    requires LinkedIfStamped(w, p, o) && !e.SetupWrites? && !e.SetupStamps? && !e.SetupFetches?
    ensures LinkedIfStamped(Next(w, e), p, o)
  {
  }

  lemma StartLinks(w: World, p: Id)
    requires MarksHonest(w) && p !in w.legacy && p in w.recorded
    ensures LinkedIfStamped(w, p, w.recorded[p])
  {
  }

  lemma OtherStarts(w: World, e: Event)
    requires Honest(w) && !e.SetupWrites? && !e.SetupStamps? && !e.SetupFetches?
    ensures StartsHonest(Next(w, e))
  {
    var after := Next(w, e);
    forall j | j in after.starting ensures LinkedIfStamped(after, after.starting[j].0, after.starting[j].1) {
      if e.ReleaseStarts? && after != w && e.job == j {
        StartLinks(w, e.proposalId);
      }
      OtherLinks(w, e, after.starting[j].0, after.starting[j].1);
    }
  }

  lemma ReleaseMarks(w: World, e: Event)
    requires MarksHonest(w) && (e.ReleaseStarts? || e.ReleaseReads? || e.ReleaseDeletes?)
    ensures MarksHonest(Next(w, e))
  {
  }

  lemma OtherMarks(w: World, e: Event)
    requires MarksHonest(w) && (e.SetupFetches? || e.SetupResumes? || e.SetupRecords? || e.Resubmits?)
    ensures MarksHonest(Next(w, e))
  {
  }

  lemma NextHonest(w: World, e: Event)
    requires Honest(w)
    ensures Honest(Next(w, e))
  {
    NextDeletesHonest(w, e);
    match e
    case SetupWrites(p, write) =>
      WriteMarks(w, p, write);
      WriteStarts(w, p, write);
    case SetupStamps(job) =>
      StampMarks(w, job);
      StampStarts(w, job);
    case SetupFetches(job, input, o) =>
      OtherMarks(w, e);
      FetchStarts(w, job, input, o);
    case SetupResumes(_, _) =>
      OtherMarks(w, e);
      OtherStarts(w, e);
    case SetupRecords(_, _) =>
      OtherMarks(w, e);
      OtherStarts(w, e);
    case Resubmits(_, _) =>
      OtherMarks(w, e);
      OtherStarts(w, e);
    case _ =>
      ReleaseMarks(w, e);
      OtherStarts(w, e);
  }

  // However setups, resubmissions and releases of any applications interleave, and wherever they stop, a release
  // deletes only an organization that its own application created.
  lemma {:induction false} DeletesOnlyItsOwn(w: World, events: seq<Event>)
    requires Honest(w)
    ensures var w' := Run(w, events);
            forall i :: 0 <= i < |w'.deleted| ==> Created(w', w'.deleted[i].0, w'.deleted[i].1)
    ensures Honest(Run(w, events))
    decreases |events|
  {
    if events != [] {
      NextHonest(w, events[0]);
      DeletesOnlyItsOwn(Next(w, events[0]), events[1..]);
    }
  }

  // --- An application alone ---

  lemma ThreeRun(w: World, e1: Event, e2: Event, e3: Event, rest: seq<Event>)
    ensures Run(w, [e1, e2, e3] + rest) == Run(Next(Next(Next(w, e1), e2), e3), rest)
  {
    assert [e1, e2, e3] + rest == [e1] + ([e2] + ([e3] + rest));
    RunStep(w, e1, [e2] + ([e3] + rest));
    RunStep(Next(w, e1), e2, [e3] + rest);
    RunStep(Next(Next(w, e1), e2), e3, rest);
  }

  lemma CreatedAndRecorded(w: World, p: Id, o: Id, record: Org)
    requires p != "" && p !in w.legacy && Stamp(record) == Some(p) && CanWrite(w.auth, Create(o, record, p))
    ensures var after := Next(Next(Next(w, Resubmits(p, false)), SetupWrites(p, Create(o, record, p))), SetupRecords(p, o));
            && after.auth.orgs == w.auth.orgs[o := record] && Find(after.recorded, p) == Some(o)
            && p !in after.legacy && after.deleted == w.deleted
  {
    var w1 := Next(w, Resubmits(p, false));
    assert w1.auth == w.auth && w1.legacy == w.legacy && p !in w1.recorded;
    var w2 := Next(w1, SetupWrites(p, Create(o, record, p)));
    assert (p, o) in w2.marked && w2.recorded == w1.recorded;
  }

  lemma RecordedIsReleased(w: World, p: Id, o: Id, job: JobId)
    requires p !in w.legacy && Find(w.recorded, p) == Some(o) && Carries(w, p, o) && !Linked(w.auth.orgs[o])
    ensures var after := Next(Next(Next(w, ReleaseStarts(job, p)), ReleaseReads(job)), ReleaseDeletes(job));
            after.auth.orgs == w.auth.orgs - {o} && after.deleted == w.deleted + [(p, o)]
  {
    var w1 := Next(w, ReleaseStarts(job, p));
    assert w1.starting[job] == (p, o) && w1.auth == w.auth && w1.deleted == w.deleted;
    var w2 := Next(w1, ReleaseReads(job));
    assert w2.releasing[job] == (p, o) && w2.auth == w.auth && w2.deleted == w.deleted;
  }

  // An application that was submitted again without an organization, set up by creating one, recorded and then
  // released, leaves the organizations as they were.
  lemma CreatedRecordedReleased(w: World, p: Id, o: Id, record: Org, job: JobId)
    requires p != "" && p !in w.legacy && Stamp(record) == Some(p) && !Linked(record) && CanWrite(w.auth, Create(o, record, p))
    ensures var after := Run(w, [Resubmits(p, false), SetupWrites(p, Create(o, record, p)), SetupRecords(p, o)] +
                                ([ReleaseStarts(job, p), ReleaseReads(job), ReleaseDeletes(job)] + []));
            after.auth.orgs == w.auth.orgs && after.deleted == w.deleted + [(p, o)]
  {
    var e1, e2, e3 := Resubmits(p, false), SetupWrites(p, Create(o, record, p)), SetupRecords(p, o);
    var e4, e5, e6 := ReleaseStarts(job, p), ReleaseReads(job), ReleaseDeletes(job);
    ThreeRun(w, e1, e2, e3, [e4, e5, e6] + []);
    CreatedAndRecorded(w, p, o, record);
    var between := Next(Next(Next(w, e1), e2), e3);
    ThreeRun(between, e4, e5, e6, []);
    RecordedIsReleased(between, p, o, job);
    assert w.auth.orgs[o := record] - {o} == w.auth.orgs;
  }

  // A setup that finds its stamp has its organization recorded too, if none is.
  lemma ResumedRecorded(w: World, p: Id, o: Id)
    requires p != "" && o in w.auth.orgs && Stamp(w.auth.orgs[o]) == Some(p) && p !in w.recorded
    ensures Find(Next(Next(w, SetupResumes(p, o)), SetupRecords(p, o)).recorded, p) == Some(o)
    ensures p in Next(w, Resubmits(p, true)).legacy
  {
  }

  // --- What steps leave alone ---

  // Only the last step of a release takes an organization away, and it takes one only if it is still there.
  lemma OnlyReleasesDelete(w: World, e: Event, o: Id)
    requires o in w.auth.orgs
    ensures o !in Next(w, e).auth.orgs <==>
      e.ReleaseDeletes? && e.job in w.releasing && w.releasing[e.job].1 == o
    ensures o in Next(w, e).auth.orgs ==> forall p :: (p, o) in Next(w, e).deleted ==> (p, o) in w.deleted
    ensures Next(w, e).deleted != w.deleted ==>
      e.ReleaseDeletes? && w.releasing[e.job].1 in w.auth.orgs && w.releasing[e.job].1 !in Next(w, e).auth.orgs
  {
    if e.SetupWrites? {
      ApplyTouches(w.auth, e.write, o);
    }
  }

  // The record keeps the first organization until the application is rejected or submitted again.
  lemma RecordIsKept(w: World, e: Event, p: Id)
    requires p in w.recorded
    ensures if e.Resubmits? && e.proposalId == p then p !in Next(w, e).recorded
            else Find(Next(w, e).recorded, p) == Some(w.recorded[p])
  {
  }

  ghost predicate Idle(w: World, p: Id) {
    && (forall job :: job in w.starting ==> w.starting[job].0 != p)
    && (forall job :: job in w.releasing ==> w.releasing[job].0 != p)
  }

  // Once an application names an organization, no release of it that starts later deletes anything.
  lemma {:induction false} LegacyIsKept(w: World, events: seq<Event>, p: Id)
    requires p in w.legacy && Idle(w, p)
    ensures p in Run(w, events).legacy && Idle(Run(w, events), p)
    ensures forall o :: (p, o) in Run(w, events).deleted ==> (p, o) in w.deleted
    decreases |events|
  {
    if events != [] {
      LegacyStep(w, events[0], p);
      LegacyIsKept(Next(w, events[0]), events[1..], p);
    }
  }

  lemma LegacyStep(w: World, e: Event, p: Id)
    requires p in w.legacy && Idle(w, p)
    ensures p in Next(w, e).legacy && Idle(Next(w, e), p)
    ensures forall o :: (p, o) in Next(w, e).deleted ==> (p, o) in w.deleted
  {
    LegacyStartsNothing(w, e, p);
    LegacyPassesNothing(w, e, p);
    LegacyDeletesNothing(w, e, p);
  }

  lemma LegacyStartsNothing(w: World, e: Event, p: Id)
    requires p in w.legacy && Idle(w, p)
    ensures p in Next(w, e).legacy && forall job :: job in Next(w, e).starting ==> Next(w, e).starting[job].0 != p
  {
  }

  lemma LegacyPassesNothing(w: World, e: Event, p: Id)
    requires Idle(w, p)
    ensures forall job :: job in Next(w, e).releasing ==> Next(w, e).releasing[job].0 != p
  {
  }

  lemma LegacyDeletesNothing(w: World, e: Event, p: Id)
    requires Idle(w, p)
    ensures forall o :: (p, o) in Next(w, e).deleted ==> (p, o) in w.deleted
  {
  }

  // --- Whose stamp an organization carries ---

  ghost predicate IsLast(puts: seq<StampPut>, o: Id, k: nat) {
    k < |puts| && puts[k].org == o && forall j :: k < j < |puts| ==> puts[j].org != o
  }

  // An organization carries the stamp put last; a setup that nobody overtook still sees what it fetched.
  ghost predicate Ledger(w: World) {
    && (forall k :: 0 <= k < |w.puts| ==> w.puts[k].proposalId != "")
    && (forall o, k: nat :: o in w.auth.orgs && IsLast(w.puts, o, k) ==>
          Stamp(w.auth.orgs[o]) == Some(w.puts[k].proposalId))
    && (forall job :: job in w.fetched ==> Seen(w, w.fetched[job]))
  }

  ghost predicate Seen(w: World, f: Fetched) {
    && f.since <= |w.puts| && f.input.proposalId != ""
    && (CommunityProposalId in f.read ==> f.read[CommunityProposalId] in {"", f.input.proposalId})
    && (f.org in w.auth.orgs && (forall k :: f.since <= k < |w.puts| ==> w.puts[k].org != f.org) ==>
          Stamp(w.auth.orgs[f.org]) == Find(f.read, CommunityProposalId))
  }

  // A write of the metadata or a creation at `o`, or none.
  lemma PutKeeps(w: World, after: World, o: Id, p: Id)
    requires Ledger(w) && after.puts == w.puts + [StampPut(o, p)]
    requires after.fetched.Keys <= w.fetched.Keys && forall job :: job in after.fetched ==> after.fetched[job] == w.fetched[job]
    requires forall x :: x in after.auth.orgs && x != o ==> x in w.auth.orgs && after.auth.orgs[x] == w.auth.orgs[x]
    requires o in after.auth.orgs && Stamp(after.auth.orgs[o]) == Some(p) && p != ""
    ensures Ledger(after)
  {
    assert forall k :: 0 <= k < |w.puts| ==> after.puts[k] == w.puts[k];
    forall x, k: nat | x in after.auth.orgs && IsLast(after.puts, x, k)
      ensures Stamp(after.auth.orgs[x]) == Some(after.puts[k].proposalId)
    {
      assert after.puts[|w.puts|].org == o;
      if x != o {
        assert k < |w.puts|;
        assert IsLast(w.puts, x, k);
      }
    }
    forall job | job in after.fetched ensures Seen(after, after.fetched[job]) {
      var f := w.fetched[job];
      assert Seen(w, f);
      assert after.puts[|w.puts|].org == o;
    }
  }

  lemma NoPutKeeps(w: World, after: World)
    requires Ledger(w) && after.puts == w.puts
    requires after.fetched.Keys <= w.fetched.Keys && forall job :: job in after.fetched ==> after.fetched[job] == w.fetched[job]
    requires forall x :: x in after.auth.orgs ==> x in w.auth.orgs && after.auth.orgs[x].metadata == w.auth.orgs[x].metadata
    ensures Ledger(after)
  {
    forall job | job in after.fetched ensures Seen(after, after.fetched[job]) {
      assert Seen(w, w.fetched[job]);
    }
  }

  lemma NextKeepsLedger(w: World, e: Event)
    requires Ledger(w)
    ensures Ledger(Next(w, e))
  {
    match e
    case SetupWrites(p, write) => WriteKeepsLedger(w, p, write);
    case SetupFetches(job, input, o) => FetchKeepsLedger(w, job, input, o);
    case SetupStamps(job) => StampKeepsLedger(w, job);
    case _ => NoPutKeeps(w, Next(w, e));
  }

  lemma WriteKeepsLedger(w: World, p: Id, write: Write)
    requires Ledger(w)
    ensures Ledger(Next(w, SetupWrites(p, write)))
  {
    var after := Next(w, SetupWrites(p, write));
    if p != "" && Allowed(p, p in w.legacy, write) && !write.PutMetadata? && CanWrite(w.auth, write) {
      if write.Create? {
        PutKeeps(w, after, write.org, p);
      } else {
        assert after.puts == w.puts;
        NoPutKeeps(w, after);
      }
    }
  }

  lemma FetchKeepsLedger(w: World, job: JobId, input: Input, o: Id)
    requires Ledger(w)
    ensures Ledger(Next(w, SetupFetches(job, input, o)))
  {
    var after := Next(w, SetupFetches(job, input, o));
    forall j | j in after.fetched ensures Seen(after, after.fetched[j]) {
      assert j in w.fetched ==> Seen(w, w.fetched[j]);
    }
  }

  lemma StampKeepsLedger(w: World, job: JobId)
    requires Ledger(w)
    ensures Ledger(Next(w, SetupStamps(job)))
  {
    var after := Next(w, SetupStamps(job));
    if Stamps(w, job) {
      StampWriteAllowed(w.fetched[job]);
      PutKeeps(w, after, w.fetched[job].org, w.fetched[job].input.proposalId);
    } else {
      NoPutKeeps(w, after);
    }
  }

  lemma {:induction false} LedgerInEveryRun(w: World, events: seq<Event>)
    requires Ledger(w)
    ensures Ledger(Run(w, events))
    decreases |events|
  {
    if events != [] {
      NextKeepsLedger(w, events[0]);
      LedgerInEveryRun(Next(w, events[0]), events[1..]);
    }
  }

  // Nobody is under way and no stamp has been put yet.
  predicate Fresh(w: World) { w.fetched == map[] && w.puts == [] }

  lemma FreshLedger(w: World)
    requires Fresh(w)
    ensures Ledger(w)
  {
  }

  // The write replaces another application's stamp. An empty stamp is no stamp.
  ghost predicate Replaces(w: World, job: JobId)
    requires Stamps(w, job)
  {
    var o := w.fetched[job].org;
    var before, after := Stamp(w.auth.orgs[o]), Stamp(Next(w, SetupStamps(job)).auth.orgs[o]);
    before.Some? && before.value != "" && before.value != w.fetched[job].input.proposalId && after != before
  }

  // In every run, a setup's write replaces another application's stamp exactly if that stamp was put on the
  // organization after the setup's fetch.
  lemma ReplacedOnlyIfOvertaken(start: World, events: seq<Event>, job: JobId)
    requires Fresh(start) && Stamps(Run(start, events), job)
    ensures var w := Run(start, events);
            var f := w.fetched[job];
            Replaces(w, job) <==>
              exists k: nat :: f.since <= k && IsLast(w.puts, f.org, k) && w.puts[k].proposalId != f.input.proposalId
  {
    FreshLedger(start);
    LedgerInEveryRun(start, events);
    var w := Run(start, events);
    var f := w.fetched[job];
    StampWriteAllowed(f);
    assert Seen(w, f);
    if k :| f.since <= k < |w.puts| && w.puts[k].org == f.org {
      var last := LastPut(w.puts, f.org, k);
      assert Stamp(w.auth.orgs[f.org]) == Some(w.puts[last].proposalId);
      assert f.since <= last;
    }
  }

  lemma LastPut(puts: seq<StampPut>, o: Id, k: nat) returns (last: nat)
    requires k < |puts| && puts[k].org == o
    ensures k <= last && IsLast(puts, o, last)
    decreases |puts| - k
  {
    if j :| k < j < |puts| && puts[j].org == o {
      last := LastPut(puts, o, j);
    } else {
      last := k;
    }
  }

  // --- Two adoptions of one organization ---

  const FREE := Org("near", Active, None, map[], map["ada" := Owner], [], [], 0)
  const FIRST := Input("p1", "near", Some("ada"), "ada.near", "rita", None)
  const SECOND := Input("p2", "near", Some("ada"), "ada.near", "rita", None)
  const BEFORE := World(Auth(map["o" := FREE], map[]), {}, map[], {}, map[], map[], map[], [], [])
  const BOTH_FETCHED :=
    BEFORE.(fetched := map[1 := Fetched(FIRST, "o", map[], 0), 2 := Fetched(SECOND, "o", map[], 0)])

  lemma BothFetch()
    ensures Next(Next(BEFORE, SetupFetches(1, FIRST, "o")), SetupFetches(2, SECOND, "o")) == BOTH_FETCHED
  {
    assert Stamp(FREE) == None;
    assert Next(BEFORE, SetupFetches(1, FIRST, "o")) ==
      BEFORE.(fetched := map[1 := Fetched(FIRST, "o", map[], 0)]);
  }

  lemma BothStamp() returns (once: World)
    ensures once == Next(BOTH_FETCHED, SetupStamps(1))
    ensures Stamps(once, 2) && Replaces(once, 2)
  {
    once := Next(BOTH_FETCHED, SetupStamps(1));
    assert "p1"[1] != "p2"[1];
    assert CommunityProposalId in BindStamp(FIRST, true) && Find(BOTH_FETCHED.fetched[1].read, CommunityProposalId) == None;
    assert Stamps(BOTH_FETCHED, 1);
    StampWriteAllowed(BOTH_FETCHED.fetched[1]);
    assert Stamp(once.auth.orgs["o"]) == Some("p1");
    assert once.fetched[2] == BOTH_FETCHED.fetched[2];
    assert CommunityProposalId in BindStamp(SECOND, true) && Find(once.fetched[2].read, CommunityProposalId) == None;
    assert Stamps(once, 2);
    StampWriteAllowed(once.fetched[2]);
  }

  // Both pass the bind checks before either writes; the second write replaces the first one's stamp.
  lemma StampReplaced() returns (events: seq<Event>)
    ensures Fresh(BEFORE) && Stamps(Run(BEFORE, events), 2) && Replaces(Run(BEFORE, events), 2)
  {
    BothFetch();
    var once := BothStamp();
    var e1, e2, e3 := SetupFetches(1, FIRST, "o"), SetupFetches(2, SECOND, "o"), SetupStamps(1);
    events := [e1] + ([e2] + ([e3] + []));
    RunStep(BEFORE, e1, [e2] + ([e3] + []));
    RunStep(Next(BEFORE, e1), e2, [e3] + []);
    RunStep(BOTH_FETCHED, e3, []);
  }

  lemma RunStep(w: World, e: Event, rest: seq<Event>)
    ensures Run(w, [e] + rest) == Run(Next(w, e), rest)
  {
    assert ([e] + rest)[1..] == rest;
  }

  // --- An organization that was never recorded ---

  ghost predicate Among(jobs: map<JobId, (Id, Id)>, p: Id, o: Id) { exists job :: job in jobs && jobs[job] == (p, o) }

  ghost predicate Known(w: World, p: Id, o: Id) {
    Find(w.recorded, p) == Some(o) || Among(w.starting, p, o) || Among(w.releasing, p, o) || (p, o) in w.deleted
  }

  // A release deletes only what a run of its application had recorded.
  lemma {:induction false} OnlyRecordedIsDeleted(w: World, events: seq<Event>, p: Id, o: Id)
    requires Known(Run(w, events), p, o)
    ensures Known(w, p, o) || SetupRecords(p, o) in events
    decreases |events|
  {
    if events != [] {
      OnlyRecordedIsDeleted(Next(w, events[0]), events[1..], p, o);
      if Known(Next(w, events[0]), p, o) {
        KnownBefore(w, events[0], p, o);
      }
    }
  }

  lemma AmongAfter(jobs: map<JobId, (Id, Id)>, job: JobId, release: (Id, Id), p: Id, o: Id)
    requires Among(jobs[job := release], p, o)
    ensures Among(jobs, p, o) || release == (p, o)
  {
    var j :| j in jobs[job := release] && jobs[job := release][j] == (p, o);
    assert j != job ==> j in jobs && jobs[j] == (p, o);
  }

  lemma StartingBefore(w: World, e: Event, p: Id, o: Id)
    requires Among(Next(w, e).starting, p, o)
    ensures Among(w.starting, p, o) || Find(w.recorded, p) == Some(o)
  {
    if e.ReleaseStarts? && Next(w, e) != w {
      AmongAfter(w.starting, e.job, (e.proposalId, w.recorded[e.proposalId]), p, o);
    }
  }

  lemma ReleasingBefore(w: World, e: Event, p: Id, o: Id)
    requires Among(Next(w, e).releasing, p, o)
    ensures Among(w.releasing, p, o) || Among(w.starting, p, o)
  {
    if e.ReleaseReads? && Next(w, e) != w {
      AmongAfter(w.releasing, e.job, w.starting[e.job], p, o);
    }
  }

  lemma DeletedBefore(w: World, e: Event, p: Id, o: Id)
    requires (p, o) in Next(w, e).deleted
    ensures (p, o) in w.deleted || Among(w.releasing, p, o)
  {
  }

  lemma KnownBefore(w: World, e: Event, p: Id, o: Id)
    requires Known(Next(w, e), p, o)
    ensures Known(w, p, o) || e == SetupRecords(p, o)
  {
    var after := Next(w, e);
    if Among(after.starting, p, o) {
      StartingBefore(w, e, p, o);
    } else if Among(after.releasing, p, o) {
      ReleasingBefore(w, e, p, o);
    } else if (p, o) in after.deleted {
      DeletedBefore(w, e, p, o);
    }
  }

  // A setup creates its organization and fails before its run returns; the release that follows finds no
  // record, and the organization stays.
  lemma CreatedButUnrecorded() returns (events: seq<Event>)
    ensures var start := World(Auth(map[], map[]), {}, map[], {}, map[], map[], map[], [], []);
            var w := Run(start, events);
            && |events| == 4 && events[0].SetupWrites? && events[0].write.Create? && events[0].proposalId == "p1"
            && events[1..] == [ReleaseStarts(1, "p1"), ReleaseReads(1), ReleaseDeletes(1)]
            && "o" in w.auth.orgs && Find(w.auth.created, "o") == Some("p1") && w.deleted == []
  {
    var start := World(Auth(map[], map[]), {}, map[], {}, map[], map[], map[], [], []);
    var record := Org("near", Pending, None, ApplicantMetadata(FIRST), map["rita" := Owner], [], [], 0);
    var e1, e2 := SetupWrites("p1", Create("o", record, "p1")), ReleaseStarts(1, "p1");
    var e3, e4 := ReleaseReads(1), ReleaseDeletes(1);
    events := [e1] + ([e2] + ([e3] + ([e4] + [])));
    var once := Next(start, e1);
    assert Stamp(record) == Some("p1");
    assert CanWrite(start.auth, e1.write) && Allowed("p1", false, e1.write);
    assert Next(once, e2) == once && Next(once, e3) == once && Next(once, e4) == once;
    RunStep(start, e1, [e2] + ([e3] + ([e4] + [])));
    RunStep(once, e2, [e3] + ([e4] + []));
    RunStep(once, e3, [e4] + []);
    RunStep(once, e4, []);
  }
}
