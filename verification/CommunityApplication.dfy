/**
 The router's two handlers of a community application: a setup that records the organization once its run
 has returned, and a release that only knows the recorded one.
 */
module CommunityApplication {
  import opened Wrappers
  import opened AuthStore
  import opened CommunitySpec
  import opened CommunitySaga
  import opened CommunitySetup
  import NodeProposals

  // --- Release ---

  // `seen` is the organization the checks were made on, as it was at the first call.
  method ReleaseCommunityOrganization(s: AuthSession, o: Id, proposalId: Id)
    returns (r: Result<Verdict, Failure>, ghost seen: Option<Org>)
    modifies s
    ensures old(s.faults) <= s.faults && (r.Ok? ==> s.faults == old(s.faults)) && (s.quiet && r.Err? ==> s.faults > old(s.faults))
    ensures seen.Some? ==>
      |s.observed| > |old(s.observed)| && seen == Find(s.observed[|old(s.observed)|].orgs, o)
    ensures s.log != old(s.log) ==>
      && |s.log| == |old(s.log)| + 1 && s.log[|old(s.log)|].write == Delete(o)
      && seen.Some? && Stamp(seen.value) == Some(proposalId) && !Linked(seen.value)
      && (r.Ok? ==> r.value == Released)
    ensures r.Ok? && r.value == Released ==> s.log != old(s.log)
    ensures s.quiet ==> seen == None || seen == Find(old(s.auth).orgs, o)
    ensures s.quiet && r.Ok? ==> r.value == Judge(old(s.auth), o, proposalId)
    ensures s.quiet ==> s.auth == if s.log == old(s.log) then old(s.auth) else Apply(old(s.auth), Delete(o))
    ensures s.quiet && s.log != old(s.log) ==> Judge(old(s.auth), o, proposalId) == Released
  {
    seen := None;
    var fetched := s.Fetch(o);
    if fetched.Err? {
      return Err(Failed), None;
    }
    var organization := fetched.value;
    seen := organization;
    if organization.None? || Stamp(organization.value) != Some(proposalId) {
      return Ok(NotFound), seen;
    }
    if Linked(organization.value) {
      return Ok(Existing), seen;
    }
    var org := organization.value;
    if exists u | u in org.members :: u !in Provisioned(org) {
      return Ok(InUse), seen;
    }
    if exists i | i in org.invitations :: !ForApplicant(org, i) {
      return Ok(InUse), seen;
    }
    var listed := s.Fetch(o);
    if listed.Err? || listed.value.None? {
      return Err(Failed), seen;
    }
    if listed.value.value.onboardingCodes > 0 {
      return Ok(InUse), seen;
    }
    var done := s.WriteCall(Delete(o));
    if done.Err? {
      return Err(Failed), seen;
    }
    return Ok(Released), seen;
  }

  // `recorded` is the organization in the application's record of completed steps. The record is written
  // after the run, and keeps the first organization it was given; the call can fail before or after it took
  // effect. The rest of the handler, which sets up the node, may fail too and changes nothing here.
  method ApplyCommunityProposal(s: AuthSession, input: Input, recorded: Option<Id>)
    returns (r: Result<(), Failure>, next: Option<Id>)
    modifies s
    ensures AllowedSince(old(s.log), s.log, input)
    ensures recorded.Some? ==> next == recorded
    ensures r.Ok? ==> next.Some?
    ensures old(s.faults) <= s.faults && (r.Ok? ==> s.faults == old(s.faults))
    ensures s.quiet && OrgSlugsUnique(old(s.auth)) ==>
      && RunKeeps(old(s.auth), old(s.log), s.auth, s.log, input)
      && (next != recorded ==> SettledAt(s.auth, next.value, input))
      && (r.Ok? ==> exists o :: SettledAt(s.auth, o, input))
      && (r == Err(Conflict) ==> Blocked(old(s.auth), input))
      && (r == Err(Failed) ==> s.faults > old(s.faults))
  {
    next := recorded;
    var organization := ProvisionCommunityOrganization(s, input);
    if organization.Err? {
      return Err(organization.error), next;
    }
    var reached := s.Elsewhere();
    if !reached {
      return Err(Failed), next;
    }
    if next.None? {
      next := Some(organization.value.0);
    }
    var answered := s.Elsewhere();
    if !answered {
      return Err(Failed), next;
    }
    r := Ok(());
  }

  // What the saved application says: its setup has failed, and nobody changed it since the admin loaded it.
  datatype Saved = Saved(setupFailed: bool, asLoaded: bool)

  datatype Refusal = BadRequest | Unavailable

  // The guards, then the node, then the handler's three exits for the organization: an application that names
  // its organization keeps it, one without a record has nothing to release, and otherwise the recorded
  // organization is judged. The node's transaction may fail, or be lost after it took effect.
  method ReleaseCommunityProposal(
    s: AuthSession, service: NodeProposals.TenantsService, input: Input, recorded: Option<Id>, saved: Saved
  )
    returns (r: Result<(NodeProposals.ReleaseResult, Verdict), Refusal>)
    requires NodeProposals.Valid(service.db)
    modifies s, service
    ensures NodeProposals.Valid(service.db)
    ensures old(s.faults) <= s.faults && (r.Ok? ==> s.faults == old(s.faults))
    ensures !saved.setupFailed || !saved.asLoaded ==>
      r == Err(BadRequest) && service.db == old(service.db) && s.log == old(s.log) && s.auth == old(s.auth)
    ensures saved.setupFailed && saved.asLoaded ==> r != Err(BadRequest)
    ensures s.quiet && r == Err(Unavailable) ==> s.faults > old(s.faults)
    ensures service.db == old(service.db) ||
      exists n :: NodeProposals.Carries(old(service.db), n, input.proposalId) &&
             NodeProposals.TakenAway(old(service.db), service.db, n)
    ensures r.Ok? && r.value.0 != NodeProposals.Released ==> service.db == old(service.db)
    ensures r.Ok? ==>
      (r.value.0 == NodeProposals.NotKnown <==> !exists n :: NodeProposals.Carries(old(service.db), n, input.proposalId))
    ensures Legacy(input) || recorded.None? ==> s.log == old(s.log) && s.auth == old(s.auth)
    ensures r.Ok? && Legacy(input) ==> r.value.1 == Existing
    ensures r.Ok? && !Legacy(input) && recorded.None? ==> r.value.1 == NotFound
    ensures s.log != old(s.log) ==>
      recorded.Some? && |s.log| == |old(s.log)| + 1 && s.log[|old(s.log)|].write == Delete(recorded.value)
    ensures s.quiet && r.Ok? && !Legacy(input) && recorded.Some? ==>
      && r.value.1 == Judge(old(s.auth), recorded.value, input.proposalId)
      && s.auth == if r.value.1.Released? then Apply(old(s.auth), Delete(recorded.value)) else old(s.auth)
  {
    if !saved.asLoaded || !saved.setupFailed {
      return Err(BadRequest);
    }
    var reached := s.Elsewhere();
    if !reached {
      return Err(Unavailable);
    }
    var community := service.ReleaseNodeProposal(input.proposalId);
    var answered := s.Elsewhere();
    if !answered {
      return Err(Unavailable);
    }
    if Legacy(input) {
      return Ok((community, Existing));
    }
    if recorded.None? {
      return Ok((community, NotFound));
    }
    var released, _ := ReleaseCommunityOrganization(s, recorded.value, input.proposalId);
    return if released.Ok? then Ok((community, released.value)) else Err(Unavailable);
  }

  // Made by a run of this application, whoever reviewed it.
  ghost predicate CreatedFor(org: Org, input: Input) {
    org.slug == input.slug && exists reviewer :: org.metadata == ApplicantMetadata(input.(reviewer := reviewer))
  }

  // What runs of a setup for a free slug leave behind: nothing, or one organization of their own; only that
  // one can be recorded.
  ghost predicate LeftBehind(a: Auth, b: Auth, recorded: Option<Id>, input: Input) {
    && OrgSlugsUnique(b)
    && (forall o :: o in a.orgs ==> Find(b.orgs, o) == Some(a.orgs[o]))
    && (forall o :: o in b.orgs && o !in a.orgs ==> CreatedFor(b.orgs[o], input))
    && (recorded.Some? ==> recorded.value in b.orgs && b.orgs[recorded.value].slug == input.slug)
  }

  lemma CreatedForMeans(org: Org, input: Input)
    requires CreatedFor(org, input)
    ensures Stamp(org) == Some(input.proposalId) && !Linked(org)
  {
    var reviewer :| org.metadata == ApplicantMetadata(input.(reviewer := reviewer));
    assert Find(org.metadata, CommunityProposalId) == Some(input.proposalId);
    assert CommunityLinkedOrg !in org.metadata;
  }

  lemma RunLeaves(a: Auth, b: Auth, c: Auth, recorded: Option<Id>, input: Input, reviewer: Id)
    requires !SlugTaken(a, input.slug) && !Legacy(input) && OrgSlugsUnique(c)
    requires LeftBehind(a, b, recorded, input) && Contains(b, c, input.(reviewer := reviewer))
    ensures LeftBehind(a, c, recorded, input)
  {
    var i := input.(reviewer := reviewer);
    forall o | o in a.orgs ensures Find(c.orgs, o) == Some(a.orgs[o]) {
      assert Find(b.orgs, o) == Some(a.orgs[o]);
      assert !Target(o, a.orgs[o], i);
    }
    forall o | o in c.orgs && o !in a.orgs ensures CreatedFor(c.orgs[o], input) {
      if o in b.orgs {
        CreatedForMeans(b.orgs[o], input);
        assert c.orgs[o] == b.orgs[o] || Contained(b.orgs[o], c.orgs[o], i);
        assert c.orgs[o].metadata == b.orgs[o].metadata;
      } else {
        assert Own(c.orgs[o], i);
      }
    }
  }

  // Applied again and again, each time by any admin, until it succeeds or nobody tries again.
  method SetUp(s: AuthSession, input: Input, reviewers: seq<Id>) returns (recorded: Option<Id>)
    requires s.quiet && OrgSlugsUnique(s.auth) && !SlugTaken(s.auth, input.slug) && !Legacy(input)
    modifies s
    ensures LeftBehind(old(s.auth), s.auth, recorded, input)
    ensures (forall x :: x in reviewers ==> x == input.reviewer) ==>
      RunKeeps(old(s.auth), old(s.log), s.auth, s.log, input)
    ensures recorded.None? ==> s.faults >= old(s.faults) + |reviewers|
  {
    ghost var a, before := s.auth, s.log;
    Idle(a, before, input);
    recorded := None;
    for i := 0 to |reviewers|
      invariant LeftBehind(a, s.auth, recorded, input) && !Blocked(s.auth, input)
      invariant s.faults >= old(s.faults) + i
      invariant (forall x :: x in reviewers ==> x == input.reviewer) ==> RunKeeps(a, before, s.auth, s.log, input)
    {
      assert reviewers[i] in reviewers;
      var r;
      r, recorded := ApplyOnce(s, input, reviewers[i], recorded, a, before);
      if r.Ok? {
        return;
      }
    }
  }

  // `a` and `before` are the store and the log when the first run began.
  method ApplyOnce(s: AuthSession, input: Input, reviewer: Id, recorded: Option<Id>, ghost a: Auth, ghost before: Log)
    returns (r: Result<(), Failure>, next: Option<Id>)
    requires s.quiet && !SlugTaken(a, input.slug) && !Legacy(input) && LeftBehind(a, s.auth, recorded, input)
    requires !Blocked(s.auth, input)
    modifies s
    ensures LeftBehind(a, s.auth, next, input) && !Blocked(s.auth, input)
    ensures r.Ok? ==> next.Some?
    ensures old(s.faults) <= s.faults && (r.Err? ==> s.faults > old(s.faults))
    ensures reviewer == input.reviewer && RunKeeps(a, before, old(s.auth), old(s.log), input) ==>
      RunKeeps(a, before, s.auth, s.log, input)
  {
    ghost var b, now := s.auth, s.log;
    r, next := ApplyCommunityProposal(s, input.(reviewer := reviewer), recorded);
    RunLeaves(a, b, s.auth, recorded, input, reviewer);
    SameBlocked(b, input, reviewer);
    assert r.Err? ==> r.error.Conflict? || r.error.Failed?;
    SameBlocked(s.auth, input, reviewer);
    if reviewer == input.reviewer && RunKeeps(a, before, b, now, input) {
      assert input.(reviewer := reviewer) == input;
      KeepsOn(a, before, b, now, s.auth, s.log, input);
    }
  }

  // After the runs of a setup for a free slug and a release that answers, the organizations are as they were
  // exactly if no organization had been created, or the one created had been recorded and nobody but the
  // applicant and the admin who created it is in it. The latter is so if all runs were by one admin.
  method SetUpAndRelease(
    s: AuthSession, service: NodeProposals.TenantsService, input: Input, reviewers: seq<Id>, saved: Saved
  )
    returns (recorded: Option<Id>, ghost between: Auth, r: Result<(NodeProposals.ReleaseResult, Verdict), Refusal>)
    requires s.quiet && OrgSlugsUnique(s.auth) && !SlugTaken(s.auth, input.slug) && !Legacy(input)
    requires input.applicantAccountId != "" && NodeProposals.Valid(service.db)
    modifies s, service
    ensures LeftBehind(old(s.auth), between, recorded, input)
    ensures r.Ok? ==>
      (s.auth.orgs == old(s.auth).orgs <==>
        between.orgs == old(s.auth).orgs || (recorded.Some? && !InUseBy(between.orgs[recorded.value])))
    ensures r.Ok? && recorded.None? ==> r.value.1 == NotFound
    ensures recorded.None? ==> s.faults >= old(s.faults) + |reviewers|
    ensures recorded.Some? && (forall x :: x in reviewers ==> x == input.reviewer) ==>
      !InUseBy(between.orgs[recorded.value])
  {
    ghost var a := s.auth;
    recorded := SetUp(s, input, reviewers);
    between := s.auth;
    if recorded.Some? {
      OnlyAdded(a, between, recorded, input);
      if forall x :: x in reviewers ==> x == input.reviewer {
        OwnIsReleased(between, recorded.value, input);
      }
    }
    r := ReleaseCommunityProposal(s, service, input, recorded, saved);
  }

  lemma OnlyAdded(a: Auth, b: Auth, recorded: Option<Id>, input: Input)
    requires LeftBehind(a, b, recorded, input) && recorded.Some? && !SlugTaken(a, input.slug)
    ensures recorded.value !in a.orgs && b.orgs - {recorded.value} == a.orgs
    ensures Judge(b, recorded.value, input.proposalId) == if InUseBy(b.orgs[recorded.value]) then InUse else Released
  {
    var o := recorded.value;
    forall p | p in a.orgs ensures p in b.orgs && b.orgs[p] == a.orgs[p] && p != o {
      assert Find(b.orgs, p) == Some(a.orgs[p]);
    }
    CreatedForMeans(b.orgs[o], input);
    forall p | p in b.orgs && p != o ensures p in a.orgs {
      assert p !in a.orgs ==> CreatedFor(b.orgs[p], input);
    }
  }
}
