/**
 The whole setup of a community application, its retries after a crash, and its release.
 */
module CommunitySetup {
  import opened Wrappers
  import opened AuthStore
  import opened CommunitySpec
  import opened CommunitySaga

  // The organizations this application may change.
  predicate Target(o: Id, org: Org, input: Input) {
    && (if Legacy(input) then input.legacyOrg == Some(o) else org.slug == input.slug)
    && !Refused(org, input)
  }

  // Every other organization is as it was; a target changes only as a setup changes one; a new one is wholly
  // the application's own.
  ghost predicate Contains(a: Auth, b: Auth, input: Input) {
    && (forall o :: o in a.orgs ==>
          o in b.orgs && (a.orgs[o] == b.orgs[o] || (Target(o, a.orgs[o], input) && Contained(a.orgs[o], b.orgs[o], input))))
    && (forall o :: o in b.orgs && o !in a.orgs ==> !Legacy(input) && b.orgs[o].slug == input.slug && Own(b.orgs[o], input))
  }

  // What a run leaves, complete or not, in a store that nobody else changes.
  ghost predicate RunKeeps(a: Auth, before: Log, b: Auth, now: Log, input: Input) {
    && OrgSlugsUnique(b)
    && Contains(a, b, input)
    && (Blocked(b, input) <==> Blocked(a, input))
    && (Blocked(a, input) ==> b == a && now == before)
    && (WouldOrphan(b, input) ==> WouldOrphan(a, input))
    && before <= now
    && (AllOwned(a) && !WouldOrphan(a, input) ==> OwnedSince(before, now) && AllOwned(b))
  }

  ghost predicate SettledAt(a: Auth, o: Id, input: Input) {
    && o in a.orgs && Settled(a.orgs[o], input)
    && (if Legacy(input) then input.legacyOrg == Some(o) else a.orgs[o].slug == input.slug)
  }

  // What a completed run leaves.
  ghost predicate RunCompletes(a: Auth, b: Auth, o: Id, input: Input) {
    && SettledAt(b, o, input)
    && (o in a.orgs ==> TeamsCompleted(a.orgs[o].teams, b.orgs[o].teams))
    && (WouldOrphan(a, input) ==> !AllOwned(b))
  }

  lemma ProgressKeeps(a: Auth, before: Log, b: Auth, now: Log, o: Id, input: Input, owned: bool)
    requires OrgSlugsUnique(a) && Progress(a, before, b, now, o, input, owned) && Target(o, a.orgs[o], input)
    requires !WouldOrphan(a, input) ==> owned
    ensures RunKeeps(a, before, b, now, input)
  {
    assert !Blocked(a, input);
    assert !Blocked(b, input);
    if WouldOrphan(b, input) {
      assert OnlyOwner(b.orgs[o], input.reviewer) && !Resumes(b.orgs[o], input);
      forall v | v in a.orgs[o].members && a.orgs[o].members[v].Owner? ensures v == input.reviewer {
        assert v != input.reviewer ==> Find(b.orgs[o].members, v) == Find(a.orgs[o].members, v);
      }
      assert OnlyOwner(a.orgs[o], input.reviewer);
    }
  }

  lemma BoundCompletes(a: Auth, o: Id, input: Input)
    requires OrgSlugsUnique(a) && o in a.orgs && Target(o, a.orgs[o], input)
    requires !Legacy(input) ==> !Resumes(a.orgs[o], input)
    ensures RunCompletes(a, Put(a, o, Bound(a.orgs[o], input, !Legacy(input))), o, input)
    ensures input.proposer.None? ==> Linked(Bound(a.orgs[o], input, true))
  {
    var b := Bound(a.orgs[o], input, !Legacy(input));
    BoundSettles(a.orgs[o], input);
    assert b.slug == a.orgs[o].slug;
    assert b.metadata == a.orgs[o].metadata + BindStamp(input, !Legacy(input));
    if WouldOrphan(a, input) {
      assert forall v :: v in b.members ==> !b.members[v].Owner?;
      assert !HasOwner(Put(a, o, b).orgs[o]);
    }
  }

  lemma ResumedCompletes(a: Auth, o: Id, input: Input)
    requires OrgSlugsUnique(a) && o in a.orgs && !Legacy(input) && Target(o, a.orgs[o], input)
    requires Resumes(a.orgs[o], input)
    ensures RunCompletes(a, Put(a, o, Resumed(a.orgs[o], input)), o, input)
  {
    ResumedSettles(a.orgs[o], input);
    assert Resumed(a.orgs[o], input).slug == a.orgs[o].slug;
    assert !WouldOrphan(a, input);
  }

  lemma OwnStays(was: Org, after: Org, input: Input)
    requires !Legacy(input) && Own(was, input) && Contained(was, after, input)
    ensures Own(after, input) && Resumes(after, input)
  {
    assert Find(was.metadata, CommunityProposalId) == Some(input.proposalId);
    forall u | u in after.members ensures Some(u) == input.proposer || u == input.reviewer {
      assert Some(u) != input.proposer && u != input.reviewer ==>
        Find(after.members, u) == Find(was.members, u);
    }
  }

  lemma AddedContains(a: Auth, c: Auth, o: Id, input: Input)
    requires OrgSlugsUnique(a) && !Legacy(input) && !SlugTaken(a, input.slug)
    requires o !in a.orgs && o in c.orgs && c.orgs == a.orgs[o := c.orgs[o]]
    requires Own(c.orgs[o], input) && c.orgs[o].slug == input.slug && !Refused(c.orgs[o], input)
    ensures OrgSlugsUnique(c) && Contains(a, c, input) && !Blocked(a, input) && !Blocked(c, input)
  {
    forall p, q | p in c.orgs && q in c.orgs && c.orgs[p].slug == c.orgs[q].slug ensures p == q {
      assert p != o ==> p in a.orgs && a.orgs[p] == c.orgs[p];
      assert q != o ==> q in a.orgs && a.orgs[q] == c.orgs[q];
    }
  }

  // The write that creates the organization.
  ghost predicate CreatedAt(a: Auth, before: Log, b: Auth, now: Log, o: Id, input: Input) {
    && !SlugTaken(a, input.slug) && o !in a.orgs && o in b.orgs && b.orgs == a.orgs[o := b.orgs[o]]
    && Own(b.orgs[o], input) && b.orgs[o].slug == input.slug && HasOwner(b.orgs[o]) && !b.orgs[o].status.Rejected?
    && |now| == |before| + 1 && before <= now && now[|before|].after == b
  }

  lemma CreatedKeeps(a: Auth, before: Log, b: Auth, now: Log, c: Auth, later: Log, o: Id, input: Input)
    requires OrgSlugsUnique(a) && !Legacy(input) && CreatedAt(a, before, b, now, o, input)
    requires Progress(b, now, c, later, o, input, true)
    ensures RunKeeps(a, before, c, later, input)
  {
    OwnStays(b.orgs[o], c.orgs[o], input);
    AddedContains(a, c, o, input);
    if AllOwned(a) {
      forall p | p in b.orgs ensures HasOwner(b.orgs[p]) {
        assert p != o ==> p in a.orgs && a.orgs[p] == b.orgs[p];
      }
      assert AllOwned(b);
    }
  }

  lemma FoundSlug(a: Auth, o: Id, input: Input)
    requires OrgSlugsUnique(a) && o in a.orgs && a.orgs[o].slug == input.slug && !Legacy(input)
    ensures Blocked(a, input) <==> !Target(o, a.orgs[o], input)
    ensures WouldOrphan(a, input) <==>
      input.proposer.None? && !Resumes(a.orgs[o], input) && OnlyOwner(a.orgs[o], input.reviewer)
  {
  }

  lemma Idle(a: Auth, before: Log, input: Input)
    requires OrgSlugsUnique(a)
    ensures RunKeeps(a, before, a, before, input)
  {
  }

  method BindNamed(s: AuthSession, o: Id, found: Org, input: Input) returns (r: Result<(), Failure>)
    requires Legacy(input) && o == input.legacyOrg.value
    modifies s
    ensures AllowedSince(old(s.log), s.log, input)
    ensures old(s.faults) <= s.faults && (r != Err(Failed) ==> s.faults == old(s.faults)) && (s.quiet && Find(old(s.auth).orgs, o) == Some(found) && r == Err(Failed) ==> s.faults > old(s.faults))
    ensures r == Err(Conflict) ==> s.log == old(s.log) && s.auth == old(s.auth)
    ensures s.quiet && OrgSlugsUnique(old(s.auth)) && Find(old(s.auth).orgs, o) == Some(found) ==>
      && RunKeeps(old(s.auth), old(s.log), s.auth, s.log, input)
      && (r == Err(Conflict) <==> Blocked(old(s.auth), input))
      && (r.Ok? ==> RunCompletes(old(s.auth), s.auth, o, input))
      && (SettledAt(old(s.auth), o, input) ==> s.log == old(s.log))
  {
    ghost var a, before := s.auth, s.log;
    if Settled(found, input) {
      SettledStays(found, input);
    }
    r := s.Bind(o, found, input, false);
    if s.quiet && OrgSlugsUnique(a) && Find(a.orgs, o) == Some(found) {
      Idle(a, before, input);
      if !BindRefused(found, input) {
        ProgressKeeps(a, before, s.auth, s.log, o, input, true);
        BoundCompletes(a, o, input);
      }
    }
  }

  // The organization a legacy application names.
  method BindLegacy(s: AuthSession, input: Input) returns (r: Result<(Id, bool), Failure>)
    requires Legacy(input)
    modifies s
    ensures AllowedSince(old(s.log), s.log, input)
    ensures old(s.faults) <= s.faults && (r != Err(Failed) ==> s.faults == old(s.faults)) && (s.quiet && OrgSlugsUnique(old(s.auth)) && r == Err(Failed) ==> s.faults > old(s.faults))
    ensures r == Err(Conflict) ==> s.log == old(s.log)
    ensures s.quiet && OrgSlugsUnique(old(s.auth)) ==>
      && RunKeeps(old(s.auth), old(s.log), s.auth, s.log, input)
      && (r == Err(Conflict) ==> Blocked(old(s.auth), input))
      && (r.Ok? ==> !Blocked(old(s.auth), input) && RunCompletes(old(s.auth), s.auth, r.value.0, input))
      && (SettledAt(old(s.auth), input.legacyOrg.value, input) ==> s.log == old(s.log))
    ensures r.Ok? ==> r.value == (input.legacyOrg.value, false)
  {
    var o := input.legacyOrg.value;
    if s.quiet && OrgSlugsUnique(s.auth) {
      Idle(s.auth, s.log, input);
    }
    var found :- s.Fetch(o);
    if found.None? {
      return Err(Conflict);
    }
    var _ :- BindNamed(s, o, found.value, input);
    return Ok((o, false));
  }

  // An organization that already has the application's slug, without its stamp: adopted.
  method Adopt(s: AuthSession, o: Id, existing: Org, input: Input) returns (r: Result<(), Failure>)
    requires !Legacy(input) && existing.slug == input.slug && !Resumes(existing, input)
    modifies s
    ensures AllowedSince(old(s.log), s.log, input)
    ensures old(s.faults) <= s.faults && (r != Err(Failed) ==> s.faults == old(s.faults)) && (s.quiet && Find(old(s.auth).orgs, o) == Some(existing) && r == Err(Failed) ==> s.faults > old(s.faults))
    ensures r == Err(Conflict) ==> s.log == old(s.log) && s.auth == old(s.auth)
    ensures r == Err(Conflict) <==>
      || (CommunityProposalId in existing.metadata && existing.metadata[CommunityProposalId] !in {"", input.proposalId})
      || (existing.requestedBy.Some? && input.proposer.Some? && existing.requestedBy != input.proposer &&
          !(input.proposer.value in existing.members && existing.members[input.proposer.value].Owner?))
      || existing.status.Rejected?
    ensures s.quiet && OrgSlugsUnique(old(s.auth)) && Find(old(s.auth).orgs, o) == Some(existing) ==>
      && RunKeeps(old(s.auth), old(s.log), s.auth, s.log, input)
      && (r == Err(Conflict) <==> Blocked(old(s.auth), input))
      && (r.Ok? ==> RunCompletes(old(s.auth), s.auth, o, input) && (input.proposer.None? ==> Linked(s.auth.orgs[o])))
  {
    ghost var a, before := s.auth, s.log;
    r := s.Bind(o, existing, input, true);
    if s.quiet && OrgSlugsUnique(a) && Find(a.orgs, o) == Some(existing) {
      Idle(a, before, input);
      FoundSlug(a, o, input);
      if !BindRefused(existing, input) {
        ProgressKeeps(a, before, s.auth, s.log, o, input,
                      input.proposer.Some? || !OnlyOwner(existing, input.reviewer));
        BoundCompletes(a, o, input);
      }
    }
  }

  // One that carries the stamp: the setup goes on in it.
  method Continue(s: AuthSession, o: Id, existing: Org, input: Input) returns (r: Result<(), Failure>)
    requires !Legacy(input) && existing.slug == input.slug && Resumes(existing, input)
    modifies s
    ensures AllowedSince(old(s.log), s.log, input)
    ensures old(s.faults) <= s.faults && (r != Err(Failed) ==> s.faults == old(s.faults)) && (s.quiet && Find(old(s.auth).orgs, o) == Some(existing) && r == Err(Failed) ==> s.faults > old(s.faults))
    ensures r == Err(Conflict) ==> s.log == old(s.log) && s.auth == old(s.auth)
    ensures r == Err(Conflict) <==> existing.status.Rejected?
    ensures s.quiet && OrgSlugsUnique(old(s.auth)) && Find(old(s.auth).orgs, o) == Some(existing) ==>
      && RunKeeps(old(s.auth), old(s.log), s.auth, s.log, input)
      && (r == Err(Conflict) <==> Blocked(old(s.auth), input))
      && (r.Ok? ==> RunCompletes(old(s.auth), s.auth, o, input) && (Linked(s.auth.orgs[o]) <==> Linked(existing)))
      && (SettledAt(old(s.auth), o, input) ==> s.log == old(s.log))
  {
    ghost var a, before := s.auth, s.log;
    r := s.Resume(o, existing, input);
    if s.quiet && OrgSlugsUnique(a) && Find(a.orgs, o) == Some(existing) {
      Idle(a, before, input);
      FoundSlug(a, o, input);
      if Settled(existing, input) {
        SettledStays(existing, input);
      }
      if !SlugRefused(existing, input) {
        ProgressKeeps(a, before, s.auth, s.log, o, input, true);
        ResumedCompletes(a, o, input);
      }
    }
  }

  // `value.1`: the applicant was invited.
  method UseExisting(s: AuthSession, o: Id, existing: Org, input: Input) returns (r: Result<(Id, bool), Failure>)
    requires !Legacy(input) && existing.slug == input.slug
    modifies s
    ensures AllowedSince(old(s.log), s.log, input)
    ensures old(s.faults) <= s.faults && (r != Err(Failed) ==> s.faults == old(s.faults)) && (s.quiet && Find(old(s.auth).orgs, o) == Some(existing) && r == Err(Failed) ==> s.faults > old(s.faults))
    ensures r == Err(Conflict) ==> s.log == old(s.log) && s.auth == old(s.auth)
    // Rejected, or with another application's stamp, or requested by somebody else. The last does not matter
    // where the application's stamp is already set.
    ensures r == Err(Conflict) <==>
      || existing.status.Rejected?
      || (CommunityProposalId in existing.metadata && existing.metadata[CommunityProposalId] !in {"", input.proposalId})
      || ((CommunityProposalId in existing.metadata ==> existing.metadata[CommunityProposalId] != input.proposalId) &&
          existing.requestedBy.Some? && input.proposer.Some? && existing.requestedBy != input.proposer &&
          !(input.proposer.value in existing.members && existing.members[input.proposer.value].Owner?))
    ensures s.quiet && OrgSlugsUnique(old(s.auth)) && Find(old(s.auth).orgs, o) == Some(existing) ==>
      && RunKeeps(old(s.auth), old(s.log), s.auth, s.log, input)
      && (r == Err(Conflict) <==> Blocked(old(s.auth), input))
      && (r.Ok? ==> r.value.0 == o && RunCompletes(old(s.auth), s.auth, o, input))
      && (r.Ok? ==> (r.value.1 <==> input.proposer.None? && !Linked(s.auth.orgs[o])))
      && (SettledAt(old(s.auth), o, input) ==> s.log == old(s.log))
  {
    if Resumes(existing, input) {
      var _ :- Continue(s, o, existing, input);
      return Ok((o, input.proposer.None? && !Linked(existing)));
    }
    var _ :- Adopt(s, o, existing, input);
    return Ok((o, false));
  }

  lemma CreatedOrg(record: Org, input: Input)
    requires record.metadata == ApplicantMetadata(input) && record.members == map[input.reviewer := Owner]
    requires record.invitations == [] && record.onboardingCodes == 0 && NoneTwice(record.teams)
    ensures Own(record, input) && Resumes(record, input) && HasOwner(record)
  {
    assert input.reviewer in record.members && record.members[input.reviewer].Owner?;
    forall t ensures multiset(record.teams)[t] <= 1 {
      NoneTwiceCounts(record.teams, t);
    }
  }

  // A second setup that creates the organization first wins the slug, and this one goes on in what it made.
  method CreateCommunityOrganization(s: AuthSession, input: Input) returns (r: Result<(Id, Org), Failure>)
    requires !Legacy(input)
    modifies s
    ensures AllowedSince(old(s.log), s.log, input)
    ensures old(s.faults) <= s.faults && (r != Err(Failed) ==> s.faults == old(s.faults)) && (s.quiet && !SlugTaken(old(s.auth), input.slug) && r == Err(Failed) ==> s.faults > old(s.faults))
    ensures r == Err(Conflict) ==> s.log == old(s.log)
    ensures r.Ok? ==> r.value.1.slug == input.slug && Resumes(r.value.1, input)
    ensures r.Ok? && s.log != old(s.log) ==> !r.value.1.status.Rejected?
    ensures s.quiet && !SlugTaken(old(s.auth), input.slug) ==>
      || (s.auth == old(s.auth) && s.log == old(s.log) && r == Err(Failed))
      || (|s.log| > |old(s.log)| &&
          var o := s.log[|old(s.log)|].write.org;
          && CreatedAt(old(s.auth), old(s.log), s.auth, s.log, o, input)
          && (r == Err(Failed) || r == Ok((o, s.auth.orgs[o]))))
  {
    var created := s.CreateCall(input, ApplicantMetadata(input));
    if created.Ok? || created.error.Failed? {
      if s.quiet && s.log != old(s.log) {
        ghost var w := s.log[|old(s.log)|].write;
        CreatedOrg(w.record, input);
        assert s.auth.orgs == old(s.auth).orgs[w.org := w.record];
        assert CreatedAt(old(s.auth), old(s.log), s.auth, s.log, w.org, input);
      }
      return created;
    }
    var raced :- s.FetchBySlug(input.slug);
    if raced.None? || !Resumes(raced.value.1, input) {
      return Err(Conflict);
    }
    return Ok(raced.value);
  }

  // The slug was free when it was checked.
  method UseNew(s: AuthSession, input: Input) returns (r: Result<(Id, bool), Failure>)
    requires !Legacy(input)
    modifies s
    ensures AllowedSince(old(s.log), s.log, input)
    ensures old(s.faults) <= s.faults && (r != Err(Failed) ==> s.faults == old(s.faults)) && (s.quiet && OrgSlugsUnique(old(s.auth)) && !SlugTaken(old(s.auth), input.slug) && r == Err(Failed) ==> s.faults > old(s.faults))
    ensures r == Err(Conflict) ==> s.log == old(s.log)
    ensures s.quiet && OrgSlugsUnique(old(s.auth)) && !SlugTaken(old(s.auth), input.slug) ==>
      && RunKeeps(old(s.auth), old(s.log), s.auth, s.log, input)
      && r != Err(Conflict)
      && (r.Ok? ==> RunCompletes(old(s.auth), s.auth, r.value.0, input))
      && (r.Ok? ==> (r.value.1 <==> input.proposer.None? && !Linked(s.auth.orgs[r.value.0])))
  {
    ghost var a, before := s.auth, s.log;
    ghost var quiet := s.quiet && OrgSlugsUnique(a) && !SlugTaken(a, input.slug);
    if quiet {
      Idle(a, before, input);
    }
    var created := CreateCommunityOrganization(s, input);
    ghost var b, now := s.auth, s.log;
    if quiet && now != before {
      var o := now[|before|].write.org;
      assert Progress(b, now, b, now, o, input, true);
      CreatedKeeps(a, before, b, now, b, now, o, input);
    }
    if created.Err? {
      return Err(created.error);
    }
    var (o, organization) := created.value;
    var done := s.Resume(o, organization, input);
    if quiet {
      CreatedKeeps(a, before, b, now, s.auth, s.log, o, input);
      ResumedCompletes(b, o, input);
    }
    if done.Err? {
      return Err(done.error);
    }
    return Ok((o, input.proposer.None? && !Linked(organization)));
  }

  lemma SettledTakesSlug(a: Auth, o: Id, input: Input)
    requires OrgSlugsUnique(a) && !Legacy(input) && SettledAt(a, o, input)
    ensures SlugTaken(a, input.slug)
    ensures forall p :: p in a.orgs && a.orgs[p].slug == input.slug ==> p == o
  {
  }

  // One run of the setup. `value.1`: the applicant was invited.
  method ProvisionCommunityOrganization(s: AuthSession, input: Input) returns (r: Result<(Id, bool), Failure>)
    modifies s
    ensures AllowedSince(old(s.log), s.log, input)
    ensures old(s.faults) <= s.faults && (r != Err(Failed) ==> s.faults == old(s.faults)) && (s.quiet && OrgSlugsUnique(old(s.auth)) && r == Err(Failed) ==> s.faults > old(s.faults))
    ensures r == Err(Conflict) ==> s.log == old(s.log)
    ensures s.quiet && OrgSlugsUnique(old(s.auth)) ==>
      && RunKeeps(old(s.auth), old(s.log), s.auth, s.log, input)
      && (r == Err(Conflict) ==> Blocked(old(s.auth), input))
      && (r.Ok? ==> !Blocked(old(s.auth), input) && RunCompletes(old(s.auth), s.auth, r.value.0, input))
      && (r.Ok? ==> (r.value.1 <==> input.proposer.None? && !Linked(s.auth.orgs[r.value.0])))
      && ((exists o :: SettledAt(old(s.auth), o, input)) ==> s.log == old(s.log))
  {
    ghost var a, before := s.auth, s.log;
    if Legacy(input) {
      r := BindLegacy(s, input);
      return;
    }
    ghost var quiet := s.quiet && OrgSlugsUnique(a);
    if quiet {
      Idle(a, before, input);
      forall o | SettledAt(a, o, input)
        ensures SlugTaken(a, input.slug)
        ensures forall p :: p in a.orgs && a.orgs[p].slug == input.slug ==> p == o
      {
        SettledTakesSlug(a, o, input);
      }
    }
    var _ :- s.Await();
    var existing: Option<(Id, Org)> := None;
    if SlugTaken(s.auth, input.slug) {
      existing :- s.FetchBySlug(input.slug);
    }
    if existing.Some? {
      r := UseExisting(s, existing.value.0, existing.value.1, input);
    } else {
      r := UseNew(s, input);
    }
  }

  lemma OwnedOn(l: Log, m: Log, n: Log)
    requires OwnedSince(l, m) && OwnedSince(m, n)
    ensures OwnedSince(l, n)
  {
  }

  lemma KeepsOn(a: Auth, before: Log, b: Auth, now: Log, c: Auth, later: Log, input: Input)
    requires RunKeeps(a, before, b, now, input) && RunKeeps(b, now, c, later, input)
    ensures RunKeeps(a, before, c, later, input)
  {
    ContainsOn(a, b, c, input);
    if AllOwned(a) && !WouldOrphan(a, input) {
      OwnedOn(before, now, later);
    }
  }

  lemma ContainsOn(a: Auth, b: Auth, c: Auth, input: Input)
    requires Contains(a, b, input) && Contains(b, c, input)
    ensures Contains(a, c, input)
  {
    forall o | o in c.orgs && o !in a.orgs
      ensures !Legacy(input) && c.orgs[o].slug == input.slug && Own(c.orgs[o], input)
    {
      if o in b.orgs && b.orgs[o] != c.orgs[o] {
        OwnStays(b.orgs[o], c.orgs[o], input);
      }
    }
    forall o | o in a.orgs
      ensures o in c.orgs &&
        (a.orgs[o] == c.orgs[o] || (Target(o, a.orgs[o], input) && Contained(a.orgs[o], c.orgs[o], input)))
    {
      if a.orgs[o] != b.orgs[o] && b.orgs[o] != c.orgs[o] {
        ContainedOn(a.orgs[o], b.orgs[o], c.orgs[o], input);
      }
    }
  }

  lemma ContainedOn(was: Org, between: Org, after: Org, input: Input)
    requires Contained(was, between, input) && Contained(between, after, input)
    ensures Contained(was, after, input)
  {
  }

  // What runs of one application keep, whichever admin reviews each of them: no organization gets a default
  // team twice by them.
  ghost predicate ApplicationKeeps(a: Auth, before: Log, b: Auth, now: Log, input: Input) {
    && OrgSlugsUnique(b)
    && (Blocked(b, input) <==> Blocked(a, input))
    && (Blocked(a, input) ==> b == a && now == before)
    && before <= now
    && (forall o :: o in a.orgs ==> o in b.orgs)
    && (forall o :: o in a.orgs && a.orgs[o] != b.orgs[o] ==>
          Target(o, a.orgs[o], input) && TeamsWithin(a.orgs[o].teams, b.orgs[o].teams))
    && (forall o, t :: o in b.orgs && o !in a.orgs && t in DEFAULT_TEAMS ==> multiset(b.orgs[o].teams)[t] <= 1)
    && (AllOwned(a) && input.proposer.Some? ==> OwnedSince(before, now) && AllOwned(b))
  }

  lemma RunIsOfApplication(a: Auth, before: Log, b: Auth, now: Log, input: Input, reviewer: Id)
    requires RunKeeps(a, before, b, now, input.(reviewer := reviewer))
    ensures ApplicationKeeps(a, before, b, now, input)
  {
    SameBlocked(a, input, reviewer);
    SameBlocked(b, input, reviewer);
    assert forall o :: o in a.orgs ==>
      Target(o, a.orgs[o], input.(reviewer := reviewer)) == Target(o, a.orgs[o], input);
  }

  lemma SameBlocked(a: Auth, input: Input, reviewer: Id)
    ensures Blocked(a, input.(reviewer := reviewer)) <==> Blocked(a, input)
  {
    var i := input.(reviewer := reviewer);
    assert forall o :: o in a.orgs ==>
      SlugRefused(a.orgs[o], i) == SlugRefused(a.orgs[o], input) && BindRefused(a.orgs[o], i) == BindRefused(a.orgs[o], input);
  }

  lemma ApplicationKeepsOn(a: Auth, before: Log, b: Auth, now: Log, c: Auth, later: Log, input: Input)
    requires ApplicationKeeps(a, before, b, now, input) && ApplicationKeeps(b, now, c, later, input)
    ensures ApplicationKeeps(a, before, c, later, input)
  {
    if AllOwned(a) && input.proposer.Some? {
      OwnedOn(before, now, later);
    }
    forall o, t | o in c.orgs && o !in a.orgs && t in DEFAULT_TEAMS
      ensures multiset(c.orgs[o].teams)[t] <= 1
    {
      if o in b.orgs && b.orgs[o] != c.orgs[o] {
        WithinOnce(b.orgs[o].teams, c.orgs[o].teams, t);
      }
    }
    forall o | o in a.orgs
      ensures o in c.orgs &&
        (a.orgs[o] == c.orgs[o] || (Target(o, a.orgs[o], input) && TeamsWithin(a.orgs[o].teams, c.orgs[o].teams)))
    {
      if a.orgs[o] != b.orgs[o] && b.orgs[o] != c.orgs[o] {
        WithinOn(a.orgs[o].teams, b.orgs[o].teams, c.orgs[o].teams);
      }
    }
  }

  lemma WithinOnce(before: seq<string>, after: seq<string>, t: string)
    requires TeamsWithin(before, after) && multiset(before)[t] <= 1 && t in DEFAULT_TEAMS
    ensures multiset(after)[t] <= 1
  {
  }

  lemma WithinOn(a: seq<string>, b: seq<string>, c: seq<string>)
    requires TeamsWithin(a, b) && TeamsWithin(b, c)
    ensures TeamsWithin(a, c)
  {
    forall t ensures if t in a || t !in DEFAULT_TEAMS then multiset(c)[t] == multiset(a)[t] else multiset(c)[t] <= 1 {
      assert t in a <==> multiset(a)[t] > 0;
      assert t in b <==> multiset(b)[t] > 0;
    }
  }

  // Each default team is there once, unless it was there before, then as often as it was.
  ghost predicate TeamsOnce(a: Auth, b: Auth, o: Id)
    requires o in b.orgs
  {
    TeamsCompleted(if o in a.orgs then a.orgs[o].teams else [], b.orgs[o].teams)
  }

  lemma SettledTeams(a: Auth, before: Log, b: Auth, now: Log, o: Id, input: Input, reviewer: Id)
    requires ApplicationKeeps(a, before, b, now, input) && SettledAt(b, o, input.(reviewer := reviewer))
    ensures TeamsOnce(a, b, o)
  {
    forall t | t in DEFAULT_TEAMS
      ensures multiset(b.orgs[o].teams)[t] ==
        if o in a.orgs && t in a.orgs[o].teams then multiset(a.orgs[o].teams)[t] else 1
    {
      assert t in b.orgs[o].teams;
      assert multiset(b.orgs[o].teams)[t] > 0;
    }
  }

  // The setup is run again and again until it completes, each time by any admin. In a store that nobody
  // else changes, an application that is not refused at first is never refused later, wherever the runs
  // before it stopped, and the run that completes leaves everything as one undisturbed run would.
  method Retry(s: AuthSession, input: Input, reviewers: seq<Id>)
    returns (r: Result<(Id, bool), Failure>, last: Id)
    modifies s
    ensures AllowedSince(old(s.log), s.log, input)
    ensures s.quiet && OrgSlugsUnique(old(s.auth)) ==>
      && ApplicationKeeps(old(s.auth), old(s.log), s.auth, s.log, input)
      && (r == Err(Conflict) ==> Blocked(old(s.auth), input))
      && (r.Ok? ==> SettledAt(s.auth, r.value.0, input.(reviewer := last)) && TeamsOnce(old(s.auth), s.auth, r.value.0))
      // It gives up only when calls failed in every run.
      && (r == Err(Failed) ==> s.faults >= old(s.faults) + |reviewers|)
  {
    ghost var a, before := s.auth, s.log;
    last := input.reviewer;
    if s.quiet && OrgSlugsUnique(a) {
      Idle(a, before, input);
      RunIsOfApplication(a, before, a, before, input, input.reviewer);
    }
    r := Err(Failed);
    for i := 0 to |reviewers|
      invariant AllowedSince(before, s.log, input)
      invariant r.Err? && r.error.Failed?
      invariant s.quiet && OrgSlugsUnique(a) ==>
        ApplicationKeeps(a, before, s.auth, s.log, input) && s.faults >= old(s.faults) + i
    {
      ghost var b, now := s.auth, s.log;
      last := reviewers[i];
      r := ProvisionCommunityOrganization(s, input.(reviewer := last));
      if s.quiet && OrgSlugsUnique(a) {
        RunIsOfApplication(b, now, s.auth, s.log, input, last);
        ApplicationKeepsOn(a, before, b, now, s.auth, s.log, input);
        SameBlocked(b, input, last);
        if r.Ok? {
          SettledTeams(a, before, s.auth, s.log, r.value.0, input, last);
        }
      }
      if r.Ok? || r.error.Conflict? {
        return;
      }
    }
  }

  // Setups of any applications that name their applicant, each run stopping anywhere: every organization
  // has an owner after every single write.
  method RunAll(s: AuthSession, inputs: seq<Input>) returns (rs: seq<Result<(Id, bool), Failure>>)
    requires forall input :: input in inputs ==> input.proposer.Some?
    modifies s
    ensures s.quiet && OrgSlugsUnique(old(s.auth)) && AllOwned(old(s.auth)) ==>
      OwnedSince(old(s.log), s.log) && AllOwned(s.auth)
    // Each was run: without failing calls it completes or is refused, and the last one is settled if it completed.
    ensures |rs| == |inputs|
    ensures s.quiet && OrgSlugsUnique(old(s.auth)) ==>
      && (s.faults == old(s.faults) ==> forall i :: 0 <= i < |rs| ==> rs[i] != Err(Failed))
      && (rs != [] && rs[|rs| - 1].Ok? ==> SettledAt(s.auth, rs[|rs| - 1].value.0, inputs[|rs| - 1]))
  {
    rs := [];
    for i := 0 to |inputs|
      invariant |rs| == i && old(s.faults) <= s.faults
      invariant s.quiet && OrgSlugsUnique(old(s.auth)) ==>
        && OrgSlugsUnique(s.auth)
        && (s.faults == old(s.faults) ==> forall j :: 0 <= j < i ==> rs[j] != Err(Failed))
        && (i > 0 && rs[i - 1].Ok? ==> SettledAt(s.auth, rs[i - 1].value.0, inputs[i - 1]))
      invariant s.quiet && OrgSlugsUnique(old(s.auth)) && AllOwned(old(s.auth)) ==>
        OrgSlugsUnique(s.auth) && OwnedSince(old(s.log), s.log) && AllOwned(s.auth)
    {
      ghost var now := s.log;
      assert inputs[i].proposer.Some?;
      var r := ProvisionCommunityOrganization(s, inputs[i]);
      rs := rs + [r];
      if s.quiet && OrgSlugsUnique(old(s.auth)) && AllOwned(old(s.auth)) {
        OwnedOn(old(s.log), now, s.log);
      }
    }
  }

  // --- Where it does not hold ---

  // An application without a named applicant adopts an organization that its reviewer alone owns: the
  // reviewer becomes an admin and nobody owns it.
  lemma LostOwner() returns (org: Org, input: Input)
    ensures HasOwner(org) && !BindRefused(org, input) && !Resumes(org, input) && input.proposer.None?
    ensures !HasOwner(Bound(org, input, true))
  {
    org := Org("near", Active, None, map[], map["rita" := Owner], [], DEFAULT_TEAMS, 0);
    input := Input("p1", "near", None, "ada.near", "rita", None);
    assert "rita" in org.members && org.members["rita"].Owner?;
    assert Stamp(org) == None;
    assert Bound(org, input, true).members == map["rita" := Admin];
  }
}
