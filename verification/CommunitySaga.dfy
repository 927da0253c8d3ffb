/**
 The community setup and its release, one remote call after another. Any call can fail, before or after
 the plugin carried it out, which is also how a crashed setup stops; unless the session is `quiet`, other
 clients change the store between two calls.
 */
module CommunitySaga {
  import opened Wrappers
  import opened AuthStore
  import opened CommunitySpec

  datatype Failure = Conflict | Failed

  // One write of this session and the store right after it.
  datatype Step = Step(write: Write, after: Auth)

  type Log = seq<Step>

  function Put(a: Auth, o: Id, org: Org): Auth { a.(orgs := a.orgs[o := org]) }

  ghost predicate AllowedSince(before: Log, now: Log, input: Input) {
    && before <= now
    && (forall i :: |before| <= i < |now| ==> Allowed(input.proposalId, Legacy(input), now[i].write))
  }

  ghost predicate OwnedSince(before: Log, now: Log) {
    before <= now && forall i :: |before| <= i < |now| ==> AllOwned(now[i].after)
  }

  // Either nothing happened, or one write made `o` into `done`. It counts as done only in the latter case or
  // when there was nothing to do, and then nothing is written.
  ghost predicate OneStep(a: Auth, before: Log, b: Auth, now: Log, o: Id, done: Org, ok: bool)
    requires o in a.orgs
  {
    || (b == a && now == before && (ok ==> a.orgs[o] == done))
    || (b == Put(a, o, done) && a.orgs[o] != done && |now| == |before| + 1 && before <= now &&
        now[|before|].after == b)
  }

  lemma PutOwned(a: Auth, o: Id, org: Org)
    requires AllOwned(a) && HasOwner(org)
    ensures AllOwned(Put(a, o, org))
  {
  }

  predicate Refused(org: Org, input: Input) {
    if Legacy(input) then BindRefused(org, input) else SlugRefused(org, input)
  }

  // A setup touches nobody but the applicant and the reviewer, adds no invitation but the applicant's, and
  // only default teams that were missing, once each.
  ghost predicate Contained(was: Org, after: Org, input: Input) {
    && after.slug == was.slug && after.requestedBy == was.requestedBy && after.onboardingCodes == was.onboardingCodes
    && OthersKeepRoles(was, after, input)
    && TeamsWithin(was.teams, after.teams)
    && (forall i :: i in after.invitations ==>
          i in was.invitations || (input.proposer.None? && i.accountId == input.applicantAccountId))
    && (!Legacy(input) && Resumes(was, input) ==> after.metadata == was.metadata)
  }

  ghost predicate TeamsWithin(before: seq<string>, after: seq<string>) {
    forall t :: if t in before || t !in DEFAULT_TEAMS then multiset(after)[t] == multiset(before)[t]
                else multiset(after)[t] <= 1
  }

  lemma TeamsWithinSome(stored: seq<string>, i: nat)
    requires i <= |DEFAULT_TEAMS|
    ensures TeamsWithin(stored, stored + Missing(stored, DEFAULT_TEAMS[..i]))
  {
    DefaultsDistinct();
    forall t ensures multiset(Missing(stored, DEFAULT_TEAMS[..i]))[t] == if t in DEFAULT_TEAMS[..i] && t !in stored then 1 else 0 {
      MissingOnce(stored, DEFAULT_TEAMS[..i], t);
    }
    assert forall t :: t in DEFAULT_TEAMS[..i] ==> t in DEFAULT_TEAMS;
  }

  lemma DefaultsDistinct()
    ensures forall j, k :: 0 <= j < k < |DEFAULT_TEAMS| ==> DEFAULT_TEAMS[j] != DEFAULT_TEAMS[k]
  {
    assert "Operations"[0] == 'O' && "Treasury"[0] == 'T' && "Community"[0] == 'C';
  }

  // From `a` to `b` only `o` changed, and the application is not refused there afterwards either. `owned`:
  // every organization has an owner at each step, if that was so before.
  ghost predicate Progress(a: Auth, before: Log, b: Auth, now: Log, o: Id, input: Input, owned: bool) {
    && o in a.orgs && o in b.orgs && b == Put(a, o, b.orgs[o])
    && Contained(a.orgs[o], b.orgs[o], input) && !Refused(b.orgs[o], input)
    && before <= now
    && (owned && AllOwned(a) ==> OwnedSince(before, now) && AllOwned(b))
  }

  // A run of steps towards `done`, which may stop anywhere.
  ghost predicate Partway(
    a: Auth, before: Log, b: Auth, now: Log, o: Id, input: Input, done: Org, ok: bool, owned: bool)
    requires o in a.orgs
  {
    && (!Refused(a.orgs[o], input) ==> Progress(a, before, b, now, o, input, owned))
    && (ok ==> b == Put(a, o, done))
    && (a.orgs[o] == done ==> now == before && b == a)
  }

  lemma PartwayThen(a: Auth, before: Log, b: Auth, now: Log, c: Auth, later: Log, o: Id, input: Input,
                    mid: Org, done: Org, ok: bool, owned: bool)
    requires o in a.orgs && Partway(a, before, b, now, o, input, mid, true, owned)
    requires !Refused(a.orgs[o], input) && Partway(b, now, c, later, o, input, done, ok, owned)
    requires a.orgs[o] == done ==> a.orgs[o] == mid
    ensures Partway(a, before, c, later, o, input, done, ok, owned)
  {
  }

  lemma StepPartway(a: Auth, before: Log, b: Auth, now: Log, o: Id, input: Input, done: Org, ok: bool, owned: bool)
    requires o in a.orgs && OneStep(a, before, b, now, o, done, ok)
    requires !Refused(a.orgs[o], input) && !Refused(done, input) && Contained(a.orgs[o], done, input)
    requires owned && AllOwned(a) ==> HasOwner(done)
    ensures Partway(a, before, b, now, o, input, done, ok, owned)
  {
    if owned && AllOwned(a) {
      PutOwned(a, o, done);
    }
    assert b == a ==> Put(a, o, a.orgs[o]) == a;
  }

  class AuthSession {
    var auth: Auth
    ghost var log: Log
    ghost var observed: seq<Auth>
    ghost var faults: nat
    const quiet: bool

    constructor (auth: Auth, quiet: bool)
      ensures this.auth == auth && log == [] && observed == [] && faults == 0 && this.quiet == quiet
    {
      this.auth, log, observed, faults, this.quiet := auth, [], [], 0, quiet;
    }

    // The other clients, and the network. `observed` keeps the store at each call of this session; `faults`
    // counts the calls that failed.
    method Await() returns (r: Result<(), Failure>)
      modifies `auth, `observed, `faults
      ensures observed == old(observed) + [auth]
      ensures faults == old(faults) + if r.Err? then 1 else 0
      ensures quiet ==> auth == old(auth)
      ensures r.Err? ==> r.error.Failed?
    {
      if !quiet {
        auth := *;
      }
      observed := observed + [auth];
      if * {
        faults := faults + 1;
        return Err(Failed);
      }
      return Ok(());
    }

    // A call to another service.
    method Elsewhere() returns (ok: bool)
      modifies `faults
      ensures faults == old(faults) + if ok then 0 else 1
    {
      ok := *;
      if !ok {
        faults := faults + 1;
      }
    }

    method WriteCall(w: Write) returns (r: Result<(), Failure>)
      requires !w.Create?
      modifies this
      ensures r.Err? ==> r.error.Failed?
      ensures old(faults) <= faults && (r != Err(Failed) ==> faults == old(faults)) && (quiet && w.org in old(auth).orgs && r.Err? ==> faults > old(faults))
      ensures old(observed) <= observed
      ensures (log == old(log) && r.Err?) || log == old(log) + [Step(w, auth)]
      ensures quiet ==> auth == if log == old(log) then old(auth) else Apply(old(auth), w)
    {
      var _ :- Await();
      if w.org !in auth.orgs {
        return Err(Failed);
      }
      auth := Apply(auth, w);
      log := log + [Step(w, auth)];
      if * {
        faults := faults + 1;
        return Err(Failed);
      }
      return Ok(());
    }

    method Fetch(o: Id) returns (r: Result<Option<Org>, Failure>)
      modifies `auth, `observed, `faults
      ensures observed == old(observed) + [auth]
      ensures quiet ==> auth == old(auth)
      ensures r.Ok? ==> r.value == Find(auth.orgs, o)
      ensures r.Err? ==> r.error.Failed?
      ensures faults == old(faults) + if r.Err? then 1 else 0
    {
      var _ :- Await();
      return Ok(Find(auth.orgs, o));
    }

    method FetchBySlug(slug: string) returns (r: Result<Option<(Id, Org)>, Failure>)
      modifies `auth, `observed, `faults
      ensures quiet ==> auth == old(auth)
      ensures r.Ok? ==> (r.value.Some? <==> SlugTaken(auth, slug))
      ensures r.Ok? && r.value.Some? ==> Find(auth.orgs, r.value.value.0) == Some(r.value.value.1)
      ensures r.Ok? && r.value.Some? ==> r.value.value.1.slug == slug
      ensures r.Err? ==> r.error.Failed?
      ensures faults == old(faults) + if r.Err? then 1 else 0
    {
      var _ :- Await();
      if !SlugTaken(auth, slug) {
        return Ok(None);
      }
      var o :| o in auth.orgs && auth.orgs[o].slug == slug;
      return Ok(Some((o, auth.orgs[o])));
    }

    // A created organization starts with its creator, who is the session's user, as its owner, and with no
    // team twice.
    method CreateCall(input: Input, metadata: Metadata) returns (r: Result<(Id, Org), Failure>)
      requires Stamp(Org(input.slug, Active, None, metadata, map[], [], [], 0)) == Some(input.proposalId)
      modifies this
      ensures AllowedSince(old(log), log, input)
      ensures old(faults) <= faults && (r != Err(Failed) ==> faults == old(faults)) && (r == Err(Failed) ==> faults > old(faults))
      ensures r == Err(Conflict) ==> log == old(log)
      ensures r.Ok? ==>
        r.value.1.slug == input.slug && r.value.1.metadata == metadata && !r.value.1.status.Rejected?
      ensures quiet && r == Err(Conflict) ==> SlugTaken(old(auth), input.slug)
      ensures log == old(log) ==> r.Err? && (quiet ==> auth == old(auth))
      ensures log != old(log) ==> |log| == |old(log)| + 1 && log[|old(log)|].after == auth
      ensures quiet && log != old(log) ==>
        var w := log[|old(log)|].write;
        && w.Create? && w.org !in old(auth).orgs && auth == Apply(old(auth), w) && CanWrite(old(auth), w)
        && w.record.slug == input.slug && !w.record.status.Rejected? && w.record.metadata == metadata
        && w.record.members == map[input.reviewer := Owner]
        && w.record.invitations == [] && w.record.onboardingCodes == 0 && NoneTwice(w.record.teams)
        && (r.Ok? ==> r.value == (w.org, w.record))
    {
      var _ :- Await();
      if SlugTaken(auth, input.slug) {
        return Err(Conflict);
      }
      var o: Id, pending: bool, requestedBy: Option<Id>, teams: seq<string> := *, *, *, *;
      if o in auth.orgs || o in auth.created || !NoneTwice(teams) {
        faults := faults + 1;
        return Err(Failed);
      }
      var record := Org(input.slug, if pending then Pending else Active, requestedBy, metadata,
                        map[input.reviewer := Owner], [], teams, 0);
      var w := Create(o, record, input.proposalId);
      auth := Apply(auth, w);
      log := log + [Step(w, auth)];
      if * {
        faults := faults + 1;
        return Err(Failed);
      }
      return Ok((o, record));
    }

    method ApprovePending(o: Id, organization: Org, input: Input) returns (r: Result<(), Failure>)
      modifies this
      ensures AllowedSince(old(log), log, input)
      ensures old(faults) <= faults && (r != Err(Failed) ==> faults == old(faults)) && (quiet && o in old(auth).orgs && r.Err? ==> faults > old(faults))
      ensures r.Err? ==> r.error.Failed?
      ensures quiet && Find(old(auth).orgs, o) == Some(organization) ==>
        OneStep(old(auth), old(log), auth, log, o, Approved(organization), r.Ok?)
    {
      if organization.status.Pending? {
        var _ :- WriteCall(Approve(o));
      }
      return Ok(());
    }

    method StampOrganization(o: Id, organization: Org, stamp: Metadata, input: Input)
      returns (r: Result<(), Failure>)
      requires Allowed(input.proposalId, Legacy(input), PutMetadata(o, organization.metadata + stamp))
      modifies this
      ensures AllowedSince(old(log), log, input)
      ensures old(faults) <= faults && (r != Err(Failed) ==> faults == old(faults)) && (quiet && o in old(auth).orgs && r.Err? ==> faults > old(faults))
      ensures r.Err? ==> r.error.Failed?
      ensures quiet && o in old(auth).orgs && old(auth).orgs[o].metadata == organization.metadata ==>
        OneStep(old(auth), old(log), auth, log, o, Stamped(old(auth).orgs[o], stamp), r.Ok?)
    {
      if exists k | k in stamp :: Find(organization.metadata, k) != Some(stamp[k]) {
        var _ :- WriteCall(PutMetadata(o, organization.metadata + stamp));
      } else {
        assert organization.metadata + stamp == organization.metadata;
      }
      return Ok(());
    }

    method GrantOwnership(o: Id, user: Id, input: Input) returns (r: Result<(), Failure>)
      modifies this
      ensures AllowedSince(old(log), log, input)
      ensures old(faults) <= faults && (r != Err(Failed) ==> faults == old(faults)) && (quiet && o in old(auth).orgs && r.Err? ==> faults > old(faults))
      ensures r.Err? ==> r.error.Failed?
      ensures quiet && o in old(auth).orgs ==>
        OneStep(old(auth), old(log), auth, log, o, Granted(old(auth).orgs[o], user), r.Ok?)
    {
      var organization :- Fetch(o);
      if organization.None? {
        return Err(Failed);
      }
      if Find(organization.value.members, user) != Some(Owner) {
        var _ :- WriteCall(SetMember(o, user, Owner));
      } else {
        assert organization.value.members[user := Owner] == organization.value.members;
      }
      return Ok(());
    }

    // The reviewer is added as an admin, or stops owning the organization.
    method SeatReviewer(o: Id, reviewer: Id, demote: bool, input: Input) returns (r: Result<(), Failure>)
      modifies this
      ensures AllowedSince(old(log), log, input)
      ensures old(faults) <= faults && (r != Err(Failed) ==> faults == old(faults)) && (quiet && o in old(auth).orgs && r.Err? ==> faults > old(faults))
      ensures r.Err? ==> r.error.Failed?
      ensures quiet && o in old(auth).orgs ==>
        OneStep(old(auth), old(log), auth, log, o, Seated(old(auth).orgs[o], reviewer, demote), r.Ok?)
    {
      var organization :- Fetch(o);
      if organization.None? {
        return Err(Failed);
      }
      var members := organization.value.members;
      if reviewer !in members {
        var _ :- WriteCall(SetMember(o, reviewer, Admin));
      } else if demote && members[reviewer].Owner? {
        var _ :- WriteCall(SetMember(o, reviewer, Admin));
      }
      return Ok(());
    }

    method InviteApplicant(o: Id, input: Input) returns (r: Result<(), Failure>)
      modifies this
      ensures AllowedSince(old(log), log, input)
      ensures old(faults) <= faults && (r != Err(Failed) ==> faults == old(faults)) && (quiet && o in old(auth).orgs && r.Err? ==> faults > old(faults))
      ensures r.Err? ==> r.error.Failed?
      ensures quiet && o in old(auth).orgs ==>
        OneStep(old(auth), old(log), auth, log, o,
                WithInvitation(old(auth).orgs[o], input.applicantAccountId), r.Ok?)
    {
      var organization :- Fetch(o);
      if organization.None? {
        return Err(Failed);
      }
      if !Invited(organization.value, input.applicantAccountId) {
        var _ :- WriteCall(Invite(o, input.applicantAccountId));
      }
      return Ok(());
    }

    // `a` is the store when the teams were listed.
    method EnsureTeam(o: Id, ghost a: Auth, stored: seq<string>, i: nat, input: Input)
      returns (r: Result<(), Failure>)
      requires o in a.orgs && stored == a.orgs[o].teams && i < |DEFAULT_TEAMS|
      requires quiet ==> auth == Half(a, o, i)
      modifies this
      ensures AllowedSince(old(log), log, input)
      ensures old(faults) <= faults && (r != Err(Failed) ==> faults == old(faults)) && (quiet && o in old(auth).orgs && r.Err? ==> faults > old(faults))
      ensures r.Err? ==> r.error.Failed?
      ensures DEFAULT_TEAMS[i] in stored ==> log == old(log)
      ensures quiet ==> auth == Half(a, o, i + 1) || (r.Err? && auth == old(auth))
      ensures quiet && auth == old(auth) ==> log == old(log)
      ensures quiet && AllOwned(a) ==> OwnedSince(old(log), log)
    {
      HalfGrows(a, o, i);
      if AllOwned(a) {
        HalfOwned(a, o, i + 1);
      }
      if DEFAULT_TEAMS[i] !in stored {
        HalfDiffers(a, o, i);
        var _ :- WriteCall(AddTeam(o, DEFAULT_TEAMS[i]));
      }
      return Ok(());
    }

    // The loop over the default teams. `done`: how many of them are there.
    method EnsureTeams(o: Id, ghost a: Auth, stored: seq<string>, input: Input)
      returns (r: Result<(), Failure>, ghost done: nat)
      requires o in a.orgs && stored == a.orgs[o].teams && (quiet ==> auth == a)
      modifies this
      ensures AllowedSince(old(log), log, input)
      ensures old(faults) <= faults && (r != Err(Failed) ==> faults == old(faults)) && (quiet && r.Err? ==> faults > old(faults))
      ensures r.Err? ==> r.error.Failed?
      ensures done <= |DEFAULT_TEAMS| && (r.Ok? ==> done == |DEFAULT_TEAMS|)
      ensures quiet ==> auth == Half(a, o, done) && (Missing(stored, DEFAULT_TEAMS[..done]) == [] ==> log == old(log))
      ensures quiet && AllOwned(a) ==> OwnedSince(old(log), log)
    {
      HalfStarts(a, o);
      for i := 0 to |DEFAULT_TEAMS|
        invariant AllowedSince(old(log), log, input) && old(faults) == faults
        invariant quiet ==> auth == Half(a, o, i)
        invariant Missing(stored, DEFAULT_TEAMS[..i]) == [] ==> log == old(log)
        invariant quiet && AllOwned(a) ==> OwnedSince(old(log), log)
      {
        HalfGrows(a, o, i);
        r := EnsureTeam(o, a, stored, i, input);
        if r.Err? {
          done := if auth == Half(a, o, i) then i else i + 1;
          return;
        }
      }
      return Ok(()), |DEFAULT_TEAMS|;
    }

    method ProvisionTeams(o: Id, input: Input) returns (r: Result<(), Failure>)
      modifies this
      ensures AllowedSince(old(log), log, input)
      ensures old(faults) <= faults && (r != Err(Failed) ==> faults == old(faults)) && (quiet && o in old(auth).orgs && r.Err? ==> faults > old(faults))
      ensures r.Err? ==> r.error.Failed?
      ensures quiet && o in old(auth).orgs ==> Partway(old(auth), old(log), auth, log, o, input,
          WithTeams(old(auth).orgs[o]), r.Ok?, true)
    {
      var organization :- Fetch(o);
      if organization.None? {
        return Err(Failed);
      }
      ghost var a, done := auth, 0;
      r, done := EnsureTeams(o, a, organization.value.teams, input);
      if quiet {
        TeamsPartway(a, old(log), auth, log, o, input, done);
      }
    }

    // Approval and stamp of an organization found by its slug (`adopted`), or named by a legacy application.
    method ApproveAndStamp(o: Id, organization: Org, input: Input, adopted: bool) returns (r: Result<(), Failure>)
      requires adopted == !Legacy(input) && (adopted ==> !Resumes(organization, input))
      modifies this
      ensures AllowedSince(old(log), log, input)
      ensures old(faults) <= faults && (r != Err(Failed) ==> faults == old(faults)) && (quiet && Find(old(auth).orgs, o) == Some(organization) && !BindRefused(organization, input) && r.Err? ==> faults > old(faults))
      ensures r.Err? ==> r.error.Failed?
      ensures quiet && Find(old(auth).orgs, o) == Some(organization) && !BindRefused(organization, input) ==>
        Partway(old(auth), old(log), auth, log, o, input,
                Stamped(Approved(organization), BindStamp(input, adopted)), r.Ok?, true)
    {
      ghost var a, before := auth, log;
      ghost var usable := quiet && Find(a.orgs, o) == Some(organization) && !BindRefused(organization, input);
      r := ApprovePending(o, organization, input);
      ghost var b, now := auth, log;
      if usable {
        StampFits(organization, input);
        StepPartway(a, before, b, now, o, input, Approved(organization), r.Ok?, true);
      }
      if r.Err? {
        return;
      }
      var stamp := BindStamp(input, adopted);
      r := StampOrganization(o, organization, stamp, input);
      if usable {
        var done := Stamped(Approved(organization), stamp);
        StepPartway(b, now, auth, log, o, input, done, r.Ok?, true);
        PartwayThen(a, before, b, now, auth, log, o, input, Approved(organization), done, r.Ok?, true);
      }
    }

    // The owner first, so that the organization is never without one, then the reviewer beside the owner.
    method GrantAndSeat(o: Id, owner: Option<Id>, demote: bool, input: Input) returns (r: Result<(), Failure>)
      requires Legacy(input) ==> owner == input.proposer
      requires owner.Some? ==> owner == input.proposer || owner == Some(input.reviewer)
      modifies this
      ensures AllowedSince(old(log), log, input)
      ensures old(faults) <= faults && (r != Err(Failed) ==> faults == old(faults)) && (quiet && o in old(auth).orgs && Seatable(old(auth).orgs[o], input) && r.Err? ==> faults > old(faults))
      ensures r.Err? ==> r.error.Failed?
      ensures quiet && o in old(auth).orgs && Seatable(old(auth).orgs[o], input) ==>
        Partway(old(auth), old(log), auth, log, o, input, Ownership(old(auth).orgs[o], owner, demote, input),
                r.Ok?, owner.Some? || !demote || !OnlyOwner(old(auth).orgs[o], input.reviewer))
    {
      ghost var a, before := auth, log;
      ghost var usable := quiet && o in a.orgs && Seatable(a.orgs[o], input);
      ghost var owned := o in a.orgs && (owner.Some? || !demote || !OnlyOwner(a.orgs[o], input.reviewer));
      if owner.Some? {
        r := GrantOwnership(o, owner.value, input);
        if usable {
          GrantPartway(a, before, auth, log, o, input, owner, r.Ok?, owned);
        }
        if r.Err? {
          if usable {
            SeatingParts(a.orgs[o], owner, demote, input);
          }
          return;
        }
      }
      ghost var b, now := auth, log;
      if owner == Some(input.reviewer) {
        return Ok(());
      }
      r := SeatReviewer(o, input.reviewer, demote, input);
      if usable {
        SeatPartway(a, b, now, auth, log, o, input, owner, demote, r.Ok?, owned);
        SeatingParts(a.orgs[o], owner, demote, input);
        PartwayThen(a, before, b, now, auth, log, o, input, GrantedTo(a.orgs[o], owner),
                    Ownership(a.orgs[o], owner, demote, input), r.Ok?, owned);
      }
    }

    // Everything but the teams.
    method Rebind(o: Id, organization: Org, input: Input, adopted: bool) returns (r: Result<(), Failure>)
      requires adopted == !Legacy(input) && (adopted ==> !Resumes(organization, input))
      requires !BindRefused(organization, input)
      modifies this
      ensures AllowedSince(old(log), log, input)
      ensures old(faults) <= faults && (r != Err(Failed) ==> faults == old(faults)) && (quiet && Find(old(auth).orgs, o) == Some(organization) && r.Err? ==> faults > old(faults))
      ensures r.Err? ==> r.error.Failed?
      ensures quiet && Find(old(auth).orgs, o) == Some(organization) ==>
        Partway(old(auth), old(log), auth, log, o, input, Rebound(organization, input, adopted), r.Ok?,
                input.proposer.Some? || !OnlyOwner(organization, input.reviewer))
    {
      ghost var a, before := auth, log;
      ghost var usable := quiet && Find(a.orgs, o) == Some(organization);
      ghost var stamped := Stamped(Approved(organization), BindStamp(input, adopted));
      BoundParts(organization, input, adopted);
      r := ApproveAndStamp(o, organization, input, adopted);
      if r.Err? {
        return;
      }
      ghost var b, now := auth, log;
      r := GrantAndSeat(o, input.proposer, adopted, input);
      if usable {
        PartwayThen(a, before, b, now, auth, log, o, input, stamped, Rebound(organization, input, adopted), r.Ok?,
                    input.proposer.Some? || !OnlyOwner(organization, input.reviewer));
      }
    }

    // Another application's stamp, somebody else's request, or a rejection.
    method RefusesBind(organization: Org, input: Input) returns (refused: bool)
      ensures refused <==>
        || (CommunityProposalId in organization.metadata &&
            organization.metadata[CommunityProposalId] !in {"", input.proposalId})
        || (organization.requestedBy.Some? && input.proposer.Some? && organization.requestedBy != input.proposer &&
            !(input.proposer.value in organization.members && organization.members[input.proposer.value].Owner?))
        || organization.status.Rejected?
      ensures refused <==> BindRefused(organization, input)
    {
      var stamp := Find(organization.metadata, CommunityProposalId);
      if stamp.Some? && stamp.value != "" && stamp.value != input.proposalId {
        return true;
      }
      if organization.requestedBy.Some? && input.proposer.Some? && organization.requestedBy != input.proposer {
        if Find(organization.members, input.proposer.value) != Some(Owner) {
          return true;
        }
      }
      refused := organization.status.Rejected?;
    }

    method Bind(o: Id, organization: Org, input: Input, adopted: bool) returns (r: Result<(), Failure>)
      requires adopted == !Legacy(input) && (adopted ==> !Resumes(organization, input))
      modifies this
      ensures AllowedSince(old(log), log, input)
      ensures old(faults) <= faults && (r != Err(Failed) ==> faults == old(faults)) && (quiet && Find(old(auth).orgs, o) == Some(organization) && !BindRefused(organization, input) && r.Err? ==> faults > old(faults))
      ensures r == Err(Conflict) <==>
        || (CommunityProposalId in organization.metadata &&
            organization.metadata[CommunityProposalId] !in {"", input.proposalId})
        || (organization.requestedBy.Some? && input.proposer.Some? && organization.requestedBy != input.proposer &&
            !(input.proposer.value in organization.members && organization.members[input.proposer.value].Owner?))
        || organization.status.Rejected?
      ensures r == Err(Conflict) ==> log == old(log) && auth == old(auth) && observed == old(observed)
      ensures quiet && Find(old(auth).orgs, o) == Some(organization) && !BindRefused(organization, input) ==>
        Partway(old(auth), old(log), auth, log, o, input, Bound(organization, input, adopted), r.Ok?,
                input.proposer.Some? || !OnlyOwner(organization, input.reviewer))
    {
      var refused := RefusesBind(organization, input);
      if refused {
        return Err(Conflict);
      }
      ghost var a, before := auth, log;
      BoundParts(organization, input, adopted);
      r := Rebind(o, organization, input, adopted);
      if r.Err? {
        return;
      }
      ghost var b, now := auth, log;
      r := ProvisionTeams(o, input);
      if quiet && Find(a.orgs, o) == Some(organization) {
        PartwayThen(a, before, b, now, auth, log, o, input, Rebound(organization, input, adopted),
                    Bound(organization, input, adopted), r.Ok?,
                    input.proposer.Some? || !OnlyOwner(organization, input.reviewer));
      }
    }

    method ResumeSeats(o: Id, organization: Org, input: Input) returns (r: Result<(), Failure>)
      requires !Legacy(input) && Resumes(organization, input) && !organization.status.Rejected?
      modifies this
      ensures AllowedSince(old(log), log, input)
      ensures old(faults) <= faults && (r != Err(Failed) ==> faults == old(faults)) && (quiet && Find(old(auth).orgs, o) == Some(organization) && r.Err? ==> faults > old(faults))
      ensures r.Err? ==> r.error.Failed?
      ensures quiet && Find(old(auth).orgs, o) == Some(organization) ==>
        Partway(old(auth), old(log), auth, log, o, input, ResumedSeats(organization, input), r.Ok?, true)
    {
      ghost var a, before := auth, log;
      ghost var usable := quiet && Find(a.orgs, o) == Some(organization);
      ResumeParts(organization, input);
      r := ApprovePending(o, organization, input);
      if usable {
        StepPartway(a, before, auth, log, o, input, Approved(organization), r.Ok?, true);
      }
      if r.Err? {
        return;
      }
      ghost var b, now := auth, log;
      r := GrantAndSeat(o, ResumeOwner(organization, input), input.proposer.Some? || !Linked(organization), input);
      if usable {
        PartwayThen(a, before, b, now, auth, log, o, input, Approved(organization),
                    ResumedSeats(organization, input), r.Ok?, true);
      }
    }

    method InviteIfUnnamed(o: Id, organization: Org, input: Input) returns (r: Result<(), Failure>)
      modifies this
      ensures AllowedSince(old(log), log, input)
      ensures old(faults) <= faults && (r != Err(Failed) ==> faults == old(faults)) && (quiet && o in old(auth).orgs && r.Err? ==> faults > old(faults))
      ensures r.Err? ==> r.error.Failed?
      ensures quiet && Find(old(auth).orgs, o) == Some(ResumedSeats(organization, input)) &&
              !Refused(ResumedSeats(organization, input), input) ==>
        Partway(old(auth), old(log), auth, log, o, input, ResumedPeople(organization, input), r.Ok?, true)
    {
      if input.proposer.Some? || Linked(organization) {
        return Ok(());
      }
      ghost var a, before := auth, log;
      r := InviteApplicant(o, input);
      if quiet && Find(a.orgs, o) == Some(ResumedSeats(organization, input)) &&
         !Refused(ResumedSeats(organization, input), input) {
        InvitePartway(a, before, auth, log, o, input, r.Ok?);
      }
    }

    // The rest of the setup in an organization that carries the application's stamp.
    method Resume(o: Id, organization: Org, input: Input) returns (r: Result<(), Failure>)
      requires !Legacy(input) && Resumes(organization, input)
      modifies this
      ensures AllowedSince(old(log), log, input)
      ensures old(faults) <= faults && (r != Err(Failed) ==> faults == old(faults)) && (quiet && Find(old(auth).orgs, o) == Some(organization) && !organization.status.Rejected? && r.Err? ==> faults > old(faults))
      ensures r == Err(Conflict) <==> organization.status.Rejected?
      ensures r == Err(Conflict) ==> log == old(log) && auth == old(auth)
      ensures quiet && Find(old(auth).orgs, o) == Some(organization) && !organization.status.Rejected? ==>
        Partway(old(auth), old(log), auth, log, o, input, Resumed(organization, input), r.Ok?, true)
    {
      if organization.status.Rejected? {
        return Err(Conflict);
      }
      ghost var a, before := auth, log;
      ghost var usable := quiet && Find(a.orgs, o) == Some(organization);
      ResumeParts(organization, input);
      r := ResumeSeats(o, organization, input);
      if r.Err? {
        return;
      }
      ghost var b, now := auth, log;
      r := InviteIfUnnamed(o, organization, input);
      ghost var c, later := auth, log;
      if usable {
        PartwayThen(a, before, b, now, c, later, o, input, ResumedSeats(organization, input),
                    ResumedPeople(organization, input), r.Ok?, true);
      }
      if r.Err? {
        return;
      }
      r := ProvisionTeams(o, input);
      if usable {
        PartwayThen(a, before, c, later, auth, log, o, input, ResumedPeople(organization, input),
                    Resumed(organization, input), r.Ok?, true);
      }
    }
  }

  // A setup changes members only where the application is not refused, and, unless it names the
  // organization, where its stamp is already set.
  predicate Seatable(org: Org, input: Input) {
    !Refused(org, input) && (Legacy(input) || Resumes(org, input))
  }

  function ResumeOwner(org: Org, input: Input): Option<Id> {
    if input.proposer.Some? then input.proposer
    else if Linked(org) then None
    else Some(input.reviewer)
  }

  function Rebound(org: Org, input: Input, adopted: bool): Org {
    Ownership(Stamped(Approved(org), BindStamp(input, adopted)), input.proposer, adopted, input)
  }

  // The steps of a setup change different parts of the organization, so nothing is left to do after the
  // whole setup only if nothing is left to do in each step.
  lemma BoundParts(org: Org, input: Input, adopted: bool)
    requires adopted == !Legacy(input)
    ensures var stamped := Stamped(Approved(org), BindStamp(input, adopted));
            var seated := Rebound(org, input, adopted);
            && Bound(org, input, adopted) == WithTeams(seated)
            && (Bound(org, input, adopted) == org ==> seated == org)
            && (seated == org ==> stamped == org)
            && (stamped == org ==> Approved(org) == org)
  {
    var stamped := Stamped(Approved(org), BindStamp(input, adopted));
    var seated := Ownership(stamped, input.proposer, adopted, input);
    assert seated.metadata == stamped.metadata && seated.status == stamped.status && seated.teams == org.teams;
  }

  function ResumedSeats(org: Org, input: Input): Org {
    Ownership(Approved(org), ResumeOwner(org, input), input.proposer.Some? || !Linked(org), input)
  }

  function ResumedPeople(org: Org, input: Input): Org {
    if input.proposer.Some? || Linked(org) then ResumedSeats(org, input)
    else WithInvitation(ResumedSeats(org, input), input.applicantAccountId)
  }

  lemma ResumeParts(org: Org, input: Input)
    ensures var seated, invited := ResumedSeats(org, input), ResumedPeople(org, input);
            && Resumed(org, input) == WithTeams(invited)
            && (Resumed(org, input) == org ==> invited == org)
            && (invited == org ==> seated == org)
            && (seated == org ==> Approved(org) == org)
            && seated.metadata == org.metadata && seated.status == Approved(org).status && seated.slug == org.slug
  {
    var seated, invited := ResumedSeats(org, input), ResumedPeople(org, input);
    assert seated.metadata == org.metadata && seated.teams == org.teams && seated.invitations == org.invitations;
  }

  function GrantedTo(org: Org, owner: Option<Id>): Org {
    if owner.Some? then Granted(org, owner.value) else org
  }

  function Ownership(org: Org, owner: Option<Id>, demote: bool, input: Input): Org {
    SeatedBeside(GrantedTo(org, owner), input.reviewer, owner, demote)
  }

  lemma InvitePartway(a: Auth, before: Log, b: Auth, now: Log, o: Id, input: Input, ok: bool)
    requires o in a.orgs && !Refused(a.orgs[o], input) && input.proposer.None?
    requires OneStep(a, before, b, now, o, WithInvitation(a.orgs[o], input.applicantAccountId), ok)
    ensures Partway(a, before, b, now, o, input, WithInvitation(a.orgs[o], input.applicantAccountId), ok, true)
  {
    if AllOwned(a) {
      assert HasOwner(a.orgs[o]);
    }
    StepPartway(a, before, b, now, o, input, WithInvitation(a.orgs[o], input.applicantAccountId), ok, true);
  }

  // Neither the approval nor the stamp makes the application refused or touches anybody.
  lemma StampFits(org: Org, input: Input)
    requires !BindRefused(org, input) && (!Legacy(input) ==> !Resumes(org, input))
    ensures var approved := Approved(org);
            var stamped := Stamped(approved, BindStamp(input, !Legacy(input)));
            && !Refused(org, input) && !Refused(approved, input) && !Refused(stamped, input)
            && Contained(org, approved, input) && Contained(approved, stamped, input)
  {
  }

  lemma SeatingParts(org: Org, owner: Option<Id>, demote: bool, input: Input)
    ensures Ownership(org, owner, demote, input) == org ==> GrantedTo(org, owner) == org
  {
    if owner.Some? && owner.value != input.reviewer {
      assert Find(Ownership(org, owner, demote, input).members, owner.value) == Some(Owner);
    }
  }

  lemma GrantPartway(a: Auth, before: Log, b: Auth, now: Log, o: Id, input: Input, owner: Option<Id>, ok: bool, owned: bool)
    requires o in a.orgs && owner.Some? && (owner == input.proposer || owner == Some(input.reviewer))
    requires Seatable(a.orgs[o], input) && (Legacy(input) ==> owner == input.proposer)
    requires OneStep(a, before, b, now, o, GrantedTo(a.orgs[o], owner), ok)
    ensures Partway(a, before, b, now, o, input, GrantedTo(a.orgs[o], owner), ok, owned)
  {
    SeatingKeepsOwner(a.orgs[o], owner, false, input);
    StepPartway(a, before, b, now, o, input, GrantedTo(a.orgs[o], owner), ok, owned);
  }

  // `a` is the store before the owner was granted, `b` the one after.
  lemma SeatPartway(a: Auth, b: Auth, now: Log, c: Auth, later: Log, o: Id, input: Input, owner: Option<Id>,
                    demote: bool, ok: bool, owned: bool)
    requires o in a.orgs && b == Put(a, o, GrantedTo(a.orgs[o], owner)) && owner != Some(input.reviewer)
    requires Seatable(a.orgs[o], input) && (Legacy(input) ==> owner == input.proposer)
    requires OneStep(b, now, c, later, o, Seated(b.orgs[o], input.reviewer, demote), ok)
    requires owned ==> owner.Some? || !demote || !OnlyOwner(a.orgs[o], input.reviewer)
    ensures Partway(b, now, c, later, o, input, Ownership(a.orgs[o], owner, demote, input), ok, owned)
  {
    if owned && AllOwned(b) {
      assert owner.None? ==> b.orgs[o] == a.orgs[o];
      assert HasOwner(b.orgs[o]);
      SeatingKeepsOwner(a.orgs[o], owner, demote, input);
    }
    StepPartway(b, now, c, later, o, input, Ownership(a.orgs[o], owner, demote, input), ok, owned);
  }

  lemma SeatingKeepsOwner(org: Org, owner: Option<Id>, demote: bool, input: Input)
    requires owner.Some? || !demote || !OnlyOwner(org, input.reviewer)
    requires owner.Some? || HasOwner(org)
    ensures HasOwner(GrantedTo(org, owner)) && HasOwner(Ownership(org, owner, demote, input))
  {
    var granted, done := GrantedTo(org, owner), Ownership(org, owner, demote, input);
    if owner.Some? {
      assert Find(granted.members, owner.value) == Some(Owner);
      assert owner.value in granted.members && owner.value in done.members;
    } else if demote {
      var u :| u in org.members && org.members[u].Owner? && u != input.reviewer;
      assert u in done.members && done.members[u].Owner?;
    } else {
      var u :| u in org.members && org.members[u].Owner?;
      assert u in done.members && done.members[u].Owner?;
    }
  }

  // The first `i` default teams are there.
  function Half(a: Auth, o: Id, i: nat): Auth
    requires o in a.orgs && i <= |DEFAULT_TEAMS|
  {
    var was := a.orgs[o];
    Put(a, o, was.(teams := was.teams + Missing(was.teams, DEFAULT_TEAMS[..i])))
  }

  lemma HalfStarts(a: Auth, o: Id)
    requires o in a.orgs
    ensures Half(a, o, 0) == a
  {
    assert a.orgs[o].teams + [] == a.orgs[o].teams;
  }

  lemma HalfGrows(a: Auth, o: Id, i: nat)
    requires o in a.orgs && i < |DEFAULT_TEAMS|
    ensures var stored, team := a.orgs[o].teams, DEFAULT_TEAMS[i];
            && Missing(stored, DEFAULT_TEAMS[..i + 1]) ==
               Missing(stored, DEFAULT_TEAMS[..i]) + (if team in stored then [] else [team])
            && Half(a, o, i + 1) ==
               if team in stored then Half(a, o, i) else Apply(Half(a, o, i), AddTeam(o, team))
  {
    var stored, team := a.orgs[o].teams, DEFAULT_TEAMS[i];
    assert DEFAULT_TEAMS[..i + 1][..i] == DEFAULT_TEAMS[..i];
    var some := Missing(stored, DEFAULT_TEAMS[..i]);
    assert some + [] == some;
    assert (stored + some) + [team] == stored + (some + [team]);
  }

  lemma HalfDiffers(a: Auth, o: Id, i: nat)
    requires o in a.orgs && i < |DEFAULT_TEAMS| && DEFAULT_TEAMS[i] !in a.orgs[o].teams
    ensures Half(a, o, i + 1) != Half(a, o, i)
  {
    HalfGrows(a, o, i);
    assert |Half(a, o, i + 1).orgs[o].teams| > |Half(a, o, i).orgs[o].teams|;
  }

  lemma MissingGrows(stored: seq<string>, i: nat)
    requires i <= |DEFAULT_TEAMS|
    ensures Missing(stored, DEFAULT_TEAMS[..i]) <= Missing(stored, DEFAULT_TEAMS)
    decreases |DEFAULT_TEAMS| - i
  {
    if i < |DEFAULT_TEAMS| {
      MissingGrows(stored, i + 1);
      assert DEFAULT_TEAMS[..i + 1][..i] == DEFAULT_TEAMS[..i];
    } else {
      assert DEFAULT_TEAMS[..i] == DEFAULT_TEAMS;
    }
  }

  lemma HalfOwned(a: Auth, o: Id, i: nat)
    requires o in a.orgs && i <= |DEFAULT_TEAMS| && AllOwned(a)
    ensures AllOwned(Half(a, o, i))
  {
    assert HasOwner(a.orgs[o]);
    PutOwned(a, o, Half(a, o, i).orgs[o]);
  }

  lemma HalfContained(a: Auth, o: Id, input: Input, i: nat)
    requires o in a.orgs && i <= |DEFAULT_TEAMS|
    ensures Contained(a.orgs[o], Half(a, o, i).orgs[o], input)
    ensures Refused(Half(a, o, i).orgs[o], input) == Refused(a.orgs[o], input)
  {
    TeamsWithinSome(a.orgs[o].teams, i);
  }

  lemma HalfIdle(a: Auth, o: Id, i: nat)
    requires o in a.orgs && i <= |DEFAULT_TEAMS| && WithTeams(a.orgs[o]) == a.orgs[o]
    ensures Missing(a.orgs[o].teams, DEFAULT_TEAMS[..i]) == [] && Half(a, o, i) == a
  {
    var was := a.orgs[o];
    MissingGrows(was.teams, i);
    assert |was.teams + Missing(was.teams, DEFAULT_TEAMS)| == |was.teams|;
    assert was.teams + [] == was.teams;
  }

  lemma TeamsPartway(a: Auth, before: Log, b: Auth, now: Log, o: Id, input: Input, i: nat)
    requires o in a.orgs && i <= |DEFAULT_TEAMS| && b == Half(a, o, i)
    requires before <= now && (AllOwned(a) ==> OwnedSince(before, now))
    requires Missing(a.orgs[o].teams, DEFAULT_TEAMS[..i]) == [] ==> now == before
    ensures Partway(a, before, b, now, o, input, WithTeams(a.orgs[o]), i == |DEFAULT_TEAMS|, true)
  {
    HalfContained(a, o, input, i);
    assert DEFAULT_TEAMS[..|DEFAULT_TEAMS|] == DEFAULT_TEAMS;
    if WithTeams(a.orgs[o]) == a.orgs[o] {
      HalfIdle(a, o, i);
    }
    if AllOwned(a) {
      HalfOwned(a, o, i);
    }
  }
}
