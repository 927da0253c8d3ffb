/**
 What one community application asks of the auth plugin: which existing organizations it refuses, what a
 completed setup makes of an organization, and when a release may delete it.
 */
module CommunitySpec {
  import opened Wrappers
  import opened AuthStore

  // `proposer` is the applicant's user id, when the application names one.
  datatype Input = Input(
    proposalId: Id, slug: string, proposer: Option<Id>, applicantAccountId: Id, reviewer: Id,
    legacyOrg: Option<Id>)

  const DEFAULT_TEAMS: seq<string> := ["Operations", "Treasury", "Community"]

  predicate Legacy(input: Input) { input.legacyOrg.Some? && input.proposer.Some? }

  function ApplicantMetadata(input: Input): Metadata {
    match input.proposer
    case Some(p) => map[CommunityProposalId := input.proposalId, CommunityApplicantId := p,
                        CommunityReviewerId := input.reviewer]
    case None => map[CommunityProposalId := input.proposalId,
                     CommunityApplicantAccountId := input.applicantAccountId,
                     CommunityReviewerId := input.reviewer]
  }

  function BindStamp(input: Input, adopted: bool): Metadata {
    if adopted then ApplicantMetadata(input)[CommunityLinkedOrg := "true"] else ApplicantMetadata(input)
  }

  // --- Refusals ---

  // Another application's organization. An empty stamp is no stamp.
  predicate Foreign(org: Org, proposalId: Id) {
    Stamp(org).Some? && Stamp(org).value != "" && Stamp(org).value != proposalId
  }

  predicate BindRefused(org: Org, input: Input) {
    || Foreign(org, input.proposalId)
    || (org.requestedBy.Some? && input.proposer.Some? && org.requestedBy != input.proposer &&
        Find(org.members, input.proposer.value) != Some(Owner))
    || org.status.Rejected?
  }

  predicate Resumes(org: Org, input: Input) { Stamp(org) == Some(input.proposalId) }

  predicate SlugRefused(org: Org, input: Input) {
    if Resumes(org, input) then org.status.Rejected? else BindRefused(org, input)
  }

  // The application cannot be set up as things stand.
  ghost predicate Blocked(a: Auth, input: Input) {
    if Legacy(input) then
      input.legacyOrg.value !in a.orgs || BindRefused(a.orgs[input.legacyOrg.value], input)
    else exists o :: o in a.orgs && a.orgs[o].slug == input.slug && SlugRefused(a.orgs[o], input)
  }

  // --- The steps, and the completed setup ---

  function Approved(org: Org): Org { org.(status := if org.status.Pending? then Active else org.status) }

  function Stamped(org: Org, stamp: Metadata): Org { org.(metadata := org.metadata + stamp) }

  function Granted(org: Org, user: Id): Org { org.(members := org.members[user := Owner]) }

  function Seated(org: Org, reviewer: Id, demote: bool): Org {
    if reviewer !in org.members || (demote && org.members[reviewer].Owner?)
    then org.(members := org.members[reviewer := Admin]) else org
  }

  predicate Invited(org: Org, accountId: Id) { Invitation(accountId, true) in org.invitations }

  function WithInvitation(org: Org, accountId: Id): Org {
    if Invited(org, accountId) then org
    else org.(invitations := org.invitations + [Invitation(accountId, true)])
  }

  function Missing(stored: seq<string>, wanted: seq<string>): seq<string> {
    if wanted == [] then []
    else Missing(stored, wanted[..|wanted| - 1]) +
         (if wanted[|wanted| - 1] in stored then [] else [wanted[|wanted| - 1]])
  }

  function WithTeams(org: Org): Org { org.(teams := org.teams + Missing(org.teams, DEFAULT_TEAMS)) }

  function SeatedBeside(org: Org, reviewer: Id, owner: Option<Id>, demote: bool): Org {
    if owner == Some(reviewer) then org else Seated(org, reviewer, demote)
  }

  function Bound(org: Org, input: Input, adopted: bool): Org {
    var stamped := Stamped(Approved(org), BindStamp(input, adopted));
    var granted := if input.proposer.Some? then Granted(stamped, input.proposer.value) else stamped;
    WithTeams(SeatedBeside(granted, input.reviewer, input.proposer, adopted))
  }

  // The setup continues in an organization that carries its stamp.
  function Resumed(org: Org, input: Input): Org {
    var approved := Approved(org);
    if input.proposer.None? && Linked(org) then WithTeams(Seated(approved, input.reviewer, false))
    else
      var owner := if input.proposer.Some? then input.proposer.value else input.reviewer;
      var seated := SeatedBeside(Granted(approved, owner), input.reviewer, Some(owner), true);
      WithTeams(if input.proposer.None? then WithInvitation(seated, input.applicantAccountId) else seated)
  }

  // --- What a completed setup means ---

  ghost predicate HasOwner(org: Org) { exists u :: u in org.members && org.members[u].Owner? }

  ghost predicate AllOwned(a: Auth) { forall o :: o in a.orgs ==> HasOwner(a.orgs[o]) }

  predicate OnlyOwner(org: Org, u: Id) {
    forall v :: v in org.members && org.members[v].Owner? ==> v == u
  }

  // An application without a named applicant is about to adopt an organization only its reviewer owns.
  ghost predicate WouldOrphan(a: Auth, input: Input) {
    && input.proposer.None?
    && exists o :: o in a.orgs && a.orgs[o].slug == input.slug && !Resumes(a.orgs[o], input) &&
                   OnlyOwner(a.orgs[o], input.reviewer)
  }

  ghost predicate RolesSettled(org: Org, input: Input) {
    match input.proposer
    case Some(p) =>
      && Find(org.members, p) == Some(Owner)
      && (p != input.reviewer ==> input.reviewer in org.members)
      && (p != input.reviewer && !Legacy(input) ==> !org.members[input.reviewer].Owner?)
    case None =>
      && input.reviewer in org.members
      && (!Linked(org) ==> org.members[input.reviewer].Owner? && Invited(org, input.applicantAccountId))
  }

  ghost predicate MarksSettled(org: Org, input: Input) {
    && org.status.Active?
    && Stamp(org) == Some(input.proposalId)
    && (Legacy(input) ==> forall k :: k in ApplicantMetadata(input) ==>
          Find(org.metadata, k) == Some(ApplicantMetadata(input)[k]))
  }

  ghost predicate Settled(org: Org, input: Input) {
    && MarksSettled(org, input)
    && RolesSettled(org, input)
    && (forall t :: t in DEFAULT_TEAMS ==> t in org.teams)
  }

  lemma {:induction false} MissingOnce(stored: seq<string>, wanted: seq<string>, t: string)
    requires forall i, j :: 0 <= i < j < |wanted| ==> wanted[i] != wanted[j]
    ensures multiset(Missing(stored, wanted))[t] == if t in wanted && t !in stored then 1 else 0
  {
    if wanted != [] {
      var rest, last := wanted[..|wanted| - 1], wanted[|wanted| - 1];
      MissingOnce(stored, rest, t);
      assert wanted == rest + [last];
    }
  }

  // Each default team is there: once if it was missing, otherwise as often as before.
  ghost predicate TeamsCompleted(before: seq<string>, after: seq<string>) {
    forall t :: t in DEFAULT_TEAMS ==>
      multiset(after)[t] == if t in before then multiset(before)[t] else 1
  }

  lemma TeamsComplete(teams: seq<string>)
    ensures TeamsCompleted(teams, teams + Missing(teams, DEFAULT_TEAMS))
  {
    assert "Operations"[0] == 'O' && "Treasury"[0] == 'T' && "Community"[0] == 'C';
    forall t | t in DEFAULT_TEAMS
      ensures multiset(teams + Missing(teams, DEFAULT_TEAMS))[t] == if t in teams then multiset(teams)[t] else 1
    {
      MissingOnce(teams, DEFAULT_TEAMS, t);
    }
  }

  lemma CompletedIsThere(before: seq<string>, after: seq<string>)
    requires TeamsCompleted(before, after)
    ensures forall t :: t in DEFAULT_TEAMS ==> t in after
  {
    forall t | t in DEFAULT_TEAMS ensures t in after {
      assert multiset(after)[t] > 0;
    }
  }

  ghost predicate OthersKeepRoles(before: Org, after: Org, input: Input) {
    forall u :: Some(u) != input.proposer && u != input.reviewer ==>
      Find(after.members, u) == Find(before.members, u)
  }

  lemma BoundRoles(org: Org, input: Input)
    ensures var b := Bound(org, input, !Legacy(input));
            RolesSettled(b, input) && OthersKeepRoles(org, b, input)
  {
    var b := Bound(org, input, !Legacy(input));
    assert b.metadata == org.metadata + BindStamp(input, !Legacy(input));
    assert input.proposer.None? ==> Linked(b);
  }

  lemma BoundMarks(org: Org, input: Input)
    requires !org.status.Rejected?
    ensures MarksSettled(Bound(org, input, !Legacy(input)), input)
  {
    var b := Bound(org, input, !Legacy(input));
    assert b.metadata == org.metadata + BindStamp(input, !Legacy(input));
    assert b.status == Approved(org).status;
  }

  lemma ResumedRoles(org: Org, input: Input)
    requires Resumes(org, input) && !Legacy(input)
    ensures var b := Resumed(org, input);
            RolesSettled(b, input) && OthersKeepRoles(org, b, input)
  {
    assert Resumed(org, input).metadata == org.metadata;
  }

  // A completed setup leaves the applicant owning the organization, the reviewer not owning it (unless the
  // reviewer is the applicant), and each default team there: once, if it was there at most once. Nobody
  // else's role changes.
  lemma BoundSettles(org: Org, input: Input)
    requires !BindRefused(org, input)
    ensures var b := Bound(org, input, !Legacy(input));
            Settled(b, input) && TeamsCompleted(org.teams, b.teams) && OthersKeepRoles(org, b, input)
  {
    BoundRoles(org, input);
    BoundMarks(org, input);
    TeamsComplete(org.teams);
    CompletedIsThere(org.teams, org.teams + Missing(org.teams, DEFAULT_TEAMS));
  }

  lemma ResumedMarks(org: Org, input: Input)
    requires Resumes(org, input) && !org.status.Rejected? && !Legacy(input)
    ensures var b := Resumed(org, input);
            MarksSettled(b, input) && b.teams == org.teams + Missing(org.teams, DEFAULT_TEAMS)
  {
    assert Resumed(org, input).metadata == org.metadata;
  }

  lemma ResumedSettles(org: Org, input: Input)
    requires Resumes(org, input) && !org.status.Rejected? && !Legacy(input)
    ensures var b := Resumed(org, input);
            Settled(b, input) && TeamsCompleted(org.teams, b.teams) && OthersKeepRoles(org, b, input)
  {
    ResumedRoles(org, input);
    ResumedMarks(org, input);
    TeamsComplete(org.teams);
    CompletedIsThere(org.teams, org.teams + Missing(org.teams, DEFAULT_TEAMS));
  }

  lemma NoneMissing(stored: seq<string>, wanted: seq<string>)
    requires forall t :: t in wanted ==> t in stored
    ensures Missing(stored, wanted) == []
  {
  }

  // Running the setup of a settled organization again has nothing left to do.
  lemma SettledStays(org: Org, input: Input)
    requires Settled(org, input)
    ensures if Legacy(input) then !BindRefused(org, input) && Bound(org, input, false) == org
            else Resumes(org, input) && Resumed(org, input) == org
  {
    NoneMissing(org.teams, DEFAULT_TEAMS);
    assert org.teams + [] == org.teams;
    if Legacy(input) {
      assert org.metadata + ApplicantMetadata(input) == org.metadata;
    }
  }

  // --- Release ---

  datatype Verdict = Released | NotFound | Existing | InUse

  // The people the setup itself put there.
  function Provisioned(org: Org): set<Id> {
    (if org.requestedBy.Some? then {org.requestedBy.value} else {}) +
    (if CommunityApplicantId in org.metadata then {org.metadata[CommunityApplicantId]} else {}) +
    (if CommunityReviewerId in org.metadata then {org.metadata[CommunityReviewerId]} else {})
  }

  predicate ForApplicant(org: Org, invitation: Invitation) {
    && CommunityApplicantAccountId in org.metadata
    && org.metadata[CommunityApplicantAccountId] != ""
    && org.metadata[CommunityApplicantAccountId] == invitation.accountId
  }

  predicate InUseBy(org: Org) {
    || (exists u :: u in org.members && u !in Provisioned(org))
    || (exists i :: i in org.invitations && !ForApplicant(org, i))
    || org.onboardingCodes > 0
  }

  function Judge(a: Auth, o: Id, proposalId: Id): Verdict {
    if o !in a.orgs || Stamp(a.orgs[o]) != Some(proposalId) then NotFound
    else if Linked(a.orgs[o]) then Existing
    else if InUseBy(a.orgs[o]) then InUse
    else Released
  }

  // A release goes through exactly if the organization carries the application's stamp, is not marked as linked,
  // and nobody but the people the setup put there has a part in it.
  lemma ReleasedMeans(a: Auth, o: Id, proposalId: Id)
    ensures Judge(a, o, proposalId) == Released <==>
      && o in a.orgs
      && var org := a.orgs[o];
         && CommunityProposalId in org.metadata && org.metadata[CommunityProposalId] == proposalId
         && !(CommunityLinkedOrg in org.metadata && org.metadata[CommunityLinkedOrg] == "true")
         && (forall u :: u in org.members ==>
               || org.requestedBy == Some(u)
               || (CommunityApplicantId in org.metadata && org.metadata[CommunityApplicantId] == u)
               || (CommunityReviewerId in org.metadata && org.metadata[CommunityReviewerId] == u))
         && (forall i :: i in org.invitations ==>
               CommunityApplicantAccountId in org.metadata && i.accountId == org.metadata[CommunityApplicantAccountId] != "")
         && org.onboardingCodes == 0
  {
    if o in a.orgs {
      var org := a.orgs[o];
      assert forall u :: u in Provisioned(org) <==>
        || org.requestedBy == Some(u)
        || (CommunityApplicantId in org.metadata && org.metadata[CommunityApplicantId] == u)
        || (CommunityReviewerId in org.metadata && org.metadata[CommunityReviewerId] == u);
    }
  }

  // And otherwise the first thing that stands against it is named.
  lemma KeptBecause(a: Auth, o: Id, proposalId: Id)
    ensures Judge(a, o, proposalId) == NotFound <==>
      !(o in a.orgs && CommunityProposalId in a.orgs[o].metadata && a.orgs[o].metadata[CommunityProposalId] == proposalId)
    ensures Judge(a, o, proposalId) == Existing <==>
      && o in a.orgs && CommunityProposalId in a.orgs[o].metadata && a.orgs[o].metadata[CommunityProposalId] == proposalId
      && CommunityLinkedOrg in a.orgs[o].metadata && a.orgs[o].metadata[CommunityLinkedOrg] == "true"
  {
  }

  predicate NoneTwice(teams: seq<string>) {
    forall i, j | 0 <= i < j < |teams| :: teams[i] != teams[j]
  }

  lemma {:induction false} NoneTwiceCounts(teams: seq<string>, t: string)
    requires NoneTwice(teams)
    ensures multiset(teams)[t] <= 1
  {
    if teams != [] {
      var rest := teams[..|teams| - 1];
      NoneTwiceCounts(rest, t);
      assert teams == rest + [teams[|teams| - 1]];
    }
  }

  // An organization as its own setup made it, with nobody else in it.
  ghost predicate Own(org: Org, input: Input) {
    && org.metadata == ApplicantMetadata(input)
    && (forall u :: u in org.members ==> Some(u) == input.proposer || u == input.reviewer)
    && (forall i :: i in org.invitations ==> input.proposer.None? && i.accountId == input.applicantAccountId)
    && org.onboardingCodes == 0
    && (forall t :: t in DEFAULT_TEAMS ==> multiset(org.teams)[t] <= 1)
  }

  // A release takes such an organization away again.
  lemma OwnIsReleased(a: Auth, o: Id, input: Input)
    requires o in a.orgs && Own(a.orgs[o], input) && input.applicantAccountId != ""
    ensures Judge(a, o, input.proposalId) == Released
  {
    var org := a.orgs[o];
    assert Find(org.metadata, CommunityProposalId) == Some(input.proposalId);
    assert CommunityLinkedOrg !in org.metadata;
  }

  lemma SecondPeople(org: Org, input: Input, second: Id)
    requires Own(org, input) && !Legacy(input)
    ensures var resumed := Resumed(org, input.(reviewer := second));
            && resumed.metadata == org.metadata && resumed.requestedBy == org.requestedBy
            && resumed.onboardingCodes == 0 && second in resumed.members
            && (forall u :: u in resumed.members ==> Some(u) == input.proposer || u == input.reviewer || u == second)
            && (forall i :: i in resumed.invitations ==> input.proposer.None? && i.accountId == input.applicantAccountId)
  {
    assert CommunityLinkedOrg !in org.metadata;
  }

  lemma SecondInUse(org: Org, input: Input, second: Id)
    requires Own(org, input) && !Legacy(input) && input.applicantAccountId != ""
    ensures InUseBy(Resumed(org, input.(reviewer := second))) <==>
      second != input.reviewer && input.proposer != Some(second) && org.requestedBy != Some(second)
  {
    SecondPeople(org, input, second);
  }

  // A second admin who completes the setup keeps it in use, unless that is the applicant or the requester.
  lemma SecondAdminStays(a: Auth, o: Id, input: Input, second: Id)
    requires o in a.orgs && Own(a.orgs[o], input) && !Legacy(input) && input.applicantAccountId != ""
    ensures var resumed := Resumed(a.orgs[o], input.(reviewer := second));
            Judge(a.(orgs := a.orgs[o := resumed]), o, input.proposalId) ==
            if second == input.reviewer || input.proposer == Some(second) || a.orgs[o].requestedBy == Some(second)
            then Released else InUse
  {
    SecondPeople(a.orgs[o], input, second);
    SecondInUse(a.orgs[o], input, second);
    assert Find(a.orgs[o].metadata, CommunityProposalId) == Some(input.proposalId);
    assert CommunityLinkedOrg !in a.orgs[o].metadata;
  }
}
