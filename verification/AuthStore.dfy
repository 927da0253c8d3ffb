/**
 The organizations the auth plugin keeps, and the calls that change them, each one atomic step. `created`
 is history that the plugin does not store: which application's setup created an organization.
 */
module AuthStore {
  import opened Wrappers

  type Id = string

  datatype MetaKey = CommunityProposalId | CommunityApplicantId | CommunityApplicantAccountId | CommunityReviewerId
                   | CommunityLinkedOrg | OtherKey(name: string)

  type Metadata = map<MetaKey, string>

  datatype Role = Owner | Admin | Member

  datatype OrgStatus = Active | Pending | Rejected

  datatype Invitation = Invitation(accountId: Id, open: bool)

  datatype Org = Org(
    slug: string, status: OrgStatus, requestedBy: Option<Id>, metadata: Metadata, members: map<Id, Role>,
    invitations: seq<Invitation>, teams: seq<string>, onboardingCodes: nat)

  datatype Auth = Auth(orgs: map<Id, Org>, created: map<Id, Id>)

  datatype Write =
    | Create(org: Id, record: Org, proposalId: Id)
    | Approve(org: Id)
    | PutMetadata(org: Id, metadata: Metadata)
    | SetMember(org: Id, user: Id, role: Role)
    | AddTeam(org: Id, name: string)
    | Invite(org: Id, accountId: Id)
    | Delete(org: Id)

  predicate SlugTaken(a: Auth, slug: string) {
    exists o | o in a.orgs :: a.orgs[o].slug == slug
  }

  ghost predicate OrgSlugsUnique(a: Auth) {
    forall o, p :: o in a.orgs && p in a.orgs && a.orgs[o].slug == a.orgs[p].slug ==> o == p
  }

  predicate CanWrite(a: Auth, w: Write) {
    if w.Create? then w.org !in a.orgs && w.org !in a.created && !SlugTaken(a, w.record.slug)
    else w.org in a.orgs
  }

  function Changed(org: Org, w: Write): Org {
    match w
    case Approve(_) => org.(status := Active)
    case PutMetadata(_, metadata) => org.(metadata := metadata)
    case SetMember(_, user, role) => org.(members := org.members[user := role])
    case AddTeam(_, name) => org.(teams := org.teams + [name])
    case Invite(_, accountId) => org.(invitations := org.invitations + [Invitation(accountId, true)])
    case _ => org
  }

  // A call that cannot be carried out changes nothing.
  function Apply(a: Auth, w: Write): Auth {
    if !CanWrite(a, w) then a
    else if w.Create? then Auth(a.orgs[w.org := w.record], a.created[w.org := w.proposalId])
    else if w.Delete? then a.(orgs := a.orgs - {w.org})
    else a.(orgs := a.orgs[w.org := Changed(a.orgs[w.org], w)])
  }

  // What a call does to one organization: a deletion takes away its own, a creation adds one under a new id and
  // a free slug, and any other call changes only what it is for.
  lemma ApplyTouches(a: Auth, w: Write, o: Id)
    ensures var b := Apply(a, w);
            && (o != w.org ==> Find(b.orgs, o) == Find(a.orgs, o))
            && (w.Create? && w.org in a.orgs ==> b == a)
            && (w.Create? && w.org !in a.orgs && w.org !in a.created ==>
                  if exists p :: p in a.orgs && a.orgs[p].slug == w.record.slug then b == a
                  else Find(b.orgs, w.org) == Some(w.record) && Find(b.created, w.org) == Some(w.proposalId))
            && (w.Delete? ==> w.org !in b.orgs)
            && (!w.Create? && !w.Delete? && w.org in a.orgs ==>
                  && w.org in b.orgs
                  && var was, now := a.orgs[w.org], b.orgs[w.org];
                     && now.slug == was.slug && now.requestedBy == was.requestedBy && now.onboardingCodes == was.onboardingCodes
                     && now.status == (if w.Approve? then Active else was.status)
                     && now.metadata == (if w.PutMetadata? then w.metadata else was.metadata)
                     && now.members == (if w.SetMember? then was.members[w.user := w.role] else was.members)
                     && now.teams == (if w.AddTeam? then was.teams + [w.name] else was.teams)
                     && now.invitations == if w.Invite? then was.invitations + [Invitation(w.accountId, true)] else was.invitations)
  {
    assert w.Create? && (exists p :: p in a.orgs && a.orgs[p].slug == w.record.slug) ==> SlugTaken(a, w.record.slug);
  }

  // --- Whose organization it is ---

  function Stamp(org: Org): Option<string> { Find(org.metadata, CommunityProposalId) }

  predicate Linked(org: Org) { Find(org.metadata, CommunityLinkedOrg) == Some("true") }

  // What the setup of one application writes. `legacy`: the application names an existing organization.
  predicate Allowed(proposalId: Id, legacy: bool, w: Write) {
    match w
    case Create(_, record, p) => p == proposalId && Stamp(record) == Some(proposalId)
    case PutMetadata(_, m) =>
      Find(m, CommunityProposalId) == Some(proposalId) && (legacy || Find(m, CommunityLinkedOrg) == Some("true"))
    case Delete(_) => false
    case _ => true
  }

  // An organization stamped by a non-legacy application and not marked as linked was created by that application.
  ghost predicate StampsHonest(a: Auth, legacy: set<Id>) {
    forall o :: o in a.orgs && Stamp(a.orgs[o]).Some? && Stamp(a.orgs[o]).value !in legacy && !Linked(a.orgs[o]) ==>
      Find(a.created, o) == Stamp(a.orgs[o])
  }

  lemma AllowedKeepsStamps(a: Auth, legacy: set<Id>, proposalId: Id, w: Write)
    requires StampsHonest(a, legacy) && Allowed(proposalId, proposalId in legacy, w)
    ensures StampsHonest(Apply(a, w), legacy)
    ensures forall o :: o in a.created ==> Find(Apply(a, w).created, o) == Some(a.created[o])
  {
  }
}
