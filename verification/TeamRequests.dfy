/**
 Requests to join a team. `TeamJoinRequestsService` is the table's code; the state machine interleaves the
 handlers that read a request first and decide it later.
 */
module TeamRequests {
  import opened Wrappers

  type Id = nat

  datatype Status = Pending | Approved | Declined | Withdrawn | Closed

  datatype Reason = RequesterLeft | TeamDeleted | TeamNotJoinable

  datatype Request = Request(
    organizationId: string, team: string, user: string, status: Status, decidedBy: Option<string>,
    closedReason: Option<Reason>)

  type Requests = map<Id, Request>

  // --- When a pending request is closed without a decision ---

  // `joinable`: the community's teams, and whether each is open to requests.
  datatype Community = Community(members: set<string>, joinable: map<string, bool>)

  function ClosureReason(team: string, user: string, community: Community): Option<Reason> {
    if user !in community.members then Some(RequesterLeft)
    else if team !in community.joinable then Some(TeamDeleted)
    else if !community.joinable[team] then Some(TeamNotJoinable)
    else None
  }

  // --- The table ---

  // The partial unique index.
  predicate OnePending(requests: Requests) {
    forall i, j | i in requests && j in requests && i != j ::
      !(requests[i].status.Pending? && requests[j].status.Pending? &&
        requests[i].team == requests[j].team && requests[i].user == requests[j].user)
  }

  predicate HasPending(requests: Requests, team: string, user: string) {
    exists i | i in requests :: requests[i].status.Pending? && requests[i].team == team && requests[i].user == user
  }

  predicate IsPending(requests: Requests, id: Id) { id in requests && requests[id].status.Pending? }

  // Compare and set: only a pending row is decided.
  function Decided(requests: Requests, id: Id, to: Request -> Request): Requests {
    if IsPending(requests, id) then requests[id := to(requests[id])] else requests
  }

  function WithReason(requests: Requests, ids: set<Id>, reason: Reason): Requests {
    map i | i in requests ::
      if i in ids && requests[i].status.Pending? then requests[i].(status := Closed, closedReason := Some(reason))
      else requests[i]
  }

  type Closures = seq<(Id, Reason)>

  function Reasons(closures: Closures): (r: seq<Reason>)
    ensures forall c :: c in closures ==> c.1 in r
    ensures forall reason :: reason in r ==> exists i :: (i, reason) in closures
  {
    if closures == [] then []
    else
      var before, last := closures[..|closures| - 1], closures[|closures| - 1];
      var some := Reasons(before);
      assert closures == before + [last];
      assert last == (last.0, last.1);
      if last.1 in some then some else some + [last.1]
  }

  function IdsWith(closures: Closures, reason: Reason): set<Id> {
    set c | c in closures && c.1 == reason :: c.0
  }

  // After the statements for `reasons`: exactly the pending rows listed with one of them are closed, each with
  // a reason it was listed with, and nothing else has changed.
  ghost predicate ClosedBy(before: Requests, after: Requests, closures: Closures, reasons: set<Reason>) {
    && after.Keys == before.Keys
    && forall i :: i in before ==>
      if before[i].status.Pending? && (exists r :: r in reasons && (i, r) in closures) then
        && after[i].closedReason.Some? && after[i].closedReason.value in reasons
        && (i, after[i].closedReason.value) in closures
        && after[i] == before[i].(status := Closed, closedReason := after[i].closedReason)
      else after[i] == before[i]
  }

  lemma ClosedOn(before: Requests, now: Requests, closures: Closures, reasons: set<Reason>, reason: Reason)
    requires ClosedBy(before, now, closures, reasons)
    ensures ClosedBy(before, WithReason(now, IdsWith(closures, reason), reason), closures, reasons + {reason})
  {
    var ids := IdsWith(closures, reason);
    var after := WithReason(now, ids, reason);
    forall i | i in before
      ensures i in ids <==> (i, reason) in closures
      ensures (exists r :: r in reasons + {reason} && (i, r) in closures) <==>
              (exists r :: r in reasons && (i, r) in closures) || (i, reason) in closures
    {
      if (i, reason) in closures {
        assert (i, reason).1 == reason;
        assert reason in reasons + {reason};
      }
      assert forall r :: r in reasons ==> r in reasons + {reason};
    }
  }

  // --- Endorsements ---

  datatype Endorsement = Endorsement(request: Id, user: string)

  type Endorsements = seq<Endorsement>

  // The unique index.
  predicate OncePerEndorser(rows: Endorsements) {
    forall j, k | 0 <= j < k < |rows| :: rows[j] != rows[k]
  }

  predicate Endorsed(rows: Endorsements, id: Id, user: string) { Endorsement(id, user) in rows }

  // What is shown with a request: how many rows it has.
  function EndorsementCount(rows: Endorsements, id: Id): nat {
    if rows == [] then 0
    else EndorsementCount(rows[..|rows| - 1], id) + if rows[|rows| - 1].request == id then 1 else 0
  }

  function Endorsers(rows: Endorsements, id: Id): set<string> {
    set e | e in rows && e.request == id :: e.user
  }

  // The rows of a request are as many as the people who endorsed it.
  lemma {:induction false} CountIsPeople(rows: Endorsements, id: Id)
    requires OncePerEndorser(rows)
    ensures EndorsementCount(rows, id) == |Endorsers(rows, id)|
  {
    if rows != [] {
      var before, last := rows[..|rows| - 1], rows[|rows| - 1];
      CountIsPeople(before, id);
      assert rows == before + [last];
      if last.request == id {
        assert last.user !in Endorsers(before, id);
        assert Endorsers(rows, id) == Endorsers(before, id) + {last.user};
      } else {
        assert Endorsers(rows, id) == Endorsers(before, id);
      }
    }
  }

  class TeamJoinRequestsService {
    var requests: Requests
    var endorsements: Endorsements

    constructor ()
      ensures requests == map[] && endorsements == []
    {
      requests, endorsements := map[], [];
    }

    method Create(id: Id, organizationId: string, team: string, user: string) returns (r: Option<Request>)
      requires id !in requests && OnePending(requests)
      modifies `requests
      ensures OnePending(requests)
      ensures r.None? <==> exists i :: i in old(requests) && old(requests)[i].status.Pending? &&
                                   old(requests)[i].team == team && old(requests)[i].user == user
      ensures requests == if r.None? then old(requests) else old(requests)[id := r.value]
      ensures r.Some? ==> r.value == Request(organizationId, team, user, Pending, None, None)
    {
      if HasPending(requests, team, user) {
        return None;
      }
      var row := Request(organizationId, team, user, Pending, None, None);
      requests := requests[id := row];
      return Some(row);
    }

    method Settle(id: Id, status: Status, decidedBy: string) returns (won: bool)
      requires !status.Pending? && !status.Closed? && OnePending(requests)
      modifies `requests
      ensures OnePending(requests)
      ensures won <==> IsPending(old(requests), id)
      ensures requests == Decided(old(requests), id, (row: Request) => row.(status := status, decidedBy := Some(decidedBy)))
    {
      won := IsPending(requests, id);
      if won {
        requests := requests[id := requests[id].(status := status, decidedBy := Some(decidedBy))];
      }
    }

    method Close(closures: Closures)
      requires OnePending(requests)
      modifies `requests
      ensures OnePending(requests)
      ensures ClosedBy(old(requests), requests, closures, set c | c in closures :: c.1)
    {
      var reasons := Reasons(closures);
      ghost var done: set<Reason> := {};
      for k := 0 to |reasons|
        invariant OnePending(requests)
        invariant done == set r | r in reasons[..k]
        invariant ClosedBy(old(requests), requests, closures, done)
      {
        ClosedOn(old(requests), requests, closures, done, reasons[k]);
        requests := WithReason(requests, IdsWith(closures, reasons[k]), reasons[k]);
        done := done + {reasons[k]};
        assert reasons[..k + 1] == reasons[..k] + [reasons[k]];
      }
      assert reasons[..|reasons|] == reasons;
      assert done == set c | c in closures :: c.1;
    }

    // A row for a request that is not there fails; a second row of the same user is skipped.
    method Endorse(id: Id, user: string) returns (ok: bool)
      requires OncePerEndorser(endorsements)
      modifies `endorsements
      ensures OncePerEndorser(endorsements)
      ensures ok <==> id in requests
      ensures forall i, u :: Endorsement(i, u) in endorsements <==>
                Endorsement(i, u) in old(endorsements) || (ok && i == id && u == user)
      ensures forall i :: EndorsementCount(endorsements, i) ==
                EndorsementCount(old(endorsements), i) + (if ok && i == id && !Endorsed(old(endorsements), id, user) then 1 else 0)
      ensures ok ==> forall i :: EndorsementCount(endorsements, i) == |Endorsers(endorsements, i)|
    {
      ok := id in requests;
      if ok && !Endorsed(endorsements, id, user) {
        endorsements := endorsements + [Endorsement(id, user)];
      }
      forall i ensures EndorsementCount(endorsements, i) == |Endorsers(endorsements, i)| {
        CountIsPeople(endorsements, i);
      }
    }
  }

  // --- Loading a community's requests ---

  function ReasonFor(row: Request, community: Community): Option<Reason> {
    if row.status.Pending? then ClosureReason(row.team, row.user, community) else None
  }

  function ClosuresOf(requests: Requests, listed: seq<Id>, community: Community): (r: Closures)
    requires forall i :: i in listed ==> i in requests
    ensures forall i, reason :: (i, reason) in r <==> i in listed && ReasonFor(requests[i], community) == Some(reason)
  {
    if listed == [] then []
    else
      var reason := ReasonFor(requests[listed[0]], community);
      (if reason.Some? then [(listed[0], reason.value)] else []) + ClosuresOf(requests, listed[1..], community)
  }

  // The people whose membership a load looks up: the viewer is known to be a member.
  function Requesters(requests: Requests, listed: seq<Id>, viewer: string): set<string>
    requires forall i :: i in listed ==> i in requests
  {
    set i | i in listed && requests[i].status.Pending? && requests[i].user != viewer :: requests[i].user
  }

  // Membership is looked up only for the requesters, which decides every request as the whole member list would.
  lemma LookupIsEnough(requests: Requests, listed: seq<Id>, viewer: string, members: set<string>,
                       joinable: map<string, bool>, i: Id)
    requires (forall j :: j in listed ==> j in requests) && viewer in members && i in listed
    ensures var known := Requesters(requests, listed, viewer) * members + {viewer};
            ReasonFor(requests[i], Community(known, joinable)) == ReasonFor(requests[i], Community(members, joinable))
  {
    if requests[i].status.Pending? && requests[i].user != viewer {
      assert requests[i].user in Requesters(requests, listed, viewer);
    }
  }

  // A load closes exactly the pending requests of the community that cannot be granted any more, each with
  // its reason. `listed`: the rows the load sees, all pending ones among them.
  method LoadTeamCommunity(s: TeamJoinRequestsService, organizationId: string, listed: seq<Id>, viewer: string,
                           members: set<string>, joinable: map<string, bool>)
    requires OnePending(s.requests) && viewer in members
    requires forall i :: i in listed ==> i in s.requests && s.requests[i].organizationId == organizationId
    requires forall i | i in s.requests && s.requests[i].organizationId == organizationId &&
                        s.requests[i].status.Pending? :: i in listed
    modifies s
    ensures OnePending(s.requests) && s.requests.Keys == old(s.requests).Keys
    ensures forall i :: i in s.requests ==>
      var was, now := old(s.requests)[i], s.requests[i];
      if was.organizationId != organizationId || !was.status.Pending? then now == was
      else if was.user !in members then now == was.(status := Closed, closedReason := Some(RequesterLeft))
      else if was.team !in joinable then now == was.(status := Closed, closedReason := Some(TeamDeleted))
      else if !joinable[was.team] then now == was.(status := Closed, closedReason := Some(TeamNotJoinable))
      else now == was
  {
    var community := Community(Requesters(s.requests, listed, viewer) * members + {viewer}, joinable);
    var closures := ClosuresOf(s.requests, listed, community);
    ghost var was := s.requests;
    if closures != [] {
      s.Close(closures);
    }
    forall i | i in was
      ensures s.requests[i] ==
        if was[i].organizationId == organizationId && ReasonFor(was[i], Community(members, joinable)).Some?
        then was[i].(status := Closed, closedReason := ReasonFor(was[i], Community(members, joinable))) else was[i]
    {
      if i in listed {
        LookupIsEnough(was, listed, viewer, members, joinable, i);
        var reason := ReasonFor(was[i], community);
        assert reason.Some? ==> (i, reason.value) in closures && (i, reason.value).1 == reason.value;
      }
    }
  }
}
