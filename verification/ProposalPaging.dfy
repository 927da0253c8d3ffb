/**
 Reading a DAO's proposals in pages. Removed proposals leave gaps in the ids, so a page can be short
 or empty, and an id range must never be mistaken for the end of the list.
 */
module ProposalPaging {
  import opened Wrappers
  import opened Sorting
  import opened NodeWalks

  datatype Proposal = Proposal(id: nat, submissionTime: nat, status: string)

  // The contract's storage: proposals by id, and the id the next one will get.
  datatype Dao = Dao(last: nat, stored: map<nat, Proposal>) {
    ghost predicate Valid() {
      forall id :: id in stored ==> id < last && stored[id].id == id
    }

    ghost predicate TimesGrow() {
      forall i, j :: i in stored && j in stored && i < j ==> stored[i].submissionTime <= stored[j].submissionTime
    }
  }

  datatype ReadError = Unreadable | RangeNotRead

  datatype Page = Page(proposals: seq<Proposal>, nextBefore: Option<nat>)

  // The stored proposals with lo <= id < hi, newest first.
  function Newest(dao: Dao, hi: nat, lo: nat): seq<Proposal> {
    if hi <= lo then []
    else (if hi - 1 in dao.stored then [dao.stored[hi - 1]] else []) + Newest(dao, hi - 1, lo)
  }

  // get_proposals: a range of ids, oldest first, without the removed ones.
  function GetProposals(dao: Dao, from: nat, limit: nat): seq<Proposal> {
    if limit == 0 then []
    else GetProposals(dao, from, limit - 1)
         + if from + limit - 1 in dao.stored then [dao.stored[from + limit - 1]] else []
  }

  function NewestFirst(s: seq<Proposal>): seq<Proposal> {
    SortBy(IdRank, s)
  }

  function IdRank(p: Proposal): int { 0 - p.id }

  ghost predicate Within(dao: Dao, p: Proposal, lo: int, hi: int) {
    lo <= p.id < hi && p.id in dao.stored && dao.stored[p.id] == p
  }

  ghost predicate Descending(s: seq<Proposal>) {
    forall i, j :: 0 <= i < j < |s| ==> s[i].id > s[j].id
  }

  lemma {:induction false} NewestMembers(dao: Dao, hi: nat, lo: nat)
    requires dao.Valid()
    ensures forall p :: p in Newest(dao, hi, lo) <==> Within(dao, p, lo, hi)
    ensures Descending(Newest(dao, hi, lo))
    decreases hi
  {
    if hi > lo {
      NewestMembers(dao, hi - 1, lo);
      var rest := Newest(dao, hi - 1, lo);
      forall i | 0 <= i < |rest| ensures rest[i].id < hi - 1 {
        assert rest[i] in rest;
      }
    }
  }

  lemma {:induction false} RangeMembers(dao: Dao, from: nat, limit: nat)
    requires dao.Valid()
    ensures forall p :: p in GetProposals(dao, from, limit) <==> Within(dao, p, from, from + limit)
    ensures Distinct(GetProposals(dao, from, limit))
  {
    if limit > 0 {
      RangeMembers(dao, from, limit - 1);
      var range := GetProposals(dao, from, limit);
      forall i, j | 0 <= i < j < |range| ensures range[i] != range[j] {
        assert i < |GetProposals(dao, from, limit - 1)|;
        assert GetProposals(dao, from, limit - 1)[i] in GetProposals(dao, from, limit - 1);
      }
    }
  }

  lemma {:induction false} DescendingEqual(a: seq<Proposal>, b: seq<Proposal>)
    requires Descending(a) && Descending(b)
    requires forall p :: p in a <==> p in b
    ensures a == b
  {
    assert b != [] ==> b[0] in b;
    if a != [] {
      assert a[0] in b && b != [];
      assert b[0] in a;
      assert a[0] == b[0];
      forall p ensures p in a[1..] <==> p in b[1..] {
        TailMembers(a, p);
        TailMembers(b, p);
      }
      DescendingEqual(a[1..], b[1..]);
      assert a == [a[0]] + a[1..] && b == [b[0]] + b[1..];
    }
  }

  lemma TailMembers(s: seq<Proposal>, p: Proposal)
    requires s != [] && Descending(s)
    ensures p in s[1..] <==> p in s && p != s[0]
  {
    assert s == [s[0]] + s[1..];
    if p in s[1..] {
      var i :| 0 <= i < |s[1..]| && s[1..][i] == p;
      assert s[i + 1] == p && s[0].id > s[i + 1].id;
    }
  }

  lemma SortedRange(dao: Dao, s: seq<Proposal>, hi: nat, lo: nat)
    requires dao.Valid() && Distinct(s)
    requires forall p :: p in s <==> Within(dao, p, lo, hi)
    ensures NewestFirst(s) == Newest(dao, hi, lo)
  {
    var r := SortBy(IdRank, s);
    SortSorts(IdRank, s);
    SortKeeps(IdRank, s);
    forall p ensures multiset(r)[p] <= 1 {
      DistinctCounts(s, p);
    }
    CountsDistinct(r);
    forall i, j | 0 <= i < j < |r| ensures r[i].id > r[j].id {
      assert IdRank(r[i]) <= IdRank(r[j]);
      assert r[i] in r && r[j] in r;
    }
    NewestMembers(dao, hi, lo);
    DescendingEqual(r, Newest(dao, hi, lo));
  }

  lemma {:induction false} NewestSplits(dao: Dao, hi: nat, mid: nat, lo: nat)
    requires lo <= mid <= hi
    ensures Newest(dao, hi, lo) == Newest(dao, hi, mid) + Newest(dao, mid, lo)
    decreases hi
  {
    if hi > mid {
      NewestSplits(dao, hi - 1, mid, lo);
    }
  }

  // --- Everything since a time ---

  predicate Older(p: Proposal, since: int) { p.submissionTime < since }

  function Floor(dao: Dao, maxIds: nat): nat {
    if dao.last > maxIds then dao.last - maxIds else 0
  }

  // `readable(i)` says whether the read that starts at id i gets an answer.
  method ReadRange(dao: Dao, from: nat, limit: nat, readable: nat -> bool) returns (r: Result<seq<Proposal>, ReadError>)
    ensures r == if readable(from) then Ok(GetProposals(dao, from, limit)) else Err(Unreadable)
  {
    r := if readable(from) then Ok(GetProposals(dao, from, limit)) else Err(Unreadable);
  }

  method ReadSince(dao: Dao, since: int, pageSize: nat, maxIds: nat, readable: nat -> bool)
    returns (r: Result<seq<Proposal>, ReadError>)
    requires dao.Valid() && pageSize > 0
    ensures r.Ok? ==> exists cut: nat ::
              Covers(dao, since, cut) && r.value == Newest(dao, dao.last, cut) && (cut < dao.last ==> readable(cut))
    ensures r == Err(RangeNotRead) ==>
            dao.last > maxIds && forall p :: Within(dao, p, dao.last - maxIds, dao.last) ==> !Older(p, since)
    ensures dao.last > maxIds && (forall p :: Within(dao, p, dao.last - maxIds, dao.last) ==> !Older(p, since)) ==> r.Err?
    ensures r == Err(Unreadable) ==> exists i: nat :: dao.last - maxIds <= i < dao.last && !readable(i)
  {
    var floor := Floor(dao, maxIds);
    var proposals: seq<Proposal> := [];
    var end := dao.last;
    while end > floor
      invariant floor <= end <= dao.last && (end < dao.last ==> readable(end))
      invariant Distinct(proposals)
      invariant forall p :: p in proposals <==> Within(dao, p, end, dao.last)
      invariant forall p :: Within(dao, p, end, dao.last) ==> !Older(p, since)
    {
      var from := if end - floor > pageSize then end - pageSize else floor;
      var batch :- ReadRange(dao, from, end - from, readable);
      RangeMembers(dao, from, end - from);
      var before := proposals;
      proposals := proposals + batch;
      forall i, j | 0 <= i < j < |proposals| ensures proposals[i] != proposals[j] {
        if i < |before| <= j {
          assert proposals[i] in before && proposals[j] in batch;
        }
      }
      if exists i | 0 <= i < |batch| :: Older(batch[i], since) {
        SortedRange(dao, proposals, dao.last, from);
        assert Covers(dao, since, from) by {
          var i :| 0 <= i < |batch| && Older(batch[i], since);
          assert batch[i] in batch;
        }
        return Ok(NewestFirst(proposals));
      }
      forall p | Within(dao, p, from, dao.last) ensures !Older(p, since) {
        if p.id < end {
          assert p in batch;
        }
      }
      end := from;
    }
    if floor > 0 {
      return Err(RangeNotRead);
    }
    SortedRange(dao, proposals, dao.last, 0);
    assert Covers(dao, since, 0);
    r := Ok(NewestFirst(proposals));
  }

  // Nothing from `cut` on is missing, and either nothing is below it or something there is old already.
  ghost predicate Covers(dao: Dao, since: int, cut: nat) {
    cut == 0 || exists p :: Within(dao, p, cut, dao.last) && Older(p, since)
  }

  lemma CutBelow(dao: Dao, since: int, cut: nat)
    requires Covers(dao, since, cut)
    ensures dao.last > 0 ==> cut < dao.last
  {
  }

  // --- The open proposals ---

  // A policy without a (non-empty) proposal period keeps every undecided proposal open.
  predicate IsOpen(p: Proposal, period: Option<nat>, now: int) {
    && (p.status == "InProgress" || p.status == "Failed")
    && (period.None? || p.submissionTime + period.value >= now)
  }

  ghost function OpenProposals(dao: Dao, period: Option<nat>, now: int): seq<Proposal> {
    Filter((p: Proposal) => IsOpen(p, period, now), Newest(dao, dao.last, 0))
  }

  lemma {:induction false} FilterSplits<T(!new)>(keep: T -> bool, a: seq<T>, b: seq<T>)
    ensures Filter(keep, a + b) == Filter(keep, a) + Filter(keep, b)
  {
    if a == [] {
      assert a + b == b;
    } else {
      var rest := a[1..];
      FilterSplits(keep, rest, b);
      assert a + b == [a[0]] + (rest + b);
      FilterOne(keep, a[0], rest + b);
      FilterOne(keep, a[0], rest);
      assert a == [a[0]] + rest;
      Associative(if keep(a[0]) then [a[0]] else [], Filter(keep, rest), Filter(keep, b));
    }
  }

  lemma FilterOne<T(!new)>(keep: T -> bool, x: T, s: seq<T>)
    ensures Filter(keep, [x] + s) == (if keep(x) then [x] else []) + Filter(keep, s)
  {
    assert ([x] + s)[1..] == s;
  }

  lemma Associative<T>(a: seq<T>, b: seq<T>, c: seq<T>)
    ensures a + (b + c) == (a + b) + c
  {
  }

  lemma {:induction false} FilterNothing<T(!new)>(keep: T -> bool, s: seq<T>)
    requires forall x :: x in s ==> !keep(x)
    ensures Filter(keep, s) == []
  {
    if s != [] {
      assert s[0] in s;
      FilterNothing(keep, s[1..]);
    }
  }

  // All open proposals, newest first, or an error; never only the newest of them.
  method ReadOpen(dao: Dao, period: Option<nat>, now: int, readable: nat -> bool)
    returns (r: Result<seq<Proposal>, ReadError>)
    requires dao.Valid() && dao.TimesGrow()
    ensures r.Ok? ==> r.value == OpenProposals(dao, period, now)
    ensures r.Ok? ==> Descending(r.value) && forall p :: p in r.value <==>
              && p.id in dao.stored && dao.stored[p.id] == p && p.status in {"InProgress", "Failed"}
              && (period.Some? ==> now <= p.submissionTime + period.value)
    ensures r == Err(RangeNotRead) ==>
            dao.last > 2000
            && (period.Some? ==>
                  forall p :: Within(dao, p, dao.last - 2000, dao.last) ==> p.submissionTime + period.value >= now)
    ensures r == Err(Unreadable) ==> exists i: nat :: !readable(i)
    ensures dao.last > 0 && (forall i :: !readable(i)) ==> r.Err?
  {
    var since: int := if period.Some? then now - period.value else 0;
    var read := ReadSince(dao, since, 100, 2000, readable);
    if read.Err? {
      if read == Err(RangeNotRead) && period.Some? {
        forall p | Within(dao, p, dao.last - 2000, dao.last) ensures p.submissionTime + period.value >= now {
          assert !Older(p, since);
        }
      }
      return read;
    }
    ghost var cut: nat :| Covers(dao, since, cut) && read.value == Newest(dao, dao.last, cut) && (cut < dao.last ==> readable(cut));
    CutBelow(dao, since, cut);
    OpenAreNewer(dao, period, now, since, cut);
    OpenMeans(dao, period, now);
    r := Ok(Filter((p: Proposal) => IsOpen(p, period, now), read.value));
  }

  lemma {:induction false} FilterDescends(keep: Proposal -> bool, s: seq<Proposal>)
    requires Descending(s)
    ensures Descending(Filter(keep, s))
  {
    if s != [] {
      FilterDescends(keep, s[1..]);
      var rest := Filter(keep, s[1..]);
      forall i | 0 <= i < |rest| ensures rest[i].id < s[0].id {
        assert rest[i] in rest;
        var j :| 0 <= j < |s[1..]| && s[1..][j] == rest[i];
        assert s[j + 1] == rest[i];
      }
    }
  }

  lemma OpenMeans(dao: Dao, period: Option<nat>, now: int)
    requires dao.Valid()
    ensures Descending(OpenProposals(dao, period, now))
    ensures forall p :: p in OpenProposals(dao, period, now) <==>
              && p.id in dao.stored && dao.stored[p.id] == p && p.status in {"InProgress", "Failed"}
              && (period.Some? ==> now <= p.submissionTime + period.value)
  {
    NewestMembers(dao, dao.last, 0);
    FilterDescends((p: Proposal) => IsOpen(p, period, now), Newest(dao, dao.last, 0));
  }

  lemma OpenAreNewer(dao: Dao, period: Option<nat>, now: int, since: int, cut: nat)
    requires dao.Valid() && dao.TimesGrow() && Covers(dao, since, cut)
    requires since == if period.Some? then now - period.value else 0
    ensures OpenProposals(dao, period, now) == Filter((p: Proposal) => IsOpen(p, period, now), Newest(dao, dao.last, cut))
  {
    var keep := (p: Proposal) => IsOpen(p, period, now);
    if 0 < cut <= dao.last {
      var o: Proposal :| Within(dao, o, cut, dao.last) && Older(o, since);
      var below := Newest(dao, cut, 0);
      NewestMembers(dao, cut, 0);
      forall p | p in below ensures !keep(p) {
        assert Within(dao, p, 0, cut);
        assert p.submissionTime <= o.submissionTime;
      }
      FilterNothing(keep, below);
      NewestSplits(dao, dao.last, cut, 0);
      FilterSplits(keep, Newest(dao, dao.last, cut), below);
    }
  }

  // --- Page by page ---

  const MAX_EMPTY_RANGES := 5

  // Where a page ends: everything at or above it, below where the page started, is on the page.
  function Bottom(page: Page): nat {
    if page.nextBefore.Some? then page.nextBefore.value else 0
  }

  ghost predicate IsPage(dao: Dao, end: nat, page: Page) {
    && page.proposals == Newest(dao, end, Bottom(page))
    && (page.nextBefore.Some? ==> 0 < page.nextBefore.value < end)
  }

  method GetNewestFirst(dao: Dao, from: nat, end: nat, readable: nat -> bool) returns (r: Result<seq<Proposal>, ReadError>)
    requires dao.Valid() && from <= end
    ensures r == if readable(from) then Ok(Newest(dao, end, from)) else Err(Unreadable)
  {
    var batch :- ReadRange(dao, from, end - from, readable);
    RangeMembers(dao, from, end - from);
    SortedRange(dao, batch, end, from);
    return Ok(NewestFirst(batch));
  }

  // The ids that n empty ranges pass.
  ghost function Passed(n: nat, pageSize: nat): nat {
    if n == 0 then 0 else Passed(n - 1, pageSize) + pageSize
  }

  lemma PassedAll(pageSize: nat)
    ensures Passed(MAX_EMPTY_RANGES, pageSize) == MAX_EMPTY_RANGES * pageSize
  {
    assert Passed(1, pageSize) == Passed(0, pageSize) + pageSize;
    assert Passed(2, pageSize) == Passed(1, pageSize) + pageSize;
    assert Passed(3, pageSize) == Passed(2, pageSize) + pageSize;
    assert Passed(4, pageSize) == Passed(3, pageSize) + pageSize;
  }

  method ReadPage(dao: Dao, before: Option<nat>, pageSize: nat, readable: nat -> bool)
    returns (r: Result<Page, ReadError>)
    requires dao.Valid() && pageSize > 0
    ensures r.Ok? ==> IsPage(dao, if before.Some? then before.value else dao.last, r.value)
    ensures r.Ok? && Bottom(r.value) < (if before.Some? then before.value else dao.last) ==> readable(Bottom(r.value))
    ensures r.Err? ==> exists i: nat :: !readable(i)
    ensures r.Ok? && r.value.proposals == [] && r.value.nextBefore.Some? ==>
            r.value.nextBefore.value + MAX_EMPTY_RANGES * pageSize == if before.Some? then before.value else dao.last
  {
    var start: nat := if before.Some? then before.value else dao.last;
    var end: nat := start;
    var range := 0;
    ghost var passed := 0;
    while end > 0 && range < MAX_EMPTY_RANGES
      invariant end <= start && range <= MAX_EMPTY_RANGES
      invariant passed == Passed(range, pageSize) && (end > 0 ==> end + passed == start)
      invariant range == 0 ==> end == start
      invariant Newest(dao, start, end) == [] && (end < start ==> readable(end))
      decreases MAX_EMPTY_RANGES - range
    {
      var from: nat := if end > pageSize then end - pageSize else 0;
      var proposals :- GetNewestFirst(dao, from, end, readable);
      NewestSplits(dao, start, end, from);
      end := from;
      if proposals != [] {
        return Ok(Page(proposals, if end > 0 then Some(end) else None));
      }
      range, passed := range + 1, passed + pageSize;
    }
    PassedAll(pageSize);
    r := Ok(Page([], if end > 0 then Some(end) else None));
  }

  function Concat(pages: seq<Page>): seq<Proposal> {
    if pages == [] then [] else pages[0].proposals + Concat(pages[1..])
  }

  // Pages read by passing each page's nextBefore to the next read.
  ghost predicate Followed(dao: Dao, end: nat, pages: seq<Page>)
    decreases |pages|
  {
    pages != [] ==>
      && IsPage(dao, end, pages[0])
      && (|pages| > 1 ==> pages[0].nextBefore.Some?)
      && Followed(dao, Bottom(pages[0]), pages[1..])
  }

  // Following ends after finitely many pages, and the pages read so far are the proposals down to the
  // last page's end: each once, newest first, none left out.
  lemma {:induction false} PagesCover(dao: Dao, end: nat, pages: seq<Page>)
    requires Followed(dao, end, pages) && pages != []
    ensures Concat(pages) == Newest(dao, end, Bottom(pages[|pages| - 1]))
    ensures |pages| <= end + 1 && Bottom(pages[|pages| - 1]) <= end
    decreases |pages|
  {
    var rest := pages[1..];
    if rest != [] {
      PagesCover(dao, Bottom(pages[0]), rest);
      NewestSplits(dao, end, Bottom(pages[0]), Bottom(pages[|pages| - 1]));
    }
  }

  lemma AllPages(dao: Dao, end: nat, pages: seq<Page>)
    requires dao.Valid() && Followed(dao, end, pages) && pages != []
    requires pages[|pages| - 1].nextBefore == None
    ensures Descending(Concat(pages))
    ensures forall p :: p in Concat(pages) <==> Within(dao, p, 0, end)
  {
    PagesCover(dao, end, pages);
    NewestMembers(dao, end, 0);
  }
}
