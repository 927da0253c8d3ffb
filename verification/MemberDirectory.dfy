/**
 The member directory of a community, read page by page from a member list that stays the same. The plugin
 may return short pages, but returns at least one member as long as there are more.
 */
module MemberDirectory {
  import opened Wrappers

  const MEMBER_DIRECTORY_SCAN_PAGES: nat := 10
  const MEMBER_PAGE_SIZE: nat := 100

  datatype Member = Member(userId: string, organizationId: string, name: Option<string>)

  datatype Entry = Entry(userId: string, name: Option<string>, accountId: Option<string>)

  datatype Page = Page(members: seq<Entry>, nextCursor: Option<nat>)

  // `optedIn`: the members who chose to be listed, with their primary accounts.
  datatype Directory = Directory(members: seq<Member>, organizationId: string, optedIn: map<string, Option<string>>)

  predicate IsListed(d: Directory, m: Member) {
    m.organizationId == d.organizationId && m.userId in d.optedIn
  }

  function EntryOf(d: Directory, m: Member): Entry
    requires IsListed(d, m)
  {
    Entry(m.userId, m.name, d.optedIn[m.userId])
  }

  function Listed(d: Directory, members: seq<Member>): seq<Entry> {
    if members == [] then []
    else (if IsListed(d, members[0]) then [EntryOf(d, members[0])] else []) + Listed(d, members[1..])
  }

  function From<T>(s: seq<T>, start: nat): seq<T> {
    if start <= |s| then s[start..] else []
  }

  method ListMemberPage(members: seq<Member>, limit: nat, offset: nat) returns (page: seq<Member>)
    requires limit > 0
    ensures |page| <= limit && page <= From(members, offset)
    ensures page == [] <==> offset >= |members|
  {
    if offset >= |members| {
      return [];
    }
    var k: nat :| 0 < k <= limit && offset + k <= |members|;
    return members[offset..offset + k];
  }

  // A page covers the list from its cursor to the next one, or to the end.
  ghost predicate Covers(d: Directory, start: nat, page: Page) {
    match page.nextCursor
    case None => page.members == Listed(d, From(d.members, start))
    case Some(c) => start < c < |d.members| && page.members == Listed(d, d.members[start..c])
  }

  lemma {:induction false} ListedConcat(d: Directory, a: seq<Member>, b: seq<Member>)
    ensures Listed(d, a + b) == Listed(d, a) + Listed(d, b)
    decreases |a|
  {
    if a == [] {
      assert a + b == b;
    } else {
      assert (a + b)[1..] == a[1..] + b;
      ListedConcat(d, a[1..], b);
    }
  }

  // Who is listed between two offsets; nobody beyond the end.
  function Between(d: Directory, start: nat, end: nat): seq<Entry>
    requires start <= end
  {
    if end <= |d.members| then Listed(d, d.members[start..end]) else []
  }

  lemma ScanOn(d: Directory, start: nat, before: nat, members: seq<Member>)
    requires start <= before && members <= From(d.members, before)
    ensures Between(d, start, before + |members|) == Between(d, start, before) + Listed(d, members)
  {
    if before <= |d.members| {
      assert d.members[start..before + |members|] == d.members[start..before] + members;
      ListedConcat(d, d.members[start..before], members);
    }
  }

  lemma ToTheEnd(d: Directory, start: nat, scanned: nat)
    requires |d.members| <= scanned && start <= scanned && (start < scanned ==> scanned == |d.members|)
    ensures Between(d, start, scanned) == Listed(d, From(d.members, start))
  {
    if scanned == |d.members| {
      assert d.members[start..scanned] == d.members[start..];
    }
  }

  // Only the last page scanned is shown; the ones before it listed nobody.
  method GetMemberDirectory(d: Directory, cursor: Option<nat>, limit: nat) returns (page: Page)
    requires limit > 0
    ensures Covers(d, if cursor.Some? then cursor.value else 0, page)
    ensures page.members == [] && page.nextCursor.Some? ==>
      page.nextCursor.value >= (if cursor.Some? then cursor.value else 0) + MEMBER_DIRECTORY_SCAN_PAGES
  {
    var start := if cursor.Some? then cursor.value else 0;
    var scanned, pages := start, 0;
    var shown: seq<Entry> := [];
    while true
      invariant pages < MEMBER_DIRECTORY_SCAN_PAGES && scanned >= start + pages
      invariant scanned == start || scanned < |d.members|
      invariant Between(d, start, scanned) == []
      decreases MEMBER_DIRECTORY_SCAN_PAGES - pages
    {
      var members := ListMemberPage(d.members, limit, scanned);
      ScanOn(d, start, scanned, members);
      pages := pages + 1;
      scanned := scanned + |members|;
      shown := Listed(d, members);
      if shown != [] || members == [] || scanned >= |d.members| || pages >= MEMBER_DIRECTORY_SCAN_PAGES {
        break;
      }
    }
    if scanned >= |d.members| {
      ToTheEnd(d, start, scanned);
    }
    return Page(shown, if scanned > start && scanned < |d.members| then Some(scanned) else None);
  }

  // --- Following the cursors ---

  ghost predicate Followed(d: Directory, start: nat, pages: seq<Page>)
    decreases |pages|
  {
    && pages != []
    && Covers(d, start, pages[0])
    && (if pages[0].nextCursor.Some? then Followed(d, pages[0].nextCursor.value, pages[1..]) else |pages| == 1)
  }

  function Joined(pages: seq<Page>): seq<Entry> {
    if pages == [] then [] else pages[0].members + Joined(pages[1..])
  }

  // The cursors strictly increase, so the pages end, and together they are the opted-in members in order.
  lemma {:induction false} PagesAreTheDirectory(d: Directory, start: nat, pages: seq<Page>)
    requires Followed(d, start, pages)
    ensures Joined(pages) == Listed(d, From(d.members, start))
    ensures |pages| <= 1 || |pages| <= |d.members| - start
    ensures forall i :: 0 <= i < |pages| - 1 ==> pages[i].nextCursor.Some? && pages[i].nextCursor.value > start + i
    ensures forall i, j :: 0 <= i < j < |pages| - 1 ==>
      pages[i].nextCursor.Some? && pages[j].nextCursor.Some? && pages[i].nextCursor.value < pages[j].nextCursor.value
    decreases |pages|
  {
    if pages[0].nextCursor.Some? {
      var c := pages[0].nextCursor.value;
      PagesAreTheDirectory(d, c, pages[1..]);
      assert d.members[start..] == d.members[start..c] + d.members[c..];
      ListedConcat(d, d.members[start..c], d.members[c..]);
      forall i | 0 <= i < |pages| - 1 ensures pages[i].nextCursor.Some? && pages[i].nextCursor.value > start + i {
        if i > 0 {
          assert pages[i] == pages[1..][i - 1];
        }
      }
      forall i, j | 0 <= i < j < |pages| - 1
        ensures pages[i].nextCursor.Some? && pages[j].nextCursor.Some?
        ensures pages[i].nextCursor.value < pages[j].nextCursor.value
      {
        assert pages[j] == pages[1..][j - 1];
        if i > 0 {
          assert pages[i] == pages[1..][i - 1];
        }
      }
    } else {
      assert pages == [pages[0]];
      assert pages[1..] == [];
    }
  }

  // Every member who chose to be listed is there exactly once, and nobody else.
  lemma {:induction false} ListedOnce(d: Directory, members: seq<Member>, u: string)
    requires forall i, j :: 0 <= i < j < |members| ==> members[i].userId != members[j].userId
    ensures var n := |Occurrences(Listed(d, members), u)|;
            n == if exists m :: m in members && m.userId == u && m.organizationId == d.organizationId && u in d.optedIn
                 then 1 else 0
    ensures forall e :: e in Listed(d, members) ==>
              e.userId in d.optedIn && e.accountId == d.optedIn[e.userId] &&
              exists m :: m in members && m.userId == e.userId && m.organizationId == d.organizationId && m.name == e.name
    decreases |members|
  {
    if members != [] {
      ListedOnce(d, members[1..], u);
      OccurrencesConcat(if IsListed(d, members[0]) then [EntryOf(d, members[0])] else [], Listed(d, members[1..]), u);
      assert forall m :: m in members <==> m == members[0] || m in members[1..];
    }
  }

  function Occurrences(entries: seq<Entry>, u: string): seq<Entry> {
    if entries == [] then []
    else (if entries[0].userId == u then [entries[0]] else []) + Occurrences(entries[1..], u)
  }

  lemma {:induction false} OccurrencesConcat(a: seq<Entry>, b: seq<Entry>, u: string)
    ensures Occurrences(a + b, u) == Occurrences(a, u) + Occurrences(b, u)
    decreases |a|
  {
    if a == [] {
      assert a + b == b;
    } else {
      assert (a + b)[1..] == a[1..] + b;
      OccurrencesConcat(a[1..], b, u);
    }
  }

  // The last reader stops: a page without a next cursor comes within as many reads as there are members.
  method ReadDirectory(d: Directory, limit: nat) returns (entries: seq<Entry>, ghost pages: seq<Page>)
    requires limit > 0
    ensures entries == Listed(d, d.members)
    ensures Followed(d, 0, pages) && Joined(pages) == entries
  {
    var cursor: Option<nat> := None;
    var read: seq<Page> := [];
    var page := GetMemberDirectory(d, cursor, limit);
    ghost var start := 0;
    read := [page];
    entries := page.members;
    while page.nextCursor.Some?
      invariant read != [] && read[|read| - 1] == page
      invariant Prefix(d, 0, read, start) && Covers(d, start, page)
      invariant entries == Joined(read)
      decreases |d.members| - start
    {
      start := page.nextCursor.value;
      page := GetMemberDirectory(d, page.nextCursor, limit);
      PrefixGrows(d, 0, read, start, page);
      JoinedGrows(read, page);
      read := read + [page];
      entries := entries + page.members;
    }
    pages := read;
    PrefixEnds(d, 0, read, start);
    PagesAreTheDirectory(d, 0, pages);
    assert From(d.members, 0) == d.members;
  }

  // Pages read one after the other, the last one from `last`.
  ghost predicate Prefix(d: Directory, start: nat, pages: seq<Page>, last: nat)
    decreases |pages|
  {
    && pages != []
    && Covers(d, start, pages[0])
    && (if |pages| == 1 then start == last
        else pages[0].nextCursor.Some? && Prefix(d, pages[0].nextCursor.value, pages[1..], last))
  }

  lemma {:induction false} PrefixGrows(d: Directory, start: nat, pages: seq<Page>, next: nat, page: Page)
    requires exists last :: Prefix(d, start, pages, last)
    requires pages[|pages| - 1].nextCursor == Some(next) && Covers(d, next, page)
    ensures Prefix(d, start, pages + [page], next)
    decreases |pages|
  {
    assert (pages + [page])[1..] == pages[1..] + [page];
    if |pages| == 1 {
      assert pages[1..] + [page] == [page];
    } else {
      PrefixGrows(d, pages[0].nextCursor.value, pages[1..], next, page);
    }
  }

  lemma {:induction false} PrefixEnds(d: Directory, start: nat, pages: seq<Page>, last: nat)
    requires Prefix(d, start, pages, last) && pages[|pages| - 1].nextCursor.None?
    ensures Followed(d, start, pages)
    decreases |pages|
  {
    if |pages| > 1 {
      PrefixEnds(d, pages[0].nextCursor.value, pages[1..], last);
    }
  }

  lemma {:induction false} JoinedGrows(pages: seq<Page>, page: Page)
    ensures Joined(pages + [page]) == Joined(pages) + page.members
    decreases |pages|
  {
    if pages == [] {
      assert [page][1..] == [];
    } else {
      assert (pages + [page])[1..] == pages[1..] + [page];
      JoinedGrows(pages[1..], page);
    }
  }

  // --- Looking up members by id ---

  predicate Belongs(members: seq<Member>, organizationId: string, u: string) {
    exists m | m in members :: m.userId == u && m.organizationId == organizationId
  }

  // What is known after `seen`: exactly the wanted ones among them.
  ghost predicate FoundIn(seen: seq<Member>, organizationId: string, wanted: set<string>,
                          found: map<string, Option<string>>)
  {
    && (forall u :: u in found <==> u in wanted && Belongs(seen, organizationId, u))
    && (forall u :: u in found ==> Member(u, organizationId, found[u]) in seen)
  }

  lemma FoundOne(seen: seq<Member>, organizationId: string, wanted: set<string>, found: map<string, Option<string>>,
                 m: Member)
    requires FoundIn(seen, organizationId, wanted, found)
    ensures var more := if m.organizationId == organizationId && m.userId in wanted then found[m.userId := m.name] else found;
            FoundIn(seen + [m], organizationId, wanted, more)
  {
    assert m in seen + [m];
    forall u ensures Belongs(seen + [m], organizationId, u) <==>
                     Belongs(seen, organizationId, u) || (m.userId == u && m.organizationId == organizationId)
    {
      assert forall x :: x in seen ==> x in seen + [m];
    }
  }

  method AddFound(page: seq<Member>, organizationId: string, wanted: set<string>, before: map<string, Option<string>>,
                  ghost seen: seq<Member>)
    returns (found: map<string, Option<string>>)
    requires FoundIn(seen, organizationId, wanted, before)
    ensures FoundIn(seen + page, organizationId, wanted, found)
  {
    found := before;
    assert seen + page[..0] == seen;
    for i := 0 to |page|
      invariant FoundIn(seen + page[..i], organizationId, wanted, found)
    {
      assert seen + page[..i + 1] == (seen + page[..i]) + [page[i]];
      FoundOne(seen + page[..i], organizationId, wanted, found, page[i]);
      if page[i].organizationId == organizationId && page[i].userId in wanted {
        found := found[page[i].userId := page[i].name];
      }
    }
    assert page[..|page|] == page;
  }

  // The lookup stops early only once everyone wanted has been found.
  method FindMembers(members: seq<Member>, organizationId: string, wanted: set<string>)
    returns (found: map<string, Option<string>>)
    ensures forall u :: u in found <==> u in wanted && Belongs(members, organizationId, u)
    ensures forall u :: u in found ==> Member(u, organizationId, found[u]) in members
  {
    found := map[];
    var offset := 0;
    while |found| < |wanted|
      invariant offset <= |members| && FoundIn(members[..offset], organizationId, wanted, found)
      decreases |members| - offset, |wanted| - |found|
    {
      var page := ListMemberPage(members, MEMBER_PAGE_SIZE, offset);
      assert members[..offset + |page|] == members[..offset] + page;
      found := AddFound(page, organizationId, wanted, found, members[..offset]);
      offset := offset + |page|;
      if page == [] || offset >= |members| {
        assert offset == |members|;
        break;
      }
    }
    FoundAll(members, offset, organizationId, wanted, found);
  }

  lemma FoundAll(members: seq<Member>, offset: nat, organizationId: string, wanted: set<string>,
                 found: map<string, Option<string>>)
    requires offset <= |members| && FoundIn(members[..offset], organizationId, wanted, found)
    requires |found| >= |wanted| || offset == |members|
    ensures FoundIn(members, organizationId, wanted, found)
  {
    assert forall m :: m in members[..offset] ==> m in members;
    if offset == |members| {
      assert members[..offset] == members;
    } else {
      AllFound(found.Keys, wanted);
    }
  }

  lemma AllFound(found: set<string>, wanted: set<string>)
    requires found <= wanted && |found| >= |wanted|
    ensures found == wanted
  {
    if found != wanted {
      var u :| u in wanted && u !in found;
      Smaller(found, wanted - {u});
    }
  }

  lemma {:induction false} Smaller(a: set<string>, b: set<string>)
    requires a <= b
    ensures |a| <= |b|
    decreases |a|
  {
    if a != {} {
      var u :| u in a;
      Smaller(a - {u}, b - {u});
    }
  }
}
