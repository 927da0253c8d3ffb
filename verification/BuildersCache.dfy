/**
 The cache in front of nearbuilders.org: fresh values for two minutes, stale ones for an hour while the
 site fails, a thirty-second pause after a failure, and one shared load per path.
 */
module BuildersCache {
  import opened Wrappers
  import opened NodeWalks
  import opened NodeReach

  type Time = nat
  type Key = string
  type Value = nat
  type LoadId = nat

  const CACHE_TTL: nat := 2 * 60 * 1000
  const STALE_TTL: nat := 60 * 60 * 1000
  const FAILURE_BACKOFF: nat := 30 * 1000

  datatype Entry = Entry(loadedAt: Time, value: Value)

  // A load remembers the lookup that started it: its time, and the entry it found.
  datatype Load = Load(path: Key, startedAt: Time, cached: Option<Entry>)

  datatype Cache = Cache(
    cache: map<Key, Entry>,
    pending: map<Key, LoadId>,
    failures: map<Key, Time>,
    loads: map<LoadId, Load>,
    nextLoad: LoadId
  )

  // What a lookup gets at once, or what everyone waiting for a load gets when it settles.
  // None stands for the "unavailable" result.
  datatype Output =
    | Served(entry: Option<Entry>, began: Time)
    | Waits(load: LoadId)
    | Settled(load: LoadId, entry: Option<Entry>, began: Time)

  datatype Event =
    | Lookup(path: Key, now: Time)
    | LoadSettles(load: LoadId, now: Time, value: Option<Value>)

  const EMPTY: Cache := Cache(map[], map[], map[], map[], 0)

  predicate YoungerThan(cached: Option<Entry>, now: Time, age: nat) {
    cached.Some? && now - cached.value.loadedAt < age
  }

  function Fallback(cached: Option<Entry>, now: Time): Option<Entry> {
    if YoungerThan(cached, now, STALE_TTL) then cached else None
  }

  predicate BacksOff(c: Cache, path: Key, now: Time) {
    path in c.failures && now - c.failures[path] < FAILURE_BACKOFF
  }

  predicate Starts(c: Cache, path: Key, now: Time) {
    !YoungerThan(Find(c.cache, path), now, CACHE_TTL) && !BacksOff(c, path, now) && path !in c.pending
  }

  // The entries that a load begun at `now` leaves in place.
  function Unexpired(cache: map<Key, Entry>, now: Time): map<Key, Entry> {
    map k | k in cache && now - cache[k].loadedAt < STALE_TTL :: cache[k]
  }

  function Next(evicts: bool, c: Cache, e: Event): Cache {
    match e
    case Lookup(path, now) =>
      if !Starts(c, path, now) then c
      else c.(
        pending := c.pending[path := c.nextLoad],
        loads := c.loads[c.nextLoad := Load(path, now, Find(c.cache, path))],
        nextLoad := c.nextLoad + 1)
    case LoadSettles(id, now, value) =>
      if id !in c.loads then c
      else
        var load := c.loads[id];
        var done := c.(pending := c.pending - {load.path}, loads := c.loads - {id});
        if value.None? then done.(failures := c.failures[load.path := now])
        else
          done.(
            failures := c.failures - {load.path},
            cache := (if evicts then Unexpired(c.cache, load.startedAt) else c.cache)[load.path := Entry(now, value.value)])
  }

  function OutputOf(c: Cache, e: Event): Option<Output> {
    match e
    case Lookup(path, now) =>
      var cached := Find(c.cache, path);
      if YoungerThan(cached, now, CACHE_TTL) then Some(Served(cached, now))
      else if BacksOff(c, path, now) then Some(Served(Fallback(cached, now), now))
      else Some(Waits(if path in c.pending then c.pending[path] else c.nextLoad))
    case LoadSettles(id, now, value) =>
      if id !in c.loads then None
      else
        var load := c.loads[id];
        Some(Settled(id, if value.Some? then Some(Entry(now, value.value)) else Fallback(load.cached, load.startedAt), load.startedAt))
  }

  // --- The client object ---

  class Nearbuilders {
    var cache: map<Key, Entry>
    var pending: map<Key, LoadId>
    var failures: map<Key, Time>
    var loads: map<LoadId, Load>
    var nextLoad: LoadId

    ghost function Model(): Cache
      reads this
    {
      Cache(cache, pending, failures, loads, nextLoad)
    }

    constructor ()
      ensures Model() == EMPTY
    {
      cache, pending, failures, loads, nextLoad := map[], map[], map[], map[], 0;
    }

    method ForPath(path: Key, now: Time) returns (answer: Output)
      modifies this
      ensures Model() == Next(true, old(Model()), Lookup(path, now))
      ensures Some(answer) == OutputOf(old(Model()), Lookup(path, now))
    {
      var cached := Find(cache, path);
      if YoungerThan(cached, now, CACHE_TTL) {
        return Served(cached, now);
      }
      if path in failures && now - failures[path] < FAILURE_BACKOFF {
        return Served(Fallback(cached, now), now);
      }
      if path in pending {
        return Waits(pending[path]);
      }
      var id := nextLoad;
      nextLoad := nextLoad + 1;
      loads := loads[id := Load(path, now, cached)];
      pending := pending[path := id];
      answer := Waits(id);
    }

    method LoadSucceeds(id: LoadId, now: Time, value: Value) returns (answer: Output)
      requires id in loads
      modifies this
      ensures Model() == Next(true, old(Model()), LoadSettles(id, now, Some(value)))
      ensures Some(answer) == OutputOf(old(Model()), LoadSettles(id, now, Some(value)))
    {
      var load := loads[id];
      failures := failures - {load.path};
      var keys := cache.Keys;
      while keys != {}
        invariant keys <= cache.Keys <= old(cache).Keys
        invariant forall k :: k in cache ==> cache[k] == old(cache)[k]
        invariant forall k :: k in old(cache) && k !in keys ==>
                    (k in cache <==> load.startedAt - old(cache)[k].loadedAt < STALE_TTL)
        invariant Model() == old(Model()).(cache := cache, failures := old(failures) - {load.path})
        decreases keys
      {
        var key :| key in keys;
        if load.startedAt - cache[key].loadedAt >= STALE_TTL {
          cache := cache - {key};
        }
        keys := keys - {key};
      }
      assert cache == Unexpired(old(cache), load.startedAt);
      cache := cache[load.path := Entry(now, value)];
      pending := pending - {load.path};
      loads := loads - {id};
      answer := Settled(id, Some(Entry(now, value)), load.startedAt);
    }

    method LoadFails(id: LoadId, now: Time) returns (answer: Output)
      requires id in loads
      modifies this
      ensures Model() == Next(true, old(Model()), LoadSettles(id, now, None))
      ensures Some(answer) == OutputOf(old(Model()), LoadSettles(id, now, None))
    {
      var load := loads[id];
      failures := failures[load.path := now];
      pending := pending - {load.path};
      loads := loads - {id};
      answer := Settled(id, Fallback(load.cached, load.startedAt), load.startedAt);
    }
  }

  // --- Runs under a clock that does not go back ---

  ghost predicate Monotone(events: seq<Event>) {
    forall i, j :: 0 <= i < j < |events| ==> events[i].now <= events[j].now
  }

  function After(evicts: bool, events: seq<Event>): Cache {
    if events == [] then EMPTY
    else Next(evicts, After(evicts, events[..|events| - 1]), events[|events| - 1])
  }

  function Outputs(evicts: bool, events: seq<Event>): seq<Option<Output>> {
    if events == [] then []
    else
      var before := events[..|events| - 1];
      Outputs(evicts, before) + [OutputOf(After(evicts, before), events[|events| - 1])]
  }

  function Clock(events: seq<Event>): Time {
    if events == [] then 0 else events[|events| - 1].now
  }

  // When the last load of each path settled.
  function LastSettled(events: seq<Event>): map<Key, Time> {
    if events == [] then map[]
    else
      var before := events[..|events| - 1];
      var c := After(true, before);
      var e := events[|events| - 1];
      if e.LoadSettles? && e.load in c.loads then LastSettled(before)[c.loads[e.load].path := e.now]
      else LastSettled(before)
  }

  // The pending table and the loads under way name each other.
  ghost predicate Linked(c: Cache, clock: Time) {
    && (forall id :: id in c.loads ==>
          && id < c.nextLoad
          && c.loads[id].startedAt <= clock
          && Find(c.pending, c.loads[id].path) == Some(id))
    && (forall p :: p in c.pending ==> c.pending[p] in c.loads && c.loads[c.pending[p]].path == p)
  }

  ghost predicate Inv(c: Cache, clock: Time, settled: map<Key, Time>) {
    && Linked(c, clock)
    && (forall p :: p in settled ==> settled[p] <= clock && Remembers(c, clock, p, settled[p]))
  }

  // The end of the last load of p still shows: as a failure, as the cached entry, or it is over an hour ago.
  ghost predicate Remembers(c: Cache, clock: Time, p: Key, t: Time) {
    if p in c.failures then c.failures[p] == t
    else (p in c.cache && c.cache[p].loadedAt == t) || t + STALE_TTL <= clock
  }

  lemma {:induction false} InvInEveryRun(events: seq<Event>)
    requires Monotone(events)
    ensures Inv(After(true, events), Clock(events), LastSettled(events))
  {
    if events != [] {
      var before, e := events[..|events| - 1], events[|events| - 1];
      InvInEveryRun(before);
      var c, settled := After(true, before), LastSettled(before);
      assert Clock(before) <= e.now by {
        assert before != [] ==> events[|before| - 1] == before[|before| - 1];
      }
      NextKeepsInv(c, Clock(before), settled, e);
    }
  }

  lemma NextKeepsInv(c: Cache, clock: Time, settled: map<Key, Time>, e: Event)
    requires Inv(c, clock, settled) && clock <= e.now
    ensures Inv(Next(true, c, e), e.now,
                if e.LoadSettles? && e.load in c.loads then settled[c.loads[e.load].path := e.now] else settled)
  {
    NextLinked(c, clock, e);
    var settled' := if e.LoadSettles? && e.load in c.loads then settled[c.loads[e.load].path := e.now] else settled;
    forall p | p in settled' ensures settled'[p] <= e.now && Remembers(Next(true, c, e), e.now, p, settled'[p]) {
      if e.LoadSettles? && e.load in c.loads && c.loads[e.load].path == p {
        SettledRemembers(c, clock, e);
      } else {
        NextRemembers(c, clock, e, p, settled[p]);
      }
    }
  }

  lemma NextLinked(c: Cache, clock: Time, e: Event)
    requires Linked(c, clock) && clock <= e.now
    ensures Linked(Next(true, c, e), e.now)
  {
    if e.Lookup? {
      LookupLinked(c, clock, e);
    } else if e.load in c.loads {
      SettleLinked(c, clock, e);
    }
  }

  lemma LookupLinked(c: Cache, clock: Time, e: Event)
    requires Linked(c, clock) && clock <= e.now && e.Lookup?
    ensures Linked(Next(true, c, e), e.now)
  {
  }

  lemma SettleLinked(c: Cache, clock: Time, e: Event)
    requires Linked(c, clock) && clock <= e.now && e.LoadSettles? && e.load in c.loads
    ensures Linked(Next(true, c, e), e.now)
  {
    var c' := Next(true, c, e);
    assert c'.loads == c.loads - {e.load} && c'.pending == c.pending - {c.loads[e.load].path};
  }

  lemma SettledRemembers(c: Cache, clock: Time, e: Event)
    requires Linked(c, clock) && e.LoadSettles? && e.load in c.loads
    ensures Remembers(Next(true, c, e), e.now, c.loads[e.load].path, e.now)
  {
  }

  lemma NextRemembers(c: Cache, clock: Time, e: Event, p: Key, t: Time)
    requires Linked(c, clock) && clock <= e.now && Remembers(c, clock, p, t)
    requires !(e.LoadSettles? && e.load in c.loads && c.loads[e.load].path == p)
    ensures Remembers(Next(true, c, e), e.now, p, t)
  {
    if e.LoadSettles? && e.load in c.loads && e.value.Some? {
      assert c.loads[e.load].startedAt <= clock;
      var c' := Next(true, c, e);
      assert c'.failures == c.failures - {c.loads[e.load].path};
      assert c'.cache == Unexpired(c.cache, c.loads[e.load].startedAt)[c.loads[e.load].path := Entry(e.now, e.value.value)];
    }
  }

  // At most one load of a path is under way.
  lemma OneLoadPerPath(events: seq<Event>, a: LoadId, b: LoadId)
    requires Monotone(events)
    requires a in After(true, events).loads && b in After(true, events).loads
    requires After(true, events).loads[a].path == After(true, events).loads[b].path
    ensures a == b
  {
    InvInEveryRun(events);
  }

  // A path is loaded again only when its last load has been over for the back-off time.
  lemma LoadsApart(events: seq<Event>, path: Key, now: Time)
    requires Monotone(events + [Lookup(path, now)])
    requires Starts(After(true, events), path, now)
    ensures forall id :: id in After(true, events).loads ==> After(true, events).loads[id].path != path
    ensures path in LastSettled(events) ==> now >= LastSettled(events)[path] + FAILURE_BACKOFF
  {
    MonotonePrefix(events, Lookup(path, now));
    InvInEveryRun(events);
    if path in LastSettled(events) {
      assert Remembers(After(true, events), Clock(events), path, LastSettled(events)[path]);
    }
  }

  lemma MonotonePrefix(events: seq<Event>, e: Event)
    requires Monotone(events + [e])
    ensures Monotone(events) && Clock(events) <= e.now
  {
    var all := events + [e];
    forall i, j | 0 <= i < j < |events| ensures events[i].now <= events[j].now {
      assert all[i].now <= all[j].now;
    }
    assert events != [] ==> all[|events| - 1].now <= all[|events|].now;
  }

  // No value was an hour old when the lookup or load that serves it began.
  lemma NothingTooOld(events: seq<Event>, e: Event)
    requires Monotone(events + [e])
    ensures var o := OutputOf(After(true, events), e);
            o.Some? && !o.value.Waits? && o.value.entry.Some? ==>
            o.value.began < o.value.entry.value.loadedAt + STALE_TTL
  {
    MonotonePrefix(events, e);
    InvInEveryRun(events);
  }

  // --- Eviction cannot be noticed ---

  // `small` may miss what `big` still holds, but only if it is too old to be served.
  ghost predicate Hides(small: Option<Entry>, big: Option<Entry>, now: Time) {
    small == big || (small == None && !YoungerThan(big, now, STALE_TTL))
  }

  ghost predicate Refines(c: Cache, n: Cache, clock: Time) {
    && c.pending == n.pending && c.failures == n.failures && c.nextLoad == n.nextLoad
    && c.loads.Keys == n.loads.Keys
    && (forall p :: Hides(Find(c.cache, p), Find(n.cache, p), clock))
    && (forall id :: id in c.loads ==>
          && c.loads[id].path == n.loads[id].path
          && c.loads[id].startedAt == n.loads[id].startedAt <= clock
          && Hides(c.loads[id].cached, n.loads[id].cached, c.loads[id].startedAt))
  }

  lemma StepRefines(c: Cache, n: Cache, clock: Time, e: Event)
    requires Refines(c, n, clock) && clock <= e.now
    ensures OutputOf(c, e) == OutputOf(n, e)
    ensures Refines(Next(true, c, e), Next(false, n, e), e.now)
  {
    forall p ensures Hides(Find(c.cache, p), Find(n.cache, p), e.now) {
      assert Hides(Find(c.cache, p), Find(n.cache, p), clock);
    }
    if e.Lookup? {
      LookupRefines(c, n, e);
    } else {
      SettleRefines(c, n, clock, e);
    }
  }

  lemma LookupRefines(c: Cache, n: Cache, e: Event)
    requires Refines(c, n, e.now) && e.Lookup?
    ensures OutputOf(c, e) == OutputOf(n, e)
    ensures Refines(Next(true, c, e), Next(false, n, e), e.now)
  {
    assert Hides(Find(c.cache, e.path), Find(n.cache, e.path), e.now);
    assert Starts(c, e.path, e.now) == Starts(n, e.path, e.now);
  }

  lemma SettleRefines(c: Cache, n: Cache, clock: Time, e: Event)
    requires Refines(c, n, clock) && clock <= e.now && e.LoadSettles?
    ensures OutputOf(c, e) == OutputOf(n, e)
    ensures Refines(Next(true, c, e), Next(false, n, e), e.now)
  {
    if e.load in c.loads {
      var load := c.loads[e.load];
      var c', n' := Next(true, c, e), Next(false, n, e);
      assert Hides(load.cached, n.loads[e.load].cached, load.startedAt);
      forall p ensures Hides(Find(c'.cache, p), Find(n'.cache, p), e.now) {
        EntryRefines(c, n, clock, e, p);
      }
    }
  }

  lemma EntryRefines(c: Cache, n: Cache, clock: Time, e: Event, p: Key)
    requires Refines(c, n, clock) && clock <= e.now && e.LoadSettles? && e.load in c.loads
    ensures Hides(Find(Next(true, c, e).cache, p), Find(Next(false, n, e).cache, p), e.now)
  {
    assert Hides(Find(c.cache, p), Find(n.cache, p), clock);
    assert c.loads[e.load].path == n.loads[e.load].path;
    assert c.loads[e.load].startedAt <= clock;
  }

  lemma {:induction false} EvictionInvisible(events: seq<Event>)
    requires Monotone(events)
    ensures Outputs(true, events) == Outputs(false, events)
    ensures Refines(After(true, events), After(false, events), Clock(events))
  {
    if events != [] {
      var before, e := events[..|events| - 1], events[|events| - 1];
      EvictionInvisible(before);
      assert Clock(before) <= e.now by {
        assert before != [] ==> events[|before| - 1] == before[|before| - 1];
      }
      StepRefines(After(true, before), After(false, before), Clock(before), e);
    }
  }

  // --- What is answered, by what has happened ---

  // The values of the last load of each path that succeeded.
  function LastLoaded(events: seq<Event>): map<Key, Entry> {
    if events == [] then map[]
    else
      var before, e := events[..|events| - 1], events[|events| - 1];
      if e.LoadSettles? && e.load in After(true, before).loads && e.value.Some?
      then LastLoaded(before)[After(true, before).loads[e.load].path := Entry(e.now, e.value.value)]
      else LastLoaded(before)
  }

  // When the last load of each path failed, for the paths whose last load did.
  function LastFailed(events: seq<Event>): map<Key, Time> {
    if events == [] then map[]
    else
      var before, e := events[..|events| - 1], events[|events| - 1];
      if !(e.LoadSettles? && e.load in After(true, before).loads) then LastFailed(before)
      else
        var path := After(true, before).loads[e.load].path;
        if e.value.None? then LastFailed(before)[path := e.now] else LastFailed(before) - {path}
  }

  // The last value, if it is less than an hour old.
  function Recent(events: seq<Event>, path: Key, now: Time): Option<Entry> {
    if path in LastLoaded(events) && now - LastLoaded(events)[path].loadedAt < STALE_TTL
    then Some(LastLoaded(events)[path]) else None
  }

  lemma {:induction false} HistoryShows(events: seq<Event>)
    requires Monotone(events)
    ensures var n := After(false, events);
            && n.cache == LastLoaded(events) && n.failures == LastFailed(events)
            && forall id :: id in n.loads ==> n.loads[id].cached == Find(n.cache, n.loads[id].path)
  {
    if events != [] {
      var before, e := events[..|events| - 1], events[|events| - 1];
      HistoryShows(before);
      EvictionInvisible(before);
      InvInEveryRun(before);
      OthersKeepTheirs(After(true, before), After(false, before), Clock(before), e);
    }
  }

  // The history, step by step.
  lemma HistoryGrows(events: seq<Event>, e: Event)
    ensures forall evicts :: After(evicts, events + [e]) == Next(evicts, After(evicts, events), e)
    ensures forall evicts :: Outputs(evicts, events + [e]) == Outputs(evicts, events) + [OutputOf(After(evicts, events), e)]
    ensures var c := After(true, events);
            var settles := e.LoadSettles? && e.load in c.loads;
            && LastSettled(events + [e]) == (if settles then LastSettled(events)[c.loads[e.load].path := e.now] else LastSettled(events))
            && (settles && e.value.Some? ==>
                  && LastLoaded(events + [e]) == LastLoaded(events)[c.loads[e.load].path := Entry(e.now, e.value.value)]
                  && LastFailed(events + [e]) == LastFailed(events) - {c.loads[e.load].path})
            && (settles && e.value.None? ==>
                  && LastLoaded(events + [e]) == LastLoaded(events)
                  && LastFailed(events + [e]) == LastFailed(events)[c.loads[e.load].path := e.now])
            && (!settles ==> LastLoaded(events + [e]) == LastLoaded(events) && LastFailed(events + [e]) == LastFailed(events))
  {
    assert (events + [e])[..|events + [e]| - 1] == events;
  }

  // A load that settles leaves the entries that the other loads remember.
  lemma OthersKeepTheirs(c: Cache, n: Cache, clock: Time, e: Event)
    requires Linked(c, clock) && Refines(c, n, clock)
    requires forall id :: id in n.loads ==> n.loads[id].cached == Find(n.cache, n.loads[id].path)
    ensures var n' := Next(false, n, e);
            forall id :: id in n'.loads ==> n'.loads[id].cached == Find(n'.cache, n'.loads[id].path)
  {
    if e.LoadSettles? && e.load in n.loads {
      forall id | id in n.loads && id != e.load ensures n.loads[id].path != n.loads[e.load].path {
        assert id in c.loads && e.load in c.loads;
        assert Find(c.pending, c.loads[id].path) == Some(id) && Find(c.pending, c.loads[e.load].path) == Some(e.load);
      }
    }
  }

  // In every run a lookup is served the last value if it is under two minutes old; else, within half a minute of
  // a failure, what is under an hour old, if anything; and else it waits for the path's one load.
  lemma LookupAnswers(events: seq<Event>, path: Key, now: Time)
    requires Monotone(events + [Lookup(path, now)])
    ensures var o := OutputOf(After(true, events), Lookup(path, now));
            var c' := Next(true, After(true, events), Lookup(path, now));
            var young := path in LastLoaded(events) && now - LastLoaded(events)[path].loadedAt < CACHE_TTL;
            var failed := path in LastFailed(events) && now - LastFailed(events)[path] < FAILURE_BACKOFF;
            && (young ==> o == Some(Served(Some(LastLoaded(events)[path]), now)))
            && (!young && failed ==> o == Some(Served(Recent(events, path, now), now)))
            && (!young && !failed ==>
                  && o.Some? && o.value.Waits? && o.value.load in c'.loads && c'.loads[o.value.load].path == path
                  && (forall id :: id in After(true, events).loads && After(true, events).loads[id].path == path ==>
                        o.value.load == id))
  {
    MonotonePrefix(events, Lookup(path, now));
    HistoryShows(events);
    EvictionInvisible(events);
    InvInEveryRun(events);
    LookupRefinesLater(After(true, events), After(false, events), Clock(events), Lookup(path, now));
  }

  lemma LookupRefinesLater(c: Cache, n: Cache, clock: Time, e: Event)
    requires Refines(c, n, clock) && clock <= e.now && e.Lookup?
    ensures OutputOf(c, e) == OutputOf(n, e)
  {
    StepRefines(c, n, clock, e);
  }

  // Whoever waits for a load gets the value it brings; if it fails, what was under an hour old when it began.
  lemma WaitersGet(events: seq<Event>, id: LoadId, now: Time, value: Option<Value>)
    requires Monotone(events + [LoadSettles(id, now, value)]) && id in After(true, events).loads
    ensures var load := After(true, events).loads[id];
            OutputOf(After(true, events), LoadSettles(id, now, value)) ==
            Some(Settled(id, if value.Some? then Some(Entry(now, value.value)) else Recent(events, load.path, load.startedAt),
                         load.startedAt))
  {
    MonotonePrefix(events, LoadSettles(id, now, value));
    HistoryShows(events);
    EvictionInvisible(events);
    StepRefines(After(true, events), After(false, events), Clock(events), LoadSettles(id, now, value));
  }

  // --- The path of a community ---

  datatype NodeLink = NodeLink(slug: string, parent: Option<NodeId>)

  const MAX_DEPTH: nat := 10

  function LinksOf(nodes: map<NodeId, NodeLink>): (t: Parents)
    ensures t.Keys == nodes.Keys && forall n :: n in nodes ==> t[n] == nodes[n].parent
  {
    map n | n in nodes :: nodes[n].parent
  }

  // The slugs from the root down to the k-fold child n.
  function SlugsTo(nodes: map<NodeId, NodeLink>, n: NodeId, k: nat): seq<string>
    requires Up(LinksOf(nodes), n, k).Some?
  {
    var t := LinksOf(nodes);
    [nodes[Up(t, n, k).value].slug]
    + if k == 0 then []
      else
        UpPrefix(t, n, k - 1, k);
        SlugsTo(nodes, n, k - 1)
  }

  ghost predicate RootAbove(nodes: map<NodeId, NodeLink>, n: NodeId, k: nat) {
    Up(LinksOf(nodes), n, k).Some? && nodes[Up(LinksOf(nodes), n, k).value].parent == None
  }

  // x lies within fewer than k parents of n.
  ghost predicate Passed(t: Parents, n: NodeId, k: nat, x: NodeId) {
    exists i: nat :: i < k && Up(t, n, i) == Some(x)
  }

  lemma PassedOne(t: Parents, n: NodeId, k: nat, x: NodeId)
    ensures Passed(t, n, k + 1, x) <==> Passed(t, n, k, x) || Up(t, n, k) == Some(x)
  {
    if Passed(t, n, k, x) {
      var i: nat :| i < k && Up(t, n, i) == Some(x);
      assert i < k + 1;
    }
    if Passed(t, n, k + 1, x) {
      var i: nat :| i < k + 1 && Up(t, n, i) == Some(x);
      assert i < k || i == k;
    }
  }

  // The walk after k nodes, none of them a root unless it is over.
  ghost predicate Climbing(nodes: map<NodeId, NodeLink>, n: NodeId, k: nat, seen: set<NodeId>, slugs: seq<string>,
                           current: Option<NodeId>)
  {
    var t := LinksOf(nodes);
    && (forall x :: x in seen <==> Passed(t, n, k, x))
    && (forall i: nat :: i < k ==> Up(t, n, i).Some?)
    && (current.Some? ==> forall i: nat :: i < k ==> !RootAbove(nodes, n, i))
    && (k == 0 ==> current == Some(n) && slugs == [])
    && (k > 0 ==> current == nodes[Up(t, n, k - 1).value].parent && slugs == SlugsTo(nodes, n, k - 1))
  }

  lemma ClimbingAt(nodes: map<NodeId, NodeLink>, n: NodeId, k: nat, seen: set<NodeId>, slugs: seq<string>, x: NodeId)
    requires Climbing(nodes, n, k, seen, slugs, Some(x))
    ensures x in nodes ==> Up(LinksOf(nodes), n, k) == Some(x)
    ensures x !in nodes ==> Up(LinksOf(nodes), n, k) == None
  {
    if k > 0 {
      UpStep(LinksOf(nodes), n, k - 1);
    }
  }

  lemma ClimbOn(nodes: map<NodeId, NodeLink>, n: NodeId, k: nat, seen: set<NodeId>, slugs: seq<string>, x: NodeId)
    requires Climbing(nodes, n, k, seen, slugs, Some(x)) && x in nodes
    ensures Climbing(nodes, n, k + 1, seen + {x}, [nodes[x].slug] + slugs, nodes[x].parent)
  {
    ClimbingAt(nodes, n, k, seen, slugs, x);
    forall y ensures y in seen + {x} <==> Passed(LinksOf(nodes), n, k + 1, y) {
      PassedOne(LinksOf(nodes), n, k, y);
    }
    assert nodes[x].parent.Some? ==> !RootAbove(nodes, n, k);
  }

  lemma ClimbStops(nodes: map<NodeId, NodeLink>, n: NodeId, k: nat, seen: set<NodeId>, slugs: seq<string>, x: NodeId)
    requires Climbing(nodes, n, k, seen, slugs, Some(x)) && (x in seen || x !in nodes)
    ensures forall j: nat :: !RootAbove(nodes, n, j)
  {
    var t := LinksOf(nodes);
    ClimbingAt(nodes, n, k, seen, slugs, x);
    if x in nodes {
      assert Passed(t, n, k, x);
      LoopHasNoRoot(nodes, n, k, x);
    } else {
      forall j: nat ensures !RootAbove(nodes, n, j) {
        if k <= j && Up(t, n, j).Some? {
          UpPrefix(t, n, k, j);
        }
      }
    }
  }

  // A path exists exactly for nodes with a root at most nine parents up; the `seen` set only ends a
  // walk around a cycle early.
  method CommunityPath(nodes: map<NodeId, NodeLink>, n: NodeId) returns (r: Option<seq<string>>)
    ensures r.Some? ==> exists k: nat :: k < MAX_DEPTH && RootAbove(nodes, n, k) && r.value == SlugsTo(nodes, n, k)
    ensures r.None? ==> forall k: nat :: k < MAX_DEPTH ==> !RootAbove(nodes, n, k)
  {
    var slugs: seq<string> := [];
    var seen: set<NodeId> := {};
    var current := Some(n);
    ghost var k: nat := 0;
    while current.Some?
      invariant k == |slugs| <= MAX_DEPTH
      invariant Climbing(nodes, n, k, seen, slugs, current)
      decreases MAX_DEPTH + 1 - k
    {
      if current.value in seen || |slugs| >= MAX_DEPTH {
        if current.value in seen {
          ClimbStops(nodes, n, k, seen, slugs, current.value);
        }
        return None;
      }
      if current.value !in nodes {
        ClimbStops(nodes, n, k, seen, slugs, current.value);
        return None;
      }
      ClimbOn(nodes, n, k, seen, slugs, current.value);
      seen := seen + {current.value};
      slugs := [nodes[current.value].slug] + slugs;
      current := nodes[current.value].parent;
      k := k + 1;
    }
    assert RootAbove(nodes, n, k - 1);
    r := Some(slugs);
  }

  // A chain that returns to a node it passed goes on forever without meeting a root.
  lemma LoopHasNoRoot(nodes: map<NodeId, NodeLink>, n: NodeId, k: nat, x: NodeId)
    requires Up(LinksOf(nodes), n, k) == Some(x)
    requires exists i: nat :: i < k && Up(LinksOf(nodes), n, i) == Some(x)
    requires forall i: nat :: i < k ==> !RootAbove(nodes, n, i)
    ensures forall j: nat :: !RootAbove(nodes, n, j)
  {
    var t := LinksOf(nodes);
    var i: nat :| i < k && Up(t, n, i) == Some(x);
    forall j: nat ensures !RootAbove(nodes, n, j) {
      NoRootAt(nodes, n, i, k, j);
    }
  }

  lemma {:induction false} NoRootAt(nodes: map<NodeId, NodeLink>, n: NodeId, i: nat, k: nat, j: nat)
    requires i < k && Up(LinksOf(nodes), n, i).Some? && Up(LinksOf(nodes), n, i) == Up(LinksOf(nodes), n, k)
    requires forall h: nat :: h < k ==> !RootAbove(nodes, n, h)
    ensures !RootAbove(nodes, n, j)
    decreases j
  {
    if j >= k {
      var t := LinksOf(nodes);
      UpAdd(t, n, k, j - k);
      UpAdd(t, n, i, j - k);
      NoRootAt(nodes, n, i, k, j - (k - i));
    }
  }
}
