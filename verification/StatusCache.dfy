/** The stale-while-revalidate cache of the cluster status. */
module StatusCache {
  // Each method is one region under clusterStatusCacheMu (or the start or end of a
  // background refresh); any sequence of calls is an interleaving of requests and
  // refreshes.  Time is a ghost clock that only the environment advances; a request may
  // have read it some time before it gets the lock.

  import opened Common

  datatype View = FullView | SummaryView

  datatype Include = Include(metrics: bool, storage: bool, dgx: bool)

  datatype LoadOptions = LoadOptions(view: View, details: Include)

  datatype Options = Options(forceRefresh: bool, allowStale: bool, load: LoadOptions)

  const NOTHING := Include(false, false, false)

  /** What parseClusterStatusRequestOptions makes of a request. */
  function ParseOptions(force: bool, allowStale: bool, view: View, asked: Include, includeSpecified: bool): (o: Options)
    ensures Normal(o.load)
    ensures o.forceRefresh == force && o.allowStale == allowStale && o.load.view == view
    ensures view == FullView ==> o.load.details == if includeSpecified then asked else Include(true, true, true)
  {
    Options(force, allowStale,
            LoadOptions(view, if view == SummaryView then NOTHING
                              else if !includeSpecified then Include(true, true, true) else asked))
  }

  /** A summary asks for no details. */
  predicate Normal(o: LoadOptions) {
    o.view == SummaryView ==> o.details == NOTHING
  }

  function IncludeParts(i: Include): seq<string> {
    (if i.metrics then ["metrics"] else []) + (if i.storage then ["storage"] else []) + (if i.dgx then ["dgx"] else [])
  }

  function CacheKey(o: LoadOptions): string {
    if o.view == SummaryView then "summary"
    else
      var parts := IncludeParts(o.details);
      "full:" + Join(if parts == [] then ["none"] else parts, ",")
  }

  function Lengths(parts: seq<string>): nat {
    if parts == [] then 0 else |parts[0]| + 1 + Lengths(parts[1..])
  }

  lemma {:induction false} JoinShape(parts: seq<string>)
    requires parts != [] && parts[0] != ""
    ensures |Join(parts, ",")| + 1 == Lengths(parts) && Join(parts, ",")[0] == parts[0][0]
  {
    if |parts| > 1 {
      JoinLength(parts[1..]);
    }
  }

  lemma {:induction false} JoinLength(parts: seq<string>)
    requires parts != []
    ensures |Join(parts, ",")| + 1 == Lengths(parts)
  {
    if |parts| > 1 {
      JoinLength(parts[1..]);
    }
  }

  lemma {:induction false} LengthsConcat(a: seq<string>, b: seq<string>)
    ensures Lengths(a + b) == Lengths(a) + Lengths(b)
  {
    if a == [] {
      assert a + b == b;
    } else {
      LengthsConcat(a[1..], b);
      assert (a + b)[1..] == a[1..] + b;
    }
  }

  /** The length of a full key and its first letter after the colon tell which parts it has. */
  lemma KeyShape(i: Include)
    ensures var key := CacheKey(LoadOptions(FullView, i));
            && |key| == (if i == NOTHING then 9 else
                           4 + (if i.metrics then 8 else 0) + (if i.storage then 8 else 0) + (if i.dgx then 4 else 0))
            && key[0] == 'f'
            && key[5] == (if i.metrics then 'm' else if i.storage then 's' else if i.dgx then 'd' else 'n')
  {
    var m, s, d := if i.metrics then ["metrics"] else [], if i.storage then ["storage"] else [], if i.dgx then ["dgx"] else [];
    LengthsConcat(m + s, d);
    LengthsConcat(m, s);
    var parts := IncludeParts(i);
    if parts != [] {
      JoinShape(parts);
    }
  }

  /** The key determines what is loaded, for options as requests produce them. */
  lemma KeyDeterminesLoad(a: LoadOptions, b: LoadOptions)
    requires Normal(a) && Normal(b)
    ensures CacheKey(a) == CacheKey(b) <==> a == b
  {
    KeyShape(a.details);
    KeyShape(b.details);
  }

  /** A status as a loader returned it; it remembers the options it was loaded for. */
  datatype Status = Status(loadedFor: LoadOptions, data: int)

  datatype Entry = Entry(status: Status, cachedAt: int, expiresAt: int)

  /** A background refresh under way. */
  datatype Refresh = Refresh(key: string, load: LoadOptions, ttl: int)

  datatype Reply =
    | Fresh(status: Status, age: int)
    | Stale(status: Status, age: int)
    | MustLoad

  ghost function IdsFor(running: map<nat, Refresh>, key: string): set<nat> {
    set id | id in running && running[id].key == key
  }

  lemma IdsAdd(running: map<nat, Refresh>, id: nat, r: Refresh, key: string)
    requires id !in running
    ensures IdsFor(running[id := r], key) == IdsFor(running, key) + (if r.key == key then {id} else {})
    ensures |IdsFor(running[id := r], key)| == |IdsFor(running, key)| + (if r.key == key then 1 else 0)
  {
    assert IdsFor(running[id := r], key) == IdsFor(running, key) + (if r.key == key then {id} else {});
  }

  lemma IdsRemove(running: map<nat, Refresh>, id: nat, key: string)
    requires id in running
    ensures IdsFor(running - {id}, key) == IdsFor(running, key) - {id}
    ensures |IdsFor(running - {id}, key)| == |IdsFor(running, key)| - (if running[id].key == key then 1 else 0)
  {
    assert IdsFor(running - {id}, key) == IdsFor(running, key) - {id};
  }

  /** The refreshes under way, how many were started, which of them set each flag, and how many
      foreground loads of a key ended while its flag was set. */
  datatype Refreshes = Refreshes(
    running: map<nat, Refresh>, started: nat, setter: map<string, nat>, overtakes: map<string, nat>)
  {
    function Overtakes(key: string): nat {
      if key in overtakes then overtakes[key] else 0
    }

    /** A set flag belongs to a refresh that is still running; a refresh that runs without
        owning its flag was overtaken by a foreground load. */
    ghost predicate Valid() {
      && (forall id <- running ::
            id < started && Normal(running[id].load) && running[id].key == CacheKey(running[id].load) && running[id].ttl > 0)
      && (forall k <- setter :: setter[k] in running && running[setter[k]].key == k)
      && (forall k :: |IdsFor(running, k)| <= Overtakes(k) + (if k in setter then 1 else 0))
    }

    function Start(r: Refresh): Refreshes {
      Refreshes(running[started := r], started + 1, setter[r.key := started], overtakes)
    }

    function End(id: nat): Refreshes
      requires id in running
    {
      Refreshes(running - {id}, started, setter - {running[id].key}, overtakes)
    }

    function Overtake(key: string): Refreshes {
      Refreshes(running, started, setter - {key},
                if key in setter then overtakes[key := Overtakes(key) + 1] else overtakes)
    }

    lemma StartKeeps(r: Refresh)
      requires Valid() && r.key !in setter && Normal(r.load) && r.key == CacheKey(r.load) && r.ttl > 0
      ensures Start(r).Valid()
    {
      forall k ensures |IdsFor(Start(r).running, k)| == |IdsFor(running, k)| + (if r.key == k then 1 else 0)
      {
        IdsAdd(running, started, r, k);
      }
    }

    /** A second refresh of one key runs beside the first exactly if the flag of a running one was
        dropped, and it is started for that key. */
    lemma StartOverlaps(r: Refresh, key: string)
      requires Valid() && r.key !in setter
      ensures |IdsFor(Start(r).running, key)| > |IdsFor(running, key)| && |IdsFor(Start(r).running, key)| > 1 <==>
                r.key == key && IdsFor(running, key) != {}
      ensures r.key == key && IdsFor(running, key) != {} ==> Overtakes(key) > 0
    {
      IdsAdd(running, started, r, key);
      assert |IdsFor(running, key)| <= Overtakes(key) + (if key in setter then 1 else 0);
      if IdsFor(running, key) != {} {
        var id :| id in IdsFor(running, key);
        assert |IdsFor(running, key)| == |IdsFor(running, key) - {id}| + 1;
      }
    }

    lemma EndKeeps(id: nat)
      requires Valid() && id in running
      ensures End(id).Valid()
    {
      forall k ensures |IdsFor(End(id).running, k)| == |IdsFor(running, k)| - (if running[id].key == k then 1 else 0)
      {
        IdsRemove(running, id, k);
      }
      forall k ensures |IdsFor(End(id).running, k)| <= Overtakes(k) + (if k in End(id).setter then 1 else 0)
      {
        assert |IdsFor(running, k)| <= Overtakes(k) + (if k in setter then 1 else 0);
      }
    }

    lemma OvertakeKeeps(key: string)
      requires Valid()
      ensures Overtake(key).Valid()
    {
      forall k ensures |IdsFor(running, k)| <= Overtake(key).Overtakes(k) + (if k in Overtake(key).setter then 1 else 0)
      {
        assert |IdsFor(running, k)| <= Overtakes(k) + (if k in setter then 1 else 0);
      }
    }
  }

  class Cache {
    var entries: map<string, Entry>
    var refreshInFlight: set<string>
    // the environment: time, and the refreshes under way
    ghost var clock: int
    ghost var refreshes: Refreshes

    ghost function RunningFor(key: string): set<nat>
      reads this
    {
      IdsFor(refreshes.running, key)
    }

    /** Every entry was loaded for exactly the options its key stands for, in the past. */
    ghost predicate EntriesValid()
      reads this
    {
      forall k <- entries ::
        && Normal(entries[k].status.loadedFor) && k == CacheKey(entries[k].status.loadedFor)
        && entries[k].cachedAt <= clock && entries[k].cachedAt < entries[k].expiresAt
    }

    ghost predicate Valid()
      reads this
    {
      EntriesValid() && refreshes.Valid() && refreshInFlight == refreshes.setter.Keys
    }

    constructor ()
      ensures Valid() && entries == map[] && refreshInFlight == {} && clock == 0
      ensures refreshes == Refreshes(map[], 0, map[], map[])
    {
      entries, refreshInFlight, clock := map[], {}, 0;
      refreshes := Refreshes(map[], 0, map[], map[]);
    }

    ghost method Tick(dt: nat)
      requires Valid()
      modifies this`clock
      ensures Valid() && clock == old(clock) + dt
    {
      clock := clock + dt;
    }

    /** The locked head of a read with a positive TTL; `now` was read before locking. A stale
        reply starts a refresh unless the flag of its key is set. */
    method Read(opts: Options, now: int, ttl: int) returns (reply: Reply)
      requires Valid() && Normal(opts.load) && ttl > 0 && now <= clock
      modifies this`refreshInFlight, this`refreshes
      ensures Valid()
      ensures var key := CacheKey(opts.load);
              && (reply.Fresh? <==> !opts.forceRefresh && key in entries && now < entries[key].expiresAt)
              && (reply.Stale? <==> !opts.forceRefresh && key in entries && now >= entries[key].expiresAt && opts.allowStale)
              && (!reply.MustLoad? ==> reply.status == entries[key].status && reply.status.loadedFor == opts.load)
              && (reply.Fresh? ==> 0 <= reply.age < entries[key].expiresAt - entries[key].cachedAt)
              && (reply.Stale? ==> reply.age >= entries[key].expiresAt - entries[key].cachedAt)
              && (!reply.MustLoad? ==> reply.age >= 0 && (now >= entries[key].cachedAt ==> reply.age == now - entries[key].cachedAt)
                                       && (now < entries[key].cachedAt ==> reply.age == 0))
              && refreshInFlight == old(refreshInFlight) + (if reply.Stale? then {key} else {})
              && refreshes == (if reply.Stale? && key !in old(refreshInFlight)
                               then old(refreshes).Start(Refresh(key, opts.load, ttl)) else old(refreshes))
      ensures forall key :: |RunningFor(key)| > |old(RunningFor(key))| && |RunningFor(key)| > 1 <==>
                key == CacheKey(opts.load) && reply.Stale? && key !in old(refreshInFlight) && old(RunningFor(key)) != {}
    {
      var key := CacheKey(opts.load);
      if key in entries && !opts.forceRefresh {
        var entry := entries[key];
        KeyDeterminesLoad(entry.status.loadedFor, opts.load);
        var age := if now - entry.cachedAt < 0 then 0 else now - entry.cachedAt;
        if now < entry.expiresAt {
          return Fresh(entry.status, age);
        }
        if opts.allowStale {
          if key !in refreshInFlight {
            forall k {
              refreshes.StartOverlaps(Refresh(key, opts.load, ttl), k);
            }
            StartRefresh(Refresh(key, opts.load, ttl));
          }
          return Stale(entry.status, age);
        }
      }
      reply := MustLoad;
    }

    /** Set the flag and start the goroutine. */
    method StartRefresh(r: Refresh)
      requires Valid() && r.key !in refreshInFlight && Normal(r.load) && r.key == CacheKey(r.load) && r.ttl > 0
      modifies this`refreshInFlight, this`refreshes
      ensures Valid()
      ensures refreshInFlight == old(refreshInFlight) + {r.key} && refreshes == old(refreshes).Start(r)
    {
      refreshes.StartKeeps(r);
      refreshInFlight := refreshInFlight + {r.key};
      refreshes := refreshes.Start(r);
    }

    method PutEntry(load: LoadOptions, ttl: int, result: int, cachedAt: int)
      requires EntriesValid() && Normal(load) && ttl > 0 && cachedAt <= clock
      modifies this`entries
      ensures EntriesValid()
      ensures entries == old(entries)[CacheKey(load) := Entry(Status(load, result), cachedAt, cachedAt + ttl)]
    {
      entries := entries[CacheKey(load) := Entry(Status(load, result), cachedAt, cachedAt + ttl)];
    }

    /** The end of a foreground load: on success the entry is stored and the flag of the
        key is dropped, even if a refresh of that key is still running. */
    method FinishLoad(load: LoadOptions, ttl: int, result: int, ok: bool, cachedAt: int)
      requires Valid() && Normal(load) && ttl > 0 && cachedAt <= clock
      modifies this`entries, this`refreshInFlight, this`refreshes
      ensures Valid()
      ensures entries == if ok then old(entries)[CacheKey(load) := Entry(Status(load, result), cachedAt, cachedAt + ttl)]
                         else old(entries)
      ensures refreshInFlight == old(refreshInFlight) - (if ok then {CacheKey(load)} else {})
      ensures refreshes == if ok then old(refreshes).Overtake(CacheKey(load)) else old(refreshes)
    {
      if ok {
        PutEntry(load, ttl, result, cachedAt);
        refreshes.OvertakeKeeps(CacheKey(load));
        refreshInFlight := refreshInFlight - {CacheKey(load)};
        refreshes := refreshes.Overtake(CacheKey(load));
      }
    }

    /** The end of a background refresh: the flag of the key is dropped whoever set it. */
    method FinishRefresh(ghost id: nat, key: string, load: LoadOptions, ttl: int, result: int, ok: bool, cachedAt: int)
      requires Valid() && id in refreshes.running && refreshes.running[id] == Refresh(key, load, ttl) && cachedAt <= clock
      modifies this`entries, this`refreshInFlight, this`refreshes
      ensures Valid()
      ensures refreshes == old(refreshes).End(id) && refreshInFlight == old(refreshInFlight) - {key}
      ensures entries == if ok then old(entries)[key := Entry(Status(load, result), cachedAt, cachedAt + ttl)] else old(entries)
    {
      refreshes.EndKeeps(id);
      refreshInFlight := refreshInFlight - {key};
      refreshes := refreshes.End(id);
      if ok {
        PutEntry(load, ttl, result, cachedAt);
      }
    }

    /** Refreshes of one key running at once: at most one, plus one for every foreground
        load of that key that ended while its flag was set. A set flag is never a leftover:
        the refresh that set it still runs. */
    lemma RefreshesBounded(key: string)
      requires Valid()
      ensures |RunningFor(key)| <= 1 + refreshes.Overtakes(key)
      ensures key in refreshInFlight ==> key in refreshes.setter && refreshes.setter[key] in RunningFor(key)
    {
    }
  }

  /** The bound is met for every number of overtakes: each foreground load that ends during a
      refresh lets one more refresh of the same key run beside the others. */
  method OvertakenRefreshes(n: nat) returns (c: Cache)
    ensures fresh(c) && c.Valid() && c.refreshes.Overtakes("summary") == n
    ensures |c.RunningFor("summary")| == n + 1
  {
    c := new Cache();
    var load := LoadOptions(SummaryView, NOTHING);
    c.FinishLoad(load, 1, 0, true, 0);
    c.Tick(1);
    var i := 0;
    while i < n
      invariant 0 <= i <= n && fresh(c) && c.Valid()
      invariant c.refreshes.Overtakes("summary") == i == |c.RunningFor("summary")| && "summary" !in c.refreshInFlight
      invariant "summary" in c.entries && c.entries["summary"].expiresAt <= i + 1 == c.clock
    {
      StaleRead(c, load, i + 1);
      c.FinishLoad(load, 1, i + 1, true, i + 1);
      c.Tick(1);
      i := i + 1;
    }
    StaleRead(c, load, n + 1);
  }

  /** A stale read of the summary starts one more refresh. */
  method StaleRead(c: Cache, load: LoadOptions, now: int)
    requires c.Valid() && load == LoadOptions(SummaryView, NOTHING) && now == c.clock
    requires "summary" in c.entries && c.entries["summary"].expiresAt <= now && "summary" !in c.refreshInFlight
    modifies c`refreshInFlight, c`refreshes
    ensures c.Valid() && "summary" in c.refreshInFlight
    ensures c.refreshes.overtakes == old(c.refreshes.overtakes)
    ensures |c.RunningFor("summary")| == |old(c.RunningFor("summary"))| + 1
  {
    ghost var r := Refresh("summary", load, 1);
    IdsAdd(c.refreshes.running, c.refreshes.started, r, "summary");
    var _ := c.Read(Options(false, true, load), now, 1);
  }
}
