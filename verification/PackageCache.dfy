/**
  The operator's package cache: one entry per jukebox, upserted on reconcile only when it differs,
  removed on cleanup, rebuilt from the list of jukeboxes when the operator starts.
*/
module PackageCache {
  import opened Strings
  import opened Packages

  datatype CacheItem = CacheItem(pullSecret: Option<string>, packages: seq<Package>)

  type Cache = map<string, CacheItem>

  /** A jukebox object; the status is its package list, once a scan has set it. */
  datatype JukeBox = JukeBox(name: string, pullSecret: Option<string>, status: Option<seq<Package>>)

  predicate EntryDiffers(cache: Cache, j: JukeBox) {
    if j.status.None? then false
    else if j.name in cache then
      cache[j.name].packages != j.status.value || cache[j.name].pullSecret != j.pullSecret
    else true
  }

  function Upserted(cache: Cache, j: JukeBox): Cache {
    if j.status.None? then cache else cache[j.name := CacheItem(j.pullSecret, j.status.value)]
  }

  datatype Event = Reconcile(jukebox: JukeBox) | Cleanup(name: string)

  function Step(cache: Cache, e: Event): Cache {
    match e
    case Reconcile(j) => if EntryDiffers(cache, j) then Upserted(cache, j) else cache
    case Cleanup(name) => cache - {name}
  }

  /** The cache of an operator that started over `boot` and saw `events` since. */
  function CacheAfter(boot: seq<JukeBox>, events: seq<Event>): Cache {
    if events == [] then Rebuilt(boot)
    else Step(CacheAfter(boot, events[..|events| - 1]), events[|events| - 1])
  }

  class Context {
    var packages: Cache

    /** `Manager::new`. */
    constructor (list: seq<JukeBox>)
      ensures packages == Rebuilt(list)
    {
      packages := map[];
      new;
      Rebuild(list);
    }

    /** The cache part of `JukeBox::reconcile`. */
    method OnReconcile(j: JukeBox)
      modifies this
      ensures packages == Step(old(packages), Reconcile(j)) == Upserted(old(packages), j)
    {
      UpsertOnlyIfDifferent(packages, j);
      if EntryDiffers(packages, j) && j.status.Some? {
        packages := packages[j.name := CacheItem(j.pullSecret, j.status.value)];
      }
    }

    /** The cache part of `JukeBox::cleanup`. */
    method OnCleanup(name: string)
      modifies this
      ensures packages == Step(old(packages), Cleanup(name))
    {
      packages := packages - {name};
    }

    /** The initial fill in `Manager::new`. */
    method Rebuild(list: seq<JukeBox>)
      modifies this
      ensures packages == Rebuilt(list)
    {
      var cache: Cache := map[];
      for i := 0 to |list|
        invariant cache == Rebuilt(list[..i])
      {
        assert list[..i + 1][..i] == list[..i];
        if list[i].status.Some? {
          cache := cache[list[i].name := CacheItem(list[i].pullSecret, list[i].status.value)];
        }
      }
      assert list[..|list|] == list;
      packages := cache;
    }
  }

  function Rebuilt(list: seq<JukeBox>): Cache {
    if list == [] then map[] else Upserted(Rebuilt(list[..|list| - 1]), list[|list| - 1])
  }

  /** "Upsert only if different" is "always upsert". */
  lemma {:induction false} UpsertOnlyIfDifferent(cache: Cache, j: JukeBox)
    ensures Step(cache, Reconcile(j)) == Upserted(cache, j)
  {
    if !EntryDiffers(cache, j) && j.status.Some? {
      assert cache[j.name := cache[j.name]] == cache;
    }
  }

  function Lookup(cache: Cache, name: string): Option<CacheItem> {
    if name in cache then Some(cache[name]) else None
  }

  function Find(list: seq<JukeBox>, name: string): Option<JukeBox> {
    if list == [] then None
    else if list[|list| - 1].name == name then Some(list[|list| - 1])
    else Find(list[..|list| - 1], name)
  }

  predicate DistinctNames(list: seq<JukeBox>) {
    forall i, j :: 0 <= i < j < |list| ==> list[i].name != list[j].name
  }

  function Snapshot(j: Option<JukeBox>): Option<CacheItem> {
    if j.Some? && j.value.status.Some? then Some(CacheItem(j.value.pullSecret, j.value.status.value)) else None
  }

  lemma {:induction false} FindIsMember(list: seq<JukeBox>, name: string)
    ensures Find(list, name).Some? ==> Find(list, name).value in list && Find(list, name).value.name == name
  {
    if list == [] {
    } else {
      FindIsMember(list[..|list| - 1], name);
    }
  }

  lemma {:induction false} RebuiltIsSnapshots(list: seq<JukeBox>, name: string)
    requires DistinctNames(list)
    ensures Lookup(Rebuilt(list), name) == Snapshot(Find(list, name))
  {
    if list == [] {
    } else {
      var front, last := list[..|list| - 1], list[|list| - 1];
      RebuiltIsSnapshots(front, name);
      if last.name == name {
        FindIsMember(front, name);
        assert Find(front, name).None?;
      }
    }
  }

  /** The last snapshot of a jukebox that had a status, reconciled since its last cleanup or listed when the
      operator started. */
  function LastSnapshot(boot: seq<JukeBox>, events: seq<Event>, name: string): Option<CacheItem> {
    if events == [] then Snapshot(Find(boot, name))
    else
      match events[|events| - 1]
      case Reconcile(j) =>
        if j.name == name && j.status.Some? then Some(CacheItem(j.pullSecret, j.status.value))
        else LastSnapshot(boot, events[..|events| - 1], name)
      case Cleanup(n) => if n == name then None else LastSnapshot(boot, events[..|events| - 1], name)
  }

  /** For every history of reconciles and cleanups of any jukeboxes, the cache is the last snapshots. */
  lemma {:induction false} CacheIsLastSnapshots(boot: seq<JukeBox>, events: seq<Event>, name: string)
    requires DistinctNames(boot)
    ensures Lookup(CacheAfter(boot, events), name) == LastSnapshot(boot, events, name)
  {
    if events == [] {
      RebuiltIsSnapshots(boot, name);
    } else {
      var e := events[|events| - 1];
      CacheIsLastSnapshots(boot, events[..|events| - 1], name);
      if e.Reconcile? {
        UpsertOnlyIfDifferent(CacheAfter(boot, events[..|events| - 1]), e.jukebox);
      }
    }
  }

  lemma {:induction false} SameCache(a: Cache, b: Cache)
    ensures a == b <==> forall name :: Lookup(a, name) == Lookup(b, name)
  {
    if forall name :: Lookup(a, name) == Lookup(b, name) {
      forall name ensures (name in a <==> name in b) && (name in a ==> a[name] == b[name]) {
        assert Lookup(a, name) == Lookup(b, name);
      }
      assert a.Keys == b.Keys;
      assert a == b;
    }
  }

  /** The running cache equals a rebuild exactly when every jukebox's last snapshot is the one its object
      shows now. */
  lemma {:induction false} CacheEqualsRebuild(boot: seq<JukeBox>, events: seq<Event>, list: seq<JukeBox>)
    requires DistinctNames(boot) && DistinctNames(list)
    ensures CacheAfter(boot, events) == Rebuilt(list) <==>
      forall name :: LastSnapshot(boot, events, name) == Snapshot(Find(list, name))
  {
    hide *;
    var a, b := CacheAfter(boot, events), Rebuilt(list);
    forall name
      ensures Lookup(a, name) == LastSnapshot(boot, events, name)
      ensures Lookup(b, name) == Snapshot(Find(list, name))
    {
      CacheIsLastSnapshots(boot, events, name);
      RebuiltIsSnapshots(list, name);
    }
    SameCache(a, b);
    if a == b {
      forall name ensures LastSnapshot(boot, events, name) == Snapshot(Find(list, name)) {
        assert Lookup(a, name) == Lookup(b, name);
      }
    } else {
      var name :| Lookup(a, name) != Lookup(b, name);
      assert LastSnapshot(boot, events, name) != Snapshot(Find(list, name));
    }
  }

  /** The last event of a jukebox in a history. */
  function LastEvent(events: seq<Event>, name: string): Option<Event> {
    if events == [] then None
    else
      var e := events[|events| - 1];
      if (match e case Reconcile(j) => j.name == name case Cleanup(n) => n == name) then Some(e)
      else LastEvent(events[..|events| - 1], name)
  }

  lemma {:induction false} LastEventDecides(boot: seq<JukeBox>, events: seq<Event>, name: string)
    ensures LastEvent(events, name).None? ==> LastSnapshot(boot, events, name) == Snapshot(Find(boot, name))
    ensures LastEvent(events, name).Some? && LastEvent(events, name).value.Cleanup? ==>
      LastSnapshot(boot, events, name) == None
    ensures LastEvent(events, name).Some? && LastEvent(events, name).value.Reconcile? ==>
      var j := LastEvent(events, name).value.jukebox;
      j.status.Some? ==> LastSnapshot(boot, events, name) == Snapshot(Some(j))
  {
    if events == [] {
    } else {
      LastEventDecides(boot, events[..|events| - 1], name);
    }
  }

  /** The operator has seen the jukebox as it is: reconciled last, or not since it was listed. */
  predicate Seen(boot: seq<JukeBox>, events: seq<Event>, j: JukeBox) {
    LastEvent(events, j.name) == Some(Reconcile(j)) || (LastEvent(events, j.name).None? && Find(boot, j.name) == Some(j))
  }

  /** Every object has a status and was seen as it is now, and every other jukebox was cleaned up or never
      seen: the cache is the from-scratch rebuild. */
  lemma {:induction false} SettledCacheIsRebuild(boot: seq<JukeBox>, events: seq<Event>, list: seq<JukeBox>)
    requires DistinctNames(boot) && DistinctNames(list)
    requires forall j | j in list :: j.status.Some? && Seen(boot, events, j)
    requires forall name :: Find(list, name).None? ==>
      if LastEvent(events, name).None? then Find(boot, name).None? else LastEvent(events, name).value.Cleanup?
    ensures CacheAfter(boot, events) == Rebuilt(list)
  {
    forall name ensures LastSnapshot(boot, events, name) == Snapshot(Find(list, name)) {
      LastEventDecides(boot, events, name);
      FindIsMember(list, name);
    }
    CacheEqualsRebuild(boot, events, list);
  }
}
