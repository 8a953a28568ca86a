/**
 The bounded report cache of apps/api/src/monitoring/monitoring.service.ts.

 A JavaScript `Map` iterates in insertion order and keeps a key's place when its value is replaced,
 so the cache is a sequence of slots with distinct keys.  A lookup that misses starts a read; the
 read may finish much later, after any number of other lookups and writes.
 */
module ReportCache {
  import opened Options

  const MAX_ENTRIES: nat := 80

  datatype Slot<V> = Slot(key: string, expiresAt: int, value: V)

  type Cache<V> = seq<Slot<V>>

  // ---------- the Map operations ----------

  function Find<V>(cache: Cache<V>, key: string): Option<Slot<V>> {
    if cache == [] then None
    else if cache[0].key == key then Some(cache[0])
    else Find(cache[1..], key)
  }

  /** `Map.set`: replace in place, or append. */
  function Put<V>(cache: Cache<V>, slot: Slot<V>): Cache<V> {
    if cache == [] then [slot]
    else if cache[0].key == slot.key then [slot] + cache[1..]
    else [cache[0]] + Put(cache[1..], slot)
  }

  function Delete<V>(cache: Cache<V>, key: string): Cache<V> {
    if cache == [] then []
    else if cache[0].key == key then cache[1..]
    else [cache[0]] + Delete(cache[1..], key)
  }

  function Live<V>(cache: Cache<V>, now: int): Cache<V> {
    if cache == [] then []
    else if cache[0].expiresAt > now then [cache[0]] + Live(cache[1..], now)
    else Live(cache[1..], now)
  }

  /** What pruning leaves: nothing changes while the cache fits; otherwise the newest inserted unexpired slots. */
  function Pruned<V>(cache: Cache<V>, now: int, limit: nat): Cache<V> {
    if |cache| <= limit then cache
    else
      var live := Live(cache, now);
      if |live| <= limit then live else live[|live| - limit..]
  }

  /** The invariant of a `Map` whose keys are never empty. */
  predicate IsMap<V>(cache: Cache<V>) {
    cache == [] || (cache[0].key != "" && Find(cache[1..], cache[0].key) == None && IsMap(cache[1..]))
  }

  // ---------- facts about the operations ----------

  lemma {:induction false} PutFinds<V>(cache: Cache<V>, slot: Slot<V>, key: string)
    ensures Find(Put(cache, slot), key) == if key == slot.key then Some(slot) else Find(cache, key)
  {
    if cache != [] && cache[0].key != slot.key {
      PutFinds(cache[1..], slot, key);
    }
  }

  lemma {:induction false} PutIsMap<V>(cache: Cache<V>, slot: Slot<V>)
    requires IsMap(cache) && slot.key != ""
    ensures IsMap(Put(cache, slot))
    ensures |Put(cache, slot)| == if Find(cache, slot.key) == None then |cache| + 1 else |cache|
    ensures Find(cache, slot.key) == None ==> Put(cache, slot) == cache + [slot]
  {
    if cache != [] && cache[0].key != slot.key {
      PutIsMap(cache[1..], slot);
      PutFinds(cache[1..], slot, cache[0].key);
    }
  }

  lemma {:induction false} DeleteFinds<V>(cache: Cache<V>, gone: string, key: string)
    requires IsMap(cache)
    ensures Find(Delete(cache, gone), key) == if key == gone then None else Find(cache, key)
  {
    if cache != [] && cache[0].key != gone {
      DeleteFinds(cache[1..], gone, key);
    }
  }

  lemma {:induction false} LiveFinds<V>(cache: Cache<V>, now: int, key: string)
    requires IsMap(cache)
    ensures var found := Find(cache, key);
            Find(Live(cache, now), key) == if found.Some? && found.value.expiresAt > now then found else None
  {
    if cache != [] {
      LiveFinds(cache[1..], now, key);
    }
  }

  lemma {:induction false} LiveIsMap<V>(cache: Cache<V>, now: int)
    requires IsMap(cache)
    ensures IsMap(Live(cache, now)) && |Live(cache, now)| <= |cache|
  {
    if cache != [] {
      LiveIsMap(cache[1..], now);
      LiveFinds(cache[1..], now, cache[0].key);
    }
  }

  lemma {:induction false} DropFinds<V>(cache: Cache<V>, n: nat, key: string)
    requires IsMap(cache) && n <= |cache|
    ensures IsMap(cache[n..])
    ensures Find(cache[n..], key).Some? ==> Find(cache[n..], key) == Find(cache, key)
  {
    if n > 0 {
      DropFinds(cache[1..], n - 1, key);
      assert cache[1..][n - 1..] == cache[n..];
    }
  }

  /** Pruning keeps the bound, keeps the map, and never changes a slot it keeps. */
  lemma PrunedSound<V>(cache: Cache<V>, now: int, limit: nat, key: string)
    requires IsMap(cache)
    ensures |Pruned(cache, now, limit)| <= limit && IsMap(Pruned(cache, now, limit))
    ensures Find(Pruned(cache, now, limit), key).Some? ==> Find(Pruned(cache, now, limit), key) == Find(cache, key)
  {
    var live := Live(cache, now);
    LiveIsMap(cache, now);
    LiveFinds(cache, now, key);
    if |live| > limit {
      DropFinds(live, |live| - limit, key);
    }
  }

  lemma {:induction false} FindLast<V>(cache: Cache<V>, slot: Slot<V>)
    requires IsMap(cache + [slot])
    ensures Find(cache + [slot], slot.key) == Some(slot)
  {
    if cache != [] {
      var all := cache + [slot];
      assert all[1..] == cache[1..] + [slot];
      FindLast(cache[1..], slot);
    }
  }

  lemma {:induction false} LiveAppend<V>(cache: Cache<V>, slot: Slot<V>, now: int)
    ensures Live(cache + [slot], now) == Live(cache, now) + if slot.expiresAt > now then [slot] else []
  {
    if cache != [] {
      assert (cache + [slot])[1..] == cache[1..] + [slot];
      LiveAppend(cache[1..], slot, now);
    }
  }

  // ---------- one write ----------

  function Write<V>(cache: Cache<V>, slot: Slot<V>, now: int): Cache<V> {
    Pruned(Put(cache, slot), now, MAX_ENTRIES)
  }

  ghost predicate Bounded<V>(cache: Cache<V>) {
    IsMap(cache) && |cache| <= MAX_ENTRIES
  }

  lemma {:induction false} LiveAll<V>(cache: Cache<V>, now: int)
    ensures |Live(cache, now)| <= |cache|
    ensures |Live(cache, now)| == |cache| ==> Live(cache, now) == cache
  {
    if cache != [] {
      LiveAll(cache[1..], now);
    }
  }

  /** Writing a new key into a full cache. */
  lemma WriteWhenFull<V>(cache: Cache<V>, slot: Slot<V>, now: int)
    requires Bounded(cache) && slot.key != "" && |cache| == MAX_ENTRIES && Find(cache, slot.key) == None
    ensures Write(cache, slot, now)
         == if slot.expiresAt <= now then Live(cache, now)
            else if |Live(cache, now)| == MAX_ENTRIES then cache[1..] + [slot]
            else Live(cache, now) + [slot]
    ensures IsMap(cache + [slot])
  {
    PutIsMap(cache, slot);
    LiveAppend(cache, slot, now);
    LiveAll(cache, now);
    var live := Live(cache, now) + [slot];
    assert |Live(cache, now)| == MAX_ENTRIES ==> live[|live| - MAX_ENTRIES..] == cache[1..] + [slot];
  }

  lemma WriteWhenRoom<V>(cache: Cache<V>, slot: Slot<V>, now: int)
    requires Bounded(cache) && slot.key != "" && (|cache| < MAX_ENTRIES || Find(cache, slot.key).Some?)
    ensures Write(cache, slot, now) == Put(cache, slot)
  {
    PutIsMap(cache, slot);
  }

  /** The entry just written is missing exactly when it was a new key, the cache was full, and its own life is over. */
  lemma WrittenSurvivesIff<V>(cache: Cache<V>, slot: Slot<V>, now: int)
    requires Bounded(cache) && slot.key != ""
    ensures Find(Write(cache, slot, now), slot.key)
         == if Find(cache, slot.key) == None && |cache| == MAX_ENTRIES && slot.expiresAt <= now then None
            else Some(slot)
  {
    hide Write, Put, Live, IsMap, Find;
    if Find(cache, slot.key) == None && |cache| == MAX_ENTRIES {
      WriteWhenFull(cache, slot, now);
      LiveFinds(cache, now, slot.key);
      if slot.expiresAt > now {
        LiveIsMap(cache + [slot], now);
        LiveAppend(cache, slot, now);
        FindLast(Live(cache, now), slot);
        DropFinds(cache + [slot], 1, slot.key);
        assert (cache + [slot])[1..] == cache[1..] + [slot];
        FindLast(cache[1..], slot);
      }
    } else {
      WriteWhenRoom(cache, slot, now);
      PutFinds(cache, slot, slot.key);
    }
  }

  /**
   A write loses an unexpired entry only when the cache was full of unexpired entries, and then
   exactly the one inserted first.
   */
  lemma OnlyOldestLiveIsEvicted<V>(cache: Cache<V>, slot: Slot<V>, now: int, key: string)
    requires Bounded(cache) && slot.key != "" && key != slot.key
    requires Find(cache, key).Some? && Find(cache, key).value.expiresAt > now
    ensures Find(Write(cache, slot, now), key)
         == if && key == cache[0].key && Find(cache, slot.key) == None && slot.expiresAt > now
               && |Live(cache, now)| == MAX_ENTRIES then None
            else Find(cache, key)
  {
    PutIsMap(cache, slot);
    PutFinds(cache, slot, key);
    LiveAll(cache, now);
    if Find(cache, slot.key) == None && |cache| == MAX_ENTRIES {
      WriteWhenFull(cache, slot, now);
      LiveFinds(cache, now, key);
      LiveFinds(cache + [slot], now, key);
      LiveAppend(cache, slot, now);
      assert (cache + [slot])[1..] == cache[1..] + [slot];
    }
  }

  /**
   Writing a key again keeps its old place: whether the oldest entry was still live or had expired, once
   refreshed it is the next to go from a full cache of live entries.
   */
  lemma RefreshedOldestIsEvicted<V>(cache: Cache<V>, again: Slot<V>, next: Slot<V>, now: int)
    requires Bounded(cache) && |cache| == MAX_ENTRIES && |Live(cache[1..], now)| == |cache| - 1
    requires again.key == cache[0].key && again.expiresAt > now
    requires next.key != "" && Find(cache, next.key) == None && next.expiresAt > now
    ensures Find(Write(cache, again, now), again.key) == Some(again)
    ensures Find(Write(Write(cache, again, now), next, now), again.key) == None
  {
    var once := Write(cache, again, now);
    WrittenSurvivesIff(cache, again, now);
    assert once == [again] + cache[1..];
    PutIsMap(cache, again);
    LiveAll(cache[1..], now);
    LiveAppend(once, next, now);
    PutFinds(cache, again, next.key);
    OnlyOldestLiveIsEvicted(once, next, now, again.key);
  }

  // ---------- lookups and reads, interleaved ----------

  datatype Read<V> = Read(key: string, ttl: nat, startedAt: int, result: Option<V>)

  datatype Hit<V> = Hit(key: string, now: int, slot: Slot<V>)

  /** The cache field, and the history of reads and cache hits. */
  datatype State<V> = State(cache: Cache<V>, started: seq<Read<V>>, hits: seq<Hit<V>>)

  datatype Event<V> =
    | Lookup(key: string, ttl: nat, now: int)
    | Finish(read: nat, value: V, now: int)

  function Fresh<V>(cache: Cache<V>, key: string, ttl: nat, now: int): Option<Slot<V>> {
    var found := Find(cache, key);
    if ttl > 0 && found.Some? && found.value.expiresAt > now then found else None
  }

  predicate Pending<V>(s: State<V>, id: nat) {
    id < |s.started| && s.started[id].result == None
  }

  function LookupStep<V>(s: State<V>, key: string, ttl: nat, now: int): State<V> {
    match Fresh(s.cache, key, ttl, now)
    case Some(slot) => s.(hits := s.hits + [Hit(key, now, slot)])
    case None => s.(started := s.started + [Read(key, ttl, now, None)])
  }

  /** The life of an entry counts from the lookup that started its read. */
  function FinishStep<V>(s: State<V>, id: nat, value: V, now: int): State<V>
    requires id < |s.started|
  {
    var r := s.started[id];
    var next := s.(started := s.started[id := r.(result := Some(value))]);
    if r.ttl > 0 then next.(cache := Write(s.cache, Slot(r.key, r.startedAt + r.ttl, value), now)) else next
  }

  /** Lookup keys always contain a colon, so they are never empty. */
  function Step<V>(s: State<V>, e: Event<V>): State<V> {
    match e
    case Lookup(key, ttl, now) => if key == "" then s else LookupStep(s, key, ttl, now)
    case Finish(id, value, now) => if Pending(s, id) then FinishStep(s, id, value, now) else s
  }

  function Initial<V>(): State<V> {
    State([], [], [])
  }

  function Run<V>(events: seq<Event<V>>): State<V> {
    if events == [] then Initial() else Step(Run(events[..|events| - 1]), events[|events| - 1])
  }

  /** The slot holds what a finished read of its key returned, and expires when that read said. */
  ghost predicate FromRead<V>(s: State<V>, slot: Slot<V>) {
    exists id :: 0 <= id < |s.started| && s.started[id].key == slot.key && s.started[id].result == Some(slot.value)
                 && slot.expiresAt == s.started[id].startedAt + s.started[id].ttl
  }

  ghost predicate CacheFromReads<V>(s: State<V>) {
    forall key :: Find(s.cache, key).Some? ==>
      FromRead(s, Find(s.cache, key).value) && Find(s.cache, key).value.key == key
  }

  ghost predicate HitHonest<V>(s: State<V>, hit: Hit<V>) {
    hit.slot.key == hit.key && hit.slot.expiresAt > hit.now && FromRead(s, hit.slot)
  }

  ghost predicate Inv<V>(s: State<V>) {
    && Bounded(s.cache)
    && (forall id :: 0 <= id < |s.started| ==> s.started[id].key != "")
    && CacheFromReads(s)
    && forall i :: 0 <= i < |s.hits| ==> HitHonest(s, s.hits[i])
  }

  ghost predicate Extends<V>(s: State<V>, t: State<V>) {
    && |s.started| <= |t.started|
    && forall id :: 0 <= id < |s.started| && s.started[id].result.Some? ==> t.started[id] == s.started[id]
  }

  lemma ReadStays<V>(s: State<V>, t: State<V>, slot: Slot<V>)
    requires Extends(s, t) && FromRead(s, slot)
    ensures FromRead(t, slot)
  {
    var id :| 0 <= id < |s.started| && s.started[id].key == slot.key && s.started[id].result == Some(slot.value)
              && slot.expiresAt == s.started[id].startedAt + s.started[id].ttl;
    assert t.started[id] == s.started[id];
  }

  lemma HitsStay<V>(s: State<V>, t: State<V>)
    requires Extends(s, t) && Inv(s) && t.hits == s.hits
    ensures forall i :: 0 <= i < |t.hits| ==> HitHonest(t, t.hits[i])
  {
    forall i | 0 <= i < |t.hits| ensures HitHonest(t, t.hits[i]) {
      ReadStays(s, t, s.hits[i].slot);
    }
  }

  lemma LookupKeeps<V>(s: State<V>, key: string, ttl: nat, now: int)
    requires Inv(s) && key != ""
    ensures Inv(LookupStep(s, key, ttl, now))
  {
    hide Bounded, FromRead;
    var t := LookupStep(s, key, ttl, now);
    assert t.cache == s.cache;
    forall slot | FromRead(s, slot) ensures FromRead(t, slot) {
      ReadStays(s, t, slot);
    }
    forall k | Find(t.cache, k).Some? ensures FromRead(t, Find(t.cache, k).value) && Find(t.cache, k).value.key == k {
      ReadStays(s, t, Find(s.cache, k).value);
    }
    forall i | 0 <= i < |t.hits| ensures HitHonest(t, t.hits[i]) {
      if i < |s.hits| {
        assert HitHonest(s, s.hits[i]);
      }
    }
  }

  lemma FinishKeeps<V>(s: State<V>, id: nat, value: V, now: int)
    requires Inv(s) && Pending(s, id)
    ensures Inv(FinishStep(s, id, value, now))
  {
    hide FromRead, Find, Pruned, Put, IsMap;
    var t := FinishStep(s, id, value, now);
    var r := s.started[id];
    HitsStay(s, t);
    if r.ttl > 0 {
      var slot := Slot(r.key, r.startedAt + r.ttl, value);
      PutIsMap(s.cache, slot);
      NewRead(t, id, slot);
      PrunedSound(Put(s.cache, slot), now, MAX_ENTRIES, "");
      forall key | Find(t.cache, key).Some? ensures FromRead(t, Find(t.cache, key).value)
          && Find(t.cache, key).value.key == key {
        PrunedSound(Put(s.cache, slot), now, MAX_ENTRIES, key);
        PutFinds(s.cache, slot, key);
        if key != slot.key {
          ReadStays(s, t, Find(s.cache, key).value);
        }
      }
    } else {
      forall key | Find(t.cache, key).Some? ensures FromRead(t, Find(t.cache, key).value) {
        ReadStays(s, t, Find(s.cache, key).value);
      }
    }
  }

  lemma NewRead<V>(t: State<V>, id: nat, slot: Slot<V>)
    requires id < |t.started| && t.started[id].key == slot.key && t.started[id].result == Some(slot.value)
    requires slot.expiresAt == t.started[id].startedAt + t.started[id].ttl
    ensures FromRead(t, slot)
  {
  }

  lemma {:induction false} RunKeeps<V>(events: seq<Event<V>>)
    ensures Inv(Run(events))
  {
    hide Inv;
    if events == [] {
      EmptyInv<V>();
    } else {
      var s := Run(events[..|events| - 1]);
      RunKeeps(events[..|events| - 1]);
      match events[|events| - 1]
      case Lookup(key, ttl, now) => if key != "" { LookupKeeps(s, key, ttl, now); }
      case Finish(id, value, now) => if Pending(s, id) { FinishKeeps(s, id, value, now); }
    }
  }

  lemma EmptyInv<V>()
    ensures Inv(Initial<V>())
  {
  }

  /** In every interleaving the cache holds at most 80 entries between events. */
  lemma NeverAboveLimit<V>(events: seq<Event<V>>)
    ensures |Run(events).cache| <= 80 && IsMap(Run(events).cache)
  {
    RunKeeps(events);
  }

  /** Every hit returned an unexpired value that a read of that very key produced. */
  lemma EveryHitHonest<V>(events: seq<Event<V>>, i: nat)
    requires i < |Run(events).hits|
    ensures HitHonest(Run(events), Run(events).hits[i])
  {
    RunKeeps(events);
  }

  // ---------- runs, in terms of the slots alone ----------

  lemma RunNext<V>(events: seq<Event<V>>, e: Event<V>)
    ensures Run(events + [e]) == Step(Run(events), e)
  {
    assert (events + [e])[..|events|] == events;
  }

  /** The slot of a key, of which a `Map` has at most one. */
  ghost predicate Holds<V>(cache: Cache<V>, slot: Slot<V>) {
    exists i :: 0 <= i < |cache| && cache[i] == slot
  }

  ghost predicate HasKey<V>(cache: Cache<V>, key: string) {
    exists i :: 0 <= i < |cache| && cache[i].key == key
  }

  lemma {:induction false} FindIffHolds<V>(cache: Cache<V>, slot: Slot<V>)
    requires IsMap(cache)
    ensures Find(cache, slot.key) == Some(slot) <==> Holds(cache, slot)
    ensures Find(cache, slot.key).Some? <==> HasKey(cache, slot.key)
  {
    if cache != [] {
      var rest := cache[1..];
      FindIffHolds(rest, slot);
      if Holds(rest, slot) {
        var i :| 0 <= i < |rest| && rest[i] == slot;
        assert cache[i + 1] == slot;
      }
      if HasKey(rest, slot.key) {
        var i :| 0 <= i < |rest| && rest[i].key == slot.key;
        assert cache[i + 1].key == slot.key;
      }
      if i :| 0 < i < |cache| && cache[i] == slot {
        assert rest[i - 1] == slot;
      }
      if i :| 0 < i < |cache| && cache[i].key == slot.key {
        assert rest[i - 1].key == slot.key;
      }
    }
  }

  /**
   After any history a lookup returns what the cache holds under its key if that has not expired and caching is on;
   in every other case it starts a read, and the life of what this will bring counts from now.
   */
  lemma LookupMeans<V>(events: seq<Event<V>>, key: string, ttl: nat, now: int)
    requires key != ""
    ensures var s, t := Run(events), Run(events + [Lookup(key, ttl, now)]);
            && t.cache == s.cache
            && if ttl > 0 && exists slot :: Holds(s.cache, slot) && slot.key == key && slot.expiresAt > now
               then t.started == s.started && exists slot :: Holds(s.cache, slot) && slot.key == key
                                                   && slot.expiresAt > now && t.hits == s.hits + [Hit(key, now, slot)]
               else t.hits == s.hits && t.started == s.started + [Read(key, ttl, now, None)]
  {
    var s := Run(events);
    RunNext(events, Lookup(key, ttl, now));
    RunKeeps(events);
    hide IsMap, Find, Holds, Run;
    forall slot: Slot<V> | slot.key == key ensures Find(s.cache, key) == Some(slot) <==> Holds(s.cache, slot) {
      FindIffHolds(s.cache, slot);
    }
    if Find(s.cache, key).Some? {
      var slot := Find(s.cache, key).value;
      FindIffHolds(s.cache, slot);
      assert Holds(s.cache, slot) && slot.key == key;
    }
  }

  /** The first key stands before the second one. */
  ghost predicate Precedes<V>(cache: Cache<V>, a: string, b: string) {
    exists i, j :: 0 <= i < j < |cache| && cache[i].key == a && cache[j].key == b
  }

  /** A new key comes to a full cache. */
  ghost predicate Overflows<V>(cache: Cache<V>, key: string) {
    |cache| == 80 && !HasKey(cache, key)
  }

  /** The cache is full, and every entry of it is unexpired. */
  ghost predicate AllLive<V>(cache: Cache<V>, now: int) {
    forall i :: 0 <= i < |cache| ==> cache[i].expiresAt > now
  }

  /** What becomes of an entry when a slot of another key is written. */
  ghost predicate Kept<V>(cache: Cache<V>, slot: Slot<V>, now: int, i: nat)
    requires i < |cache|
  {
    Overflows(cache, slot.key) ==>
      cache[i].expiresAt > now && !(i == 0 && slot.expiresAt > now && AllLive(cache, now))
  }

  /** What a write leaves: the new slot, and the entries it keeps. */
  ghost predicate LeftBy<V>(cache: Cache<V>, slot: Slot<V>, now: int, left: Slot<V>) {
    || (left == slot && (Overflows(cache, slot.key) ==> slot.expiresAt > now))
    || exists i :: 0 <= i < |cache| && cache[i] == left && left.key != slot.key && Kept(cache, slot, now, i)
  }

  lemma {:induction false} PutIs<V>(cache: Cache<V>, slot: Slot<V>) returns (i: nat)
    requires IsMap(cache)
    ensures !HasKey(cache, slot.key) ==> Put(cache, slot) == cache + [slot]
    ensures HasKey(cache, slot.key) ==> i < |cache| && cache[i].key == slot.key && Put(cache, slot) == cache[i := slot]
  {
    i := 0;
    FindIffHolds(cache, slot);
    if cache != [] && cache[0].key != slot.key {
      var k := PutIs(cache[1..], slot);
      FindIffHolds(cache[1..], slot);
      i := k + 1;
    }
  }

  /** Keys are distinct. */
  lemma {:induction false} KeysDiffer<V>(cache: Cache<V>, i: nat, j: nat)
    requires IsMap(cache) && i < j < |cache|
    ensures cache[i].key != cache[j].key
    decreases i
  {
    if i == 0 {
      FindIffHolds(cache[1..], cache[0]);
      assert cache[1..][j - 1] == cache[j];
    } else {
      KeysDiffer(cache[1..], i - 1, j - 1);
    }
  }

  lemma {:induction false} LiveHolds<V>(cache: Cache<V>, now: int, slot: Slot<V>)
    ensures Holds(Live(cache, now), slot) <==> Holds(cache, slot) && slot.expiresAt > now
  {
    if cache != [] {
      LiveHolds(cache[1..], now, slot);
      HoldsNext(cache, slot);
      HoldsNext([cache[0]] + Live(cache[1..], now), slot);
      assert ([cache[0]] + Live(cache[1..], now))[1..] == Live(cache[1..], now);
    }
  }

  lemma HoldsNext<V>(cache: Cache<V>, slot: Slot<V>)
    requires cache != []
    ensures Holds(cache, slot) <==> cache[0] == slot || Holds(cache[1..], slot)
  {
    if Holds(cache[1..], slot) {
      var i :| 0 <= i < |cache[1..]| && cache[1..][i] == slot;
      assert cache[i + 1] == slot;
    }
    if i :| 0 < i < |cache| && cache[i] == slot {
      assert cache[1..][i - 1] == slot;
    }
  }

  lemma AppendHolds<V>(cache: Cache<V>, slot: Slot<V>, left: Slot<V>)
    ensures Holds(cache + [slot], left) <==> Holds(cache, left) || left == slot
  {
    if i :| 0 <= i < |cache| && cache[i] == left {
      assert (cache + [slot])[i] == left;
    }
    if left == slot {
      assert (cache + [slot])[|cache|] == left;
    }
  }

  /** While the cache has room, or the key is there already, all other entries stay. */
  lemma RoomLeaves<V>(cache: Cache<V>, slot: Slot<V>, now: int, left: Slot<V>)
    requires Bounded(cache) && slot.key != "" && !Overflows(cache, slot.key)
    ensures Holds(Write(cache, slot, now), left) <==> LeftBy(cache, slot, now, left)
  {
    FindIffHolds(cache, slot);
    WriteWhenRoom(cache, slot, now);
    var k := PutIs(cache, slot);
    AppendHolds(cache, slot, left);
    hide Write, Put, IsMap, Find;
    if HasKey(cache, slot.key) {
      assert cache[k := slot][k] == slot;
      if i :| 0 <= i < |cache| && cache[i] == left && left.key != slot.key {
        assert cache[k := slot][i] == left;
      }
      var after := cache[k := slot];
      if i :| 0 <= i < |after| && after[i] == left && left != slot {
        KeysApart(cache, i, k);
      }
    }
  }

  lemma KeysApart<V>(cache: Cache<V>, i: nat, k: nat)
    requires IsMap(cache) && i < |cache| && k < |cache| && i != k
    ensures cache[i].key != cache[k].key
  {
    if i < k {
      KeysDiffer(cache, i, k);
    } else {
      KeysDiffer(cache, k, i);
    }
  }

  lemma OverflowLeaves<V>(cache: Cache<V>, slot: Slot<V>, now: int, left: Slot<V>)
    requires Bounded(cache) && slot.key != "" && Overflows(cache, slot.key)
    ensures Holds(Write(cache, slot, now), left) <==> LeftBy(cache, slot, now, left)
  {
    FindIffHolds(cache, slot);
    WriteWhenFull(cache, slot, now);
    AllLiveIff(cache, now);
    LiveHolds(cache, now, left);
    AppendHolds(Live(cache, now), slot, left);
    AppendHolds(cache[1..], slot, left);
    hide Write, Live, IsMap, Find;
    if slot.expiresAt > now && AllLive(cache, now) {
      if i :| 0 < i < |cache| && cache[i] == left {
        assert cache[1..][i - 1] == left;
      }
      if i :| 0 <= i < |cache[1..]| && cache[1..][i] == left {
        assert cache[i + 1] == left;
      }
    }
  }

  lemma {:induction false} AllLiveIff<V>(cache: Cache<V>, now: int)
    ensures AllLive(cache, now) <==> |Live(cache, now)| == |cache|
  {
    LiveAll(cache, now);
    if cache != [] {
      AllLiveIff(cache[1..], now);
      LiveAll(cache[1..], now);
      assert AllLive(cache, now) <==> cache[0].expiresAt > now && AllLive(cache[1..], now) by {
        assert forall i :: 0 < i < |cache| ==> cache[i] == cache[1..][i - 1];
      }
    }
  }

  // ---------- the order of the entries ----------

  lemma {:induction false} LivePrecedes<V>(cache: Cache<V>, now: int, a: string, b: string)
    requires IsMap(cache)
    ensures var live := Live(cache, now);
            Precedes(live, a, b) <==> HasKey(live, a) && HasKey(live, b) && Precedes(cache, a, b)
  {
    if cache != [] {
      var rest, live := cache[1..], Live(cache[1..], now);
      LivePrecedes(rest, now, a, b);
      PrecedesNext(cache, a, b);
      KeyNext(cache, a);
      LiveKeys(rest, now, cache[0].key);
      LiveKeys(rest, now, b);
      PrecedesNext([cache[0]] + live, a, b);
      KeyNext([cache[0]] + live, a);
      KeyNext([cache[0]] + live, b);
      assert ([cache[0]] + live)[1..] == live;
      FindIffHolds(rest, cache[0]);
      hide HasKey, Precedes, IsMap, Find;
    }
  }

  lemma KeyNext<V>(cache: Cache<V>, key: string)
    requires cache != []
    ensures HasKey(cache, key) <==> cache[0].key == key || HasKey(cache[1..], key)
  {
    if i :| 0 <= i < |cache[1..]| && cache[1..][i].key == key {
      assert cache[i + 1].key == key;
    }
    if i :| 0 < i < |cache| && cache[i].key == key {
      assert cache[1..][i - 1].key == key;
    }
  }

  lemma PrecedesNext<V>(cache: Cache<V>, a: string, b: string)
    requires cache != []
    ensures Precedes(cache, a, b) <==> (cache[0].key == a && HasKey(cache[1..], b)) || Precedes(cache[1..], a, b)
    ensures Precedes(cache, a, b) ==> HasKey(cache[1..], b)
  {
    var rest := cache[1..];
    if i, j :| 0 <= i < j < |cache| && cache[i].key == a && cache[j].key == b {
      assert rest[j - 1].key == b && (i > 0 ==> rest[i - 1].key == a);
    }
    if i, j :| 0 <= i < j < |rest| && rest[i].key == a && rest[j].key == b {
      assert cache[i + 1].key == a && cache[j + 1].key == b;
    }
    if cache[0].key == a && HasKey(rest, b) {
      var j :| 0 <= j < |rest| && rest[j].key == b;
      assert cache[j + 1].key == b;
    }
  }

  lemma {:induction false} LiveKeys<V>(cache: Cache<V>, now: int, key: string)
    ensures HasKey(Live(cache, now), key) ==> HasKey(cache, key)
  {
    if HasKey(Live(cache, now), key) {
      var i :| 0 <= i < |Live(cache, now)| && Live(cache, now)[i].key == key;
      LiveHolds(cache, now, Live(cache, now)[i]);
    }
  }

  lemma AppendPrecedes<V>(cache: Cache<V>, slot: Slot<V>, a: string, b: string)
    ensures Precedes(cache + [slot], a, b) <==> Precedes(cache, a, b) || (HasKey(cache, a) && b == slot.key)
    ensures HasKey(cache + [slot], a) <==> HasKey(cache, a) || a == slot.key
  {
    var all := cache + [slot];
    assert all[|cache|].key == slot.key;
    if i, j :| 0 <= i < j < |cache| && cache[i].key == a && cache[j].key == b {
      assert all[i].key == a && all[j].key == b;
    }
    if i :| 0 <= i < |cache| && cache[i].key == a {
      assert all[i].key == a;
    }
  }

  /** Entries keep their order; a key that was not there comes last. */
  ghost predicate OrderKept<V>(cache: Cache<V>, key: string, after: Cache<V>) {
    forall a, b :: Precedes(after, a, b) <==>
      && HasKey(after, a) && HasKey(after, b)
      && (Precedes(cache, a, b) || (b == key && a != b && !HasKey(cache, b)))
  }

  lemma SameKeysSameOrder<V>(cache: Cache<V>, k: nat, slot: Slot<V>)
    requires IsMap(cache) && k < |cache| && cache[k].key == slot.key
    ensures OrderKept(cache, slot.key, cache[k := slot])
  {
    var after := cache[k := slot];
    assert forall i :: 0 <= i < |cache| ==> after[i].key == cache[i].key;
    forall a, b ensures Precedes(after, a, b) <==> Precedes(cache, a, b) {
      if i, j :| 0 <= i < j < |cache| && cache[i].key == a && cache[j].key == b {
        assert after[i].key == a && after[j].key == b;
      }
    }
    assert HasKey(cache, slot.key);
    forall a, b | Precedes(cache, a, b) ensures HasKey(after, a) && HasKey(after, b) {
      var i, j :| 0 <= i < j < |cache| && cache[i].key == a && cache[j].key == b;
      assert after[i].key == a && after[j].key == b;
    }
  }

  lemma PrecedesHas<V>(cache: Cache<V>, a: string, b: string)
    requires Precedes(cache, a, b)
    ensures HasKey(cache, a) && HasKey(cache, b)
  {
  }

  lemma LiveOrder<V>(cache: Cache<V>, slot: Slot<V>, now: int)
    requires IsMap(cache) && !HasKey(cache, slot.key)
    ensures OrderKept(cache, slot.key, Live(cache, now)) && OrderKept(cache, slot.key, Live(cache, now) + [slot])
  {
    var live := Live(cache, now);
    LiveKeys(cache, now, slot.key);
    forall a, b
      ensures Precedes(live, a, b) <==> HasKey(live, a) && HasKey(live, b) && Precedes(cache, a, b)
      ensures Precedes(live + [slot], a, b) <==> Precedes(live, a, b) || (HasKey(live, a) && b == slot.key)
      ensures HasKey(live + [slot], a) <==> HasKey(live, a) || a == slot.key
      ensures HasKey(live + [slot], b) <==> HasKey(live, b) || b == slot.key
      ensures Precedes(cache, a, b) ==> a != slot.key && b != slot.key
    {
      LivePrecedes(cache, now, a, b);
      AppendPrecedes(live, slot, a, b);
      AppendPrecedes(live, slot, b, a);
      if Precedes(cache, a, b) {
        PrecedesHas(cache, a, b);
      }
    }
    hide Precedes, HasKey, Live;
  }

  lemma TailOrder<V>(cache: Cache<V>, slot: Slot<V>)
    requires IsMap(cache) && cache != [] && !HasKey(cache, slot.key)
    ensures OrderKept(cache, slot.key, cache[1..] + [slot])
  {
    var rest := cache[1..];
    FindIffHolds(rest, cache[0]);
    forall a, b
      ensures Precedes(cache, a, b) <==> (cache[0].key == a && HasKey(rest, b)) || Precedes(rest, a, b)
      ensures Precedes(rest + [slot], a, b) <==> Precedes(rest, a, b) || (HasKey(rest, a) && b == slot.key)
      ensures HasKey(rest + [slot], a) <==> HasKey(rest, a) || a == slot.key
      ensures HasKey(rest + [slot], b) <==> HasKey(rest, b) || b == slot.key
      ensures Precedes(rest, a, b) ==> HasKey(rest, a) && HasKey(rest, b)
    {
      PrecedesNext(cache, a, b);
      AppendPrecedes(rest, slot, a, b);
      AppendPrecedes(rest, slot, b, a);
    }
    KeyNext(cache, slot.key);
    hide Precedes, HasKey, IsMap, Find;
  }

  lemma AppendOrder<V>(cache: Cache<V>, slot: Slot<V>)
    requires !HasKey(cache, slot.key)
    ensures OrderKept(cache, slot.key, cache + [slot])
  {
    forall a, b
      ensures Precedes(cache + [slot], a, b) <==> Precedes(cache, a, b) || (HasKey(cache, a) && b == slot.key)
      ensures HasKey(cache + [slot], a) <==> HasKey(cache, a) || a == slot.key
      ensures HasKey(cache + [slot], b) <==> HasKey(cache, b) || b == slot.key
      ensures Precedes(cache, a, b) ==> HasKey(cache, a) && HasKey(cache, b)
    {
      AppendPrecedes(cache, slot, a, b);
      AppendPrecedes(cache, slot, b, a);
    }
    hide Precedes, HasKey;
  }

  /** What a write does to the entries and to their order. */
  lemma WriteMeans<V>(cache: Cache<V>, slot: Slot<V>, now: int)
    requires Bounded(cache) && slot.key != ""
    ensures var after := Write(cache, slot, now);
            && (forall left :: Holds(after, left) <==> LeftBy(cache, slot, now, left))
            && OrderKept(cache, slot.key, after)
  {
    var after := Write(cache, slot, now);
    forall left ensures Holds(after, left) <==> LeftBy(cache, slot, now, left) {
      if Overflows(cache, slot.key) {
        OverflowLeaves(cache, slot, now, left);
      } else {
        RoomLeaves(cache, slot, now, left);
      }
    }
    FindIffHolds(cache, slot);
    if Overflows(cache, slot.key) {
      WriteWhenFull(cache, slot, now);
      LiveOrder(cache, slot, now);
      TailOrder(cache, slot);
    } else {
      WriteWhenRoom(cache, slot, now);
      var k := PutIs(cache, slot);
      if HasKey(cache, slot.key) {
        SameKeysSameOrder(cache, k, slot);
      } else {
        AppendOrder(cache, slot);
      }
    }
  }

  /**
   After any history the end of a read changes nothing but its result and, with caching on, the cache: it writes what
   was read under the key of the lookup, with a life that counts from the lookup.  An entry of another key is lost
   only when a new key comes to 80 entries: then every expired entry goes, the new one included, or, when none is
   expired, the oldest.
   */
  lemma FinishMeans<V>(events: seq<Event<V>>, id: nat, value: V, now: int)
    requires Pending(Run(events), id)
    ensures var s, t := Run(events), Run(events + [Finish(id, value, now)]);
            var r := s.started[id];
            && t.hits == s.hits && t.started == s.started[id := Read(r.key, r.ttl, r.startedAt, Some(value))]
            && (r.ttl == 0 ==> t.cache == s.cache)
            && (r.ttl > 0 ==>
                  && (forall left :: Holds(t.cache, left) <==>
                                       LeftBy(s.cache, Slot(r.key, r.startedAt + r.ttl, value), now, left))
                  && OrderKept(s.cache, r.key, t.cache) && IsMap(t.cache) && |t.cache| <= 80)
  {
    var s := Run(events);
    var r := s.started[id];
    RunNext(events, Finish(id, value, now));
    RunKeeps(events);
    NeverAboveLimit(events + [Finish(id, value, now)]);
    hide Write, IsMap, LeftBy, OrderKept, Holds, Run;
    if r.ttl > 0 {
      WriteMeans(s.cache, Slot(r.key, r.startedAt + r.ttl, value), now);
    }
  }

  // ---------- the cache key ----------

  /** The key of a unit and a report range. */
  function CacheKey(unitId: string, from: string, to: string): string {
    unitId + ":" + from + ":" + to
  }

  predicate IsDigit(c: char) {
    '0' <= c <= '9'
  }

  /** An instant as `toISOString` prints it: 24 characters, or 27 with a signed six-digit year outside 0 to 9999. */
  predicate IsInstant(s: string) {
    || (|s| == 24 && forall i :: 0 <= i < 4 ==> IsDigit(s[i]))
    || (|s| == 27 && (s[0] == '+' || s[0] == '-') && forall i :: 1 <= i < 7 ==> IsDigit(s[i]))
  }

  /** What follows the last separator is told apart from a longer instant by the character before it. */
  lemma InstantSuffix(a: string, x: string, b: string, y: string)
    requires IsInstant(x) && IsInstant(y) && a + ":" + x == b + ":" + y
    ensures a == b && x == y
  {
    var s, t := a + ":" + x, b + ":" + y;
    assert s[|s| - |x| - 1] == ':' && t[|t| - |y| - 1] == ':';
    assert |x| == 27 ==> s[|s| - 25] == x[2];
    assert |y| == 27 ==> t[|t| - 25] == y[2];
    assert |x| == |y|;
    assert a == s[..|a|] && b == t[..|b|] && x == s[|s| - |x|..] && y == t[|t| - |y|..];
  }

  /** Unit and period can be told from the key, whatever the unit identifier. */
  lemma CacheKeyInjective(unitA: string, fromA: string, toA: string, unitB: string, fromB: string, toB: string)
    requires IsInstant(fromA) && IsInstant(toA) && IsInstant(fromB) && IsInstant(toB)
    requires CacheKey(unitA, fromA, toA) == CacheKey(unitB, fromB, toB)
    ensures unitA == unitB && fromA == fromB && toA == toB
  {
    assert CacheKey(unitA, fromA, toA) == (unitA + ":" + fromA) + ":" + toA;
    assert CacheKey(unitB, fromB, toB) == (unitB + ":" + fromB) + ":" + toB;
    InstantSuffix(unitA + ":" + fromA, toA, unitB + ":" + fromB, toB);
    InstantSuffix(unitA, fromA, unitB, fromB);
  }

  lemma {:induction false} DeleteMiddle<V>(a: Cache<V>, slot: Slot<V>, b: Cache<V>)
    requires IsMap(a + [slot] + b)
    ensures Delete(a + [slot] + b, slot.key) == a + b && IsMap(a + b)
  {
    var all := a + [slot] + b;
    if a == [] {
      assert all[1..] == b && [] + b == b;
    } else {
      assert all[1..] == a[1..] + [slot] + b;
      FindMiddle(a[1..], slot, b);
      DeleteMiddle(a[1..], slot, b);
      DeleteFinds(all[1..], slot.key, a[0].key);
      assert [a[0]] + (a[1..] + b) == a + b && (a + b)[1..] == a[1..] + b;
    }
  }

  lemma {:induction false} FindMiddle<V>(a: Cache<V>, slot: Slot<V>, b: Cache<V>)
    ensures Find(a + [slot] + b, slot.key).Some?
  {
    if a != [] {
      assert (a + [slot] + b)[1..] == a[1..] + [slot] + b;
      FindMiddle(a[1..], slot, b);
    }
  }

  lemma LiveNext<V>(slot: Slot<V>, rest: Cache<V>, now: int)
    ensures Live([slot] + rest, now) == (if slot.expiresAt > now then [slot] else []) + Live(rest, now)
  {
  }

  lemma LiveNothing<V>(now: int)
    ensures Live<V>([], now) == []
  {
  }

  // ---------- the service's field ----------

  class ReportCacheField<V> {
    var cache: Cache<V>

    constructor ()
      ensures cache == []
    {
      cache := [];
    }

    /** The first loop of the pruning: delete every expired key. */
    method DropExpired(now: int)
      requires IsMap(cache)
      modifies this
      ensures cache == Live(old(cache), now)
    {
      hide IsMap, Delete, Find, Live;
      LiveNothing<V>(now);
      var slots := cache;
      var index := 0;
      ghost var kept: Cache<V> := [];
      while index < |slots|
        invariant 0 <= index <= |slots|
        invariant IsMap(cache) && cache == kept + slots[index..]
        invariant kept + Live(slots[index..], now) == Live(slots, now)
      {
        var slot, rest := slots[index], slots[index + 1..];
        assert slots[index..] == [slot] + rest;
        LiveNext(slot, rest, now);
        assert cache == kept + [slot] + rest;
        if slot.expiresAt <= now {
          DeleteMiddle(kept, slot, rest);
          cache := Delete(cache, slot.key);
        } else {
          kept := kept + [slot];
        }
        index := index + 1;
      }
      assert slots[index..] == [];
    }

    /** The second loop: delete the first key until the cache fits. */
    method DropOldest(limit: nat)
      requires IsMap(cache)
      modifies this
      ensures cache == if |old(cache)| <= limit then old(cache) else old(cache)[|old(cache)| - limit..]
    {
      var all := cache;
      while |cache| > limit
        invariant IsMap(cache) && |cache| <= |all| && cache == all[|all| - |cache|..]
        invariant |cache| >= limit || |cache| == |all|
        decreases |cache|
      {
        var first := cache[0].key;
        if first == "" {
          break;
        }
        cache := Delete(cache, first);
      }
    }

    /** `prunePrtgStyleReportCache`. */
    method Prune(now: int, limit: nat)
      requires IsMap(cache)
      modifies this
      ensures cache == Pruned(old(cache), now, limit)
    {
      if |cache| <= limit {
        return;
      }
      LiveIsMap(cache, now);
      DropExpired(now);
      DropOldest(limit);
    }

    method Store(key: string, startedAt: int, ttl: nat, value: V, now: int)
      requires Bounded(cache) && key != ""
      modifies this
      ensures Bounded(cache)
      ensures cache == if ttl > 0 then Write(old(cache), Slot(key, startedAt + ttl, value), now) else old(cache)
    {
      if ttl > 0 {
        var slot := Slot(key, startedAt + ttl, value);
        PutIsMap(cache, slot);
        PrunedSound(Put(cache, slot), now, MAX_ENTRIES, key);
        cache := Put(cache, slot);
        Prune(now, MAX_ENTRIES);
      }
    }
  }
}
