/** The engine run by one caller at a time, updated in place, over a journal and a store that may fail. */
module CacheEngineModel {
  import opened CacheTypes
  import opened LruList
  import opened ShardModel
  import opened Replay
  import opened EngineMemory
  import opened EngineCapacity

  class CacheEngine {
    /** The environment's promise that no journal or store call fails; without it any call may fail, without effect. */
    const faultFree: bool
    const enabled: bool
    const writeThrough: bool
    const hash: Hash
    const shards: seq<Shard>
    var journal: seq<Record>
    var recordCount: nat
    var store: map<Key, Value>
    var counter: nat
    var lifecycle: Lifecycle

    /** A fresh engine over an existing journal and store. The budgets are split evenly, at least one entry per shard. */
    constructor (faultFree: bool, enabled: bool, writeThrough: bool, hash: Hash, shardCount: nat,
                 capacityBytes: nat, maxEntryCount: nat, journal: seq<Record>, store: map<Key, Value>)
      ensures Wired() && |shards| == Max(1, shardCount) && fresh(shards)
      ensures this.faultFree == faultFree && this.enabled == enabled && this.writeThrough == writeThrough && this.hash == hash
      ensures this.journal == journal && this.store == store && counter == 0 && recordCount == 0 && lifecycle == NotReady
      ensures Homed(hash, Indexes()) && forall s | s in shards :: s.Valid() && s.index == map[]
      ensures forall s | s in shards ::
                s.capacityBytes == capacityBytes / |shards| && s.maxEntries == Max(1, maxEntryCount / |shards|)
    {
      this.faultFree, this.enabled, this.writeThrough, this.hash := faultFree, enabled, writeThrough, hash;
      this.journal, this.store, counter, recordCount, lifecycle := journal, store, 0, 0, NotReady;
      var n, all: seq<Shard> := Max(1, shardCount), [];
      while |all| < n
        invariant |all| <= n && fresh(all)
        invariant forall i, j | 0 <= i < j < |all| :: all[i] != all[j]
        invariant forall s | s in all ::
                    && s.Valid() && s.index == map[]
                    && s.capacityBytes == capacityBytes / n && s.maxEntries == Max(1, maxEntryCount / n)
      {
        var s := new Shard(capacityBytes / n, Max(1, maxEntryCount / n));
        all := all + [s];
      }
      shards := all;
    }

    predicate Wired() {
      |shards| > 0 && forall i, j | 0 <= i < j < |shards| :: shards[i] != shards[j]
    }

    function ShardFor(k: Key): Shard
      requires |shards| > 0
    {
      shards[Home(hash, |shards|, k)]
    }

    ghost function Indexes(): (r: seq<Cache>)
      reads shards
      ensures |r| == |shards| && forall i | 0 <= i < |shards| :: r[i] == shards[i].index
    {
      seq(|shards|, i requires 0 <= i < |shards| reads shards => shards[i].index)
    }

    ghost function Model(): Memory
      reads this, shards
    {
      Memory(Indexes(), journal, store, counter)
    }

    ghost predicate Valid()
      reads this, shards
    {
      Wired() && (forall s | s in shards :: s.Valid()) && Sound(hash, Model(), faultFree)
    }

    // ----- Journal and store calls -----

    method Append(r: Record) returns (ok: bool)
      modifies this`journal, this`recordCount
      ensures faultFree ==> ok
      ensures journal == if ok then old(journal) + [r] else old(journal)
      ensures recordCount == if ok then old(recordCount) + 1 else old(recordCount)
    {
      ok := *;
      if faultFree {
        ok := true;
      }
      if ok {
        journal := journal + [r];
        recordCount := recordCount + 1;
      }
    }

    method StorePut(k: Key, v: Value) returns (ok: bool)
      modifies this`store
      ensures faultFree ==> ok
      ensures store == if ok then old(store)[k := v] else old(store)
    {
      ok := *;
      if faultFree {
        ok := true;
      }
      if ok {
        store := store[k := v];
      }
    }

    method StoreRemove(k: Key) returns (ok: bool)
      modifies this`store
      ensures faultFree ==> ok
      ensures store == if ok then old(store) - {k} else old(store)
    {
      ok := *;
      if faultFree {
        ok := true;
      }
      if ok {
        store := store - {k};
      }
    }

    method StoreGet(k: Key) returns (r: Result<Value>)
      ensures faultFree ==> r != Err(IoError)
      ensures r == Err(IoError) || r == if k in store then Ok(store[k]) else Err(NotFound)
    {
      var ok := *;
      if faultFree {
        ok := true;
      }
      r := if !ok then Err(IoError) else if k in store then Ok(store[k]) else Err(NotFound);
    }

    // ----- Flush -----

    /** Flushes one entry. `done` counts the effects reached; the plain map never changes. */
    method FlushKey(key: Key, expected: Option<nat>) returns (r: Result<()>, ghost done: nat)
      requires Valid()
      modifies this`journal, this`recordCount, this`store, ShardFor(key)
      ensures Valid() && SameMap(hash, old(Model()), Model())
      ensures var claim := ClaimOf(old(ShardFor(key).index), key, expected);
              && (claim.Missing? ==> r == Err(NotFound))
              && (claim.Nothing? ==> r == Ok(()))
              && (!claim.Claimed? ==> Model() == old(Model()))
              && (claim.Claimed? ==>
                    && done <= 3 && r == (if done == 3 then Ok(()) else Err(IoError)) && (faultFree ==> r.Ok?)
                    && EntryAt(hash, old(Model()), key).Some? && Model() == FlushMemory(hash, old(Model()), key, done))
      ensures ShardFor(key).lru == old(ShardFor(key).lru) && ShardFor(key).mutationFence == old(ShardFor(key).mutationFence)
      ensures Kept(old(ShardFor(key).index), ShardFor(key).index) && old(journal) <= journal
      ensures recordCount - old(recordCount) == |journal| - |old(journal)|
      ensures old(ShardFor(key).Bounded()) ==> ShardFor(key).Bounded()
    {
      hide Sound, Accounts, Bytes, FlushMemory, SameMap, Kept, FlushJournal, FlushStore;
      KeptSelf(ShardFor(key).index);
      var s := ShardFor(key);
      ghost var m := Model();
      done := 0;
      SameMapSelf(hash, m);
      s.Counted();
      SoundAt(hash, m, faultFree, key);
      var claim := s.Claim(key, expected);
      if claim.Missing? {
        assert Indexes() == m.indexes;
        return Err(NotFound), 0;
      }
      if claim.Nothing? {
        assert Indexes() == m.indexes;
        return Ok(()), 0;
      }
      r, done := FlushClaimed(s, key, claim.value, claim.version, m);
      FlushSound(hash, m, faultFree, key, done);
      FlushKept(hash, m, key, done);
      s.Counted();
    }

    method FlushClaimed(s: Shard, key: Key, value: Value, version: nat, ghost m: Memory) returns (r: Result<()>, ghost done: nat)
      requires Wired() && s == ShardFor(key) && (forall t | t in shards :: t.Valid())
      requires |m.indexes| == |shards| && m.journal == journal && m.store == store && m.counter == counter
      requires EntryAt(hash, m, key) == Some(Entry(value, version, Dirty))
      requires forall i | 0 <= i < |shards| ::
                 shards[i].index == if shards[i] == s then m.indexes[i][key := Entry(value, version, FlushInProgress)] else m.indexes[i]
      modifies this`journal, this`recordCount, this`store, s`index, s`dirtyBytes, s`dirtyCount
      ensures forall t | t in shards :: t.Valid()
      ensures done <= 3 && r == (if done == 3 then Ok(()) else Err(IoError)) && (faultFree ==> r.Ok?)
      ensures Model() == FlushMemory(hash, m, key, done) && recordCount - old(recordCount) == |journal| - |old(journal)|
    {
      r, done := FlushEffects(key, value, version);
      s.Finish(key, version, r.Ok?);
      SettleClaimed(m.indexes[Home(hash, |shards|, key)], key, value, version, r.Ok?);
      assert Indexes() == FlushMemory(hash, m, key, done).indexes;
    }

    /** The durable part of a flush; it stops at the first call that fails. */
    method FlushEffects(key: Key, value: Value, version: nat) returns (r: Result<()>, ghost done: nat)
      modifies this`journal, this`recordCount, this`store
      ensures done <= 3 && r == (if done == 3 then Ok(()) else Err(IoError)) && (faultFree ==> r.Ok?)
      ensures journal == FlushJournal(old(journal), key, version, done) && store == FlushStore(old(store), key, value, done)
      ensures recordCount - old(recordCount) == |journal| - |old(journal)|
    {
      var ok := Append(FlushIntent(key, version));
      if !ok {
        return Err(IoError), 0;
      }
      ok := StorePut(key, value);
      if !ok {
        return Err(IoError), 1;
      }
      ok := Append(FlushComplete(key, version));
      if !ok {
        return Err(IoError), 2;
      }
      return Ok(()), 3;
    }

    // ----- Capacity -----

    /** Eviction in a shard never changes the plain map. */
    method EvictShard(i: nat, s: Shard)
      requires Valid() && i < |shards| && s == shards[i]
      modifies s`lru, s`index, s`currentBytes
      ensures Valid() && SameMap(hash, old(Model()), Model())
      ensures Indexed(old(s.lru), old(s.index))
      ensures (s.lru, s.index) == Evicted(old(s.lru), old(s.index), s.capacityBytes, s.maxEntries)
      ensures Kept(old(s.index), s.index)
    {
      ghost var m, lru, index := Model(), s.lru, s.index;
      s.EvictClean();
      EvictedFromIndex(lru, index, s.capacityBytes, s.maxEntries);
      EvictSound(hash, m, faultFree, i, s.index);
      assert Indexes() == m.indexes[i := s.index];
    }

    /** Flushes one Dirty key of shard i, then evicts there; `done` counts the effects of the flush. */
    method FlushAndEvict(i: nat, s: Shard, key: Key) returns (ok: bool, ghost done: nat)
      requires Valid() && i < |shards| && s == shards[i] && s == ShardFor(key) && IsDirty(At(s.index, key))
      modifies this`journal, this`recordCount, this`store, s
      ensures Valid() && SameMap(hash, old(Model()), Model())
      ensures s.mutationFence == old(s.mutationFence) && Kept(old(s.index), s.index) && old(journal) <= journal
      ensures (faultFree ==> ok) && done <= 3 && (ok <==> done == 3)
      ensures Indexed(s.lru, s.index) && s.dirtyCount == DirtyCount(s.lru, s.index)
      ensures Relieved(old(s.lru), old(s.index), old(journal), old(store), key, done, s)
    {
      hide Sound, Accounts, SameMap, Evicted, FlushMemory, FlushJournal, FlushStore, Bytes;
      ghost var m := Model();
      assert m.indexes[i] == s.index;
      FlushParts(hash, m, key);
      var r, d := FlushKey(key, None);
      ok, done := r.Ok?, d;
      assert Model().indexes[i] == s.index;
      ghost var m1 := Model();
      EvictShard(i, s);
      s.Counted();
      SameMapTrans(hash, m, m1, Model());
    }

    /** What flushing a Dirty key up to its effect number `done` and evicting afterwards leaves of a shard, the journal and the store. */
    ghost predicate Relieved(lru: seq<Key>, index: Cache, journal0: seq<Record>, store0: map<Key, Value>, key: Key, done: nat, s: Shard)
      reads this, s
    {
      && key in index
      && var e := index[key];
         var index1 := if done == 3 then index[key := e.(state := Clean)] else index;
         && Indexed(lru, index1) && (s.lru, s.index) == Evicted(lru, index1, s.capacityBytes, s.maxEntries)
         && journal == FlushJournal(journal0, key, e.version, done) && store == FlushStore(store0, key, e.value, done)
    }

    /**
    One round of capacity relief: flush the least recently used Dirty entry, then evict. Without
    I/O failures a round in a shard that is still over budget frees at least 64 bytes and one entry.
    `done` counts the effects of the flush.
    */
    method ReliefRound(i: nat, s: Shard, ghost bytes: nat, ghost entries: nat) returns (more: bool, ghost done: nat)
      requires Valid() && i < |shards| && s == shards[i]
      modifies this`journal, this`recordCount, this`store, s
      ensures Valid() && SameMap(hash, old(Model()), Model())
      ensures s.mutationFence == old(s.mutationFence) && Kept(old(s.index), s.index) && old(journal) <= journal
      ensures old(s.Within()) ==> !more && s.Within() && Model() == old(Model()) && s.lru == old(s.lru)
      ensures !old(s.Within()) && (forall k | k in old(s.index) :: old(s.index)[k].state != Dirty) ==>
                && !more && journal == old(journal) && store == old(store)
                && Indexed(old(s.lru), old(s.index)) && (s.lru, s.index) == Evicted(old(s.lru), old(s.index), s.capacityBytes, s.maxEntries)
      ensures !old(s.Within()) && journal != old(journal) ==>
                exists n :: LastDirtyAt(old(s.lru), old(s.index), n) && Relieved(old(s.lru), old(s.index), old(journal), old(store), old(s.lru)[n], done, s)
      ensures more ==> done == 3 && journal != old(journal)
      ensures faultFree && old(s.Excess(bytes, entries)) && !old(s.Within()) ==>
                more && s.Excess(Less(bytes, ENTRY_OVERHEAD_BYTES), Less(entries, 1))
    {
      hide Accounts, Evicted, SameMap, Sound;
      ghost var m, lru, index := Model(), s.lru, s.index;
      SameMapSelf(hash, m);
      KeptSelf(index);
      assert m.indexes[i] == index;
      done := 0;
      var over := s.IsOver();
      if !over {
        return false, 0;
      }
      var key := s.LastDirty();
      if s.Excess(bytes, entries) {
        DirtyPicked(hash, m, i, lru, index, faultFree);
      }
      if key == [] {
        EvictShard(i, s);
        return false, 0;
      }
      PickedHome(hash, m, i, lru, index, key) by { SoundHomed(hash, m, faultFree); }
      more, done := RelieveKey(i, s, key, bytes, entries);
    }

    method RelieveKey(i: nat, s: Shard, key: Key, ghost bytes: nat, ghost entries: nat) returns (more: bool, ghost done: nat)
      requires Valid() && i < |shards| && s == shards[i] && s == ShardFor(key) && IsDirty(At(s.index, key))
      requires Distinct(s.lru) && Indexed(s.lru, s.index) && !s.Within() && s.dirtyCount == DirtyCount(s.lru, s.index) && key in s.lru
      modifies this`journal, this`recordCount, this`store, s
      ensures Valid() && SameMap(hash, old(Model()), Model())
      ensures s.mutationFence == old(s.mutationFence) && Kept(old(s.index), s.index) && old(journal) <= journal
      ensures done <= 3 && (more ==> done == 3) && (done > 0 ==> journal != old(journal)) && (faultFree ==> done == 3)
      ensures Relieved(old(s.lru), old(s.index), old(journal), old(store), key, done, s)
      ensures faultFree && old(s.Excess(bytes, entries)) ==>
                more && s.Excess(Less(bytes, ENTRY_OVERHEAD_BYTES), Less(entries, 1))
    {
      hide Accounts, Evicted, SameMap, Sound;
      var before := s.dirtyCount;
      if s.Excess(bytes, entries) {
        RoundFrees(s.lru, s.index, key, s.capacityBytes, s.maxEntries, bytes, entries);
      }
      var ok, d := FlushAndEvict(i, s, key);
      done := d;
      more := ok && s.dirtyCount < before;
    }

    /** Up to 64 rounds: enough to bring a shard back within its budgets after one write of at most 4096 bytes. */
    method Relieve(i: nat, s: Shard)
      requires Valid() && i < |shards| && s == shards[i]
      modifies this`journal, this`recordCount, this`store, s
      ensures Valid() && SameMap(hash, old(Model()), Model())
      ensures s.mutationFence == old(s.mutationFence) && Kept(old(s.index), s.index) && old(journal) <= journal
      ensures faultFree && old(s.Excess(RELIEF_BYTES, 1)) ==> s.Within()
      ensures old(s.Within()) ==> Model() == old(Model()) && s.lru == old(s.lru)
    {
      ghost var m := Model();
      var attempt := 0;
      while attempt < MAX_FLUSH_ATTEMPTS
        invariant attempt <= MAX_FLUSH_ATTEMPTS && Valid() && SameMap(hash, m, Model())
        invariant s.mutationFence == old(s.mutationFence) && Kept(old(s.index), s.index) && old(journal) <= journal
        invariant old(s.Within()) ==> s.Within() && Model() == m && s.lru == old(s.lru)
        invariant faultFree && old(s.Excess(RELIEF_BYTES, 1)) ==>
                    s.Excess(RELIEF_BYTES - ENTRY_OVERHEAD_BYTES * attempt, Less(1, attempt))
      {
        ghost var m1 := Model();
        var more, _ := ReliefRound(i, s, RELIEF_BYTES - ENTRY_OVERHEAD_BYTES * attempt, Less(1, attempt));
        SameMapTrans(hash, m, m1, Model());
        if !more {
          return;
        }
        attempt := attempt + 1;
      }
    }

    // ----- Put -----

    /** Journals the write under a new version, commits it to its shard and evicts there. */
    method CommitWrite(key: Key, value: Value, s: Shard) returns (ok: bool)
      requires Valid() && s == ShardFor(key)
      modifies this`journal, this`recordCount, this`counter, s
      ensures Valid() && (faultFree ==> ok) && counter == old(counter) + 1
      ensures forall k :: Lookup(hash, Model(), k) == if ok && k == key then Some(value) else Lookup(hash, old(Model()), k)
      ensures journal == if ok then old(journal) + [Upsert(key, value, counter)] else old(journal)
      ensures ok ==>
                var lru, index := [key] + Without(old(s.lru), {key}), old(s.index)[key := Entry(value, counter, Dirty)];
                Indexed(lru, index) && (s.lru, s.index) == Evicted(lru, index, s.capacityBytes, s.maxEntries)
      ensures !ok ==> s.lru == old(s.lru) && s.index == old(s.index)
    {
      hide Sound, Accounts, Evicted;
      ghost var m, i := Model(), Home(hash, |shards|, key);
      s.Listed();
      CounterSound(hash, m, faultFree);
      CommitSound(hash, m, faultFree, key, value, s.lru, s.capacityBytes, s.maxEntries);
      counter := counter + 1;
      ok := Append(Upsert(key, value, counter));
      if !ok {
        assert Indexes() == m.indexes;
        return;
      }
      var applied := s.InsertOrUpdate(key, Entry(value, counter, Dirty), true);
      assert Indexes() == PutMemory(hash, m, key, value).indexes[i := s.index];
    }

    ghost predicate Budgeted()
      reads shards
    {
      forall s | s in shards :: s.Bounded()
    }

    /**
    Stores a value. The plain map changes exactly when the Upsert reaches the journal; a failed Put
    that was journaled has still taken effect. Write-through adds that the value is in the store.
    */
    method Put(key: Key, value: Value) returns (r: Result<()>, ghost journaled: bool)
      requires Valid()
      modifies this`journal, this`recordCount, this`store, this`counter, ShardFor(key)
      ensures Valid()
      ensures forall k :: Lookup(hash, Model(), k) == if journaled && k == key then Some(value) else Lookup(hash, old(Model()), k)
      // Who may write: only a Ready engine, and only if it is enabled.
      ensures lifecycle == NotReady ==> r == Err(RecoveryNotComplete)
      ensures lifecycle == RecoveryFailed ==> r == Err(RecoveryFailure)
      ensures lifecycle in {Stopping, Stopped} ==> r == Err(ServiceStopping)
      ensures lifecycle == Ready && !enabled ==> r == Err(CacheDisabled)
      ensures lifecycle != Ready || !enabled ==> !journaled && Model() == old(Model())
      // An admitted write uses up a version; it is journaled, or else refused with nothing changed.
      ensures lifecycle == Ready && enabled ==> counter == old(counter) + 1 && (journaled || (r == Err(IoError) && !faultFree))
      ensures if journaled then old(journal) + [Upsert(key, value, old(counter) + 1)] <= journal
              else r.Err? && journal == old(journal) && store == old(store)
      // What the caller of a journaled write is told.
      ensures journaled && !writeThrough ==> r == Ok(())
      ensures journaled && writeThrough && r.Ok? ==> At(store, key) == Some(value) && IsClean(EntryAt(hash, Model(), key))
      ensures journaled && writeThrough && r.Err? ==>
                || (r == Err(NotFound) && EntryAt(hash, Model(), key) == None && At(store, key) == Some(value))
                || (r == Err(IoError) && !faultFree && IsDirty(EntryAt(hash, Model(), key)))
      // If the commit fits its shard's budgets, a write-back Put does nothing else.
      ensures journaled && !writeThrough && FitsAfter(old(ShardFor(key).lru), old(ShardFor(key).index), key, value, old(counter) + 1, ShardFor(key)) ==>
                && journal == old(journal) + [Upsert(key, value, old(counter) + 1)] && store == old(store)
                && AfterCommit(old(ShardFor(key).lru), old(ShardFor(key).index), key, value, old(counter) + 1, ShardFor(key))
      ensures faultFree && old(Budgeted()) && key != [] && |key| + |value| + 64 <= 4096 ==> Budgeted()
    {
      hide Sound, Accounts;
      ghost var m := Model();
      journaled := false;
      r := WriteGate();
      if r.Err? {
        return;
      }
      var s, i := ShardFor(key), Home(hash, |shards|, key);
      ghost var small := faultFree && Budgeted() && key != [] && |key| + |value| + 64 <= 4096;
      var ok := CommitPut(key, value, s, small);
      if !ok {
        return Err(IoError), false;
      }
      journaled := true;
      r := SettlePut(key, value, s, i, small);
    }

    /** The shard after the commit of a write and the eviction that follows it. */
    ghost predicate AfterCommit(lru: seq<Key>, index: Cache, key: Key, value: Value, version: nat, s: Shard)
      reads s
    {
      var lru1, index1 := [key] + Without(lru, {key}), index[key := Entry(value, version, Dirty)];
      Indexed(lru1, index1) && (s.lru, s.index) == Evicted(lru1, index1, s.capacityBytes, s.maxEntries)
    }

    /** That leaves the shard within its budgets. */
    ghost predicate FitsAfter(lru: seq<Key>, index: Cache, key: Key, value: Value, version: nat, s: Shard) {
      var lru1, index1 := [key] + Without(lru, {key}), index[key := Entry(value, version, Dirty)];
      Indexed(lru1, index1) &&
      var (l, i) := Evicted(lru1, index1, s.capacityBytes, s.maxEntries);
      Indexed(l, i) && !OverBudget(l, i, s.capacityBytes, s.maxEntries)
    }

    /** CommitWrite with what relief needs to know about the shard. */
    method CommitPut(key: Key, value: Value, s: Shard, ghost small: bool) returns (ok: bool)
      requires Valid() && s == ShardFor(key)
      requires small ==> s.Bounded() && key != [] && SizeBytes(key, Entry(value, 0, Dirty)) <= RELIEF_BYTES
      modifies this`journal, this`recordCount, this`counter, s
      ensures Valid() && (faultFree ==> ok) && counter == old(counter) + 1
      ensures forall k :: Lookup(hash, Model(), k) == if ok && k == key then Some(value) else Lookup(hash, old(Model()), k)
      ensures journal == if ok then old(journal) + [Upsert(key, value, counter)] else old(journal)
      ensures !ok ==> s.lru == old(s.lru) && s.index == old(s.index)
      ensures ok ==> (key in s.index ==> s.index[key].version == counter) && (small ==> s.Excess(RELIEF_BYTES, 1))
      ensures ok ==> AfterCommit(old(s.lru), old(s.index), key, value, counter, s)
    {
      ghost var e := Entry(value, counter + 1, Dirty);
      assert s.Valid();
      InsertedEvicted(s.index, key, e, s.lru, s.capacityBytes, s.maxEntries);
      if small {
        InsertExceeds(s.lru, s.index, key, e, s.capacityBytes, s.maxEntries, RELIEF_BYTES);
      }
      ok := CommitWrite(key, value, s);
    }

    /** The part of Put after the commit: relief, then the write-through flush. */
    method SettlePut(key: Key, value: Value, s: Shard, i: nat, ghost small: bool) returns (r: Result<()>)
      requires Valid() && i < |shards| && s == shards[i] && s == ShardFor(key)
      requires Lookup(hash, Model(), key) == Some(value) && (key in s.index ==> s.index[key].version == counter)
      requires small ==> faultFree && s.Excess(RELIEF_BYTES, 1)
      modifies this`journal, this`recordCount, this`store, s
      ensures Valid() && SameMap(hash, old(Model()), Model()) && old(journal) <= journal
      ensures !writeThrough ==> r == Ok(())
      ensures writeThrough && r.Ok? ==> At(store, key) == Some(value) && IsClean(At(s.index, key))
      ensures r.Err? ==>
                || (r == Err(NotFound) && key !in s.index && At(store, key) == Some(value))
                || (r == Err(IoError) && !faultFree && IsDirty(At(s.index, key)))
      ensures !writeThrough && old(s.Within()) ==> Model() == old(Model()) && s.lru == old(s.lru)
      ensures small ==> s.Bounded()
    {
      ghost var m := Model();
      Relieve(i, s);
      r := Ok(());
      if writeThrough {
        ghost var m1 := Model();
        assert Lookup(hash, m1, key) == Some(value);
        r := FlushThrough(key, value, s);
        SameMapTrans(hash, m, m1, Model());
      }
    }

    /**
    The write-through flush. It succeeds with the value in the store and the entry Clean; it finds the
    entry gone, flushed and evicted by relief; or a call fails and the entry is still Dirty.
    */
    method FlushThrough(key: Key, value: Value, s: Shard) returns (r: Result<()>)
      requires Valid() && s == ShardFor(key)
      requires Lookup(hash, Model(), key) == Some(value) && (key in s.index ==> s.index[key].version == counter)
      modifies this`journal, this`recordCount, this`store, s
      ensures Valid() && SameMap(hash, old(Model()), Model()) && old(journal) <= journal
      ensures faultFree ==> r == if key in old(s.index) then Ok(()) else Err(NotFound)
      ensures r.Ok? ==> key in old(s.index) && IsClean(At(s.index, key)) && At(store, key) == Some(value)
      ensures r.Err? ==>
                || (r == Err(NotFound) && key !in old(s.index) && key !in s.index && At(store, key) == Some(value))
                || (r == Err(IoError) && !faultFree && IsDirty(old(At(s.index, key))) && IsDirty(At(s.index, key)))
      ensures old(s.Bounded()) ==> s.Bounded()
    {
      hide Sound, SameMap, Accounts;
      ghost var m, i := Model(), Home(hash, |shards|, key);
      SoundAt(hash, m, faultFree, key);
      assert m.indexes[i] == s.index;
      var flushed, done := FlushKey(key, Some(counter));
      r := flushed;
      ghost var m' := Model();
      SoundAt(hash, m', faultFree, key);
      assert m'.indexes[i] == s.index;
      SameAt(hash, m, m', key);
    }

    // ----- Get -----

    /** Reads the plain map; hits, fills and evictions never change it, and never break the budgets. */
    method Get(key: Key) returns (r: Result<Value>)
      requires Valid()
      modifies ShardFor(key)
      ensures Valid() && SameMap(hash, old(Model()), Model())
      ensures lifecycle == NotReady ==> r == Err(RecoveryNotComplete)
      ensures lifecycle == RecoveryFailed ==> r == Err(RecoveryFailure)
      ensures lifecycle == Stopped ==> r == Err(ServiceStopping)
      ensures lifecycle in {Ready, Stopping} && !enabled ==> r == Err(CacheDisabled)
      ensures lifecycle in {Ready, Stopping} && enabled ==>
                var v := Lookup(hash, old(Model()), key);
                || (r == Err(IoError) && !faultFree && EntryAt(hash, old(Model()), key) == None)
                || r == if v.None? then Err(NotFound)
                        else if EntryAt(hash, old(Model()), key) == None && |v.value| > MAX_VALUE_BYTES then Err(CorruptData)
                        else Ok(v.value)
      // A hit moves its key to the front, a read from the store is inserted there as Clean; nothing else changes a shard.
      ensures r.Err? ==> Model() == old(Model()) && ShardFor(key).lru == old(ShardFor(key).lru)
      ensures r.Ok? && key in old(ShardFor(key).index) ==>
                Model() == old(Model()) && ShardFor(key).lru == [key] + Without(old(ShardFor(key).lru), {key})
      ensures r.Ok? && key !in old(ShardFor(key).index) ==>
                AfterFill(old(ShardFor(key).lru), old(ShardFor(key).index), key, r.value, ShardFor(key))
                && ShardFor(key).mutationFence == old(ShardFor(key).mutationFence) + 1
      ensures old(Budgeted()) ==> Budgeted()
    {
      if ReadGate().Err? {
        return Err(ReadGate().error);
      }
      if !enabled {
        return Err(CacheDisabled);
      }
      var s := ShardFor(key);
      if key in s.index {
        r := Hit(key, s);
      } else {
        r := StoreGet(key);
        if r.Ok? {
          if |r.value| > MAX_VALUE_BYTES {
            return Err(CorruptData);
          }
          Fill(key, r.value, s);
        }
      }
    }

    /** The shard after a read-fill and the eviction that follows it. */
    ghost predicate AfterFill(lru: seq<Key>, index: Cache, key: Key, value: Value, s: Shard)
      reads s
    {
      var lru1, index1 := [key] + Without(lru, {key}), index[key := Entry(value, 0, Clean)];
      Indexed(lru1, index1) && (s.lru, s.index) == Evicted(lru1, index1, s.capacityBytes, s.maxEntries)
    }

    method Hit(key: Key, s: Shard) returns (r: Result<Value>)
      requires Valid() && s == ShardFor(key) && key in s.index
      modifies s`lru
      ensures Valid() && Model() == old(Model()) && r == Ok(s.index[key].value)
      ensures s.lru == [key] + Without(old(s.lru), {key})
      ensures old(s.Within()) ==> s.Within()
    {
      hide Sound, Accounts;
      ghost var m := Model();
      s.Counted();
      var hit := s.Touch(key);
      r := Ok(hit.value);
      assert Indexes() == m.indexes;
      s.Counted();
    }

    method Fill(key: Key, value: Value, s: Shard)
      requires Valid() && s == ShardFor(key) && key !in s.index && At(store, key) == Some(value)
      modifies s
      ensures Valid() && SameMap(hash, old(Model()), Model())
      ensures old(s.Within()) ==> s.Within()
      ensures !Unflushed(old(s.index), []) ==> !Unflushed(s.index, [])
      ensures AfterFill(old(s.lru), old(s.index), key, value, s) && s.mutationFence == old(s.mutationFence) + 1
    {
      hide Sound, Accounts, Evicted, SameMap;
      ghost var m, i := Model(), Home(hash, |shards|, key);
      s.Listed();
      if s.Within() {
        FillWithin(s.lru, s.index, key, Entry(value, 0, Clean), s.capacityBytes, s.maxEntries);
      }
      FillEvictSound(hash, m, faultFree, key, value, s.lru, s.capacityBytes, s.maxEntries);
      var applied := s.InsertOrUpdate(key, Entry(value, 0, Clean), true);
      assert Indexes() == m.indexes[i := s.index];
    }

    // ----- Flush and compaction -----

    /** Flushes one key on request. */
    method Flush(key: Key) returns (r: Result<()>)
      requires Valid()
      modifies this`journal, this`recordCount, this`store, ShardFor(key)
      ensures Valid() && SameMap(hash, old(Model()), Model())
      ensures lifecycle == NotReady ==> r == Err(RecoveryNotComplete)
      ensures lifecycle == RecoveryFailed ==> r == Err(RecoveryFailure)
      ensures lifecycle == Stopped ==> r == Err(ServiceStopping)
      ensures lifecycle !in {Ready, Stopping} ==> Model() == old(Model())
      ensures lifecycle in {Ready, Stopping} ==> (r == Err(NotFound) <==> EntryAt(hash, old(Model()), key) == None)
      // Success leaves the entry Clean, its value in the store and no other key's value touched.
      ensures r.Ok? ==> IsClean(EntryAt(hash, Model(), key)) && Lookup(hash, old(Model()), key) == At(store, key)
      ensures r.Ok? && IsDirty(EntryAt(hash, old(Model()), key)) ==>
                var n := EntryAt(hash, old(Model()), key).value.version;
                journal == old(journal) + [FlushIntent(key, n), FlushComplete(key, n)]
      // A failed call is reported, and leaves the entry Dirty.
      ensures lifecycle in {Ready, Stopping} && r.Err? && r != Err(NotFound) ==>
                r == Err(IoError) && !faultFree && IsDirty(EntryAt(hash, Model(), key))
      ensures forall k | k != key :: At(store, k) == At(old(store), k)
      ensures old(Budgeted()) ==> Budgeted()
    {
      r := ReadGate();
      if r.Ok? {
        r := FlushNow(key);
      }
    }

    method FlushNow(key: Key) returns (r: Result<()>)
      requires Valid()
      modifies this`journal, this`recordCount, this`store, ShardFor(key)
      ensures Valid() && SameMap(hash, old(Model()), Model())
      ensures r == Err(NotFound) <==> EntryAt(hash, old(Model()), key) == None
      ensures r.Ok? ==> IsClean(EntryAt(hash, Model(), key)) && Lookup(hash, old(Model()), key) == At(store, key)
      ensures r.Ok? && IsDirty(EntryAt(hash, old(Model()), key)) ==>
                var n := EntryAt(hash, old(Model()), key).value.version;
                journal == old(journal) + [FlushIntent(key, n), FlushComplete(key, n)]
      ensures r.Err? && r != Err(NotFound) ==> r == Err(IoError) && !faultFree && IsDirty(EntryAt(hash, Model(), key))
      ensures forall k | k != key :: At(store, k) == At(old(store), k)
      ensures old(ShardFor(key).Bounded()) ==> ShardFor(key).Bounded()
    {
      hide Sound, Accounts, SameMap;
      ghost var m := Model();
      SoundAt(hash, m, faultFree, key);
      var flushed, done := FlushKey(key, None);
      r := flushed;
      ghost var m' := Model();
      SoundAt(hash, m', faultFree, key);
      SameAt(hash, m, m', key);
    }

    method FlushListed(key: Key, s: Shard) returns (ok: bool)
      requires Valid() && s == ShardFor(key) && key in s.index
      modifies this`journal, this`recordCount, this`store, s
      ensures Valid() && SameMap(hash, old(Model()), Model()) && old(journal) <= journal
      ensures old(s.Bounded()) ==> s.Bounded()
      ensures recordCount - old(recordCount) == |journal| - |old(journal)|
      ensures journal == old(journal) ==> Model() == old(Model())
      ensures Cleaned(old(s.index), s.index)
      ensures (faultFree ==> ok) && (ok <==> IsClean(At(s.index, key)))
      ensures forall k | k != key :: At(s.index, k) == At(old(s.index), k)
    {
      assert KeySound(hash, Model(), faultFree, key);
      ghost var m, i := Model(), Home(hash, |shards|, key);
      assert m.indexes[i] == s.index;
      var r, done := FlushKey(key, None);
      assert Model().indexes[i] == s.index;
      ok := r.Ok?;
    }

    /** Flushes every Dirty entry of one shard, going on after failures; `tried` are the keys. On success the whole shard is Clean. */
    method FlushShard(i: nat, s: Shard) returns (ok: bool, ghost tried: set<Key>)
      requires Valid() && i < |shards| && s == shards[i]
      modifies this`journal, this`recordCount, this`store, s
      ensures Valid() && SameMap(hash, old(Model()), Model()) && old(journal) <= journal
      ensures recordCount - old(recordCount) == |journal| - |old(journal)|
      ensures journal == old(journal) ==> Model() == old(Model())
      ensures old(s.Bounded()) ==> s.Bounded()
      ensures (faultFree ==> ok) && (ok <==> s.AllClean())
      ensures forall k :: k in tried <==> IsDirty(At(old(s.index), k))
    {
      var keys := s.DirtyKeys();
      ListedHome(hash, Model(), faultFree, i, s.lru, s.index);
      ok, tried := FlushKeys(keys, s);
    }

    method FlushKeys(keys: seq<Key>, s: Shard) returns (ok: bool, ghost tried: set<Key>)
      requires Valid() && s in shards && Distinct(keys) && forall k | k in keys :: k in s.index && ShardFor(k) == s
      modifies this`journal, this`recordCount, this`store, s
      ensures Valid() && SameMap(hash, old(Model()), Model()) && old(journal) <= journal
      ensures old(s.Bounded()) ==> s.Bounded()
      ensures recordCount - old(recordCount) == |journal| - |old(journal)|
      ensures journal == old(journal) ==> Model() == old(Model())
      ensures Cleaned(old(s.index), s.index)
      ensures (faultFree ==> ok) && (ok <==> forall k | k in keys :: IsClean(At(s.index, k)))
      ensures forall k :: k in tried <==> k in keys
    {
      hide Sound, Accounts, SameMap, Kept;
      ghost var m, index := Model(), s.index;
      SameMapSelf(hash, m);
      CleanedSelf(index);
      ok, tried := true, {};
      for n := 0 to |keys|
        invariant forall k :: k in tried <==> k in keys[..n]
        invariant Valid() && SameMap(hash, m, Model()) && old(journal) <= journal
        invariant recordCount - old(recordCount) == |journal| - |old(journal)| && (journal == old(journal) ==> Model() == m)
        invariant Cleaned(index, s.index) && (old(s.Bounded()) ==> s.Bounded())
        invariant (faultFree ==> ok) && (ok <==> forall j | 0 <= j < n :: IsClean(At(s.index, keys[j])))
      {
        ghost var m1, index1 := Model(), s.index;
        var flushed := FlushListed(keys[n], s);
        tried := tried + {keys[n]};
        assert keys[..n + 1] == keys[..n] + [keys[n]];
        SameMapTrans(hash, m, m1, Model());
        CleanedTrans(index, index1, s.index);
        ok := ok && flushed;
      }
    }

    /** Reclaims the journal if it holds records and nothing is unflushed; truncation itself may fail. */
    method TryCompact()
      requires Valid()
      modifies this`journal, this`recordCount
      ensures Valid() && SameMap(hash, old(Model()), Model())
      ensures AllClean(Model()) == old(AllClean(Model()))
      ensures (journal == old(journal) && recordCount == old(recordCount)) || (journal == [] && recordCount == 0 && AllClean(Model()))
      ensures faultFree && old(recordCount) > 0 && AllClean(Model()) ==> journal == [] && recordCount == 0
    {
      if recordCount == 0 {
        return;
      }
      var clean := NothingDirty();
      if clean {
        TruncateJournal();
      }
    }

    /** The dirty counters of all shards are zero exactly when nothing is unflushed. */
    method NothingDirty() returns (clean: bool)
      requires Valid()
      ensures clean <==> AllClean(Model())
    {
      clean := true;
      var i := 0;
      while i < |shards|
        invariant i <= |shards|
        invariant clean <==> forall j | 0 <= j < i :: shards[j].AllClean()
      {
        shards[i].DirtyCounted();
        clean := clean && shards[i].dirtyCount == 0;
        i := i + 1;
      }
      AllCleanShards();
    }

    lemma AllCleanShards()
      ensures AllClean(Model()) <==> forall j | 0 <= j < |shards| :: shards[j].AllClean()
    {
      assert forall j | 0 <= j < |shards| :: Model().indexes[j] == shards[j].index;
      if AllClean(Model()) {
        forall j | 0 <= j < |shards|
          ensures shards[j].AllClean()
        {
          forall k | k in shards[j].index
            ensures shards[j].index[k].state == Clean
          {
            assert k in Model().indexes[j];
          }
        }
      }
    }

    method TruncateJournal()
      requires Valid() && AllClean(Model())
      modifies this`journal, this`recordCount
      ensures Valid() && SameMap(hash, old(Model()), Model()) && AllClean(Model())
      ensures (journal == old(journal) && recordCount == old(recordCount)) || (journal == [] && recordCount == 0)
      ensures faultFree ==> journal == [] && recordCount == 0
    {
      ghost var m := Model();
      TruncateSound(hash, m, faultFree);
      var ok := *;
      if faultFree {
        ok := true;
      }
      if ok {
        journal, recordCount := [], 0;
      }
      assert Indexes() == m.indexes;
    }

    /** Flushes everything. Success means nothing is unflushed, and then the journal may be reclaimed. */
    method FlushAll() returns (r: Result<()>)
      requires Valid()
      modifies this`journal, this`recordCount, this`store, shards
      ensures Valid() && SameMap(hash, old(Model()), Model())
      ensures lifecycle == NotReady ==> r == Err(RecoveryNotComplete)
      ensures lifecycle == RecoveryFailed ==> r == Err(RecoveryFailure)
      ensures lifecycle == Stopped ==> r == Err(ServiceStopping)
      ensures lifecycle !in {Ready, Stopping} ==> Model() == old(Model())
      ensures lifecycle in {Ready, Stopping} ==> r == Ok(()) || (r == Err(IoError) && !faultFree)
      ensures lifecycle in {Ready, Stopping} ==> (r.Ok? <==> AllClean(Model()))
      // Without failures the journal is reclaimed, if it has grown since the engine was created.
      ensures lifecycle in {Ready, Stopping} && faultFree ==> recordCount == 0
      ensures lifecycle in {Ready, Stopping} && faultFree && (old(recordCount) > 0 || !old(AllClean(Model()))) ==> journal == []
      ensures old(journal) <= journal || (journal == [] && AllClean(Model()))
      ensures old(Budgeted()) ==> Budgeted()
    {
      hide Sound, Accounts, SameMap, Budgeted, AllClean;
      SameMapSelf(hash, Model());
      r := ReadGate();
      if r.Ok? {
        r := FlushEverything();
      }
    }

    method FlushEverything() returns (r: Result<()>)
      requires Valid()
      modifies this`journal, this`recordCount, this`store, shards
      ensures Valid() && SameMap(hash, old(Model()), Model())
      ensures (r == Ok(()) || (r == Err(IoError) && !faultFree)) && (r.Ok? <==> AllClean(Model()))
      ensures faultFree ==> recordCount == 0
      ensures faultFree && (old(recordCount) > 0 || !old(AllClean(Model()))) ==> journal == []
      ensures old(journal) <= journal || (journal == [] && AllClean(Model()))
      ensures old(Budgeted()) ==> Budgeted()
    {
      hide Sound, Accounts, SameMap, Budgeted, AllClean;
      ghost var m := Model();
      var ok, _ := FlushShards();
      if !ok {
        return Err(IoError);
      }
      if |journal| == |m.journal| {
        assert journal == m.journal;
      }
      ghost var m1 := Model();
      TryCompact();
      SameMapTrans(hash, m, m1, Model());
      r := Ok(());
    }

    /** Every shard's turn, going on after failures; `tried` are all keys that were Dirty. */
    method FlushShards() returns (ok: bool, ghost tried: set<Key>)
      requires Valid()
      modifies this`journal, this`recordCount, this`store, shards
      ensures Valid() && SameMap(hash, old(Model()), Model()) && old(journal) <= journal
      ensures (faultFree ==> ok) && (ok <==> AllClean(Model())) && (old(Budgeted()) ==> Budgeted())
      ensures recordCount - old(recordCount) == |journal| - |old(journal)|
      ensures journal == old(journal) ==> Model() == old(Model())
      ensures forall k :: k in tried <==> IsDirty(EntryAt(hash, old(Model()), k))
    {
      hide Sound, Accounts, SameMap, DirtyBelow, Shard.Within;
      ghost var m := Model();
      SameMapSelf(hash, m);
      NoneBelow(hash, m);
      ok, tried := true, {};
      var i := 0;
      while i < |shards|
        invariant i <= |shards| && Valid() && SameMap(hash, m, Model()) && old(journal) <= journal
        invariant recordCount - old(recordCount) == |journal| - |old(journal)| && (journal == old(journal) ==> Model() == m)
        invariant (faultFree ==> ok) && (ok <==> forall j | 0 <= j < i :: shards[j].AllClean())
        invariant old(Budgeted()) ==> Budgeted()
        invariant forall j | i <= j < |shards| :: shards[j].index == m.indexes[j]
        invariant DirtyBelow(hash, m, i, tried)
      {
        ghost var m1 := Model();
        ghost var more: set<Key>;
        var flushed;
        flushed, more := FlushShard(i, shards[i]);
        DirtyNext(hash, m, faultFree, i, tried, more);
        tried := tried + more;
        SameMapTrans(hash, m, m1, Model());
        ok := ok && flushed;
        i := i + 1;
      }
      AllCleanShards();
      AllBelow(hash, m, tried);
    }

    // ----- Invalidate -----

    /**
    Removes a key from the cache and the store, on success and only then. Without force it refuses
    unflushed data. A failure after the journal append leaves the map alone, though a restart would
    then carry the removal out.
    */
    method Invalidate(key: Key, force: bool) returns (r: Result<()>)
      requires Valid()
      modifies this`journal, this`recordCount, this`store, ShardFor(key)
      ensures Valid()
      ensures forall k :: Lookup(hash, Model(), k) == if r.Ok? && k == key then None else Lookup(hash, old(Model()), k)
      ensures lifecycle == NotReady ==> r == Err(RecoveryNotComplete)
      ensures lifecycle == RecoveryFailed ==> r == Err(RecoveryFailure)
      ensures lifecycle in {Stopping, Stopped} ==> r == Err(ServiceStopping)
      ensures lifecycle != Ready ==> Model() == old(Model())
      // Without force, unflushed data is refused and nothing changes.
      ensures lifecycle == Ready && !force && Unflushed(old(ShardFor(key).index), key) ==>
                r == Err(UnflushedDirtyData) && Model() == old(Model())
      ensures lifecycle == Ready && (force || !Unflushed(old(ShardFor(key).index), key)) ==>
                r == Ok(()) || (r == Err(IoError) && !faultFree)
      // Success has journaled the removal and carried it out in the store and in the cache.
      ensures r.Ok? ==> Model() == InvalidateMemory(hash, old(Model()), key, 3) && key !in store && key !in ShardFor(key).index
      ensures r == Err(IoError) ==> Model() in {old(Model()), InvalidateMemory(hash, old(Model()), key, 1)}
      ensures old(Budgeted()) ==> Budgeted()
    {
      r := InvalidateGate(key, force);
      if r.Ok? {
        r := InvalidateEffects(key, ShardFor(key));
      }
    }

    /** Journal record, store removal, erase; it stops at the first call that fails. */
    method InvalidateEffects(key: Key, s: Shard) returns (r: Result<()>)
      requires Valid() && s == ShardFor(key)
      modifies this`journal, this`recordCount, this`store, s
      ensures Valid() && (r == Ok(()) || (r == Err(IoError) && !faultFree))
      ensures r.Ok? ==> Model() == InvalidateMemory(hash, old(Model()), key, 3) && key !in store && key !in s.index
      ensures r.Err? ==> Model() in {old(Model()), InvalidateMemory(hash, old(Model()), key, 1)}
      ensures forall k :: Lookup(hash, Model(), k) == if r.Ok? && k == key then None else Lookup(hash, old(Model()), k)
      ensures (old(s.Within()) ==> s.Within()) && Kept(old(s.index), s.index)
    {
      ghost var m := Model();
      var version := if key in s.index then s.index[key].version else 0;
      var ok := Append(Record.Invalidate(key, version));
      if !ok {
        assert Indexes() == m.indexes;
        return Err(IoError);
      }
      ok := StoreRemove(key);
      if !ok {
        InvalidateSound(hash, m, faultFree, key, 1);
        assert Indexes() == m.indexes;
        return Err(IoError);
      }
      InvalidateSound(hash, m, faultFree, key, 3);
      assert Indexes() == m.indexes;
      EraseKey(key, version, s, m);
      return Ok(());
    }

    method EraseKey(key: Key, version: nat, s: Shard, ghost m: Memory)
      requires Wired() && s == ShardFor(key) && (forall t | t in shards :: t.Valid()) && Indexes() == m.indexes && |m.indexes| > 0
      requires version == if key in s.index then s.index[key].version else 0
      requires m.(journal := journal, store := store) == InvalidateMemory(hash, m, key, 2) && counter == m.counter
      modifies s
      ensures (forall t | t in shards :: t.Valid()) && Model() == InvalidateMemory(hash, m, key, 3)
      ensures (old(s.Within()) ==> s.Within()) && Kept(old(s.index), s.index)
    {
      ghost var lru, index := s.lru, s.index;
      assert s.Valid();
      if key in index && s.Within() {
        EraseWithin(lru, index, key, s.capacityBytes, s.maxEntries);
      }
      s.EraseVersion(key, version);
      assert s.index == index - {key};
      assert Indexes() == InvalidateMemory(hash, m, key, 3).indexes;
    }

    function InvalidateGate(key: Key, force: bool): Result<()>
      requires |shards| > 0
      reads this`lifecycle, ShardFor(key)
    {
      match lifecycle
      case NotReady => Err(RecoveryNotComplete)
      case RecoveryFailed => Err(RecoveryFailure)
      case Stopping | Stopped => Err(ServiceStopping)
      case Ready => if !force && Unflushed(ShardFor(key).index, key) then Err(UnflushedDirtyData) else Ok(())
    }

    // ----- Shutdown -----

    /**
    Orderly stop. It flushes everything it can, and truncates the journal only when nothing is
    unflushed: otherwise the journal still ends with everything it held. Failed flushes are not reported.
    If its scan finds nothing unflushed, the store alone holds the map, so a next startup may skip replay.
    */
    method Shutdown() returns (r: Result<()>)
      requires Valid()
      modifies this`journal, this`recordCount, this`store, this`lifecycle, shards
      ensures Valid() && SameMap(hash, old(Model()), Model())
      ensures old(lifecycle) == Ready ==>
                && r.Ok? && lifecycle == Stopped
                && (old(journal) <= journal || (journal == [] && AllClean(Model())))
                && (faultFree ==> journal == [] && AllClean(Model()))
                && (AllClean(Model()) ==> forall k :: At(store, k) == Lookup(hash, old(Model()), k))
      ensures old(lifecycle) != Ready ==> lifecycle == old(lifecycle) && Model() == old(Model())
      ensures old(lifecycle) in {Stopping, Stopped} ==> r.Ok?
      ensures old(lifecycle) in {NotReady, RecoveryFailed} ==> r == Err(InvalidArgument)
    {
      hide Sound, Accounts, SameMap, Budgeted, AllClean;
      SameMapSelf(hash, Model());
      if lifecycle != Ready {
        return if lifecycle == Stopped || lifecycle == Stopping then Ok(()) else Err(InvalidArgument);
      }
      ghost var m := Model();
      lifecycle := Stopping;
      var _ := FlushAll();
      ghost var m1 := Model();
      lifecycle := Stopped;
      var clean := NothingDirty();
      if clean {
        TruncateJournal();
        SameMapTrans(hash, m, m1, Model());
        StoredMap(m);
      }
      r := Ok(());
    }

    lemma StoredMap(m: Memory)
      requires Valid() && |m.indexes| > 0 && SameMap(hash, m, Model()) && AllClean(Model())
      ensures forall k :: At(store, k) == Lookup(hash, m, k)
    {
      CleanIsStored(hash, Model(), faultFree);
    }

    // ----- Recovery -----

    /**
    Rebuilds the cache from the journal. Success leaves exactly the state IsReplayed describes; into
    an empty engine that is a valid engine serving the recovered map. A failed store removal or an
    unreadable record latches RecoveryFailed, with no cached entry changed. Without I/O failures it
    succeeds exactly if every record it reaches is short enough to be decoded.
    */
    method ReplayFromJournal() returns (r: Result<()>)
      requires Wired() && (forall s | s in shards :: s.Valid()) && Homed(hash, Indexes())
      modifies this`store, this`counter, this`lifecycle, shards
      ensures (forall s | s in shards :: s.Valid()) && Homed(hash, Indexes())
      ensures old(lifecycle) != NotReady ==> r == Err(InvalidArgument) && lifecycle == old(lifecycle) && Model() == old(Model())
      ensures old(lifecycle) == NotReady && faultFree ==> r == if AllSmall(Legible(journal)) then Ok(()) else Err(CorruptData)
      ensures r.Ok? ==> AllSmall(Legible(journal))
      ensures old(lifecycle) == NotReady && r.Ok? ==> lifecycle == NotReady && IsReplayed(hash, old(Model()), Model())
      ensures old(lifecycle) == NotReady && r.Err? ==>
                && r.error in {RecoveryFailure, CorruptData, VersionMismatch, IoError} && lifecycle == RecoveryFailed && Indexes() == old(Indexes())
                && CutShort(journal, old(store), store)
      ensures r.Ok? && (forall i | 0 <= i < |shards| :: old(Indexes())[i] == map[]) ==>
                Valid() && forall k :: Lookup(hash, Model(), k) == At(Recovered(Legible(journal), old(store)), k)
    {
      if lifecycle != NotReady {
        return Err(InvalidArgument);
      }
      ghost var m := Model();
      var scan, pending, read := ScanJournal();
      if scan.Err? {
        lifecycle := RecoveryFailed;
        assert RemovedBy(journal, m.store, store, read);
        assert Indexes() == m.indexes;
        return scan;
      }
      assert Indexes() == m.indexes;
      var highest := RestorePending(pending);
      counter := Max(counter, highest);
      ReplayedHomed(hash, m, Model());
      if forall i | 0 <= i < |shards| :: m.indexes[i] == map[] {
        ReplayedSound(hash, m, Model(), faultFree);
      }
      r := Ok(());
    }

    /**
    The replay callback over the journal, up to a frame too long to be read: pending writes, and store
    removals as it goes. A record whose key or value is too long is not decoded.
    */
    method ScanJournal() returns (r: Result<()>, pending: PendingMap, ghost read: nat)
      modifies this`store
      ensures faultFree ==> r == if AllSmall(Legible(journal)) then Ok(()) else Err(CorruptData)
      ensures r.Ok? ==> AllSmall(Legible(journal))
      ensures r.Err? ==> r.error in {RecoveryFailure, CorruptData, VersionMismatch, IoError}
      ensures r.Ok? ==> pending == Pending(Legible(journal)) && store == old(store) - InvalidatedKeys(Legible(journal))
      ensures read <= |journal| && store == old(store) - InvalidatedKeys(journal[..read])
    {
      hide Pending, InvalidatedKeys, AllFramable, AllSmall, Legible, ApplyRecord, Framable, Small;
      pending, r, read := map[], Ok(()), 0;
      var n := 0;
      ScanFirst();
      assert journal[..0] == [] && store - {} == store;
      while n < |journal| && Framable(journal[n])
        invariant n <= |journal| && AllSmall(journal[..n]) && AllFramable(journal[..n])
        invariant pending == Pending(journal[..n]) && store == old(store) - InvalidatedKeys(journal[..n])
      {
        ScanTurn(journal, n);
        if !Small(journal[n]) {
          LegibleFails(journal, n);
          return Err(CorruptData), pending, n;
        }
        var readable := *;
        if faultFree {
          readable := true;
        }
        if !readable {
          var fault := JournalFault();
          return Err(fault), pending, n;
        }
        pending := ApplyRecord(pending, journal[n]);
        if journal[n].Invalidate? {
          var removed := StoreRemove(journal[n].key);
          if !removed {
            return Err(RecoveryFailure), pending, n;
          }
        }
        n := n + 1;
      }
      read := n;
      LegibleEnds(journal, n);
    }

    /** Why a record could not be read: the journal's own failure, or the decoder's. */
    method JournalFault() returns (e: Error)
      ensures e in {CorruptData, VersionMismatch, IoError}
    {
      e := *;
      if e !in {CorruptData, VersionMismatch, IoError} {
        e := CorruptData;
      }
    }

    /** Inserts every pending write as Dirty, in any order, without evicting. */
    method RestorePending(p: PendingMap) returns (highest: nat)
      requires Wired() && forall s | s in shards :: s.Valid()
      modifies shards
      ensures forall s | s in shards :: s.Valid()
      ensures highest == MaxVersion(p)
      ensures forall i | 0 <= i < |shards| ::
                shards[i].index == RestoredInto(old(shards[i].index), Share(hash, |shards|, p, p.Keys, i))
    {
      highest := 0;
      var keys := p.Keys;
      forall i | 0 <= i < |shards|
        ensures RestoredInto(shards[i].index, Share(hash, |shards|, p, {}, i)) == shards[i].index
      {
      }
      while keys != {}
        invariant keys <= p.Keys && forall s | s in shards :: s.Valid()
        invariant forall i | 0 <= i < |shards| ::
                    shards[i].index == RestoredInto(old(shards[i].index), Share(hash, |shards|, p, p.Keys - keys, i))
        invariant (forall k | k in p && k !in keys :: p[k].version <= highest)
        invariant highest == 0 || exists k :: k in p && p[k].version == highest
        decreases keys
      {
        var k :| k in keys;
        RestoreOne(p, k, p.Keys - keys);
        highest := Max(highest, p[k].version);
        assert p.Keys - (keys - {k}) == p.Keys - keys + {k};
        keys := keys - {k};
      }
      assert p.Keys - {} == p.Keys;
    }

    method RestoreOne(p: PendingMap, k: Key, ghost done: set<Key>)
      requires Wired() && (forall s | s in shards :: s.Valid()) && k in p && k !in done
      modifies ShardFor(k)
      ensures forall s | s in shards :: s.Valid()
      ensures forall base: Cache, i | 0 <= i < |shards| && old(shards[i].index) == RestoredInto(base, Share(hash, |shards|, p, done, i)) ::
                shards[i].index == RestoredInto(base, Share(hash, |shards|, p, done + {k}, i))
    {
      var s := ShardFor(k);
      ghost var index := s.index;
      var applied := s.InsertOrUpdate(k, Entry(p[k].value, p[k].version, Dirty), false);
      forall base: Cache, i | 0 <= i < |shards| && old(shards[i].index) == RestoredInto(base, Share(hash, |shards|, p, done, i))
        ensures shards[i].index == RestoredInto(base, Share(hash, |shards|, p, done + {k}, i))
      {
        ShareStep(hash, |shards|, p, done, k, i);
        if i == Home(hash, |shards|, k) {
          RestoreStep(base, Share(hash, |shards|, p, done, i), k, p[k]);
        }
      }
    }

    /** Opens the engine for use, unless recovery failed or shutdown has begun. */
    method MarkRecoveryComplete() returns (r: Result<()>)
      modifies this`lifecycle
      ensures r.Ok? <==> old(lifecycle) in {NotReady, Ready}
      ensures r.Ok? ==> lifecycle == Ready
      ensures r.Err? ==> lifecycle == old(lifecycle) && r == Err(if lifecycle == RecoveryFailed then RecoveryFailure else InvalidArgument)
    {
      if lifecycle == Ready {
        return Ok(());
      }
      if lifecycle == RecoveryFailed {
        return Err(RecoveryFailure);
      }
      if lifecycle != NotReady {
        return Err(InvalidArgument);
      }
      lifecycle := Ready;
      r := Ok(());
    }

    // ----- Lifecycle gates -----

    /** Who may write: only a Ready engine, and only if it is enabled. */
    function WriteGate(): Result<()>
      reads this`lifecycle
    {
      match lifecycle
      case NotReady => Err(RecoveryNotComplete)
      case RecoveryFailed => Err(RecoveryFailure)
      case Stopping | Stopped => Err(ServiceStopping)
      case Ready => if enabled then Ok(()) else Err(CacheDisabled)
    }

    /** Who may read or flush: an engine that has recovered and has not stopped. */
    function ReadGate(): Result<()>
      reads this`lifecycle
    {
      match lifecycle
      case NotReady => Err(RecoveryNotComplete)
      case RecoveryFailed => Err(RecoveryFailure)
      case Stopped => Err(ServiceStopping)
      case Ready | Stopping => Ok(())
    }
  }
}
