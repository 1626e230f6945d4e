/** The sequential engine's state as a value, and what each kind of update does to it. */
module EngineMemory {
  import opened CacheTypes
  import opened Replay

  type Hash = Key -> nat

  /** The shard indexes, the journal, the store and the version counter. */
  datatype Memory = Memory(indexes: seq<Cache>, journal: seq<Record>, store: map<Key, Value>, counter: nat)

  function Home(h: Hash, n: nat, k: Key): (i: nat)
    requires n > 0
    ensures i < n
  {
    h(k) % n
  }

  function EntryAt(h: Hash, m: Memory, k: Key): Option<Entry>
    requires |m.indexes| > 0
  {
    At(m.indexes[Home(h, |m.indexes|, k)], k)
  }

  /** The plain map the engine refines: the cached value, else the stored one. */
  function Lookup(h: Hash, m: Memory, k: Key): Option<Value>
    requires |m.indexes| > 0
  {
    var e := EntryAt(h, m, k);
    if e.Some? then Some(e.value.value) else At(m.store, k)
  }

  function DirtyStamp(e: Option<Entry>): Option<Stamped> {
    if e.Some? && e.value.state != Clean then Some(Stamped(e.value.value, e.value.version)) else None
  }

  /**
  Between calls: Clean means equal to the store; and if no I/O ever failed and replay reaches the whole
  journal, Dirty means pending in the journal, and a key that the journal invalidated and never flushed
  again is not in the store.
  */
  predicate KeyOk(e: Option<Entry>, stored: Option<Value>, pending: Option<Stamped>, vanished: bool, counter: nat, synced: bool) {
    && (e.Some? ==> e.value.version <= counter && e.value.state != FlushInProgress)
    && (e.Some? && e.value.state == Clean ==> stored == Some(e.value.value))
    && (synced ==> pending == DirtyStamp(e) && (vanished ==> stored == None))
  }

  predicate KeySound(h: Hash, m: Memory, synced: bool, k: Key)
    requires |m.indexes| > 0
  {
    KeyOk(EntryAt(h, m, k), At(m.store, k), At(Pending(m.journal), k), Vanished(m.journal, k), m.counter, synced && AllFramable(m.journal))
  }

  ghost predicate Sound(h: Hash, m: Memory, synced: bool) {
    && |m.indexes| > 0
    && (forall i, k | 0 <= i < |m.indexes| && k in m.indexes[i] :: Home(h, |m.indexes|, k) == i)
    && (forall k :: KeySound(h, m, synced, k))
  }

  lemma SoundAt(h: Hash, m: Memory, synced: bool, k: Key)
    requires Sound(h, m, synced)
    ensures |m.indexes| > 0 && KeySound(h, m, synced, k)
  {
  }

  ghost predicate SameMap(h: Hash, m: Memory, m': Memory)
    requires |m.indexes| > 0 && |m'.indexes| > 0
  {
    forall k :: Lookup(h, m', k) == Lookup(h, m, k)
  }

  function SetIndex(m: Memory, i: nat, index: Cache): Memory
    requires i < |m.indexes|
  {
    m.(indexes := m.indexes[i := index])
  }

  /** after is before with some Clean entries gone. */
  ghost predicate EvictedFrom(before: Cache, after: Cache) {
    && after.Keys <= before.Keys
    && forall k | k in before :: if k in after then after[k] == before[k] else before[k].state == Clean
  }

  /** Evicting Clean entries never changes the map. */
  lemma EvictSound(h: Hash, m: Memory, synced: bool, i: nat, after: Cache)
    requires Sound(h, m, synced) && i < |m.indexes| && EvictedFrom(m.indexes[i], after)
    ensures Sound(h, SetIndex(m, i, after), synced) && SameMap(h, m, SetIndex(m, i, after))
  {
    var m' := SetIndex(m, i, after);
    forall k
      ensures KeySound(h, m', synced, k) && Lookup(h, m', k) == Lookup(h, m, k)
    {
      assert KeySound(h, m, synced, k);
    }
  }

  /** The durable and in-memory effect of a Put that was journaled, before eviction. */
  function PutMemory(h: Hash, m: Memory, k: Key, v: Value): Memory
    requires |m.indexes| > 0
  {
    var i, n := Home(h, |m.indexes|, k), m.counter + 1;
    Memory(m.indexes[i := m.indexes[i][k := Entry(v, n, Dirty)]], m.journal + [Upsert(k, v, n)], m.store, n)
  }

  lemma PutSound(h: Hash, m: Memory, synced: bool, key: Key, v: Value)
    requires Sound(h, m, synced)
    ensures Sound(h, PutMemory(h, m, key, v), synced)
    ensures forall k :: Lookup(h, PutMemory(h, m, key, v), k) == if k == key then Some(v) else Lookup(h, m, k)
  {
    var m' := PutMemory(h, m, key, v);
    forall k
      ensures KeySound(h, m', synced, k) && Lookup(h, m', k) == if k == key then Some(v) else Lookup(h, m, k)
    {
      PutKey(h, m, synced, key, v, k);
    }
  }

  lemma PutKey(h: Hash, m: Memory, synced: bool, key: Key, v: Value, k: Key)
    requires Sound(h, m, synced)
    ensures var m' := PutMemory(h, m, key, v);
            KeySound(h, m', synced, k) && Lookup(h, m', k) == if k == key then Some(v) else Lookup(h, m, k)
  {
    hide Pending, Vanished, AllFramable;
    SoundAt(h, m, synced, k);
    FramableAppend(m.journal, Upsert(key, v, m.counter + 1));
    PendingAppend(m.journal, Upsert(key, v, m.counter + 1));
    VanishedAppend(m.journal, Upsert(key, v, m.counter + 1), k);
  }

  /** A read-fill of the stored value. */
  lemma FillSound(h: Hash, m: Memory, synced: bool, key: Key, v: Value)
    requires Sound(h, m, synced) && EntryAt(h, m, key) == None && At(m.store, key) == Some(v)
    ensures var i := Home(h, |m.indexes|, key);
            var m' := SetIndex(m, i, m.indexes[i][key := Entry(v, 0, Clean)]);
            Sound(h, m', synced) && SameMap(h, m, m')
  {
    var i := Home(h, |m.indexes|, key);
    var m' := SetIndex(m, i, m.indexes[i][key := Entry(v, 0, Clean)]);
    forall k
      ensures KeySound(h, m', synced, k) && Lookup(h, m', k) == Lookup(h, m, k)
    {
      assert KeySound(h, m, synced, k);
    }
  }

  /** The journal and the store after the first `done` effects of a flush: intent record, store write, completion record. */
  function FlushJournal(journal: seq<Record>, k: Key, n: nat, done: nat): seq<Record> {
    if done == 0 then journal
    else if done < 3 then journal + [FlushIntent(k, n)]
    else journal + [FlushIntent(k, n)] + [FlushComplete(k, n)]
  }

  function FlushStore(store: map<Key, Value>, k: Key, v: Value, done: nat): map<Key, Value> {
    if done < 2 then store else store[k := v]
  }

  /** The whole state after that many effects; the third also marks the entry Clean. */
  function FlushMemory(h: Hash, m: Memory, k: Key, done: nat): Memory
    requires |m.indexes| > 0 && EntryAt(h, m, k).Some?
  {
    var i, e := Home(h, |m.indexes|, k), EntryAt(h, m, k).value;
    Memory(if done < 3 then m.indexes else m.indexes[i := m.indexes[i][k := e.(state := Clean)]],
           FlushJournal(m.journal, k, e.version, done), FlushStore(m.store, k, e.value, done), m.counter)
  }

  predicate IsDirty(e: Option<Entry>) {
    e.Some? && e.value.state == Dirty
  }

  lemma FlushKeyPart(h: Hash, m: Memory, synced: bool, key: Key, done: nat, k: Key)
    requires Sound(h, m, synced) && IsDirty(EntryAt(h, m, key)) && done < 3 && (done == 2 ==> !synced)
    ensures KeySound(h, FlushMemory(h, m, key, done), synced, k) && Lookup(h, FlushMemory(h, m, key, done), k) == Lookup(h, m, k)
  {
    hide Pending, Vanished, AllFramable;
    SoundAt(h, m, synced, k);
    FramableAppend(m.journal, FlushIntent(key, EntryAt(h, m, key).value.version));
    PendingAppend(m.journal, FlushIntent(key, EntryAt(h, m, key).value.version));
    VanishedAppend(m.journal, FlushIntent(key, EntryAt(h, m, key).value.version), k);
  }

  lemma FlushKeyDone(h: Hash, m: Memory, synced: bool, key: Key, k: Key)
    requires Sound(h, m, synced) && IsDirty(EntryAt(h, m, key))
    ensures KeySound(h, FlushMemory(h, m, key, 3), synced, k) && Lookup(h, FlushMemory(h, m, key, 3), k) == Lookup(h, m, k)
  {
    hide Pending, Vanished, AllFramable;
    var n := EntryAt(h, m, key).value.version;
    SoundAt(h, m, synced, k);
    FramableAppend(m.journal, FlushIntent(key, n));
    FramableAppend(m.journal + [FlushIntent(key, n)], FlushComplete(key, n));
    PendingAppend(m.journal, FlushIntent(key, n));
    PendingAppend(m.journal + [FlushIntent(key, n)], FlushComplete(key, n));
    VanishedAppend(m.journal, FlushIntent(key, n), k);
    VanishedAppend(m.journal + [FlushIntent(key, n)], FlushComplete(key, n), k);
  }

  /** However far a flush gets, the map stays the same. */
  lemma FlushSound(h: Hash, m: Memory, synced: bool, key: Key, done: nat)
    requires Sound(h, m, synced) && IsDirty(EntryAt(h, m, key)) && done <= 3 && (done == 2 ==> !synced)
    ensures Sound(h, FlushMemory(h, m, key, done), synced) && SameMap(h, m, FlushMemory(h, m, key, done))
  {
    var m' := FlushMemory(h, m, key, done);
    forall k
      ensures KeySound(h, m', synced, k) && Lookup(h, m', k) == Lookup(h, m, k)
    {
      if done == 3 { FlushKeyDone(h, m, synced, key, k); } else { FlushKeyPart(h, m, synced, key, done, k); }
    }
  }

  /** An invalidation after its first `done` effects: record, store removal, cache erase. */
  function InvalidateMemory(h: Hash, m: Memory, k: Key, done: nat): Memory
    requires |m.indexes| > 0 && done <= 3
  {
    var i := Home(h, |m.indexes|, k);
    var n := if k in m.indexes[i] then m.indexes[i][k].version else 0;
    var m1 := if done >= 1 then m.(journal := m.journal + [Invalidate(k, n)]) else m;
    var m2 := if done >= 2 then m1.(store := m1.store - {k}) else m1;
    if done == 3 then m2.(indexes := m.indexes[i := m.indexes[i] - {k}]) else m2
  }

  /** A completed invalidation removes exactly its key from the map; one whose store removal failed removes nothing. */
  lemma InvalidateSound(h: Hash, m: Memory, synced: bool, key: Key, done: nat)
    requires Sound(h, m, synced) && done <= 3 && done != 2 && (done == 1 ==> !synced)
    ensures Sound(h, InvalidateMemory(h, m, key, done), synced)
    ensures forall k :: Lookup(h, InvalidateMemory(h, m, key, done), k) == if k == key && done == 3 then None else Lookup(h, m, k)
  {
    var m' := InvalidateMemory(h, m, key, done);
    forall k
      ensures KeySound(h, m', synced, k)
      ensures Lookup(h, m', k) == if k == key && done == 3 then None else Lookup(h, m, k)
    {
      InvalidateKey(h, m, synced, key, done, k);
    }
  }

  lemma InvalidateKey(h: Hash, m: Memory, synced: bool, key: Key, done: nat, k: Key)
    requires Sound(h, m, synced) && done <= 3 && done != 2 && (done == 1 ==> !synced)
    ensures var m' := InvalidateMemory(h, m, key, done);
            KeySound(h, m', synced, k) && Lookup(h, m', k) == if k == key && done == 3 then None else Lookup(h, m, k)
  {
    hide Pending, Vanished, AllFramable;
    var i := Home(h, |m.indexes|, key);
    var r := Invalidate(key, if key in m.indexes[i] then m.indexes[i][key].version else 0);
    SoundAt(h, m, synced, k);
    FramableAppend(m.journal, r);
    PendingAppend(m.journal, r);
    VanishedAppend(m.journal, r, k);
  }

  /** Nothing is unflushed. */
  ghost predicate AllClean(m: Memory) {
    forall i, k | 0 <= i < |m.indexes| && k in m.indexes[i] :: m.indexes[i][k].state == Clean
  }

  /** When nothing is unflushed the store alone serves the map. */
  lemma CleanIsStored(h: Hash, m: Memory, synced: bool)
    requires Sound(h, m, synced) && AllClean(m)
    ensures forall k :: At(m.store, k) == Lookup(h, m, k)
  {
    forall k
      ensures At(m.store, k) == Lookup(h, m, k)
    {
      SoundAt(h, m, synced, k);
    }
  }

  /** Truncating the journal of a fully Clean engine changes nothing a caller or a restart can see. */
  lemma TruncateSound(h: Hash, m: Memory, synced: bool)
    requires Sound(h, m, synced) && AllClean(m)
    ensures Sound(h, m.(journal := []), synced) && SameMap(h, m, m.(journal := []))
  {
    var m' := m.(journal := []);
    forall k
      ensures KeySound(h, m', synced, k) && Lookup(h, m', k) == Lookup(h, m, k)
    {
      assert KeySound(h, m, synced, k);
    }
  }

  /**
  When a restart serves the map as it was: after a failure-free history without a record too long for
  a frame, it succeeds exactly if no record has a key or value over 64 MiB. Then key k is recovered
  with exactly its value before the crash, unless k is stored and not pending while the journal still
  holds an Invalidate of k. In that case the restart loses it.
  */
  lemma RecoveryExact(h: Hash, m: Memory, k: Key)
    requires Sound(h, m, true) && AllFramable(m.journal)
    ensures Restarted(m.journal, m.store).Some? <==> AllSmall(m.journal)
    ensures AllSmall(m.journal) ==>
              (At(Restarted(m.journal, m.store).value, k) == Lookup(h, m, k)
               <==> !(k in InvalidatedKeys(m.journal) && k !in Pending(m.journal) && k in m.store))
  {
    LegibleAll(m.journal);
    assert KeySound(h, m, true, k);
  }

  /**
  The journal alone decides: after a failure-free history, if no FlushComplete of a key follows an
  Invalidate of it in the journal and no record has a key or value over 64 MiB, a restart serves
  exactly the map before the crash.
  */
  lemma RecoveryFaithful(h: Hash, m: Memory)
    requires Sound(h, m, true) && NoReflush(m.journal) && AllSmall(m.journal)
    ensures Restarted(m.journal, m.store).Some?
    ensures forall k :: At(Restarted(m.journal, m.store).value, k) == Lookup(h, m, k)
  {
    assert AllFramable(m.journal);
    LegibleAll(m.journal);
    forall k
      ensures At(Recovered(m.journal, m.store), k) == Lookup(h, m, k)
    {
      SoundAt(h, m, true, k);
      VanishedMeaning(m.journal, k);
      RecoveryExact(h, m, k);
    }
  }

  // ----- Replay -----

  /** The pending writes among the given keys that live in shard i. */
  function Share(h: Hash, n: nat, p: PendingMap, keys: set<Key>, i: nat): PendingMap
    requires n > 0
  {
    map k | k in p && k in keys && Home(h, n, k) == i :: p[k]
  }

  /** Every cached key is in its home shard. */
  predicate Homed(h: Hash, indexes: seq<Cache>) {
    |indexes| > 0 && forall i, k | 0 <= i < |indexes| && k in indexes[i] :: Home(h, |indexes|, k) == i
  }

  /** The state replay leaves when it has read all of the journal that it reaches. */
  ghost predicate IsReplayed(h: Hash, m: Memory, m': Memory) {
    var n, p := |m.indexes|, Pending(Legible(m.journal));
    && n > 0 && |m'.indexes| == n && m'.journal == m.journal
    && m'.store == m.store - InvalidatedKeys(Legible(m.journal))
    && m'.counter == Max(m.counter, MaxVersion(p))
    && forall i | 0 <= i < n :: m'.indexes[i] == RestoredInto(m.indexes[i], Share(h, n, p, p.Keys, i))
  }

  predicate RemovedBy(journal: seq<Record>, store: map<Key, Value>, store': map<Key, Value>, n: nat) {
    n <= |journal| && store' == store - InvalidatedKeys(journal[..n])
  }

  /** Replay stopped after some number of records. */
  ghost predicate CutShort(journal: seq<Record>, store: map<Key, Value>, store': map<Key, Value>) {
    exists n: nat :: RemovedBy(journal, store, store', n)
  }

  function Max(a: nat, b: nat): nat {
    if a < b then b else a
  }

  /** Replay into an empty engine leaves a sound state that serves exactly the recovered map. */
  lemma ReplayedSound(h: Hash, m: Memory, m': Memory, synced: bool)
    requires IsReplayed(h, m, m') && forall i | 0 <= i < |m.indexes| :: m.indexes[i] == map[]
    ensures Sound(h, m', synced)
    ensures forall k :: Lookup(h, m', k) == At(Recovered(Legible(m.journal), m.store), k)
  {
    if AllFramable(m.journal) {
      LegibleAll(m.journal);
    }
    forall k
      ensures KeySound(h, m', synced, k) && Lookup(h, m', k) == At(Recovered(Legible(m.journal), m.store), k)
    {
      ReplayedKey(h, m, m', k);
      VanishedMeaning(m.journal, k);
    }
  }

  lemma ReplayedKey(h: Hash, m: Memory, m': Memory, k: Key)
    requires IsReplayed(h, m, m') && forall i | 0 <= i < |m.indexes| :: m.indexes[i] == map[]
    ensures var p := Pending(Legible(m.journal));
            EntryAt(h, m', k) == if k in p then Some(Entry(p[k].value, p[k].version, Dirty)) else None
  {
    var i, p := Home(h, |m.indexes|, k), Pending(Legible(m.journal));
    assert m'.indexes[i] == RestoredInto(m.indexes[i], Share(h, |m.indexes|, p, p.Keys, i));
  }

  /** A second replay changes nothing: same entries, same store, same version counter. */
  lemma ReplayTwice(h: Hash, m: Memory, m1: Memory, m2: Memory)
    requires IsReplayed(h, m, m1) && IsReplayed(h, m1, m2) && forall i | 0 <= i < |m.indexes| :: m.indexes[i] == map[]
    ensures m2 == m1
  {
    forall i | 0 <= i < |m.indexes|
      ensures m2.indexes[i] == m1.indexes[i]
    {
      ReplayIdempotent(Share(h, |m.indexes|, Pending(Legible(m.journal)), Pending(Legible(m.journal)).Keys, i));
    }
    assert m2.indexes == m1.indexes;
  }

  lemma ShareStep(h: Hash, n: nat, p: PendingMap, done: set<Key>, k: Key, i: nat)
    requires n > 0 && k in p && k !in done
    ensures Share(h, n, p, done + {k}, i)
            == if Home(h, n, k) == i then Share(h, n, p, done, i)[k := p[k]] else Share(h, n, p, done, i)
  {
  }

  lemma ReplayedHomed(h: Hash, m: Memory, m': Memory)
    requires IsReplayed(h, m, m') && Homed(h, m.indexes)
    ensures Homed(h, m'.indexes)
  {
  }
}
