/** What eviction, insertion and flushing do to one shard's budgets and to the engine's state, as pure facts. */
module EngineCapacity {
  import opened CacheTypes
  import opened LruList
  import opened EngineMemory

  /** What all 64 relief rounds of one call can free at least. */
  const RELIEF_BYTES: nat := 64 * 64

  /** What a successful round does to a shard whose entries are all unflushed. */
  lemma RoundFrees(lru: seq<Key>, index: Cache, key: Key, capacity: nat, limit: nat, bytes: nat, entries: nat)
    requires Distinct(lru) && Exceeds(lru, index, capacity, limit, bytes, entries) && OverBudget(lru, index, capacity, limit) && key in lru
    ensures var index' := index[key := index[key].(state := Clean)];
            && Indexed(lru, index')
            && var (l, i) := Evicted(lru, index', capacity, limit);
               && Exceeds(l, i, capacity, limit, Less(bytes, ENTRY_OVERHEAD_BYTES), Less(entries, 1))
               && DirtyCount(l, i) < DirtyCount(lru, index)
  {
    AllDirty(lru, index);
    FlushedIsEvicted(lru, index, key, capacity, limit);
    var index' := index[key := index[key].(state := Clean)];
    AllDirty(Without(lru, {key}), index' - {key});
  }

  lemma CounterSound(h: Hash, m: Memory, synced: bool)
    requires Sound(h, m, synced)
    ensures Sound(h, m.(counter := m.counter + 1), synced) && SameMap(h, m, m.(counter := m.counter + 1))
  {
    var m' := m.(counter := m.counter + 1);
    forall k
      ensures KeySound(h, m', synced, k) && Lookup(h, m', k) == Lookup(h, m, k)
    {
      assert KeySound(h, m, synced, k);
    }
  }

  lemma InsertedEvicted(index: Cache, key: Key, e: Entry, lru: seq<Key>, capacity: nat, limit: nat)
    requires Distinct(lru) && forall k :: k in lru <==> k in index
    ensures var lru1, index1 := [key] + Without(lru, {key}), index[key := e];
            && Distinct(lru1) && Indexed(lru1, index1)
            && EvictedFrom(index1, Evicted(lru1, index1, capacity, limit).1)
  {
    WithoutDistinct(lru, {key});
    EvictedFromIndex([key] + Without(lru, {key}), index[key := e], capacity, limit);
  }

  /** A journaled write, committed to its shard and followed by eviction there. */
  lemma CommitSound(h: Hash, m: Memory, synced: bool, key: Key, value: Value, lru: seq<Key>, capacity: nat, limit: nat)
    requires Sound(h, m, synced) && Distinct(lru)
    requires forall k :: k in lru <==> k in m.indexes[Home(h, |m.indexes|, key)]
    ensures var i, e := Home(h, |m.indexes|, key), Entry(value, m.counter + 1, Dirty);
            var lru1, index1 := [key] + Without(lru, {key}), m.indexes[i][key := e];
            && (key in m.indexes[i] ==> m.indexes[i][key].version <= m.counter)
            && Indexed(lru1, index1)
            && var m' := SetIndex(PutMemory(h, m, key, value), i, Evicted(lru1, index1, capacity, limit).1);
               && Sound(h, m', synced)
               && forall k :: Lookup(h, m', k) == if k == key then Some(value) else Lookup(h, m, k)
  {
    hide Evicted, EvictedFrom;
    var i, e, m1 := Home(h, |m.indexes|, key), Entry(value, m.counter + 1, Dirty), PutMemory(h, m, key, value);
    SoundAt(h, m, synced, key);
    PutSound(h, m, synced, key, value);
    InsertedEvicted(m.indexes[i], key, e, lru, capacity, limit);
    EvictSound(h, m1, synced, i, Evicted([key] + Without(lru, {key}), m.indexes[i][key := e], capacity, limit).1);
  }

  /** A read-fill followed by eviction in its shard. */
  lemma FillEvictSound(h: Hash, m: Memory, synced: bool, key: Key, value: Value, lru: seq<Key>, capacity: nat, limit: nat)
    requires Sound(h, m, synced) && EntryAt(h, m, key) == None && At(m.store, key) == Some(value) && Distinct(lru)
    requires forall k :: k in lru <==> k in m.indexes[Home(h, |m.indexes|, key)]
    ensures var i, e := Home(h, |m.indexes|, key), Entry(value, 0, Clean);
            var lru1, index1 := [key] + Without(lru, {key}), m.indexes[i][key := e];
            && Indexed(lru1, index1)
            && var index := Evicted(lru1, index1, capacity, limit).1;
               && Sound(h, SetIndex(m, i, index), synced) && SameMap(h, m, SetIndex(m, i, index))
               && EvictedFrom(index1, index)
  {
    hide Evicted, EvictedFrom, SameMap;
    var i, e := Home(h, |m.indexes|, key), Entry(value, 0, Clean);
    var m1 := SetIndex(m, i, m.indexes[i][key := e]);
    FillSound(h, m, synced, key, value);
    InsertedEvicted(m.indexes[i], key, e, lru, capacity, limit);
    var index := Evicted([key] + Without(lru, {key}), m.indexes[i][key := e], capacity, limit).1;
    EvictSound(h, m1, synced, i, index);
    assert SetIndex(m1, i, index) == SetIndex(m, i, index);
    SameMapTrans(h, m, m1, SetIndex(m, i, index));
  }

  function Less(a: nat, b: nat): nat {
    if a < b then 0 else a - b
  }

  lemma SameAt(h: Hash, m: Memory, m': Memory, k: Key)
    requires |m.indexes| > 0 && |m'.indexes| > 0 && SameMap(h, m, m')
    ensures Lookup(h, m', k) == Lookup(h, m, k)
  {
  }

  lemma SameMapSelf(h: Hash, m: Memory)
    requires |m.indexes| > 0
    ensures SameMap(h, m, m)
  {
  }

  lemma SameMapTrans(h: Hash, a: Memory, b: Memory, c: Memory)
    requires |a.indexes| > 0 && |b.indexes| > 0 && |c.indexes| > 0 && SameMap(h, a, b) && SameMap(h, b, c)
    ensures SameMap(h, a, c)
  {
    forall k
      ensures Lookup(h, c, k) == Lookup(h, a, k)
    {
      assert Lookup(h, b, k) == Lookup(h, a, k);
    }
  }

  /** Eviction as the engine sees it. */
  lemma EvictedFromIndex(lru: seq<Key>, index: Cache, capacity: nat, limit: nat)
    requires Distinct(lru) && Indexed(lru, index)
    ensures EvictedFrom(index, Evicted(lru, index, capacity, limit).1)
  {
    EvictedShrinks(lru, index, capacity, limit);
    forall k | k in index
      ensures var i := Evicted(lru, index, capacity, limit).1; if k in i then i[k] == index[k] else index[k].state == Clean
    {
      EvictedOnlyClean(lru, index, capacity, limit, k);
    }
  }

  /** Claiming an entry and finishing its flush, as seen in the index. */
  lemma SettleClaimed(index: Cache, key: Key, value: Value, version: nat, flushed: bool)
    requires key in index && index[key] == Entry(value, version, Dirty)
    ensures var claimed := index[key := Entry(value, version, FlushInProgress)];
            Settle(claimed, key, version, if flushed then Clean else Dirty)
            == if flushed then index[key := Entry(value, version, Clean)] else index
  {
  }

  /** With nothing Clean in a non-empty shard between calls, everything is Dirty and relief finds a key. */
  lemma DirtyPicked(h: Hash, m: Memory, i: nat, lru: seq<Key>, index: Cache, synced: bool)
    requires Sound(h, m, synced) && i < |m.indexes| && index == m.indexes[i] && Indexed(lru, index)
    requires lru != [] && Victims(lru, index) == [] && !Unflushed(index, [])
    ensures LeastRecent(InState(lru, index, Dirty)) != []
  {
    VictimsAreClean(lru, index);
    var k := lru[0];
    assert k in lru && k !in Victims(lru, index);
    assert KeySound(h, m, synced, k);
    assert k in InState(lru, index, Dirty);
  }

  lemma SoundHomed(h: Hash, m: Memory, synced: bool)
    requires Sound(h, m, synced)
    ensures forall j, k | 0 <= j < |m.indexes| && k in m.indexes[j] :: Home(h, |m.indexes|, k) == j
  {
  }

  lemma PickedHome(h: Hash, m: Memory, i: nat, lru: seq<Key>, index: Cache, key: Key)
    requires |m.indexes| > 0 && i < |m.indexes| && index == m.indexes[i] && Indexed(lru, index)
    requires forall j, k | 0 <= j < |m.indexes| && k in m.indexes[j] :: Home(h, |m.indexes|, k) == j
    requires key != [] && key == LeastRecent(InState(lru, index, Dirty))
    ensures key in lru && index[key].state == Dirty && Home(h, |m.indexes|, key) == i
  {
    assert key in InState(lru, index, Dirty);
  }

  /** Entries may have gone or become Clean; none was added or replaced. */
  ghost predicate Kept(before: Cache, after: Cache) {
    forall k | k in after :: k in before && (after[k] == before[k] || after[k] == before[k].(state := Clean))
  }

  predicate IsClean(e: Option<Entry>) {
    e.Some? && e.value.state == Clean
  }

  /** The same entries, some of them become Clean. */
  ghost predicate Cleaned(before: Cache, after: Cache) {
    after.Keys == before.Keys && Kept(before, after)
  }

  lemma CleanedSelf(a: Cache)
    ensures Cleaned(a, a)
  {
  }

  lemma CleanedTrans(a: Cache, b: Cache, c: Cache)
    requires Cleaned(a, b) && Cleaned(b, c)
    ensures Cleaned(a, c) && forall k :: IsClean(At(b, k)) ==> IsClean(At(c, k))
  {
  }

  lemma KeptSelf(index: Cache)
    ensures Kept(index, index)
  {
  }

  /** Between calls a shard's Dirty keys are all it has to flush, and the shard is their home. */
  lemma ListedHome(h: Hash, m: Memory, synced: bool, i: nat, lru: seq<Key>, index: Cache)
    requires Sound(h, m, synced) && i < |m.indexes| && index == m.indexes[i] && forall k :: k in lru <==> k in index
    ensures Indexed(lru, index)
    ensures forall k | k in InState(lru, index, Dirty) :: k in index && Home(h, |m.indexes|, k) == i
    ensures forall k | k in index :: index[k].state == Clean || k in InState(lru, index, Dirty)
  {
    forall k | k in index
      ensures index[k].state == Clean || k in InState(lru, index, Dirty)
    {
      assert KeySound(h, m, synced, k);
    }
  }

  lemma FlushParts(h: Hash, m: Memory, key: Key)
    requires |m.indexes| > 0 && IsDirty(EntryAt(h, m, key))
    ensures forall done: nat | done <= 3 ::
              var i, e, m' := Home(h, |m.indexes|, key), EntryAt(h, m, key).value, FlushMemory(h, m, key, done);
              && |m'.indexes| == |m.indexes|
              && m'.indexes[i] == (if done == 3 then m.indexes[i][key := e.(state := Clean)] else m.indexes[i])
              && m'.journal == FlushJournal(m.journal, key, e.version, done) && m'.store == FlushStore(m.store, key, e.value, done)
  {
  }

  /** The Dirty keys of the first n shards. */
  ghost predicate DirtyBelow(h: Hash, m: Memory, n: nat, keys: set<Key>) {
    |m.indexes| > 0 && forall k :: k in keys <==> Home(h, |m.indexes|, k) < n && IsDirty(EntryAt(h, m, k))
  }

  lemma NoneBelow(h: Hash, m: Memory)
    requires |m.indexes| > 0
    ensures DirtyBelow(h, m, 0, {})
  {
  }

  lemma DirtyNext(h: Hash, m: Memory, synced: bool, n: nat, keys: set<Key>, more: set<Key>)
    requires Sound(h, m, synced) && n < |m.indexes| && DirtyBelow(h, m, n, keys) && forall k :: k in more <==> IsDirty(At(m.indexes[n], k))
    ensures DirtyBelow(h, m, n + 1, keys + more)
  {
    SoundHomed(h, m, synced);
  }

  lemma AllBelow(h: Hash, m: Memory, keys: set<Key>)
    requires DirtyBelow(h, m, |m.indexes|, keys)
    ensures forall k :: k in keys <==> IsDirty(EntryAt(h, m, k))
  {
  }

  lemma FlushKept(h: Hash, m: Memory, key: Key, done: nat)
    requires |m.indexes| > 0 && IsDirty(EntryAt(h, m, key)) && done <= 3
    ensures var i, m' := Home(h, |m.indexes|, key), FlushMemory(h, m, key, done);
            Kept(m.indexes[i], m'.indexes[i]) && m.journal <= m'.journal
  {
  }

  lemma InsertSizes(lru: seq<Key>, index: Cache, key: Key, e: Entry)
    requires Distinct(lru) && forall k :: k in lru <==> k in index
    ensures var lru1, index1 := [key] + Without(lru, {key}), index[key := e];
            && Distinct(lru1) && Indexed(lru1, index1)
            && Bytes(lru1, index1) <= Bytes(lru, index) + SizeBytes(key, e) && |lru1| <= |lru| + 1
  {
    var rest, index1 := Without(lru, {key}), index[key := e];
    if key in index {
      RemoveAccounts(lru, index, key, Bytes(lru, index), DirtyBytes(lru, index), DirtyCount(lru, index));
      SumsAgree(rest, index - {key}, index1);
    } else {
      WithoutNone(lru, {key});
      SumsAgree(rest, index, index1);
    }
    WithoutShorter(lru, key);
    WithoutDistinct(lru, {key});
    assert ([key] + rest)[1..] == rest;
  }

  /** A write of at most `bytes` into a shard within budget leaves an excess that relief can remove. */
  lemma InsertExceeds(lru: seq<Key>, index: Cache, key: Key, e: Entry, capacity: nat, limit: nat, bytes: nat)
    requires Distinct(lru) && (forall k :: k in lru <==> k in index) && !OverBudget(lru, index, capacity, limit)
    requires !Unflushed(index, []) && (key == [] ==> e.state == Clean) && SizeBytes(key, e) <= bytes
    ensures var lru1, index1 := [key] + Without(lru, {key}), index[key := e];
            && Indexed(lru1, index1)
            && var (l, i) := Evicted(lru1, index1, capacity, limit); Exceeds(l, i, capacity, limit, bytes, 1)
  {
    var lru1, index1 := [key] + Without(lru, {key}), index[key := e];
    InsertSizes(lru, index, key, e);
    EvictedEnds(lru1, index1, capacity, limit);
    EvictedFromIndex(lru1, index1, capacity, limit);
  }

  /** A read-fill never puts a shard over budget: eviction can always take the fill itself. */
  lemma FillWithin(lru: seq<Key>, index: Cache, key: Key, e: Entry, capacity: nat, limit: nat)
    requires Distinct(lru) && (forall k :: k in lru <==> k in index) && !OverBudget(lru, index, capacity, limit)
    requires key !in index && e.state == Clean
    ensures var lru1, index1 := [key] + Without(lru, {key}), index[key := e];
            && Indexed(lru1, index1)
            && var (l, i) := Evicted(lru1, index1, capacity, limit); Indexed(l, i) && !OverBudget(l, i, capacity, limit)
  {
    var lru1, index1 := [key] + Without(lru, {key}), index[key := e];
    WithoutNone(lru, {key});
    InsertSizes(lru, index, key, e);
    assert lru1[1..] == lru;
    SumsAgree(lru, index, index1);
    DirtyPart(lru, index);
    EvictedEnds(lru1, index1, capacity, limit);
    EvictedDirty(lru1, index1, capacity, limit);
    var (l, i) := Evicted(lru1, index1, capacity, limit);
    if OverBudget(l, i, capacity, limit) {
      AllDirty(l, i);
    }
  }

  lemma EraseWithin(lru: seq<Key>, index: Cache, key: Key, capacity: nat, limit: nat)
    requires Distinct(lru) && (forall k :: k in lru <==> k in index) && key in index && !OverBudget(lru, index, capacity, limit)
    ensures Indexed(Without(lru, {key}), index - {key}) && !OverBudget(Without(lru, {key}), index - {key}, capacity, limit)
  {
    RemoveAccounts(lru, index, key, Bytes(lru, index), DirtyBytes(lru, index), DirtyCount(lru, index));
    WithoutShorter(lru, key);
  }
}
