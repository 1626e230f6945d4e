/** One cache shard, updated in place under its lock. */
module ShardModel {
  import opened CacheTypes
  import opened LruList

  class Shard {
    const capacityBytes: nat
    const maxEntries: nat
    var lru: seq<Key>
    var index: Cache
    var currentBytes: nat
    var dirtyBytes: nat
    var dirtyCount: nat
    var mutationFence: nat

    ghost predicate Valid()
      reads this
    {
      Accounts(lru, index, currentBytes, dirtyBytes, dirtyCount)
    }

    /** Within both budgets. */
    ghost predicate Within()
      reads this
    {
      Indexed(lru, index) && !OverBudget(lru, index, capacityBytes, maxEntries)
    }

    /** Within both budgets, with no unflushed entry under the empty key, which relief cannot pick. */
    ghost predicate Bounded()
      reads this
    {
      Within() && !Unflushed(index, [])
    }

    ghost predicate AllClean()
      reads this
    {
      forall k | k in index :: index[k].state == Clean
    }

    ghost predicate Excess(bytes: nat, entries: nat)
      reads this
    {
      Exceeds(lru, index, capacityBytes, maxEntries, bytes, entries)
    }

    constructor (capacityBytes: nat, maxEntries: nat)
      ensures Valid() && index == map[] && mutationFence == 0
      ensures this.capacityBytes == capacityBytes && this.maxEntries == maxEntries
    {
      this.capacityBytes, this.maxEntries := capacityBytes, maxEntries;
      lru, index := [], map[];
      currentBytes, dirtyBytes, dirtyCount, mutationFence := 0, 0, 0, 0;
    }

    /** A cache hit moves the entry to the front. */
    method Touch(key: Key) returns (hit: Option<Value>)
      requires Valid()
      modifies this`lru
      ensures Valid()
      ensures hit == if key in index then Some(index[key].value) else None
      ensures lru == if key in index then [key] + Without(old(lru), {key}) else old(lru)
    {
      hide Bytes, DirtyBytes, DirtyCount, Without, Accounts;
      hit := None;
      if key in index {
        hit := Some(index[key].value);
        RemoveAccounts(lru, index, key, currentBytes, dirtyBytes, dirtyCount);
        PushAccounts(Without(lru, {key}), index - {key}, key, index[key],
                     currentBytes - SizeBytes(key, index[key]), dirtyBytes - DirtySize(key, index[key]), dirtyCount - DirtyUnit(index[key]));
        assert (index - {key})[key := index[key]] == index;
        lru := [key] + Without(lru, {key});
      }
    }

    /** Removes an entry and its share of every counter. */
    method Erase(key: Key)
      requires Valid() && key in index
      modifies this`lru, this`index, this`currentBytes, this`dirtyBytes, this`dirtyCount
      ensures Valid()
      ensures lru == Without(old(lru), {key}) && index == old(index) - {key}
    {
      hide Bytes, DirtyBytes, DirtyCount, Without, Accounts;
      var e := index[key];
      RemoveAccounts(lru, index, key, currentBytes, dirtyBytes, dirtyCount);
      currentBytes := currentBytes - SizeBytes(key, e);
      if e.state != Clean {
        dirtyBytes := dirtyBytes - SizeBytes(key, e);
        dirtyCount := dirtyCount - 1;
      }
      lru := Without(lru, {key});
      index := index - {key};
    }

    /** Adds an absent key at the front, with its share of every counter. */
    method PushFront(key: Key, entry: Entry)
      requires Valid() && key !in index
      modifies this`lru, this`index, this`currentBytes, this`dirtyBytes, this`dirtyCount
      ensures Valid()
      ensures lru == [key] + old(lru) && index == old(index)[key := entry]
    {
      hide Bytes, DirtyBytes, DirtyCount, Accounts;
      PushAccounts(lru, index, key, entry, currentBytes, dirtyBytes, dirtyCount);
      lru := [key] + lru;
      index := index[key := entry];
      currentBytes := currentBytes + SizeBytes(key, entry);
      if entry.state != Clean {
        dirtyBytes := dirtyBytes + SizeBytes(key, entry);
        dirtyCount := dirtyCount + 1;
      }
    }

    /**
    Insert or update under the version guard. A stale write changes nothing. Otherwise the entry
    goes to the front, the fence advances by one and, if asked, Clean entries are evicted.
    */
    method InsertOrUpdate(key: Key, entry: Entry, enforceCapacity: bool) returns (applied: bool)
      requires Valid()
      modifies this
      ensures Valid()
      ensures applied == !(key in old(index) && Stale(entry.version, old(index)[key].version))
      ensures key in old(index) ==> (applied <==> entry.version > old(index)[key].version || entry.version == old(index)[key].version == 0)
      ensures !applied ==> lru == old(lru) && index == old(index) && mutationFence == old(mutationFence)
      ensures applied ==>
                var lru1, index1 := [key] + Without(old(lru), {key}), old(index)[key := entry];
                && mutationFence == old(mutationFence) + 1 && Indexed(lru1, index1)
                && (lru, index) == if enforceCapacity then Evicted(lru1, index1, capacityBytes, maxEntries) else (lru1, index1)
    {
      hide Bytes, DirtyBytes, DirtyCount, Without, Accounts, Evicted;
      Listed();
      applied := true;
      if key in index {
        if Stale(entry.version, index[key].version) {
          return false;
        }
        Erase(key);
      } else {
        WithoutNone(lru, {key});
      }
      PushFront(key, entry);
      assert index == old(index)[key := entry];
      mutationFence := mutationFence + 1;
      if enforceCapacity {
        EvictClean();
      }
    }

    method IsOver() returns (over: bool)
      requires Valid()
      ensures over == !Within() && Distinct(lru) && Indexed(lru, index) && dirtyCount == DirtyCount(lru, index)
    {
      Listed();
      Counted();
      over := currentBytes > capacityBytes || |index| > maxEntries;
    }

    /** Takes the least recently used Clean entries while a budget is exceeded. */
    method EvictClean()
      requires Valid()
      modifies this`lru, this`index, this`currentBytes
      ensures Valid()
      ensures (lru, index) == Evicted(old(lru), old(index), capacityBytes, maxEntries)
    {
      Counted();
      while (currentBytes > capacityBytes || |index| > maxEntries) && |index| > dirtyCount
        invariant Valid() && Indexed(lru, index) && |index| == |lru|
        invariant Evicted(lru, index, capacityBytes, maxEntries) == Evicted(old(lru), old(index), capacityBytes, maxEntries)
        decreases |lru|
      {
        var found := EvictOne();
        if !found {
          return;
        }
      }
      Counted();
    }

    /** The index size and the dirty count tell whether a Clean entry is left. */
    lemma Counted()
      requires Valid()
      ensures Indexed(lru, index) && |index| == |lru|
      ensures currentBytes == Bytes(lru, index) && dirtyCount == DirtyCount(lru, index)
      ensures |index| <= dirtyCount ==> Victims(lru, index) == []
    {
      DistinctSize(lru, index);
      VictimsCount(lru, index);
    }

    lemma Listed()
      requires Valid()
      ensures Distinct(lru) && forall k :: k in lru <==> k in index
    {
    }

    lemma DirtyCounted()
      requires Valid()
      ensures dirtyCount == 0 <==> AllClean()
    {
      NoneDirty(lru, index);
    }

    /** Takes the first victim, if there is one. */
    method EvictOne() returns (found: bool)
      requires Valid()
      modifies this`lru, this`index, this`currentBytes
      ensures Valid() && Indexed(lru, index) && |index| == |lru|
      ensures found == (Victims(old(lru), old(index)) != [])
      ensures found ==>
                var x := Victims(old(lru), old(index))[0];
                lru == Without(old(lru), {x}) && index == old(index) - {x} && |lru| == |old(lru)| - 1
      ensures !found ==> lru == old(lru) && index == old(index)
    {
      hide Bytes, DirtyBytes, DirtyCount, Without, Accounts, Victims;
      Listed();
      Counted();
      var j := LastClean();
      found := j > 0;
      if found {
        TakeVictim(lru, index, j - 1);
        EvictAt(j - 1);
        Listed();
      }
    }

    method EvictAt(i: nat)
      requires Valid() && i < |lru| && index[lru[i]].state == Clean
      modifies this`lru, this`index, this`currentBytes
      ensures Valid() && |index| == |lru| == |old(lru)| - 1
      ensures lru == Without(old(lru), {old(lru)[i]}) && index == old(index) - {old(lru)[i]}
    {
      hide Bytes, DirtyBytes, DirtyCount, Without, Accounts;
      Listed();
      var k := lru[i];
      RemoveAccounts(lru, index, k, currentBytes, dirtyBytes, dirtyCount);
      RemovedSize(lru, index, k, currentBytes, dirtyBytes, dirtyCount);
      currentBytes := currentBytes - SizeBytes(k, index[k]);
      lru := Without(lru, {k});
      index := index - {k};
    }

    /** One past the position of the last Clean entry, or 0 when there is none. */
    method LastClean() returns (j: nat)
      requires Valid()
      ensures j <= |lru| && (j > 0 ==> index[lru[j - 1]].state == Clean)
      ensures forall k | k in lru[j..] :: index[k].state != Clean
      ensures j == 0 ==> Victims(lru, index) == []
    {
      j := |lru|;
      while j > 0 && index[lru[j - 1]].state != Clean
        invariant j <= |lru|
        invariant forall k | k in lru[j..] :: index[k].state != Clean
      {
        j := j - 1;
      }
      if j == 0 {
        assert lru[0..] == lru;
        NoVictims(lru, index);
      }
    }

    // ----- The critical sections of a flush, an invalidation and capacity relief -----

    /** FlushKey's first section: claims a Dirty entry of the expected version. */
    method Claim(key: Key, expected: Option<nat>) returns (r: ClaimResult)
      requires Valid()
      modifies this`index
      ensures Valid()
      ensures r == ClaimOf(old(index), key, expected)
      ensures r.Missing? <==> key !in old(index)
      ensures r.Claimed? <==>
                key in old(index) && old(index)[key].state == Dirty && (expected.Some? ==> old(index)[key].version == expected.value)
      ensures r.Claimed? ==> r.value == old(index)[key].value && r.version == old(index)[key].version
      ensures index == if r.Claimed? then old(index)[key := old(index)[key].(state := FlushInProgress)] else old(index)
    {
      r := ClaimOf(index, key, expected);
      if r.Claimed? {
        RestateAccounts(lru, index, key, FlushInProgress, currentBytes, dirtyBytes, dirtyCount);
        index := index[key := index[key].(state := FlushInProgress)];
      }
    }

    /** FlushKey's last section: the claimed entry becomes Clean, or Dirty again after a failure. */
    method Finish(key: Key, version: nat, flushed: bool)
      requires Valid()
      modifies this`index, this`dirtyBytes, this`dirtyCount
      ensures Valid()
      ensures index == Settle(old(index), key, version, if flushed then Clean else Dirty)
    {
      if key in index && index[key].version == version && index[key].state == FlushInProgress {
        var state := if flushed then Clean else Dirty;
        RestateAccounts(lru, index, key, state, currentBytes, dirtyBytes, dirtyCount);
        if flushed {
          dirtyBytes := dirtyBytes - SizeBytes(key, index[key]);
          dirtyCount := dirtyCount - 1;
        }
        index := index[key := index[key].(state := state)];
      }
    }

    /** The last section of an invalidation: erases the version it targeted and advances the fence. */
    method EraseVersion(key: Key, version: nat)
      requires Valid()
      modifies this
      ensures Valid() && mutationFence == old(mutationFence) + 1
      ensures (lru, index) == if key in old(index) && old(index)[key].version == version
                              then (Without(old(lru), {key}), old(index) - {key})
                              else (old(lru), old(index))
    {
      if key in index && index[key].version == version {
        Erase(key);
      }
      mutationFence := mutationFence + 1;
    }

    /** The least recently used Dirty key, or the empty key when there is none. */
    method LastDirty() returns (key: Key)
      requires Valid()
      ensures Indexed(lru, index) && key == LeastRecent(InState(lru, index, Dirty))
      ensures (exists i :: LastDirtyAt(lru, index, i) && lru[i] == key) || (key == [] && forall k | k in index :: index[k].state != Dirty)
    {
      key := [];
      var j := |lru|;
      while j > 0
        invariant 0 <= j <= |lru| && Indexed(lru, index) && Indexed(lru[j..], index)
        invariant InState(lru[j..], index, Dirty) == [] && forall i | j <= i < |lru| :: index[lru[i]].state != Dirty
      {
        LastInState(lru, index, Dirty, j - 1);
        if index[lru[j - 1]].state == Dirty {
          assert LastDirtyAt(lru, index, j - 1);
          return lru[j - 1];
        }
        j := j - 1;
      }
      assert lru[0..] == lru;
      forall k | k in index
        ensures index[k].state != Dirty
      {
        assert k in lru;
      }
    }

    /** FlushAll's snapshot: exactly the Dirty keys. */
    method DirtyKeys() returns (keys: seq<Key>)
      requires Valid()
      ensures Indexed(lru, index) && keys == InState(lru, index, Dirty)
      ensures Distinct(keys) && forall k :: k in keys <==> k in index && index[k].state == Dirty
    {
      hide InState;
      keys := [];
      InStateNone(index, Dirty);
      for j := 0 to |lru|
        invariant Indexed(lru, index) && Indexed(lru[..j], index)
        invariant keys == InState(lru[..j], index, Dirty)
      {
        InStateConcat(lru[..j], [lru[j]], index, Dirty);
        InStateOne(lru[j], index, Dirty);
        assert lru[..j + 1] == lru[..j] + [lru[j]];
        if index[lru[j]].state == Dirty {
          keys := keys + [lru[j]];
        }
      }
      assert lru[..|lru|] == lru;
      InStateDistinct(lru, index, Dirty);
    }
  }

  /** The entry at position i is Dirty and no Dirty one is less recently used. */
  ghost predicate LastDirtyAt(lru: seq<Key>, index: Cache, i: int) {
    0 <= i < |lru| && Indexed(lru, index) && index[lru[i]].state == Dirty && forall j | i < j < |lru| :: index[lru[j]].state != Dirty
  }

  datatype ClaimResult = Missing | Nothing | Claimed(value: Value, version: nat)

  function ClaimOf(index: Cache, key: Key, expected: Option<nat>): ClaimResult {
    if key !in index then Missing
    else if expected.Some? && index[key].version != expected.value then Nothing
    else if index[key].state != Dirty then Nothing
    else Claimed(index[key].value, index[key].version)
  }
}
