/** Recency lists over an index of entries: accounting sums and LRU eviction, as pure functions. */
module LruList {
  import opened CacheTypes

  const ENTRY_OVERHEAD_BYTES: nat := 64

  function SizeBytes(k: Key, e: Entry): nat {
    |k| + |e.value| + ENTRY_OVERHEAD_BYTES
  }

  // ----- Recency lists over an index -----

  predicate Distinct(lru: seq<Key>) {
    forall i, j | 0 <= i < j < |lru| :: lru[i] != lru[j]
  }

  predicate Indexed(lru: seq<Key>, index: Cache) {
    forall k | k in lru :: k in index
  }

  function Bytes(lru: seq<Key>, index: Cache): nat
    requires Indexed(lru, index)
  {
    if lru == [] then 0 else SizeBytes(lru[0], index[lru[0]]) + Bytes(lru[1..], index)
  }

  function DirtyBytes(lru: seq<Key>, index: Cache): nat
    requires Indexed(lru, index)
  {
    if lru == [] then 0
    else (if index[lru[0]].state == Clean then 0 else SizeBytes(lru[0], index[lru[0]])) + DirtyBytes(lru[1..], index)
  }

  function DirtyCount(lru: seq<Key>, index: Cache): nat
    requires Indexed(lru, index)
  {
    if lru == [] then 0 else (if index[lru[0]].state == Clean then 0 else 1) + DirtyCount(lru[1..], index)
  }

  lemma Sums(a: seq<Key>, b: seq<Key>, index: Cache)
    requires Indexed(a, index) && Indexed(b, index)
    ensures Indexed(a + b, index)
    ensures Bytes(a + b, index) == Bytes(a, index) + Bytes(b, index)
    ensures DirtyBytes(a + b, index) == DirtyBytes(a, index) + DirtyBytes(b, index)
    ensures DirtyCount(a + b, index) == DirtyCount(a, index) + DirtyCount(b, index)
  {
    if a == [] {
      assert a + b == b;
    } else {
      assert (a + b)[1..] == a[1..] + b;
      Sums(a[1..], b, index);
    }
  }

  /** The sums look at the listed keys only. */
  lemma SumsAgree(lru: seq<Key>, index: Cache, index': Cache)
    requires Indexed(lru, index) && Indexed(lru, index')
    requires forall k | k in lru :: index'[k] == index[k]
    ensures Bytes(lru, index') == Bytes(lru, index)
    ensures DirtyBytes(lru, index') == DirtyBytes(lru, index)
    ensures DirtyCount(lru, index') == DirtyCount(lru, index)
  {
    if lru != [] {
      SumsAgree(lru[1..], index, index');
    }
  }

  /** A key's own share of the sums. */
  lemma SumsAt(lru: seq<Key>, index: Cache, i: nat)
    requires Indexed(lru, index) && i < |lru|
    ensures Indexed(lru[..i] + lru[i + 1..], index)
    ensures var rest, k := lru[..i] + lru[i + 1..], lru[i];
            && Bytes(lru, index) == Bytes(rest, index) + SizeBytes(k, index[k])
            && DirtyBytes(lru, index) == DirtyBytes(rest, index) + (if index[k].state == Clean then 0 else SizeBytes(k, index[k]))
            && DirtyCount(lru, index) == DirtyCount(rest, index) + (if index[k].state == Clean then 0 else 1)
  {
    var a, b := lru[..i], lru[i + 1..];
    assert lru == a + ([lru[i]] + b);
    Sums([lru[i]], b, index);
    Sums(a, [lru[i]] + b, index);
    Sums(a, b, index);
  }

  /** The list without the keys in gone, order kept. */
  function Without(lru: seq<Key>, gone: set<Key>): (r: seq<Key>)
    ensures forall k :: k in r <==> k in lru && k !in gone
  {
    if lru == [] then []
    else (if lru[0] in gone then [] else [lru[0]]) + Without(lru[1..], gone)
  }

  lemma WithoutConcat(a: seq<Key>, b: seq<Key>, gone: set<Key>)
    ensures Without(a + b, gone) == Without(a, gone) + Without(b, gone)
  {
    if a == [] {
      assert a + b == b;
    } else {
      assert (a + b)[1..] == a[1..] + b;
      WithoutConcat(a[1..], b, gone);
    }
  }

  lemma WithoutTwice(lru: seq<Key>, g: set<Key>, h: set<Key>)
    ensures Without(Without(lru, g), h) == Without(lru, g + h)
  {
    if lru != [] {
      WithoutTwice(lru[1..], g, h);
      WithoutConcat(if lru[0] in g then [] else [lru[0]], Without(lru[1..], g), h);
    }
  }

  lemma WithoutNone(lru: seq<Key>, gone: set<Key>)
    requires forall k | k in lru :: k !in gone
    ensures Without(lru, gone) == lru
  {
    if lru != [] {
      WithoutNone(lru[1..], gone);
    }
  }

  lemma WithoutDistinct(lru: seq<Key>, gone: set<Key>)
    requires Distinct(lru)
    ensures Distinct(Without(lru, gone))
  {
    if lru != [] {
      assert forall j | 1 <= j < |lru| :: lru[j] != lru[0];
      WithoutDistinct(lru[1..], gone);
      assert lru[0] !in Without(lru[1..], gone);
    }
  }

  /** Removing the key at position i of a distinct list. */
  lemma WithoutAt(lru: seq<Key>, i: nat)
    requires Distinct(lru) && i < |lru|
    ensures Without(lru, {lru[i]}) == lru[..i] + lru[i + 1..]
  {
    hide Without;
    Splits(lru, i);
    WithoutMiddle(lru[..i], lru[i], lru[i + 1..]);
  }

  lemma Splits(lru: seq<Key>, i: nat)
    requires Distinct(lru) && i < |lru|
    ensures lru == lru[..i] + ([lru[i]] + lru[i + 1..]) && lru[i] !in lru[..i] && lru[i] !in lru[i + 1..]
  {
  }

  lemma WithoutMiddle(a: seq<Key>, x: Key, b: seq<Key>)
    requires x !in a && x !in b
    ensures Without(a + ([x] + b), {x}) == a + b
  {
    hide Without;
    WithoutConcat(a, [x] + b, {x});
    WithoutConcat([x], b, {x});
    WithoutNone(a, {x});
    WithoutNone(b, {x});
    WithoutItself(x);
    assert [] + b == b;
  }

  lemma WithoutItself(x: Key)
    ensures Without([x], {x}) == []
  {
  }

  lemma DistinctAt(lru: seq<Key>, i: nat)
    requires Distinct(lru) && i < |lru|
    ensures Distinct(lru[..i] + lru[i + 1..]) && lru[i] !in lru[..i] + lru[i + 1..]
  {
    var rest := lru[..i] + lru[i + 1..];
    assert forall j | 0 <= j < |rest| :: rest[j] == lru[if j < i then j else j + 1];
  }

  /** The Clean keys, least recently used first: the order in which eviction takes them. */
  function Victims(lru: seq<Key>, index: Cache): seq<Key>
    requires Indexed(lru, index)
  {
    if lru == [] then []
    else
      var last := lru[|lru| - 1];
      (if index[last].state == Clean then [last] else []) + Victims(lru[..|lru| - 1], index)
  }

  lemma {:induction false} VictimsConcat(a: seq<Key>, b: seq<Key>, index: Cache)
    requires Indexed(a, index) && Indexed(b, index)
    ensures Indexed(a + b, index) && Victims(a + b, index) == Victims(b, index) + Victims(a, index)
  {
    if b == [] {
      assert a + b == a;
    } else {
      var rest, last := b[..|b| - 1], b[|b| - 1];
      assert (a + b)[..|a + b| - 1] == a + rest && (a + b)[|a + b| - 1] == last;
      VictimsConcat(a, rest, index);
      var first := if index[last].state == Clean then [last] else [];
      assert first + (Victims(rest, index) + Victims(a, index)) == first + Victims(rest, index) + Victims(a, index);
    }
  }

  lemma VictimsAgree(lru: seq<Key>, index: Cache, index': Cache)
    requires Indexed(lru, index) && Indexed(lru, index') && forall k | k in lru :: index'[k] == index[k]
    ensures Victims(lru, index') == Victims(lru, index)
  {
    if lru != [] {
      VictimsAgree(lru[..|lru| - 1], index, index');
    }
  }

  lemma VictimsAreClean(lru: seq<Key>, index: Cache)
    requires Indexed(lru, index)
    ensures forall k :: k in Victims(lru, index) <==> k in lru && index[k].state == Clean
  {
    if lru != [] {
      var rest, last := lru[..|lru| - 1], lru[|lru| - 1];
      VictimsAreClean(rest, index);
      assert lru == rest + [last];
    }
  }

  lemma DirtyCountLast(lru: seq<Key>, index: Cache)
    requires Indexed(lru, index) && lru != []
    ensures Indexed(lru[..|lru| - 1], index)
    ensures DirtyCount(lru, index) == DirtyCount(lru[..|lru| - 1], index) + DirtyUnit(index[lru[|lru| - 1]])
  {
    var rest, last := lru[..|lru| - 1], lru[|lru| - 1];
    Sums(rest, [last], index);
    assert lru == rest + [last];
    assert DirtyCount([last], index) == DirtyUnit(index[last]);
  }

  lemma {:induction false} VictimsCount(lru: seq<Key>, index: Cache)
    requires Indexed(lru, index)
    ensures |Victims(lru, index)| + DirtyCount(lru, index) == |lru|
  {
    if lru != [] {
      hide DirtyCount;
      DirtyCountLast(lru, index);
      VictimsCount(lru[..|lru| - 1], index);
    }
  }

  /** The keys of a distinct list are as many as its length. */
  lemma DistinctSize(lru: seq<Key>, index: Cache)
    requires Distinct(lru) && forall k :: k in lru <==> k in index
    ensures |index| == |lru|
  {
    if lru == [] {
      assert index == map[];
    } else {
      var k := lru[0];
      assert forall j | 1 <= j < |lru| :: lru[j] != k;
      DistinctSize(lru[1..], index - {k});
      assert index.Keys == (index - {k}).Keys + {k};
    }
  }

  // ----- Accounting -----

  function KeyLengths(lru: seq<Key>): nat {
    if lru == [] then 0 else |lru[0]| + KeyLengths(lru[1..])
  }

  function ValueLengths(lru: seq<Key>, index: Cache): nat
    requires Indexed(lru, index)
  {
    if lru == [] then 0 else |index[lru[0]].value| + ValueLengths(lru[1..], index)
  }

  /** What the byte budget measures: all key bytes, all value bytes, and 64 bytes an entry. */
  lemma {:induction false} BytesMeaning(lru: seq<Key>, index: Cache)
    requires Indexed(lru, index)
    ensures Bytes(lru, index) == KeyLengths(lru) + ValueLengths(lru, index) + 64 * |lru|
  {
    if lru != [] {
      BytesMeaning(lru[1..], index);
    }
  }

  /** List and index hold the same distinct keys, and the three counters are exact. */
  ghost predicate Accounts(lru: seq<Key>, index: Cache, bytes: int, dirtyBytes: int, dirtyCount: int) {
    && Distinct(lru) && (forall k :: k in lru <==> k in index)
    && bytes == Bytes(lru, index) && dirtyBytes == DirtyBytes(lru, index) && dirtyCount == DirtyCount(lru, index)
  }

  function DirtySize(k: Key, e: Entry): nat {
    if e.state == Clean then 0 else SizeBytes(k, e)
  }

  function DirtyUnit(e: Entry): nat {
    if e.state == Clean then 0 else 1
  }

  function Position(lru: seq<Key>, k: Key): (i: nat)
    requires k in lru
    ensures i < |lru| && lru[i] == k
  {
    if lru[0] == k then 0 else 1 + Position(lru[1..], k)
  }

  lemma RemoveAccounts(lru: seq<Key>, index: Cache, k: Key, bytes: int, dirtyBytes: int, dirtyCount: int)
    requires Accounts(lru, index, bytes, dirtyBytes, dirtyCount) && k in index
    ensures Accounts(Without(lru, {k}), index - {k},
                     bytes - SizeBytes(k, index[k]), dirtyBytes - DirtySize(k, index[k]), dirtyCount - DirtyUnit(index[k]))
    ensures SizeBytes(k, index[k]) <= bytes && DirtySize(k, index[k]) <= dirtyBytes && DirtyUnit(index[k]) <= dirtyCount
  {
    var i := Position(lru, k);
    WithoutAt(lru, i);
    DistinctAt(lru, i);
    SumsAt(lru, index, i);
    SumsAgree(lru[..i] + lru[i + 1..], index, index - {k});
  }

  lemma RemovedSize(lru: seq<Key>, index: Cache, k: Key, bytes: int, dirtyBytes: int, dirtyCount: int)
    requires Accounts(lru, index, bytes, dirtyBytes, dirtyCount) && k in index
    ensures |index - {k}| == |Without(lru, {k})| == |lru| - 1
  {
    hide Bytes, DirtyBytes, DirtyCount, Without;
    var i := Position(lru, k);
    WithoutAt(lru, i);
    DistinctAt(lru, i);
    DistinctSize(Without(lru, {k}), index - {k});
  }

  lemma PushAccounts(lru: seq<Key>, index: Cache, k: Key, e: Entry, bytes: int, dirtyBytes: int, dirtyCount: int)
    requires Accounts(lru, index, bytes, dirtyBytes, dirtyCount) && k !in index
    ensures Accounts([k] + lru, index[k := e],
                     bytes + SizeBytes(k, e), dirtyBytes + DirtySize(k, e), dirtyCount + DirtyUnit(e))
  {
    assert ([k] + lru)[1..] == lru;
    SumsAgree(lru, index, index[k := e]);
  }

  /** Changing only an entry's state, as a flush does. */
  lemma RestateAccounts(lru: seq<Key>, index: Cache, k: Key, state: DirtyState, bytes: int, dirtyBytes: int, dirtyCount: int)
    requires Accounts(lru, index, bytes, dirtyBytes, dirtyCount) && k in index
    ensures var e, e' := index[k], index[k].(state := state);
            Accounts(lru, index[k := e'], bytes,
                     dirtyBytes - DirtySize(k, e) + DirtySize(k, e'), dirtyCount - DirtyUnit(e) + DirtyUnit(e'))
    ensures DirtySize(k, index[k]) <= dirtyBytes && DirtyUnit(index[k]) <= dirtyCount
  {
    var i, index' := Position(lru, k), index[k := index[k].(state := state)];
    DistinctAt(lru, i);
    SumsAt(lru, index, i);
    SumsAt(lru, index', i);
    SumsAgree(lru[..i] + lru[i + 1..], index, index');
  }

  // ----- Eviction -----

  predicate OverBudget(lru: seq<Key>, index: Cache, capacity: nat, limit: nat)
    requires Indexed(lru, index)
  {
    Bytes(lru, index) > capacity || |lru| > limit
  }

  /** The budgets are exceeded by at most the given amounts, and then only by unflushed entries with non-empty keys. */
  ghost predicate Exceeds(lru: seq<Key>, index: Cache, capacity: nat, limit: nat, bytes: nat, entries: nat) {
    && Indexed(lru, index) && !Unflushed(index, [])
    && Bytes(lru, index) <= capacity + bytes && |lru| <= limit + entries
    && (OverBudget(lru, index, capacity, limit) ==> Victims(lru, index) == [])
  }

  lemma {:induction false} WithoutShorter(lru: seq<Key>, k: Key)
    ensures |Without(lru, {k})| <= |lru|
    ensures k in lru ==> |Without(lru, {k})| < |lru|
  {
    if lru != [] {
      WithoutShorter(lru[1..], k);
    }
  }

  /** What eviction leaves: it takes victims one by one while a budget is exceeded. */
  function Evicted(lru: seq<Key>, index: Cache, capacity: nat, limit: nat): (seq<Key>, Cache)
    requires Indexed(lru, index)
    decreases |lru|
  {
    var victims := Victims(lru, index);
    if victims == [] || !OverBudget(lru, index, capacity, limit) then (lru, index)
    else
      VictimsAreClean(lru, index);
      assert victims[0] in victims;
      WithoutShorter(lru, victims[0]);
      Evicted(Without(lru, {victims[0]}), index - {victims[0]}, capacity, limit)
  }

  lemma NoVictims(lru: seq<Key>, index: Cache)
    requires Indexed(lru, index) && forall k | k in lru :: index[k].state != Clean
    ensures Victims(lru, index) == []
  {
  }

  lemma VictimsSplit(a: seq<Key>, x: Key, b: seq<Key>, index: Cache)
    requires Indexed(a, index) && Indexed(b, index) && x in index && index[x].state == Clean
    requires forall k | k in b :: index[k].state != Clean
    ensures Indexed(a + [x] + b, index) && Indexed(a + b, index)
    ensures Victims(a + [x] + b, index) == [x] + Victims(a + b, index)
  {
    NoVictims(b, index);
    VictimsConcat(a, [x], index);
    VictimsConcat(a + [x], b, index);
    VictimsConcat(a, b, index);
  }

  /** Taking the last Clean entry takes the first victim. */
  lemma TakeVictim(lru: seq<Key>, index: Cache, i: nat)
    requires Distinct(lru) && Indexed(lru, index) && i < |lru| && index[lru[i]].state == Clean
    requires forall k | k in lru[i + 1..] :: index[k].state != Clean
    ensures Indexed(Without(lru, {lru[i]}), index - {lru[i]})
    ensures Victims(lru, index) == [lru[i]] + Victims(Without(lru, {lru[i]}), index - {lru[i]})
  {
    var a, x, b := lru[..i], lru[i], lru[i + 1..];
    WithoutAt(lru, i);
    DistinctAt(lru, i);
    assert lru == a + [x] + b;
    VictimsSplit(a, x, b, index);
    VictimsAgree(a + b, index, index - {x});
  }

  function Taken(victims: seq<Key>, m: nat): set<Key>
    requires m <= |victims|
  {
    set k | k in victims[..m]
  }

  /** The list once the first m victims are gone. */
  function After(lru: seq<Key>, index: Cache, m: nat): (r: seq<Key>)
    requires Indexed(lru, index) && m <= |Victims(lru, index)|
    ensures Indexed(r, index)
  {
    Without(lru, Taken(Victims(lru, index), m))
  }

  /** Whether a budget is still exceeded once the first m victims are gone. */
  predicate OverAfter(lru: seq<Key>, index: Cache, capacity: nat, limit: nat, m: nat)
    requires Indexed(lru, index) && m <= |Victims(lru, index)| && Indexed(Victims(lru, index)[..m], index)
  {
    Bytes(lru, index) - Bytes(Victims(lru, index)[..m], index) > capacity || |lru| - m > limit
  }

  /** m is the shortest run of victims that meets both budgets, or all of them if no run does. */
  ghost predicate ShortestRun(lru: seq<Key>, index: Cache, capacity: nat, limit: nat, m: nat)
    requires Indexed(lru, index) && Indexed(Victims(lru, index), index)
  {
    && m <= |Victims(lru, index)|
    && (forall i: nat | i < m :: OverAfter(lru, index, capacity, limit, i))
    && (OverAfter(lru, index, capacity, limit, m) ==> m == |Victims(lru, index)|)
  }

  lemma AfterNone(lru: seq<Key>, index: Cache)
    requires Indexed(lru, index)
    ensures After(lru, index, 0) == lru && index - Taken(Victims(lru, index), 0) == index
  {
    WithoutNone(lru, Taken(Victims(lru, index), 0));
  }

  lemma TakenShift(x: Key, w: seq<Key>, m: nat)
    requires m <= |w|
    ensures Taken([x] + w, m + 1) == {x} + Taken(w, m)
  {
    assert ([x] + w)[..m + 1] == [x] + w[..m];
  }

  /** x is the first victim; the others follow in the list without it. */
  ghost predicate Leads(lru: seq<Key>, index: Cache, x: Key)
    requires Indexed(lru, index)
  {
    && Indexed(Without(lru, {x}), index - {x})
    && Victims(lru, index) == [x] + Victims(Without(lru, {x}), index - {x})
  }

  /** Taking the first victim and then m more is taking m + 1. */
  lemma AfterShift(lru: seq<Key>, index: Cache, x: Key, m: nat)
    requires Indexed(lru, index) && Leads(lru, index, x) && m < |Victims(lru, index)|
    ensures After(lru, index, m + 1) == After(Without(lru, {x}), index - {x}, m)
    ensures index - Taken(Victims(lru, index), m + 1) == index - {x} - Taken(Victims(Without(lru, {x}), index - {x}), m)
  {
    var w := Victims(Without(lru, {x}), index - {x});
    TakenShift(x, w, m);
    WithoutTwice(lru, {x}, Taken(w, m));
  }

  /** The first victim of a distinct list is its last Clean key. */
  lemma FirstVictim(lru: seq<Key>, index: Cache) returns (i: nat)
    requires Distinct(lru) && Indexed(lru, index) && Victims(lru, index) != []
    ensures i < |lru| && lru[i] == Victims(lru, index)[0] && index[lru[i]].state == Clean
    ensures forall k | k in lru[i + 1..] :: index[k].state != Clean
  {
    i := |lru| - 1;
    while i > 0 && index[lru[i]].state != Clean
      invariant i < |lru| && forall k | k in lru[i + 1..] :: index[k].state != Clean
    {
      i := i - 1;
    }
    assert lru == lru[..i] + [lru[i]] + lru[i + 1..];
    if index[lru[i]].state != Clean {
      NoVictims(lru, index);
    }
    VictimsSplit(lru[..i], lru[i], lru[i + 1..], index);
  }

  lemma FirstLeads(lru: seq<Key>, index: Cache) returns (x: Key)
    requires Distinct(lru) && Indexed(lru, index) && Victims(lru, index) != []
    ensures Leads(lru, index, x)
    ensures Distinct(Without(lru, {x})) && |Without(lru, {x})| == |lru| - 1
    ensures x in index && Bytes(lru, index) == Bytes(Without(lru, {x}), index - {x}) + SizeBytes(x, index[x])
  {
    var i := FirstVictim(lru, index);
    x := lru[i];
    TakeVictim(lru, index, i);
    WithoutAt(lru, i);
    DistinctAt(lru, i);
    SumsAt(lru, index, i);
    SumsAgree(Without(lru, {x}), index, index - {x});
  }

  lemma VictimsIndexed(lru: seq<Key>, index: Cache)
    requires Indexed(lru, index)
    ensures Indexed(Victims(lru, index), index)
  {
    VictimsAreClean(lru, index);
  }

  /** The first victim x is set apart, with its share of the bytes. */
  ghost predicate Apart(lru: seq<Key>, index: Cache, x: Key) {
    && Indexed(lru, index) && x in index && Leads(lru, index, x)
    && Indexed(Victims(lru, index), index) && Indexed(Victims(Without(lru, {x}), index - {x}), index - {x})
    && |Without(lru, {x})| == |lru| - 1
    && Bytes(lru, index) == Bytes(Without(lru, {x}), index - {x}) + SizeBytes(x, index[x])
  }

  lemma OverShift(lru: seq<Key>, index: Cache, capacity: nat, limit: nat, x: Key, m: nat)
    requires Apart(lru, index, x) && m < |Victims(lru, index)|
    ensures OverAfter(lru, index, capacity, limit, m + 1) <==> OverAfter(Without(lru, {x}), index - {x}, capacity, limit, m)
  {
    var w := Victims(Without(lru, {x}), index - {x});
    assert Victims(lru, index)[..m + 1] == [x] + w[..m];
    SumsAgree(w[..m], index, index - {x});
    assert ([x] + w[..m])[1..] == w[..m];
  }

  lemma ShortestShift(lru: seq<Key>, index: Cache, capacity: nat, limit: nat, x: Key, m: nat)
    requires Apart(lru, index, x) && OverBudget(lru, index, capacity, limit)
    requires ShortestRun(Without(lru, {x}), index - {x}, capacity, limit, m)
    ensures ShortestRun(lru, index, capacity, limit, m + 1)
  {
    forall i: nat | i < m + 1
      ensures OverAfter(lru, index, capacity, limit, i)
    {
      if i > 0 {
        OverShift(lru, index, capacity, limit, x, i - 1);
      }
    }
    OverShift(lru, index, capacity, limit, x, m);
  }

  /** How many victims eviction takes. */
  function RunLength(lru: seq<Key>, index: Cache, capacity: nat, limit: nat): nat
    requires Indexed(lru, index)
    decreases |lru|
  {
    var victims := Victims(lru, index);
    if victims == [] || !OverBudget(lru, index, capacity, limit) then 0
    else
      VictimsAreClean(lru, index);
      assert victims[0] in victims;
      WithoutShorter(lru, victims[0]);
      1 + RunLength(Without(lru, {victims[0]}), index - {victims[0]}, capacity, limit)
  }

  lemma NoRun(lru: seq<Key>, index: Cache, capacity: nat, limit: nat)
    requires Indexed(lru, index) && Indexed(Victims(lru, index), index)
    requires Victims(lru, index) == [] || !OverBudget(lru, index, capacity, limit)
    ensures ShortestRun(lru, index, capacity, limit, 0)
  {
    assert Victims(lru, index)[..0] == [];
  }

  lemma {:induction false} RunLengthIsShortest(lru: seq<Key>, index: Cache, capacity: nat, limit: nat)
    requires Distinct(lru) && Indexed(lru, index)
    ensures Indexed(Victims(lru, index), index)
    ensures ShortestRun(lru, index, capacity, limit, RunLength(lru, index, capacity, limit))
    decreases |lru|
  {
    hide Victims, Bytes, Without, ShortestRun;
    VictimsIndexed(lru, index);
    if Victims(lru, index) == [] || !OverBudget(lru, index, capacity, limit) {
      NoRun(lru, index, capacity, limit);
    } else {
      var x := FirstLeads(lru, index);
      var lru', index' := Without(lru, {x}), index - {x};
      VictimsIndexed(lru', index');
      RunLengthIsShortest(lru', index', capacity, limit);
      ShortestShift(lru, index, capacity, limit, x, RunLength(lru', index', capacity, limit));
    }
  }

  /** The state eviction reaches after m victims. */
  function Stage(lru: seq<Key>, index: Cache, m: nat): (seq<Key>, Cache)
    requires Indexed(lru, index) && m <= |Victims(lru, index)|
  {
    (After(lru, index, m), index - Taken(Victims(lru, index), m))
  }

  lemma StageNone(lru: seq<Key>, index: Cache)
    requires Indexed(lru, index)
    ensures Stage(lru, index, 0) == (lru, index)
  {
    AfterNone(lru, index);
  }

  lemma StageShift(lru: seq<Key>, index: Cache, x: Key, m: nat)
    requires Indexed(lru, index) && Leads(lru, index, x) && m < |Victims(lru, index)|
    ensures Stage(lru, index, m + 1) == Stage(Without(lru, {x}), index - {x}, m)
  {
    AfterShift(lru, index, x, m);
  }

  lemma {:induction false} EvictedIsRun(lru: seq<Key>, index: Cache, capacity: nat, limit: nat)
    requires Distinct(lru) && Indexed(lru, index)
    ensures RunLength(lru, index, capacity, limit) <= |Victims(lru, index)|
    ensures Evicted(lru, index, capacity, limit) == Stage(lru, index, RunLength(lru, index, capacity, limit))
    decreases |lru|
  {
    hide Victims, OverBudget, Stage, Without;
    if Victims(lru, index) == [] || !OverBudget(lru, index, capacity, limit) {
      StageNone(lru, index);
    } else {
      var x := FirstLeads(lru, index);
      EvictedIsRun(Without(lru, {x}), index - {x}, capacity, limit);
      StageShift(lru, index, x, RunLength(Without(lru, {x}), index - {x}, capacity, limit));
    }
  }

  /**
  Eviction exactness: eviction removes exactly the shortest back-to-front run of Clean entries
  that meets both budgets, or every Clean entry if none does, and keeps the rest in order.
  */
  lemma EvictionExact(lru: seq<Key>, index: Cache, capacity: nat, limit: nat) returns (m: nat)
    requires Distinct(lru) && Indexed(lru, index)
    ensures Indexed(Victims(lru, index), index) && ShortestRun(lru, index, capacity, limit, m)
    ensures Evicted(lru, index, capacity, limit) == Stage(lru, index, m)
  {
    m := RunLength(lru, index, capacity, limit);
    RunLengthIsShortest(lru, index, capacity, limit);
    EvictedIsRun(lru, index, capacity, limit);
  }

  /** Eviction ends within budget or with no Clean entry left, and never adds anything. */
  lemma {:induction false} EvictedEnds(lru: seq<Key>, index: Cache, capacity: nat, limit: nat)
    requires Distinct(lru) && Indexed(lru, index)
    ensures var (l, i) := Evicted(lru, index, capacity, limit);
            && Indexed(l, i) && (OverBudget(l, i, capacity, limit) ==> Victims(l, i) == [])
            && Bytes(l, i) <= Bytes(lru, index) && |l| <= |lru|
    decreases |lru|
  {
    if Victims(lru, index) != [] && OverBudget(lru, index, capacity, limit) {
      var x := FirstLeads(lru, index);
      EvictedEnds(Without(lru, {x}), index - {x}, capacity, limit);
    }
  }

  /** Eviction takes only Clean entries and leaves every other entry as it was. */
  lemma {:induction false} EvictedOnlyClean(lru: seq<Key>, index: Cache, capacity: nat, limit: nat, k: Key)
    requires Distinct(lru) && Indexed(lru, index) && k in index
    ensures var (l, i) := Evicted(lru, index, capacity, limit);
            if k in i then i[k] == index[k] else index[k].state == Clean
    decreases |lru|
  {
    if Victims(lru, index) != [] && OverBudget(lru, index, capacity, limit) {
      var x := FirstLeads(lru, index);
      VictimsAreClean(lru, index);
      assert Victims(lru, index)[0] == x;
      if k != x {
        EvictedOnlyClean(Without(lru, {x}), index - {x}, capacity, limit, k);
      } else {
        EvictedShrinks(Without(lru, {x}), index - {x}, capacity, limit);
      }
    }
  }

  lemma {:induction false} EvictedShrinks(lru: seq<Key>, index: Cache, capacity: nat, limit: nat)
    requires Distinct(lru) && Indexed(lru, index)
    ensures Evicted(lru, index, capacity, limit).1.Keys <= index.Keys
    decreases |lru|
  {
    if Victims(lru, index) != [] && OverBudget(lru, index, capacity, limit) {
      var x := FirstLeads(lru, index);
      EvictedShrinks(Without(lru, {x}), index - {x}, capacity, limit);
    }
  }

  /** Eviction leaves the unflushed entries' sums alone. */
  lemma {:induction false} EvictedDirty(lru: seq<Key>, index: Cache, capacity: nat, limit: nat)
    requires Distinct(lru) && Indexed(lru, index)
    ensures var (l, i) := Evicted(lru, index, capacity, limit);
            Indexed(l, i) && DirtyBytes(l, i) == DirtyBytes(lru, index) && DirtyCount(l, i) == DirtyCount(lru, index)
    decreases |lru|
  {
    if Victims(lru, index) != [] && OverBudget(lru, index, capacity, limit) {
      var j := FirstVictim(lru, index);
      var x := lru[j];
      WithoutAt(lru, j);
      DistinctAt(lru, j);
      SumsAt(lru, index, j);
      SumsAgree(Without(lru, {x}), index, index - {x});
      EvictedDirty(Without(lru, {x}), index - {x}, capacity, limit);
    }
  }

  /** Without Clean entries the dirty counters are the whole. */
  lemma AllDirty(lru: seq<Key>, index: Cache)
    requires Indexed(lru, index) && Victims(lru, index) == []
    ensures Bytes(lru, index) == DirtyBytes(lru, index) && DirtyCount(lru, index) == |lru|
  {
    VictimsAreClean(lru, index);
    forall k | k in lru
      ensures index[k].state != Clean
    {
      assert k !in Victims(lru, index);
    }
    AllDirtySums(lru, index);
  }

  lemma {:induction false} AllDirtySums(lru: seq<Key>, index: Cache)
    requires Indexed(lru, index) && forall k | k in lru :: index[k].state != Clean
    ensures Bytes(lru, index) == DirtyBytes(lru, index) && DirtyCount(lru, index) == |lru|
  {
    if lru != [] {
      AllDirtySums(lru[1..], index);
    }
  }

  lemma NoneDirty(lru: seq<Key>, index: Cache)
    requires Indexed(lru, index)
    ensures DirtyCount(lru, index) == 0 <==> forall k | k in lru :: index[k].state == Clean
  {
    if lru != [] {
      NoneDirty(lru[1..], index);
      assert lru == [lru[0]] + lru[1..];
    }
  }

  lemma DirtyPart(lru: seq<Key>, index: Cache)
    requires Indexed(lru, index)
    ensures DirtyBytes(lru, index) <= Bytes(lru, index) && DirtyCount(lru, index) <= |lru|
  {
  }

  /** The keys in the given state, most recently used first. */
  function InState(lru: seq<Key>, index: Cache, state: DirtyState): (keys: seq<Key>)
    requires Indexed(lru, index)
    ensures forall k :: k in keys <==> k in lru && index[k].state == state
  {
    if lru == [] then []
    else (if index[lru[0]].state == state then [lru[0]] else []) + InState(lru[1..], index, state)
  }

  lemma {:induction false} InStateConcat(a: seq<Key>, b: seq<Key>, index: Cache, state: DirtyState)
    requires Indexed(a, index) && Indexed(b, index)
    ensures Indexed(a + b, index) && InState(a + b, index, state) == InState(a, index, state) + InState(b, index, state)
  {
    if a == [] {
      assert a + b == b;
    } else {
      assert (a + b)[0] == a[0] && (a + b)[1..] == a[1..] + b;
      InStateConcat(a[1..], b, index, state);
      var first := if index[a[0]].state == state then [a[0]] else [];
      assert first + (InState(a[1..], index, state) + InState(b, index, state)) == first + InState(a[1..], index, state) + InState(b, index, state);
    }
  }

  lemma {:induction false} InStateDistinct(lru: seq<Key>, index: Cache, state: DirtyState)
    requires Indexed(lru, index) && Distinct(lru)
    ensures Distinct(InState(lru, index, state))
  {
    if lru != [] {
      assert forall j | 1 <= j < |lru| :: lru[j] != lru[0];
      InStateDistinct(lru[1..], index, state);
      assert lru[0] !in InState(lru[1..], index, state);
    }
  }

  lemma InStateOne(k: Key, index: Cache, state: DirtyState)
    requires k in index
    ensures InState([k], index, state) == if index[k].state == state then [k] else []
  {
  }

  lemma InStateNone(index: Cache, state: DirtyState)
    ensures InState([], index, state) == []
  {
  }

  /** The last key of a list of keys; the empty key stands for none. */
  function LeastRecent(keys: seq<Key>): Key {
    if keys == [] then [] else keys[|keys| - 1]
  }

  lemma LastInState(lru: seq<Key>, index: Cache, state: DirtyState, j: nat)
    requires Indexed(lru, index) && j < |lru| && Indexed(lru[j + 1..], index) && InState(lru[j + 1..], index, state) == []
    ensures Indexed(lru[j..], index)
    ensures index[lru[j]].state == state ==> LeastRecent(InState(lru, index, state)) == lru[j]
    ensures index[lru[j]].state != state ==> InState(lru[j..], index, state) == []
  {
    hide InState;
    var a, b := [lru[j]], lru[j + 1..];
    assert lru[j..] == a + b;
    assert lru == lru[..j] + lru[j..];
    InStateConcat(a, b, index, state);
    InStateConcat(lru[..j], lru[j..], index, state);
    InStateOne(lru[j], index, state);
  }

  /** In a shard without Clean entries that is over budget, flushing one key lets eviction take exactly that key. */
  lemma FlushedIsEvicted(lru: seq<Key>, index: Cache, k: Key, capacity: nat, limit: nat)
    requires Distinct(lru) && Indexed(lru, index) && Victims(lru, index) == [] && k in lru
    requires OverBudget(lru, index, capacity, limit)
    ensures var index' := index[k := index[k].(state := Clean)];
            && Indexed(lru, index')
            && Evicted(lru, index', capacity, limit) == (Without(lru, {k}), index' - {k})
            && Indexed(Without(lru, {k}), index' - {k}) && Victims(Without(lru, {k}), index' - {k}) == []
            && Bytes(Without(lru, {k}), index' - {k}) + ENTRY_OVERHEAD_BYTES <= Bytes(lru, index) && |Without(lru, {k})| == |lru| - 1
  {
    var index' := index[k := index[k].(state := Clean)];
    var rest := Without(lru, {k});
    OnlyVictim(lru, index, k);
    SameBytes(lru, index, k);
    WithoutShorter(lru, k);
    assert Evicted(rest, index' - {k}, capacity, limit) == (rest, index' - {k});
  }

  lemma OnlyVictim(lru: seq<Key>, index: Cache, k: Key)
    requires Distinct(lru) && Indexed(lru, index) && Victims(lru, index) == [] && k in lru
    ensures var index', rest := index[k := index[k].(state := Clean)], Without(lru, {k});
            && Indexed(lru, index') && Indexed(rest, index' - {k})
            && Victims(lru, index') == [k] && Victims(rest, index' - {k}) == []
  {
    var i, index' := Position(lru, k), index[k := index[k].(state := Clean)];
    VictimsAreClean(lru, index);
    DistinctAt(lru, i);
    WithoutAt(lru, i);
    assert forall j | j in lru :: j !in Victims(lru, index) && index[j].state != Clean;
    var b, rest := lru[i + 1..], lru[..i] + lru[i + 1..];
    assert forall j | j in b :: j in rest;
    TakeVictim(lru, index', i);
    NoVictims(Without(lru, {k}), index' - {k});
  }

  /** Changing a state changes no size. */
  lemma SameBytes(lru: seq<Key>, index: Cache, k: Key)
    requires Distinct(lru) && Indexed(lru, index) && k in lru
    ensures var index' := index[k := index[k].(state := Clean)];
            && Indexed(lru, index') && Bytes(lru, index') == Bytes(lru, index)
            && Indexed(Without(lru, {k}), index' - {k}) && |Without(lru, {k})| == |lru| - 1
            && Bytes(Without(lru, {k}), index' - {k}) + SizeBytes(k, index[k]) == Bytes(lru, index)
  {
    var i, index' := Position(lru, k), index[k := index[k].(state := Clean)];
    DistinctAt(lru, i);
    WithoutAt(lru, i);
    SumsAt(lru, index, i);
    SumsAt(lru, index', i);
    SumsAgree(Without(lru, {k}), index, index' - {k});
    SumsAgree(Without(lru, {k}), index', index' - {k});
  }
}
