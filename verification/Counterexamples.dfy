/** Runs of the step machine that show which hypotheses of the durability results cannot be dropped. */
module Counterexamples {
  import opened CacheTypes
  import opened Replay
  import opened Protocol
  import opened Runs
  import Durability
  import Answers

  // ----- Two overlapping flushes of one key -----

  /** After a Put of v1, thread 2 has claimed it for flushing. */
  lemma ClaimedState(k: Key, v1: Value) returns (s0: State, actions: seq<Action>, e: State)
    requires Short(k, v1)
    ensures Init(ONE, s0) && Leads(ONE, s0, actions, e)
    ensures e == State(Data(map[k := Entry(v1, 1, FlushInProgress)], [1], [Upsert(k, v1, 1), FlushIntent(k, 1)], 2, map[], 1, false, false),
                       Gate(Ready, 0, false), map[1 := Idle, 2 := Flushing(k, v1, 1, Intended, ToCaller)])
  {
    hide Next, Enabled, Leads;
    var a0, s1;
    s0, a0, s1 := Boots();
    var a1, s2 := Puts(s1, 1, k, v1, {});
    LeadsConcat(ONE, s0, a0, s1, a1, s2);
    var a2, s3 := FlushClaims(s2, 2, k);
    LeadsConcat(ONE, s0, a0 + a1, s2, a2, s3);
    actions, e := a0 + a1 + a2, s3;
    assert [Upsert(k, v1, 1)] + [FlushIntent(k, 1)] == [Upsert(k, v1, 1), FlushIntent(k, 1)];
  }

  /** From there, thread 1 puts v2 and thread 3 flushes it, while thread 2 is still on its way. */
  lemma NewerFlushed(s: State, k: Key, v1: Value, v2: Value) returns (actions: seq<Action>, e: State)
    requires Short(k, v2)
    requires s == State(Data(map[k := Entry(v1, 1, FlushInProgress)], [1], [Upsert(k, v1, 1), FlushIntent(k, 1)], 2, map[], 1, false, false),
                        Gate(Ready, 0, false), map[1 := Idle, 2 := Flushing(k, v1, 1, Intended, ToCaller)])
    ensures Leads(ONE, s, actions, e)
    ensures e == State(Data(map[k := Entry(v2, 2, Clean)], [2],
                            s.data.journal + [Upsert(k, v2, 2)] + [FlushIntent(k, 2)] + [FlushComplete(k, 2)], 5, map[k := v2], 2, false, false),
                       Gate(Ready, 0, false), s.threads[3 := Idle])
  {
    hide Next, Enabled, Leads;
    var a1, s1 := Puts(s, 1, k, v2, {});
    var a2, s2 := FlushClaims(s1, 3, k);
    LeadsConcat(ONE, s, a1, s1, a2, s2);
    var a3, s3 := FlushEnds(s2, 3, k, v2, 2);
    LeadsConcat(ONE, s, a1 + a2, s2, a3, s3);
    actions, e := a1 + a2 + a3, s3;
    assert s3.threads == s.threads[3 := Idle];
    assert s3.data.cache == map[k := Entry(v2, 2, Clean)];
  }

  lemma StaleRecovery(k: Key, v1: Value, v2: Value)
    ensures var j := [Upsert(k, v1, 1), FlushIntent(k, 1), Upsert(k, v2, 2), FlushIntent(k, 2), FlushComplete(k, 2), FlushComplete(k, 1)];
            At(Recovered(j, map[k := v1]), k) == Some(v1)
  {
    var j := [Upsert(k, v1, 1), FlushIntent(k, 1), Upsert(k, v2, 2), FlushIntent(k, 2), FlushComplete(k, 2), FlushComplete(k, 1)];
    PendingExact(j, k);
    forall i: nat
      ensures !Standing(j, k, i)
    {
      if i == 0 {
        assert Settles(j[2], k, 1);
      } else if i == 2 {
        assert Settles(j[4], k, 2);
      }
    }
    assert InvalidatedKeys(j) == {};
  }

  /**
  Two flushes of one key overlap and their store writes land in the wrong order: every call
  succeeds, nothing is pending, the cache holds the newer value, and the store holds the older one.
  */
  lemma OverlappingFlushesLose(k: Key, v1: Value, v2: Value) returns (states: seq<State>, actions: seq<Action>)
    requires Short(k, v1) && Short(k, v2)
    ensures IsRun(ONE, states, actions)
    ensures var d := states[|actions|].data;
            && d.journal == [Upsert(k, v1, 1), FlushIntent(k, 1), Upsert(k, v2, 2), FlushIntent(k, 2), FlushComplete(k, 2), FlushComplete(k, 1)]
            && d.cache == map[k := Entry(v2, 2, Clean)] && d.store == map[k := v1]
            && At(Recovered(d.journal, d.store), k) == Some(v1)
  {
    hide Next, Enabled, Leads, Moves;
    var s0, a0, s1 := ClaimedState(k, v1);
    var a1, s2 := NewerFlushed(s1, k, v1, v2);
    LeadsConcat(ONE, s0, a0, s1, a1, s2);
    var a2, s3 := FlushEnds(s2, 2, k, v1, 1);
    LeadsConcat(ONE, s0, a0 + a1, s2, a2, s3);
    actions := a0 + a1 + a2;
    states := LeadsIsRun(ONE, s0, actions, s3);
    StaleRecovery(k, v1, v2);
    assert s3.data.journal
           == [Upsert(k, v1, 1), FlushIntent(k, 1), Upsert(k, v2, 2), FlushIntent(k, 2), FlushComplete(k, 2), FlushComplete(k, 1)];
  }

  // ----- A Put that commits late -----

  /** Thread 1 has journaled v1; then thread 2 puts and flushes v2. */
  lemma NewerFirst(k: Key, v1: Value, v2: Value) returns (s0: State, actions: seq<Action>, e: State)
    requires Short(k, v1) && Short(k, v2)
    ensures Init(ONE, s0) && Leads(ONE, s0, actions, e)
    ensures e == State(Data(map[k := Entry(v2, 2, Clean)], [1],
                            [Upsert(k, v1, 1), Upsert(k, v2, 2), FlushIntent(k, 2), FlushComplete(k, 2)], 4, map[k := v2], 2, false, false),
                       Gate(Ready, 1, false), map[1 := Putting(k, v1, 1, Journaled), 2 := Idle])
  {
    hide Next, Enabled, Leads;
    var a0, s1;
    s0, a0, s1 := Boots();
    var a1, s2 := PutAppends(s1, 1, k, v1);
    LeadsConcat(ONE, s0, a0, s1, a1, s2);
    var a2, s3 := Puts(s2, 2, k, v2, {});
    LeadsConcat(ONE, s0, a0 + a1, s2, a2, s3);
    var a3, s4 := Flushes(s3, 2, k);
    LeadsConcat(ONE, s0, a0 + a1 + a2, s3, a3, s4);
    actions, e := a0 + a1 + a2 + a3, s4;
    assert e.data.journal == [Upsert(k, v1, 1), Upsert(k, v2, 2), FlushIntent(k, 2), FlushComplete(k, 2)];
    assert e.threads == map[1 := Putting(k, v1, 1, Journaled), 2 := Idle];
    assert e.data.cache == map[k := Entry(v2, 2, Clean)];
  }

  /**
  A fresh insert is not version-gated. If a newer write of the key was committed, flushed and
  evicted before an older one commits, the older value is cached again and, once flushed, replaces
  the newer one in the store, although the newer one was journaled last.
  */
  lemma LateCommitReverts(k: Key, v1: Value, v2: Value, k2: Key) returns (states: seq<State>, actions: seq<Action>)
    requires k2 != k && Short(k, v1) && Short(k, v2) && Short(k2, [])
    ensures IsRun(ONE, states, actions)
    ensures var d := states[|actions|].data;
            && d.journal == [Upsert(k, v1, 1), Upsert(k, v2, 2), FlushIntent(k, 2), FlushComplete(k, 2),
                             Upsert(k2, [], 3), FlushIntent(k, 1), FlushComplete(k, 1)]
            && k in d.cache && d.cache[k] == Entry(v1, 1, Clean) && At(d.store, k) == Some(v1)
  {
    hide Next, Enabled, Leads, Moves;
    var s0, a0, s1 := NewerFirst(k, v1, v2);
    var a1, s2 := Puts(s1, 2, k2, [], {k});
    LeadsConcat(ONE, s0, a0, s1, a1, s2);
    var a2, s3 := PutFinishes(s2, 1, k, v1, 1, {});
    LeadsConcat(ONE, s0, a0 + a1, s2, a2, s3);
    var a3, s4 := Flushes(s3, 2, k);
    LeadsConcat(ONE, s0, a0 + a1 + a2, s3, a3, s4);
    actions := a0 + a1 + a2 + a3;
    states := LeadsIsRun(ONE, s0, actions, s4);
    assert s4.data.journal == s1.data.journal + [Upsert(k2, [], 3)] + [FlushIntent(k, 1)] + [FlushComplete(k, 1)];
  }

  // ----- Two overlapping compactions -----

  /** Nothing to flush, something to compact. */
  predicate Compactable(s: State) {
    && |s.data.fences| == 1 && s.gate.lifecycle == Ready && s.gate.inFlight == 0 && s.data.recordCount > 0
    && forall k | k in s.data.cache :: s.data.cache[k].state == Clean
  }

  /** A FlushAll that finds nothing Dirty, up to the point where its compaction has paused admission. */
  lemma Pauses(s: State, t: Tid) returns (actions: seq<Action>)
    requires Compactable(s) && PcOf(s, t) == Idle
    ensures Leads(ONE, s, actions, With(s, t, Compacting(false, Drain)).(gate := s.gate.(paused := true)))
  {
    hide Next, Enabled, Leads;
    var first := FindsNothing(s, t);
    var s1 := With(s, t, AllShard(1, false, false));
    var rest := PausesRest(s1, t);
    var e := With(s1, t, Compacting(false, Drain)).(gate := s.gate.(paused := true));
    LeadsConcat(ONE, s, first, s1, rest, e);
    actions := first + rest;
    assert e.threads == s.threads[t := Compacting(false, Drain)];
  }

  lemma FindsNothing(s: State, t: Tid) returns (actions: seq<Action>)
    requires Compactable(s) && PcOf(s, t) == Idle
    ensures Leads(ONE, s, actions, With(s, t, AllShard(1, false, false)))
  {
    var a, b := Start(t, AllShard(0, false, false)), Step(t, OK);
    var s1 := Next(ONE, s, a);
    var s2 := Next(ONE, s1, b);
    var s3 := Next(ONE, s2, b);
    LeadsOne(ONE, s, a);
    LeadsOne(ONE, s1, b);
    LeadsOne(ONE, s2, b);
    LeadsConcat(ONE, s, [a], s1, [b], s2);
    LeadsConcat(ONE, s, [a] + [b], s2, [b], s3);
    actions := [a] + [b] + [b];
    assert s3.threads == s.threads[t := AllShard(1, false, false)];
  }

  lemma PausesRest(s: State, t: Tid) returns (actions: seq<Action>)
    requires Compactable(s) && PcOf(s, t) == AllShard(1, false, false)
    ensures Leads(ONE, s, actions, With(s, t, Compacting(false, Drain)).(gate := s.gate.(paused := true)))
  {
    var b := Step(t, OK);
    var s1 := Next(ONE, s, b);
    var s2 := Next(ONE, s1, b);
    var s3 := Next(ONE, s2, b);
    LeadsOne(ONE, s, b);
    LeadsOne(ONE, s1, b);
    LeadsOne(ONE, s2, b);
    LeadsConcat(ONE, s, [b], s1, [b], s2);
    LeadsConcat(ONE, s, [b] + [b], s2, [b], s3);
    actions := [b] + [b] + [b];
    assert s3.threads == s.threads[t := Compacting(false, Drain)];
  }

  /** Draining finds no writer in flight. */
  lemma Drains(s: State, t: Tid) returns (actions: seq<Action>)
    requires Compactable(s) && PcOf(s, t) == Compacting(false, Drain)
    ensures Leads(ONE, s, actions, With(s, t, Compacting(false, Scan(0, false))))
  {
    LeadsOne(ONE, s, Step(t, OK));
    actions := [Step(t, OK)];
  }

  /** Scanning a Clean engine and truncating, whatever other threads are doing. */
  lemma Truncates(s: State, t: Tid) returns (actions: seq<Action>)
    requires |s.data.fences| == 1 && s.data.recordCount > 0 && PcOf(s, t) == Compacting(false, Scan(0, false))
    requires forall k | k in s.data.cache :: s.data.cache[k].state == Clean
    ensures Leads(ONE, s, actions, With(s, t, Idle).(data := Truncated(s.data), gate := s.gate.(paused := false)))
  {
    var b := Step(t, OK);
    var s1 := Next(ONE, s, b);
    var s2 := Next(ONE, s1, b);
    assert s2 == With(s, t, Compacting(false, Truncate));
    LeadsOne(ONE, s, b);
    LeadsOne(ONE, s1, b);
    LeadsConcat(ONE, s, [b], s1, [b], s2);
    var s3 := Next(ONE, s2, b);
    var s4 := Next(ONE, s3, b);
    LeadsOne(ONE, s2, b);
    LeadsOne(ONE, s3, b);
    LeadsConcat(ONE, s2, [b], s3, [b], s4);
    LeadsConcat(ONE, s, [b] + [b], s2, [b] + [b], s4);
    actions := [b] + [b] + ([b] + [b]);
    assert s4.threads == s.threads[t := Idle];
  }

  /** One flushed key, and two compactions that have both paused and drained; the first then completes. */
  lemma FirstCompacts(k: Key, v: Value) returns (s0: State, actions: seq<Action>, e: State)
    requires Short(k, v)
    ensures Init(ONE, s0) && Leads(ONE, s0, actions, e)
    ensures e == State(Data(map[k := Entry(v, 1, Clean)], [1], [], 0, map[k := v], 1, false, false),
                       Gate(Ready, 0, false), map[1 := Idle, 2 := Compacting(false, Scan(0, false))])
  {
    hide Next, Enabled, Leads;
    var a0, s1;
    s0, a0, s1 := Boots();
    var a1, s2 := Puts(s1, 1, k, v, {});
    LeadsConcat(ONE, s0, a0, s1, a1, s2);
    var a2, s3 := Flushes(s2, 1, k);
    LeadsConcat(ONE, s0, a0 + a1, s2, a2, s3);
    var b, s4 := BothDrain(s3);
    LeadsConcat(ONE, s0, a0 + a1 + a2, s3, b, s4);
    var t := Truncates(s4, 1);
    e := With(s4, 1, Idle).(data := Truncated(s4.data), gate := s4.gate.(paused := false));
    LeadsConcat(ONE, s0, a0 + a1 + a2 + b, s4, t, e);
    actions := a0 + a1 + a2 + b + t;
    assert e.threads == map[1 := Idle, 2 := Compacting(false, Scan(0, false))];
    assert e.data.cache == map[k := Entry(v, 1, Clean)];
  }

  lemma BothDrain(s: State) returns (actions: seq<Action>, e: State)
    requires Compactable(s) && s.threads == map[1 := Idle]
    ensures Leads(ONE, s, actions, e)
    ensures e == s.(gate := s.gate.(paused := true),
                    threads := map[1 := Compacting(false, Scan(0, false)), 2 := Compacting(false, Scan(0, false))])
  {
    hide Next, Enabled, Leads;
    var p1 := Pauses(s, 1);
    var s1 := With(s, 1, Compacting(false, Drain)).(gate := s.gate.(paused := true));
    var p2 := Pauses(s1, 2);
    var s2 := With(s1, 2, Compacting(false, Drain));
    assert s2.gate == s1.gate.(paused := true);
    LeadsConcat(ONE, s, p1, s1, p2, s2);
    var d1 := Drains(s2, 1);
    var s3 := With(s2, 1, Compacting(false, Scan(0, false)));
    LeadsConcat(ONE, s, p1 + p2, s2, d1, s3);
    var d2 := Drains(s3, 2);
    e := With(s3, 2, Compacting(false, Scan(0, false)));
    LeadsConcat(ONE, s, p1 + p2 + d1, s3, d2, e);
    actions := p1 + p2 + d1 + d2;
    assert e.threads == map[1 := Compacting(false, Scan(0, false)), 2 := Compacting(false, Scan(0, false))];
  }

  /**
  The pause flag is shared. When one compaction ends it readmits writers while another is past its
  drain; a Put journaled then is truncated away before it commits. The Put succeeds, its value is
  Dirty in memory, and nothing durable remembers it.
  */
  lemma OverlappingCompactionsLose(k: Key, v: Value, k2: Key, v2: Value) returns (states: seq<State>, actions: seq<Action>)
    requires k2 != k && Short(k, v) && Short(k2, v2)
    ensures IsRun(ONE, states, actions)
    ensures var d := states[|actions|].data;
            && k2 in d.cache && d.cache[k2] == Entry(v2, 2, Dirty)
            && d.journal == [] && At(Recovered(d.journal, d.store), k2) == None
  {
    hide Next, Enabled, Leads, Moves;
    var s0, a0, s1 := FirstCompacts(k, v);
    var a1, s2 := PutAppends(s1, 3, k2, v2);
    LeadsConcat(ONE, s0, a0, s1, a1, s2);
    var a2 := Truncates(s2, 2);
    var s3 := With(s2, 2, Idle).(data := Truncated(s2.data), gate := s2.gate.(paused := false));
    LeadsConcat(ONE, s0, a0 + a1, s2, a2, s3);
    var a3, s4 := PutFinishes(s3, 3, k2, v2, 2, {});
    LeadsConcat(ONE, s0, a0 + a1 + a2, s3, a3, s4);
    actions := a0 + a1 + a2 + a3;
    states := LeadsIsRun(ONE, s0, actions, s4);
    assert Pending([]) == map[] && InvalidatedKeys([]) == {};
  }

  // ----- An invalidation that a read-fill outlives -----

  /** An invalidation of a cached key, forced unless it is Clean, up to the point where it has noted the resident version. */
  lemma InvalidatePeeks(s: State, t: Tid, k: Key, force: bool) returns (actions: seq<Action>)
    requires Serving(s) && PcOf(s, t) == Idle && k in s.data.cache && (force || s.data.cache[k].state == Clean)
    ensures Leads(ONE, s, actions, With(s, t, Invalidating(k, s.data.cache[k].version, force, Peeked)).(gate := s.gate.(inFlight := s.gate.inFlight + 1)))
  {
    var a, b := Start(t, Invalidating(k, 0, force, InvChecked)), Step(t, OK);
    var s1 := Next(ONE, s, a);
    var s2 := Next(ONE, s1, b);
    var s3 := Next(ONE, s2, b);
    LeadsOne(ONE, s, a);
    LeadsOne(ONE, s1, b);
    LeadsOne(ONE, s2, b);
    LeadsConcat(ONE, s, [a], s1, [b], s2);
    LeadsConcat(ONE, s, [a] + [b], s2, [b], s3);
    actions := [a] + [b] + [b];
    assert s3.threads == s.threads[t := s3.threads[t]];
  }

  /** A Get that misses and fills from the store. */
  lemma Fills(s: State, t: Tid, k: Key) returns (actions: seq<Action>, e: State)
    requires Serving(s) && PcOf(s, t) == Idle && k !in s.data.cache && k in s.data.store && |s.data.store[k]| <= MAX_VALUE_BYTES
    ensures Leads(ONE, s, actions, e)
    ensures e == State(s.data.(cache := s.data.cache[k := Entry(s.data.store[k], 0, Clean)], fences := Bumped(s.data.fences, 0)),
                       s.gate, s.threads[t := Idle])
  {
    var a, b := Start(t, Getting(k, Lookup)), Step(t, OK);
    var s1 := Next(ONE, s, a);
    var s2 := Next(ONE, s1, b);
    LeadsOne(ONE, s, a);
    LeadsOne(ONE, s1, b);
    LeadsConcat(ONE, s, [a], s1, [b], s2);
    assert s2 == With(s, t, Getting(k, Missed(s.data.fences[0])));
    var rest, f := FillCommits(s2, t, k);
    LeadsConcat(ONE, s, [a] + [b], s2, rest, f);
    actions, e := [a] + [b] + rest, f;
    assert e.threads == s.threads[t := Idle];
  }

  lemma FillCommits(s: State, t: Tid, k: Key) returns (actions: seq<Action>, e: State)
    requires Serving(s) && PcOf(s, t) == Getting(k, Missed(s.data.fences[0]))
    requires k !in s.data.cache && k in s.data.store && |s.data.store[k]| <= MAX_VALUE_BYTES
    ensures Leads(ONE, s, actions, e)
    ensures e == State(s.data.(cache := s.data.cache[k := Entry(s.data.store[k], 0, Clean)], fences := Bumped(s.data.fences, 0)),
                       s.gate, s.threads[t := Idle])
  {
    var b := Step(t, OK);
    var s1 := Next(ONE, s, b);
    e := Next(ONE, s1, b);
    LeadsOne(ONE, s, b);
    LeadsOne(ONE, s1, b);
    LeadsConcat(ONE, s, [b], s1, [b], e);
    actions := [b] + [b];
    assert e.threads == s.threads[t := Idle];
    assert s.data.cache[k := Entry(s.data.store[k], 0, Clean)] - {} == s.data.cache[k := Entry(s.data.store[k], 0, Clean)];
  }

  /** The rest of that invalidation, when the resident entry is no longer the version it noted. */
  lemma InvalidateMisses(s: State, t: Tid, k: Key, n: nat) returns (actions: seq<Action>, e: State)
    requires Serving(s) && !s.data.torn && Short(k, []) && PcOf(s, t) == Invalidating(k, n, false, Peeked) && s.gate.inFlight > 0
    requires k in s.data.cache && s.data.cache[k].version != n
    ensures Leads(ONE, s, actions, e)
    ensures e == State(s.data.(journal := s.data.journal + [Invalidate(k, n)], recordCount := s.data.recordCount + 1,
                               store := s.data.store - {k}, fences := Bumped(s.data.fences, 0)),
                       s.gate.(inFlight := s.gate.inFlight - 1), s.threads[t := Idle])
  {
    var b := Step(t, OK);
    var s1 := Next(ONE, s, b);
    var s2 := Next(ONE, s1, b);
    LeadsOne(ONE, s, b);
    LeadsOne(ONE, s1, b);
    LeadsConcat(ONE, s, [b], s1, [b], s2);
    var s3 := Next(ONE, s2, b);
    e := Next(ONE, s3, b);
    LeadsOne(ONE, s2, b);
    LeadsOne(ONE, s3, b);
    LeadsConcat(ONE, s2, [b], s3, [b], e);
    LeadsConcat(ONE, s, [b] + [b], s2, [b] + [b], e);
    actions := [b] + [b] + ([b] + [b]);
    assert e.threads == s.threads[t := Idle];
  }

  /** Thread 1 has noted version 1 of a flushed key; thread 2 then evicts the key with another Put. */
  lemma NotedThenEvicted(k: Key, v: Value, k2: Key) returns (s0: State, actions: seq<Action>, e: State)
    requires k2 != k && Short(k, v) && Short(k2, [])
    ensures Init(ONE, s0) && Leads(ONE, s0, actions, e) && Serving(e) && e.gate.inFlight == 1
    ensures e.threads == map[1 := Invalidating(k, 1, false, Peeked), 2 := Idle]
    ensures k !in e.data.cache && e.data.store == map[k := v] && !e.data.torn
  {
    hide Next, Enabled, Leads;
    var a0, s1;
    s0, a0, s1 := Boots();
    var a1, s2 := Puts(s1, 1, k, v, {});
    LeadsConcat(ONE, s0, a0, s1, a1, s2);
    var a2, s3 := Flushes(s2, 1, k);
    LeadsConcat(ONE, s0, a0 + a1, s2, a2, s3);
    var a3 := InvalidatePeeks(s3, 1, k, false);
    var s4 := With(s3, 1, Invalidating(k, 1, false, Peeked)).(gate := s3.gate.(inFlight := 1));
    LeadsConcat(ONE, s0, a0 + a1 + a2, s3, a3, s4);
    var a4, s5 := Puts(s4, 2, k2, [], {k});
    LeadsConcat(ONE, s0, a0 + a1 + a2 + a3, s4, a4, s5);
    actions, e := a0 + a1 + a2 + a3 + a4, s5;
    assert e.threads == map[1 := Invalidating(k, 1, false, Peeked), 2 := Idle];
  }

  /**
  An invalidation erases only the version it noted. If that entry is evicted and a Get reads the
  key back before the store removal, the fill has version 0 and stays: the invalidation succeeds,
  the store no longer has the key, and the cache still serves it.
  */
  lemma InvalidatedKeyStaysReadable(k: Key, v: Value, k2: Key) returns (states: seq<State>, actions: seq<Action>)
    requires k2 != k && Short(k, v) && Short(k2, [])
    ensures IsRun(ONE, states, actions)
    ensures var s := states[|actions|];
            && k in s.data.cache && s.data.cache[k] == Entry(v, 0, Clean) && k !in s.data.store
            && s.data.journal != [] && s.data.journal[|s.data.journal| - 1] == Invalidate(k, 1)
            && forall t | t in s.threads :: s.threads[t] == Idle
  {
    hide Next, Enabled, Leads, Moves;
    var s0, a0, s1 := NotedThenEvicted(k, v, k2);
    var a1, s2 := Fills(s1, 2, k);
    LeadsConcat(ONE, s0, a0, s1, a1, s2);
    var a2, s3 := InvalidateMisses(s2, 1, k, 1);
    LeadsConcat(ONE, s0, a0 + a1, s2, a2, s3);
    actions := a0 + a1 + a2;
    states := LeadsIsRun(ONE, s0, actions, s3);
  }

  // ----- A key invalidated, put again and flushed -----

  /** A whole invalidation of a key that is not cached. */
  lemma InvalidatesAbsent(s: State, t: Tid, k: Key) returns (actions: seq<Action>, e: State)
    requires Serving(s) && !s.data.torn && Short(k, []) && PcOf(s, t) == Idle && k !in s.data.cache
    ensures Leads(ONE, s, actions, e)
    ensures e == State(s.data.(journal := s.data.journal + [Invalidate(k, 0)], recordCount := s.data.recordCount + 1,
                               store := s.data.store - {k}, fences := Bumped(s.data.fences, 0)),
                       s.gate, s.threads[t := Idle])
  {
    hide Next, Enabled, Leads;
    var first := PeeksAbsent(s, t, k);
    var s1 := With(s, t, Invalidating(k, 0, false, Peeked)).(gate := s.gate.(inFlight := s.gate.inFlight + 1));
    var rest, f := InvalidateRest(s1, t, k);
    LeadsConcat(ONE, s, first, s1, rest, f);
    actions, e := first + rest, f;
    assert e.threads == s.threads[t := Idle];
  }

  lemma PeeksAbsent(s: State, t: Tid, k: Key) returns (actions: seq<Action>)
    requires Serving(s) && PcOf(s, t) == Idle && k !in s.data.cache
    ensures Leads(ONE, s, actions, With(s, t, Invalidating(k, 0, false, Peeked)).(gate := s.gate.(inFlight := s.gate.inFlight + 1)))
  {
    var a, b := Start(t, Invalidating(k, 0, false, InvChecked)), Step(t, OK);
    var s1 := Next(ONE, s, a);
    var s2 := Next(ONE, s1, b);
    var s3 := Next(ONE, s2, b);
    LeadsOne(ONE, s, a);
    LeadsOne(ONE, s1, b);
    LeadsOne(ONE, s2, b);
    LeadsConcat(ONE, s, [a], s1, [b], s2);
    LeadsConcat(ONE, s, [a] + [b], s2, [b], s3);
    actions := [a] + [b] + [b];
    assert s3.threads == s.threads[t := s3.threads[t]];
  }

  lemma InvalidateRest(s: State, t: Tid, k: Key) returns (actions: seq<Action>, e: State)
    requires Serving(s) && !s.data.torn && Short(k, []) && PcOf(s, t) == Invalidating(k, 0, false, Peeked) && s.gate.inFlight > 0 && k !in s.data.cache
    ensures Leads(ONE, s, actions, e)
    ensures e == State(s.data.(journal := s.data.journal + [Invalidate(k, 0)], recordCount := s.data.recordCount + 1,
                               store := s.data.store - {k}, fences := Bumped(s.data.fences, 0)),
                       s.gate.(inFlight := s.gate.inFlight - 1), s.threads[t := Idle])
  {
    var b := Step(t, OK);
    var s1 := Next(ONE, s, b);
    var s2 := Next(ONE, s1, b);
    LeadsOne(ONE, s, b);
    LeadsOne(ONE, s1, b);
    LeadsConcat(ONE, s, [b], s1, [b], s2);
    var s3 := Next(ONE, s2, b);
    e := Next(ONE, s3, b);
    LeadsOne(ONE, s2, b);
    LeadsOne(ONE, s3, b);
    LeadsConcat(ONE, s2, [b], s3, [b], e);
    LeadsConcat(ONE, s, [b] + [b], s2, [b] + [b], e);
    actions := [b] + [b] + ([b] + [b]);
    assert e.threads == s.threads[t := Idle];
  }

  lemma ReputRecovery(k: Key, v: Value)
    ensures var j := [Invalidate(k, 0), Upsert(k, v, 1), FlushIntent(k, 1), FlushComplete(k, 1)];
            At(Recovered(j, map[k := v]), k) == None
  {
    var j := [Invalidate(k, 0), Upsert(k, v, 1), FlushIntent(k, 1), FlushComplete(k, 1)];
    PendingExact(j, k);
    assert Settles(j[3], k, 1);
    forall i: nat
      ensures !Standing(j, k, i)
    {
    }
    assert j[0].Invalidate? && j[0].key == k;
    assert k in InvalidatedKeys(j);
  }

  /**
  Replay removes the key of every Invalidate record from the store as it scans, and drops a pending
  value whose flush completed. A key invalidated, put again and flushed within one journal is served
  until the crash and lost by the restart.
  */
  lemma ReputKeyIsLost(k: Key, v: Value) returns (states: seq<State>, actions: seq<Action>)
    requires Short(k, v)
    ensures IsRun(ONE, states, actions)
    ensures var d := states[|actions|].data;
            && d.journal == [Invalidate(k, 0), Upsert(k, v, 1), FlushIntent(k, 1), FlushComplete(k, 1)]
            && d.store == map[k := v] && d.cache == map[k := Entry(v, 1, Clean)]
            && At(Recovered(d.journal, d.store), k) == None
  {
    hide Next, Enabled, Leads, Moves;
    var s0, a0, s1 := Boots();
    var a1, s2 := InvalidatesAbsent(s1, 1, k);
    LeadsConcat(ONE, s0, a0, s1, a1, s2);
    var a2, s3 := Puts(s2, 1, k, v, {});
    LeadsConcat(ONE, s0, a0 + a1, s2, a2, s3);
    var a3, s4 := Flushes(s3, 1, k);
    LeadsConcat(ONE, s0, a0 + a1 + a2, s3, a3, s4);
    actions := a0 + a1 + a2 + a3;
    states := LeadsIsRun(ONE, s0, actions, s4);
    ReputRecovery(k, v);
    assert s4.data.journal == [Invalidate(k, 0), Upsert(k, v, 1), FlushIntent(k, 1), FlushComplete(k, 1)];
    assert s4.data.cache == map[k := Entry(v, 1, Clean)];
  }

  // ----- A write journaled behind a torn append -----

  /** After a Put of v1, a crash tears another Put's append; replay restores v1. */
  lemma TornAndRecovered(k: Key, v1: Value, k2: Key) returns (s0: State, actions: seq<Action>, e: State)
    requires Short(k, v1)
    ensures Init(ONE, s0) && Leads(ONE, s0, actions, e)
    ensures e == State(Data(map[k := Entry(v1, 1, Dirty)], [0], [Upsert(k, v1, 1)], 0, map[], 1, true, false), Gate(Ready, 0, false), map[])
  {
    hide Next, Enabled, Leads, Replayed;
    var a0, s1;
    s0, a0, s1 := Boots();
    var a1, s2 := Puts(s1, 1, k, v1, {});
    LeadsConcat(ONE, s0, a0, s1, a1, s2);
    var a2, s3 := TearsAppend(s2, 2, k2);
    LeadsConcat(ONE, s0, a0 + a1, s2, a2, s3);
    var a3, s4 := Replays(s3, k, v1);
    LeadsConcat(ONE, s0, a0 + a1 + a2, s3, a3, s4);
    actions, e := a0 + a1 + a2 + a3, s4;
  }

  lemma Replays(s: State, k: Key, v: Value) returns (actions: seq<Action>, e: State)
    requires s.gate.lifecycle == NotReady && !s.data.marked && |s.data.fences| == 1 && s.data.journal == [Upsert(k, v, 1)] && Short(k, v)
    ensures Leads(ONE, s, actions, e)
    ensures e == s.(data := s.data.(cache := map[k := Entry(v, 1, Dirty)], fences := [0], counter := 1), gate := s.gate.(lifecycle := Ready))
  {
    var r := Recover([0]);
    e := Next(ONE, s, r);
    LeadsOne(ONE, s, r);
    actions := [r];
    SinglePending(k, v);
    assert s.data.store - {} == s.data.store;
  }

  lemma SinglePending(k: Key, v: Value)
    ensures Pending([Upsert(k, v, 1)]) == map[k := Stamped(v, 1)] && InvalidatedKeys([Upsert(k, v, 1)]) == {}
    ensures MaxVersion(map[k := Stamped(v, 1)]) == 1
  {
    var j := [Upsert(k, v, 1)];
    assert j[..0] == [];
    assert Pending([]) == map[];
    assert k in map[k := Stamped(v, 1)];
  }

  lemma TearsAppend(s: State, t: Tid, k: Key) returns (actions: seq<Action>, e: State)
    requires Serving(s) && PcOf(s, t) == Idle
    ensures Leads(ONE, s, actions, e) && e == Torn(Crashed(s))
  {
    var a, b, x := Start(t, Putting(k, [], 0, PutChecked)), Step(t, OK), TornCrash(t);
    var s1 := Next(ONE, s, a);
    var s2 := Next(ONE, s1, b);
    e := Next(ONE, s2, x);
    LeadsOne(ONE, s, a);
    LeadsOne(ONE, s1, b);
    LeadsOne(ONE, s2, x);
    LeadsConcat(ONE, s, [a], s1, [b], s2);
    LeadsConcat(ONE, s, [a] + [b], s2, [x], e);
    actions := [a] + [b] + [x];
  }

  /**
  Replay does not cut a torn tail and appends go to the end of the file. A Put of the session after
  a tear is journaled, committed and acknowledged, and a crash before the next truncation takes the
  key back to its value before the tear.
  */
  lemma BuriedPutIsLost(k: Key, v1: Value, v2: Value, k2: Key) returns (states: seq<State>, actions: seq<Action>)
    requires Short(k, v1)
    ensures IsRun(ONE, states, actions)
    ensures var s := states[|actions|];
            && s.data.cache == map[k := Entry(v2, 2, Dirty)] && (forall t | t in s.threads :: s.threads[t] == Idle)
            && At(Recovered(s.data.journal, s.data.store), k) == Some(v1)
  {
    hide Next, Enabled, Leads, Moves;
    var s0, a0, s1 := TornAndRecovered(k, v1, k2);
    var a1, s2 := Puts(s1, 1, k, v2, {});
    LeadsConcat(ONE, s0, a0, s1, a1, s2);
    actions := a0 + a1;
    states := LeadsIsRun(ONE, s0, actions, s2);
    SinglePending(k, v1);
    assert s2.data.cache == map[k := Entry(v2, 2, Dirty)];
  }

  // ----- An orderly stop whose flush fails -----

  const FAIL: Choice := OK.(ok := false)

  /** Shutdown by thread t, up to its flush of the only Dirty key. */
  lemma StopsToFlush(s: State, t: Tid, k: Key) returns (actions: seq<Action>)
    requires Serving(s) && s.gate.inFlight == 0 && PcOf(s, t) == Idle
    requires exists x: Entry :: s.data.cache == map[k := x] && x.state == Dirty
    ensures Leads(ONE, s, actions, With(s, t, FlushEntry(k, None, ToAll(0, [], false, true))).(gate := s.gate.(lifecycle := Stopping)))
  {
    var a, b, f := Start(t, ShuttingDown(ShutDrain)), Step(t, OK), Step(t, OK.(dirty := [k]));
    var s1 := Next(ONE, s, a);
    var s2 := Next(ONE, s1, b);
    LeadsOne(ONE, s, a);
    LeadsOne(ONE, s1, b);
    LeadsConcat(ONE, s, [a], s1, [b], s2);
    var s3 := Next(ONE, s2, f);
    var s4 := Next(ONE, s3, b);
    LeadsOne(ONE, s2, f);
    LeadsOne(ONE, s3, b);
    LeadsConcat(ONE, s2, [f], s3, [b], s4);
    LeadsConcat(ONE, s, [a] + [b], s2, [f] + [b], s4);
    actions := [a] + [b] + ([f] + [b]);
    assert [k][1..] == [];
    assert s4.threads == s.threads[t := FlushEntry(k, None, ToAll(0, [], false, true))];
  }

  /** That flush fails at its first journal call and the entry is Dirty again. */
  lemma FlushFails(s: State, t: Tid, k: Key) returns (actions: seq<Action>)
    requires |s.data.fences| == 1 && PcOf(s, t) == FlushEntry(k, None, ToAll(0, [], false, true))
    requires k in s.data.cache && s.data.cache[k].state == Dirty
    ensures Leads(ONE, s, actions, With(s, t, AllKeys(0, [], true, true)))
  {
    var b, f := Step(t, OK), Step(t, FAIL);
    var s1 := Next(ONE, s, b);
    var s2 := Next(ONE, s1, f);
    var s3 := Next(ONE, s2, b);
    LeadsOne(ONE, s, b);
    LeadsOne(ONE, s1, f);
    LeadsOne(ONE, s2, b);
    LeadsConcat(ONE, s, [b], s1, [f], s2);
    LeadsConcat(ONE, s, [b] + [f], s2, [b], s3);
    actions := [b] + [f] + [b];
    assert s3.data.cache == s.data.cache;
    assert s3.threads == s.threads[t := AllKeys(0, [], true, true)];
  }

  /** Shutdown goes on: it stops, finds the Dirty entry, leaves the journal alone and returns. */
  lemma StopsDirty(s: State, t: Tid, k: Key) returns (actions: seq<Action>)
    requires |s.data.fences| == 1 && PcOf(s, t) == AllKeys(0, [], true, true) && k in s.data.cache && s.data.cache[k].state == Dirty
    ensures Leads(ONE, s, actions, With(s, t, Idle).(gate := s.gate.(lifecycle := Stopped)))
  {
    var b := Step(t, OK);
    var s1 := Next(ONE, s, b);
    var s2 := Next(ONE, s1, b);
    LeadsOne(ONE, s, b);
    LeadsOne(ONE, s1, b);
    LeadsConcat(ONE, s, [b], s1, [b], s2);
    assert s2 == With(s, t, ShuttingDown(ShutStop));
    var rest := StopsRest(s2, t, k);
    var e := With(s2, t, Idle).(gate := s.gate.(lifecycle := Stopped));
    LeadsConcat(ONE, s, [b] + [b], s2, rest, e);
    actions := [b] + [b] + rest;
    assert e.threads == s.threads[t := Idle];
  }

  lemma StopsRest(s: State, t: Tid, k: Key) returns (actions: seq<Action>)
    requires |s.data.fences| == 1 && PcOf(s, t) == ShuttingDown(ShutStop) && k in s.data.cache && s.data.cache[k].state == Dirty
    ensures Leads(ONE, s, actions, With(s, t, Idle).(gate := s.gate.(lifecycle := Stopped)))
  {
    var b := Step(t, OK);
    var s1 := Next(ONE, s, b);
    assert ShardOf(ONE, k) == 0 && ShardUnflushed(ONE, s.data.cache, 0);
    var s2 := Next(ONE, s1, b);
    var s3 := Next(ONE, s2, b);
    LeadsOne(ONE, s, b);
    LeadsOne(ONE, s1, b);
    LeadsOne(ONE, s2, b);
    LeadsConcat(ONE, s, [b], s1, [b], s2);
    LeadsConcat(ONE, s, [b] + [b], s2, [b], s3);
    actions := [b] + [b] + [b];
    assert s3.threads == s.threads[t := Idle];
  }

  /** The service marks the stop clean all the same, the process exits, and the next startup skips replay. */
  lemma MarksAndReopens(s: State) returns (actions: seq<Action>, e: State)
    requires |s.data.fences| == 1 && s.gate.lifecycle == Stopped && forall t | t in s.threads :: s.threads[t] == Idle
    ensures Leads(ONE, s, actions, e)
    ensures e == State(s.data.(cache := map[], fences := [0], recordCount := 0, counter := 0, marked := false), Gate(Ready, 0, false), map[])
  {
    var a, b, f := MarkClean, Crash, SkipReplay([0]);
    var s1 := Next(ONE, s, a);
    var s2 := Next(ONE, s1, b);
    e := Next(ONE, s2, f);
    LeadsOne(ONE, s, a);
    LeadsOne(ONE, s1, b);
    LeadsOne(ONE, s2, f);
    LeadsConcat(ONE, s, [a], s1, [b], s2);
    LeadsConcat(ONE, s, [a] + [b], s2, [f], e);
    actions := [a] + [b] + [f];
  }

  /**
  A Put succeeds, the flush of an orderly stop fails, and the stop is marked clean. The next session
  opens without replay and serves nothing for the key, although the journal still holds its write.
  */
  lemma UncleanStopLoses(k: Key, v: Value) returns (states: seq<State>, actions: seq<Action>)
    requires Short(k, v)
    ensures IsRun(ONE, states, actions)
    ensures var s := states[|actions|];
            && s.gate.lifecycle == Ready && s.data.cache == map[] && s.data.store == map[]
            && s.data.journal == [Upsert(k, v, 1)] && At(Recovered(s.data.journal, s.data.store), k) == Some(v)
  {
    hide Next, Enabled, Leads, Moves;
    var s0, a0, s1 := StoppingState(k, v);
    var a1, s2 := FailedStop(s1, k);
    LeadsConcat(ONE, s0, a0, s1, a1, s2);
    actions := a0 + a1;
    states := LeadsIsRun(ONE, s0, actions, s2);
    SinglePending(k, v);
  }

  /** After a Put, Shutdown is about to flush it. */
  lemma StoppingState(k: Key, v: Value) returns (s0: State, actions: seq<Action>, e: State)
    requires Short(k, v)
    ensures Init(ONE, s0) && Leads(ONE, s0, actions, e)
    ensures e.data == Data(map[k := Entry(v, 1, Dirty)], [1], [Upsert(k, v, 1)], 1, map[], 1, false, false)
    ensures e.threads == map[1 := FlushEntry(k, None, ToAll(0, [], false, true))]
  {
    hide Next, Enabled, Leads;
    var a0, s1;
    s0, a0, s1 := Boots();
    var a1, s2 := Puts(s1, 1, k, v, {});
    LeadsConcat(ONE, s0, a0, s1, a1, s2);
    assert s2.data.cache == map[k := Entry(v, 1, Dirty)];
    var a2 := StopsToFlush(s2, 1, k);
    e := With(s2, 1, FlushEntry(k, None, ToAll(0, [], false, true))).(gate := s2.gate.(lifecycle := Stopping));
    LeadsConcat(ONE, s0, a0 + a1, s2, a2, e);
    actions := a0 + a1 + a2;
  }

  lemma FailedStop(s: State, k: Key) returns (actions: seq<Action>, e: State)
    requires |s.data.fences| == 1 && s.threads == map[1 := FlushEntry(k, None, ToAll(0, [], false, true))]
    requires k in s.data.cache && s.data.cache[k].state == Dirty
    ensures Leads(ONE, s, actions, e)
    ensures e == State(s.data.(cache := map[], fences := [0], recordCount := 0, counter := 0, marked := false), Gate(Ready, 0, false), map[])
  {
    hide Next, Enabled, Leads;
    var a1 := FlushFails(s, 1, k);
    var s1 := With(s, 1, AllKeys(0, [], true, true));
    var a2 := StopsDirty(s1, 1, k);
    var s2 := With(s1, 1, Idle).(gate := s1.gate.(lifecycle := Stopped));
    LeadsConcat(ONE, s, a1, s1, a2, s2);
    var a3, s3 := MarksAndReopens(s2);
    LeadsConcat(ONE, s, a1 + a2, s2, a3, s3);
    actions, e := a1 + a2 + a3, s3;
  }

  // ----- Writes that are too long to be read back -----

  /**
  No write checks a length. A Put with a key or value over 64 MiB that still fits a frame succeeds;
  replay then fails on its record, and after a crash nothing is served at all, not even the small
  write acknowledged before it.
  */
  lemma LongPutBlocksRestart(k: Key, v: Value, k2: Key, v2: Value) returns (states: seq<State>, actions: seq<Action>)
    requires k2 != k && Short(k, v) && !Short(k2, v2) && Framable(Upsert(k2, v2, 2))
    ensures IsRun(ONE, states, actions)
    ensures var s := states[|actions|];
            && s.data.cache == map[k := Entry(v, 1, Dirty), k2 := Entry(v2, 2, Dirty)] && (forall t | t in s.threads :: s.threads[t] == Idle)
            && Durability.Startup(s.data) == None
  {
    hide Next, Enabled, Leads, Moves;
    var s0, a0, s1 := Boots();
    var a1, s2 := Puts(s1, 1, k, v, {});
    LeadsConcat(ONE, s0, a0, s1, a1, s2);
    var a2, s3 := Puts(s2, 1, k2, v2, {});
    LeadsConcat(ONE, s0, a0 + a1, s2, a2, s3);
    actions := a0 + a1 + a2;
    states := LeadsIsRun(ONE, s0, actions, s3);
    assert s3.data.journal[1] == Upsert(k2, v2, 2) && !Small(s3.data.journal[1]);
    assert s3.data.cache == map[k := Entry(v, 1, Dirty), k2 := Entry(v2, 2, Dirty)];
  }

  /**
  A Put too long for a frame succeeds as well; replay then stops there without an error. After a
  crash the startup succeeds and has lost that write and the small one acknowledged after it.
  */
  lemma OverlongPutHidesLater(k: Key, v: Value, k2: Key, v2: Value) returns (states: seq<State>, actions: seq<Action>)
    requires k2 != k && !Framable(Upsert(k, v, 1)) && Short(k2, v2)
    ensures IsRun(ONE, states, actions)
    ensures var s := states[|actions|];
            && s.data.cache == map[k := Entry(v, 1, Dirty), k2 := Entry(v2, 2, Dirty)] && (forall t | t in s.threads :: s.threads[t] == Idle)
            && Durability.Startup(s.data) == Some(map[])
  {
    hide Next, Enabled, Leads, Moves;
    var s0, a0, s1 := Boots();
    var a1, s2 := Puts(s1, 1, k, v, {});
    LeadsConcat(ONE, s0, a0, s1, a1, s2);
    var a2, s3 := Puts(s2, 1, k2, v2, {});
    LeadsConcat(ONE, s0, a0 + a1, s2, a2, s3);
    actions := a0 + a1 + a2;
    states := LeadsIsRun(ONE, s0, actions, s3);
    assert s3.data.journal == [] && Pending([]) == map[] && InvalidatedKeys([]) == {};
    assert s3.data.cache == map[k := Entry(v, 1, Dirty), k2 := Entry(v2, 2, Dirty)];
  }

  // ----- An invalidation that a flush overlaps -----

  /** The rest of a forced invalidation, when the resident entry is the version it noted. */
  lemma InvalidateErases(s: State, t: Tid, k: Key, n: nat) returns (actions: seq<Action>, e: State)
    requires Serving(s) && !s.data.torn && Short(k, []) && PcOf(s, t) == Invalidating(k, n, true, Peeked) && s.gate.inFlight > 0
    requires k in s.data.cache && s.data.cache[k].version == n
    ensures Leads(ONE, s, actions, e)
    ensures e == State(s.data.(journal := s.data.journal + [Invalidate(k, n)], recordCount := s.data.recordCount + 1,
                               cache := s.data.cache - {k}, store := s.data.store - {k}, fences := Bumped(s.data.fences, 0)),
                       s.gate.(inFlight := s.gate.inFlight - 1), s.threads[t := Idle])
  {
    var b := Step(t, OK);
    var s1 := Next(ONE, s, b);
    var s2 := Next(ONE, s1, b);
    LeadsOne(ONE, s, b);
    LeadsOne(ONE, s1, b);
    LeadsConcat(ONE, s, [b], s1, [b], s2);
    var s3 := Next(ONE, s2, b);
    e := Next(ONE, s3, b);
    LeadsOne(ONE, s2, b);
    LeadsOne(ONE, s3, b);
    LeadsConcat(ONE, s2, [b], s3, [b], e);
    LeadsConcat(ONE, s, [b] + [b], s2, [b] + [b], e);
    actions := [b] + [b] + ([b] + [b]);
    assert e.threads == s.threads[t := Idle];
  }

  /**
  A flush has claimed a key when a ForceInvalidate of it runs from start to end; then the flush writes
  to the store. Both calls succeed, the cache is empty, and the invalidated key is served from the
  store again, and for good once the journal is truncated.
  */
  lemma OverlappingFlushResurrects(k: Key, v: Value) returns (states: seq<State>, actions: seq<Action>)
    requires Short(k, v)
    ensures IsRun(ONE, states, actions)
    ensures var s := states[|actions|];
            && s.data.cache == map[] && s.data.store == map[k := v] && (forall t | t in s.threads :: s.threads[t] == Idle)
            && s.data.journal == [Upsert(k, v, 1), FlushIntent(k, 1), Invalidate(k, 1), FlushComplete(k, 1)]
            && At(Recovered([], s.data.store), k) == Some(v)
  {
    hide Next, Enabled, Leads, Moves;
    var s0, a0, s1 := ClaimedState(k, v);
    var a1 := InvalidatePeeks(s1, 1, k, true);
    var s2 := With(s1, 1, Invalidating(k, 1, true, Peeked)).(gate := s1.gate.(inFlight := 1));
    LeadsConcat(ONE, s0, a0, s1, a1, s2);
    var a2, s3 := InvalidateErases(s2, 1, k, 1);
    LeadsConcat(ONE, s0, a0 + a1, s2, a2, s3);
    var a3, s4 := FlushEnds(s3, 2, k, v, 1);
    LeadsConcat(ONE, s0, a0 + a1 + a2, s3, a3, s4);
    actions := a0 + a1 + a2 + a3;
    states := LeadsIsRun(ONE, s0, actions, s4);
    assert s4.data.cache == map[];
    assert s4.data.journal == [Upsert(k, v, 1), FlushIntent(k, 1), Invalidate(k, 1), FlushComplete(k, 1)];
    assert Pending([]) == map[] && InvalidatedKeys([]) == {};
  }

  // ----- A Get that answers NotFound although its key is cached by then -----

  lemma GetMisses(s: State, t: Tid, k: Key) returns (actions: seq<Action>)
    requires Serving(s) && PcOf(s, t) == Idle && k !in s.data.cache
    ensures Leads(ONE, s, actions, With(s, t, Getting(k, Missed(s.data.fences[0]))))
  {
    var a, b := Start(t, Getting(k, Lookup)), Step(t, OK);
    var s1 := Next(ONE, s, a);
    var s2 := Next(ONE, s1, b);
    LeadsOne(ONE, s, a);
    LeadsOne(ONE, s1, b);
    LeadsConcat(ONE, s, [a], s1, [b], s2);
    actions := [a] + [b];
    assert s2 == With(s, t, Getting(k, Missed(s.data.fences[0])));
  }

  /**
  A Get re-examines the cache only after it has read a value. If the store has none, it answers NotFound
  at once, although a Put of its key was committed and acknowledged since its lookup.
  */
  lemma NotFoundAlthoughCached(k: Key, v: Value) returns (states: seq<State>, actions: seq<Action>)
    ensures IsRun(ONE, states, actions)
    ensures var s := states[|actions|];
            && s.data.cache == map[k := Entry(v, 1, Dirty)] && PcOf(s, 2) == Idle && |s.data.fences| == 1
            && Answers.ReplyOf(ONE, s.data, s.gate, PcOf(s, 1), OK) == Answers.Failed(NotFound)
  {
    hide Next, Enabled, Leads, Moves;
    var s0, a0, s1 := Boots();
    var a1 := GetMisses(s1, 1, k);
    var s2 := With(s1, 1, Getting(k, Missed(0)));
    LeadsConcat(ONE, s0, a0, s1, a1, s2);
    var a2, s3 := Puts(s2, 2, k, v, {});
    LeadsConcat(ONE, s0, a0 + a1, s2, a2, s3);
    actions := a0 + a1 + a2;
    states := LeadsIsRun(ONE, s0, actions, s3);
    assert s3.data.cache == map[k := Entry(v, 1, Dirty)];
  }
}
