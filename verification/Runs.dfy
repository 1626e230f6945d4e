/** Building runs of the step machine from lists of actions, and the stretches the counterexamples are made of. */
module Runs {
  import opened CacheTypes
  import opened Replay
  import opened Protocol

  // ----- Executing a list of actions -----

  ghost predicate Enabled(c: Config, s: State, a: Action) {
    && |s.data.fences| == c.shards
    && match a
       case Start(t, first) => PcOf(s, t) == Idle && Startable(s.gate, first)
       case Step(t, ch) => CanStep(c, s.data, s.gate, PcOf(s, t), ch)
       case Crash => true
       case TornCrash(t) => NextRecord(s.data, PcOf(s, t)).Some?
       case PartialReplay(count) => s.gate.lifecycle == NotReady && !s.data.marked && count <= |s.data.journal| && AllSmall(s.data.journal[..count])
       case Recover(fences) => s.gate.lifecycle == NotReady && !s.data.marked && |fences| == c.shards && AllSmall(s.data.journal)
       case MarkClean => s.gate.lifecycle == Stopped && forall t | t in s.threads :: s.threads[t] == Idle
       case SkipReplay(fences) => s.gate.lifecycle == NotReady && s.data.marked && |fences| == c.shards
  }

  ghost function Next(c: Config, s: State, a: Action): (s': State)
    requires Enabled(c, s, a)
    ensures Transition(c, s, a, s')
  {
    match a
    case Start(t, first) =>
      State(s.data, if first.ShuttingDown? then s.gate.(lifecycle := Stopping) else s.gate, s.threads[t := first])
    case Step(t, ch) =>
      var o := Act(c, s.data, s.gate, PcOf(s, t), ch);
      State(o.data, o.gate, s.threads[t := o.pc])
    case Crash => Crashed(s)
    case TornCrash(_) => Torn(Crashed(s))
    case MarkClean => s.(data := s.data.(marked := true))
    case SkipReplay(fences) => Opened(s, fences)
    case PartialReplay(count) => s.(data := s.data.(store := s.data.store - InvalidatedKeys(s.data.journal[..count])))
    case Recover(fences) => Replayed(s, fences)
  }

  /** The actions lead from s to s'. */
  ghost predicate Leads(c: Config, s: State, actions: seq<Action>, s': State)
    decreases |actions|
  {
    if actions == [] then s == s'
    else Enabled(c, s, actions[0]) && Leads(c, Next(c, s, actions[0]), actions[1..], s')
  }

  lemma LeadsOne(c: Config, s: State, a: Action)
    requires Enabled(c, s, a)
    ensures Leads(c, s, [a], Next(c, s, a))
  {
    assert [a][1..] == [];
  }

  lemma {:induction false} LeadsConcat(c: Config, s: State, a: seq<Action>, m: State, b: seq<Action>, e: State)
    requires Leads(c, s, a, m) && Leads(c, m, b, e)
    ensures Leads(c, s, a + b, e)
    decreases |a|
  {
    if a == [] {
      assert a + b == b;
    } else {
      assert (a + b)[1..] == a[1..] + b;
      LeadsConcat(c, Next(c, s, a[0]), a[1..], m, b, e);
    }
  }

  /** Such a list of actions is a run, from an initial state. */
  lemma {:induction false} LeadsIsRun(c: Config, s: State, actions: seq<Action>, e: State) returns (states: seq<State>)
    requires Leads(c, s, actions, e)
    ensures |states| == |actions| + 1 && states[0] == s && states[|actions|] == e
    ensures forall i | 0 <= i < |actions| :: Moves(c, states, actions, i)
    decreases |actions|
  {
    if actions == [] {
      states := [s];
    } else {
      var rest := LeadsIsRun(c, Next(c, s, actions[0]), actions[1..], e);
      states := [s] + rest;
      forall i | 0 <= i < |actions|
        ensures Moves(c, states, actions, i)
      {
        assert i > 0 ==> Moves(c, rest, actions[1..], i - 1);
      }
    }
  }

  // ----- Building blocks -----

  const ONE: Config := RawConfig(1, _ => 0, false)
  const OK: Choice := Choice(true, false, {}, None, [])

  function Evicting(keys: set<Key>): Choice {
    OK.(evict := keys)
  }

  /** One shard, ready, not paused. */
  predicate Serving(s: State) {
    |s.data.fences| == 1 && s.gate.lifecycle == Ready && !s.gate.paused
  }

  /** The readable journal after an append. */
  function Written(d: Data, r: Record): seq<Record> {
    if Hides(d, r) then d.journal else d.journal + [r]
  }

  /** A key and a value that replay decodes. */
  predicate Short(k: Key, v: Value) {
    |k| <= MAX_RECORD_FIELD && |v| <= MAX_RECORD_FIELD
  }

  function With(s: State, t: Tid, pc: Pc): State {
    s.(threads := s.threads[t := pc])
  }

  /** A Put up to and including its journal append. */
  lemma PutAppends(s: State, t: Tid, k: Key, v: Value) returns (actions: seq<Action>, e: State)
    requires Serving(s) && PcOf(s, t) == Idle
    ensures Leads(ONE, s, actions, e)
    ensures var n := s.data.counter + 1;
            e == State(s.data.(journal := Written(s.data, Upsert(k, v, n)), torn := Hides(s.data, Upsert(k, v, n)), recordCount := s.data.recordCount + 1, counter := n),
                       s.gate.(inFlight := s.gate.inFlight + 1), s.threads[t := Putting(k, v, n, Journaled)])
  {
    var a, b, d := Start(t, Putting(k, v, 0, PutChecked)), Step(t, OK), Step(t, OK);
    var s1 := Next(ONE, s, a);
    var s2 := Next(ONE, s1, b);
    e := Next(ONE, s2, d);
    actions := [a] + [b] + [d];
    LeadsOne(ONE, s, a);
    LeadsOne(ONE, s1, b);
    LeadsOne(ONE, s2, d);
    LeadsConcat(ONE, s, [a], s1, [b], s2);
    LeadsConcat(ONE, s, [a] + [b], s2, [d], e);
    assert e.threads == s.threads[t := e.threads[t]];
  }

  /** The rest of that Put: commit with the given evictions, no relief needed, release. */
  lemma PutFinishes(s: State, t: Tid, k: Key, v: Value, n: nat, evict: set<Key>) returns (actions: seq<Action>, e: State)
    requires Serving(s) && PcOf(s, t) == Putting(k, v, n, Journaled) && s.gate.inFlight > 0
    requires k in s.data.cache ==> !Stale(n, s.data.cache[k].version)
    requires forall x | x in evict :: x != k && x in s.data.cache && s.data.cache[x].state == Clean
    ensures Leads(ONE, s, actions, e)
    ensures e == State(s.data.(cache := s.data.cache[k := Entry(v, n, Dirty)] - evict, fences := Bumped(s.data.fences, 0)),
                       s.gate.(inFlight := s.gate.inFlight - 1), s.threads[t := Idle])
  {
    var a, b := Step(t, Evicting(evict)), Step(t, OK);
    var s1 := Next(ONE, s, a);
    assert s1 == State(s.data.(cache := s.data.cache[k := Entry(v, n, Dirty)] - evict, fences := Bumped(s.data.fences, 0)),
                       s.gate, s.threads[t := Putting(k, v, n, Relief(MAX_FLUSH_ATTEMPTS))]);
    LeadsOne(ONE, s, a);
    var rest := PutReleases(s1, t, k, v, n);
    e := With(s1, t, Idle).(gate := s1.gate.(inFlight := s1.gate.inFlight - 1));
    LeadsConcat(ONE, s, [a], s1, rest, e);
    actions := [a] + rest;
    assert e.threads == s.threads[t := Idle];
  }

  lemma PutReleases(s: State, t: Tid, k: Key, v: Value, n: nat) returns (actions: seq<Action>)
    requires Serving(s) && PcOf(s, t) == Putting(k, v, n, Relief(MAX_FLUSH_ATTEMPTS)) && s.gate.inFlight > 0
    ensures Leads(ONE, s, actions, With(s, t, Idle).(gate := s.gate.(inFlight := s.gate.inFlight - 1)))
  {
    var b := Step(t, OK);
    var s1 := Next(ONE, s, b);
    var s2 := Next(ONE, s1, b);
    var s3 := Next(ONE, s2, b);
    LeadsOne(ONE, s, b);
    LeadsOne(ONE, s1, b);
    LeadsOne(ONE, s2, b);
    LeadsConcat(ONE, s, [b], s1, [b], s2);
    LeadsConcat(ONE, s, [b] + [b], s2, [b], s3);
    actions := [b] + [b] + [b];
    assert s3.threads == s.threads[t := Idle];
  }

  /** A flush of a Dirty key up to its intent record. */
  lemma FlushClaims(s: State, t: Tid, k: Key) returns (actions: seq<Action>, e: State)
    requires Serving(s) && !s.data.torn && Short(k, []) && PcOf(s, t) == Idle && k in s.data.cache && s.data.cache[k].state == Dirty
    ensures Leads(ONE, s, actions, e)
    ensures var x := s.data.cache[k];
            e == State(s.data.(cache := s.data.cache[k := x.(state := FlushInProgress)],
                               journal := s.data.journal + [FlushIntent(k, x.version)], recordCount := s.data.recordCount + 1),
                       s.gate, s.threads[t := Flushing(k, x.value, x.version, Intended, ToCaller)])
  {
    var a, b := Start(t, FlushEntry(k, None, ToCaller)), Step(t, OK);
    var s1 := Next(ONE, s, a);
    var s2 := Next(ONE, s1, b);
    e := Next(ONE, s2, b);
    LeadsOne(ONE, s, a);
    LeadsOne(ONE, s1, b);
    LeadsOne(ONE, s2, b);
    LeadsConcat(ONE, s, [a], s1, [b], s2);
    LeadsConcat(ONE, s, [a] + [b], s2, [b], e);
    actions := [a] + [b] + [b];
    assert e.threads == s.threads[t := e.threads[t]];
  }

  /** The rest of that flush: store write, completion record, settling. */
  lemma FlushEnds(s: State, t: Tid, k: Key, v: Value, n: nat) returns (actions: seq<Action>, e: State)
    requires Serving(s) && !s.data.torn && Short(k, []) && PcOf(s, t) == Flushing(k, v, n, Intended, ToCaller)
    ensures Leads(ONE, s, actions, e)
    ensures e == State(s.data.(cache := Settle(s.data.cache, k, n, Clean), store := s.data.store[k := v],
                               journal := s.data.journal + [FlushComplete(k, n)], recordCount := s.data.recordCount + 1),
                       s.gate, s.threads[t := Idle])
  {
    var b := Step(t, OK);
    var s1 := Next(ONE, s, b);
    var s2 := Next(ONE, s1, b);
    e := Next(ONE, s2, b);
    LeadsOne(ONE, s, b);
    LeadsOne(ONE, s1, b);
    LeadsOne(ONE, s2, b);
    LeadsConcat(ONE, s, [b], s1, [b], s2);
    LeadsConcat(ONE, s, [b] + [b], s2, [b], e);
    actions := [b] + [b] + [b];
    assert e.threads == s.threads[t := Idle];
  }

  /** An empty engine on an empty store, recovered. */
  lemma Boots() returns (s: State, actions: seq<Action>, e: State)
    ensures Init(ONE, s) && Leads(ONE, s, actions, e)
    ensures e == State(Data(map[], [0], [], 0, map[], 0, false, false), Gate(Ready, 0, false), map[])
  {
    s := State(Data(map[], [0], [], 0, map[], 0, false, false), Gate(NotReady, 0, false), map[]);
    var a := Recover([0]);
    e := Next(ONE, s, a);
    assert Pending([]) == map[] && InvalidatedKeys([]) == {};
    LeadsOne(ONE, s, a);
    actions := [a];
  }

  /** A whole Put by one thread. */
  lemma Puts(s: State, t: Tid, k: Key, v: Value, evict: set<Key>) returns (actions: seq<Action>, e: State)
    requires Serving(s) && PcOf(s, t) == Idle
    requires k in s.data.cache ==> s.data.cache[k].version <= s.data.counter
    requires forall x | x in evict :: x != k && x in s.data.cache && s.data.cache[x].state == Clean
    ensures Leads(ONE, s, actions, e)
    ensures var n := s.data.counter + 1;
            e == State(s.data.(cache := s.data.cache[k := Entry(v, n, Dirty)] - evict, fences := Bumped(s.data.fences, 0),
                               journal := Written(s.data, Upsert(k, v, n)), torn := Hides(s.data, Upsert(k, v, n)), recordCount := s.data.recordCount + 1, counter := n),
                       s.gate, s.threads[t := Idle])
  {
    hide Next, Enabled, Leads;
    var a, m := PutAppends(s, t, k, v);
    var b, f := PutFinishes(m, t, k, v, s.data.counter + 1, evict);
    LeadsConcat(ONE, s, a, m, b, f);
    actions, e := a + b, f;
    assert e.threads == s.threads[t := Idle];
  }

  /** A whole flush by one thread. */
  lemma Flushes(s: State, t: Tid, k: Key) returns (actions: seq<Action>, e: State)
    requires Serving(s) && !s.data.torn && Short(k, []) && PcOf(s, t) == Idle && k in s.data.cache && s.data.cache[k].state == Dirty
    ensures Leads(ONE, s, actions, e)
    ensures var x := s.data.cache[k];
            e == State(s.data.(cache := s.data.cache[k := x.(state := Clean)], store := s.data.store[k := x.value],
                               journal := s.data.journal + [FlushIntent(k, x.version)] + [FlushComplete(k, x.version)],
                               recordCount := s.data.recordCount + 2),
                       s.gate, s.threads[t := Idle])
  {
    hide Next, Enabled, Leads;
    var x := s.data.cache[k];
    var a, m := FlushClaims(s, t, k);
    var b, f := FlushEnds(m, t, k, x.value, x.version);
    LeadsConcat(ONE, s, a, m, b, f);
    actions, e := a + b, f;
    assert e.threads == s.threads[t := Idle];
    assert e.data.cache == s.data.cache[k := x.(state := Clean)];
  }
}
