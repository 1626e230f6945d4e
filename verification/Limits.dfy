/**
Lengths over whole runs. No write checks a length, and replay checks two: a longer field fails it, a
longer frame ends it. If the writes that callers have journaled were within a limit, then so is every
record that can ever be appended, the engine's own flush records included.
*/
module Limits {
  import opened CacheTypes
  import opened Replay
  import opened Protocol
  import opened Versions

  /** What replay needs of a record: to decode it, or at least to read past its frame. */
  datatype Limit = ToDecode | ToFrame

  predicate Sized(l: Limit, k: Key, v: Value) {
    match l
    case ToDecode => |k| <= MAX_RECORD_FIELD && |v| <= MAX_RECORD_FIELD
    case ToFrame => RECORD_OVERHEAD + |k| + |v| <= MAX_PAYLOAD
  }

  predicate Meets(l: Limit, r: Record) {
    Sized(l, r.key, ValueOf(r))
  }

  lemma MeetsMeaning(r: Record)
    ensures Meets(ToDecode, r) <==> Small(r)
    ensures Meets(ToFrame, r) <==> Framable(r)
    ensures Small(r) ==> Framable(r)
  {
  }

  predicate AllMeet(l: Limit, records: seq<Record>) {
    forall i | 0 <= i < |records| :: Meets(l, records[i])
  }

  // ----- One step -----

  predicate PcSized(l: Limit, pc: Pc) {
    pc.Flushing? || InWindow(pc) ==> Sized(l, pc.k, pc.v)
  }

  predicate UnflushedSized(l: Limit, cache: Cache) {
    forall k | k in cache && cache[k].state != Clean :: Sized(l, k, cache[k].value)
  }

  /** Whatever is journaled, unflushed or on its way to the store is within the limit. */
  ghost predicate SizeInv(l: Limit, s: State) {
    && AllMeet(l, s.data.journal)
    && UnflushedSized(l, s.data.cache)
    && forall t | t in s.threads :: PcSized(l, s.threads[t])
  }

  /** A record that a caller's write is about to append is within the limit. */
  predicate StepSized(l: Limit, s: State, a: Action) {
    a.Step? && a.ch.ok ==> AskSized(l, PcOf(s, a.t))
  }

  predicate AskSized(l: Limit, pc: Pc) {
    && (pc.Putting? && pc.put == PutAdmitted ==> Sized(l, pc.k, pc.v))
    && (pc.Invalidating? && pc.inv == Peeked ==> Sized(l, pc.k, []))
  }

  /** Then every record about to be appended is. */
  lemma NextSized(l: Limit, s: State, t: Tid)
    requires SizeInv(l, s) && AskSized(l, PcOf(s, t))
    ensures var r := NextRecord(s.data, PcOf(s, t)); r.Some? ==> Meets(l, r.value)
  {
  }

  /** Where the values that threads carry come from. */
  predicate HandsOver(d: Data, pc: Pc, pc': Pc, ok: bool) {
    && (pc'.Flushing? ==>
          || (pc.Flushing? && pc'.k == pc.k && pc'.v == pc.v)
          || (pc'.k in d.cache && d.cache[pc'.k].state == Dirty && d.cache[pc'.k].value == pc'.v))
    && (InWindow(pc') ==> pc.Putting? && pc.put == PutAdmitted && ok && pc'.k == pc.k && pc'.v == pc.v)
  }

  lemma StepHandsOver(c: Config, d: Data, g: Gate, pc: Pc, ch: Choice)
    requires |d.fences| == c.shards && CanStep(c, d, g, pc, ch)
    ensures HandsOver(d, pc, Act(c, d, g, pc, ch).pc, ch.ok)
  {
    hide Append, CommitData, Settle;
  }

  lemma CacheSized(l: Limit, c: Config, d: Data, pc: Pc, ch: Choice)
    requires |d.fences| == c.shards && UnflushedSized(l, d.cache) && PcSized(l, pc)
    ensures UnflushedSized(l, NextCache(c, d, pc, ch))
  {
    hide Sized;
  }

  lemma ThreadStepSized(l: Limit, c: Config, s: State, t: Tid, ch: Choice, s': State)
    requires SizeInv(l, s) && StepSized(l, s, Step(t, ch)) && Transition(c, s, Step(t, ch), s')
    ensures SizeInv(l, s')
  {
    hide Act, NextCache, UnflushedSized, Sized;
    var d, pc := s.data, PcOf(s, t);
    StepJournal(c, d, s.gate, pc, ch);
    if ch.ok {
      NextSized(l, s, t);
    }
    StepCache(c, d, s.gate, pc, ch);
    CacheSized(l, c, d, pc, ch);
    StepHandsOver(c, d, s.gate, pc, ch);
    UnflushedAt(l, d.cache);
  }

  lemma UnflushedAt(l: Limit, cache: Cache)
    requires UnflushedSized(l, cache)
    ensures forall k | k in cache && cache[k].state == Dirty :: Sized(l, k, cache[k].value)
  {
  }

  lemma {:induction false} PendingSized(l: Limit, records: seq<Record>)
    requires AllMeet(l, records)
    ensures forall k | k in Pending(records) :: Sized(l, k, Pending(records)[k].value)
  {
    hide Sized;
    if records != [] {
      PendingSized(l, records[..|records| - 1]);
      assert Meets(l, records[|records| - 1]);
    }
  }

  lemma StepKeepsSized(l: Limit, c: Config, s: State, a: Action, s': State)
    requires SizeInv(l, s) && StepSized(l, s, a) && Transition(c, s, a, s') && Versions.Inv(c, s)
    ensures SizeInv(l, s')
  {
    hide Act, Sized;
    match a
    case Step(t, ch) => ThreadStepSized(l, c, s, t, ch, s');
    case Recover(fences) =>
      PendingSized(l, s.data.journal);
      assert s'.threads == map[];
    case Start(t, first) => assert !first.Flushing? && !InWindow(first);
    case Crash =>
    case TornCrash(_) =>
    case PartialReplay(_) =>
    case MarkClean =>
    case SkipReplay(_) =>
  }

  // ----- Whole runs -----

  ghost predicate SizedRun(l: Limit, states: seq<State>, actions: seq<Action>, n: nat)
    requires n <= |actions| < |states|
  {
    forall i | 0 <= i < n :: StepSized(l, states[i], actions[i])
  }

  /** Every run whose callers' journaled writes are within the limit keeps all its records within it. */
  lemma {:induction false} RunSized(l: Limit, c: Config, states: seq<State>, actions: seq<Action>, n: nat)
    requires IsRun(c, states, actions) && n < |states| && SizedRun(l, states, actions, n)
    ensures SizeInv(l, states[n])
  {
    hide Transition, SizeInv, StepSized;
    if n == 0 {
      FirstSized(l, c, states[0]);
    } else {
      RunSized(l, c, states, actions, n - 1);
      Versions.RunInv(c, states, actions, n - 1);
      assert Moves(c, states, actions, n - 1);
      StepKeepsSized(l, c, states[n - 1], actions[n - 1], states[n]);
    }
  }

  lemma FirstSized(l: Limit, c: Config, s: State)
    requires Init(c, s)
    ensures SizeInv(l, s)
  {
  }

  // ----- From the calls -----

  predicate CallSized(l: Limit, pc: Pc) {
    && (pc.Putting? && pc.put in {PutChecked, PutAdmitted} ==> Sized(l, pc.k, pc.v))
    && (pc.Invalidating? ==> Sized(l, pc.k, []))
  }

  /** Every Put and every invalidation of the run is called with a key and a value within the limit. */
  ghost predicate Called(l: Limit, actions: seq<Action>) {
    forall i | 0 <= i < |actions| && actions[i].Start? :: CallSized(l, actions[i].first)
  }

  lemma CallStep(l: Limit, c: Config, d: Data, g: Gate, pc: Pc, ch: Choice)
    requires |d.fences| == c.shards && CanStep(c, d, g, pc, ch) && CallSized(l, pc)
    ensures CallSized(l, Act(c, d, g, pc, ch).pc)
  {
    hide Append, CommitData, Settle, Sized;
  }

  lemma {:induction false} CallsKept(l: Limit, c: Config, states: seq<State>, actions: seq<Action>, i: nat)
    requires IsRun(c, states, actions) && i < |states| && Called(l, actions)
    ensures forall t | t in states[i].threads :: CallSized(l, states[i].threads[t])
  {
    hide CallSized, Act;
    if i > 0 {
      CallsKept(l, c, states, actions, i - 1);
      assert Moves(c, states, actions, i - 1);
      var s, a := states[i - 1], actions[i - 1];
      if a.Step? {
        assert a.t in s.threads by { IdleStays(c, s, a.t, a.ch); }
        CallStep(l, c, s.data, s.gate, PcOf(s, a.t), a.ch);
      }
    }
  }

  lemma IdleStays(c: Config, s: State, t: Tid, ch: Choice)
    requires CanStep(c, s.data, s.gate, PcOf(s, t), ch)
    ensures t in s.threads
  {
  }

  /** What the callers ask for bounds what they journal. */
  lemma CallsSized(l: Limit, c: Config, states: seq<State>, actions: seq<Action>)
    requires IsRun(c, states, actions) && Called(l, actions)
    ensures SizedRun(l, states, actions, |actions|)
  {
    forall i | 0 <= i < |actions|
      ensures StepSized(l, states[i], actions[i])
    {
      CallsKept(l, c, states, actions, i);
    }
  }
}
