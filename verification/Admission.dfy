/**
Write admission: the in-flight count is exact in every interleaving, and the journal is only
truncated when no admitted write is unfinished and every entry is Clean.
*/
module Admission {
  import opened CacheTypes
  import opened Protocol

  /** Threads between admission and release, including the flushes a Put runs on their behalf. */
  predicate InFlight(pc: Pc) {
    match pc
    case Putting(_, _, _, stage) => stage != PutChecked
    case Invalidating(_, _, _, stage) => stage != InvChecked
    case Releasing => true
    case FlushEntry(_, _, ret) => ret.ToRelief? || ret.ToThrough?
    case Flushing(_, _, _, _, ret) => ret.ToRelief? || ret.ToThrough?
    case _ => false
  }

  function Writers(threads: map<Tid, Pc>): set<Tid> {
    set t | t in threads && InFlight(threads[t])
  }

  /** The thread running Shutdown. */
  predicate Closer(pc: Pc) {
    match pc
    case ShuttingDown(_) => true
    case AllShard(_, _, closing) => closing
    case AllKeys(_, _, _, closing) => closing
    case Compacting(closing, _) => closing
    case FlushEntry(_, _, ret) => ret.ToAll? && ret.closing
    case Flushing(_, _, _, _, ret) => ret.ToAll? && ret.closing
    case _ => false
  }

  /** Shutdown after it has seen the count reach zero. */
  predicate Drained(pc: Pc) {
    Closer(pc) && pc != ShuttingDown(ShutDrain)
  }

  /** A compaction between setting and clearing the pause flag. */
  predicate InRegion(pc: Pc) {
    pc.Compacting? && pc.compact != Check && pc.compact != Pause
  }

  /** A compaction that has seen the count reach zero and has not yet truncated. */
  predicate Scanning(pc: Pc) {
    pc.Compacting? && (pc.compact.Scan? || pc.compact == Truncate)
  }

  predicate CleanBelow(c: Config, cache: Cache, n: nat) {
    forall k | k in cache && ShardOf(c, k) < n :: cache[k].state == Clean
  }

  /** What the scan over the shards has established so far. */
  predicate ScanOk(c: Config, cache: Cache, pc: Pc) {
    match pc
    case Compacting(_, Scan(i, dirty)) => i <= c.shards && (!dirty ==> CleanBelow(c, cache, i))
    case Compacting(_, Truncate) => CleanBelow(c, cache, c.shards)
    case ShuttingDown(ShutScan(i, dirty)) => i <= c.shards && (!dirty ==> CleanBelow(c, cache, i))
    case ShuttingDown(ShutTruncate) => CleanBelow(c, cache, c.shards)
    case _ => true
  }

  /** No two compactions overlap. */
  ghost predicate Disjoint(s: State) {
    forall t, u | t in s.threads && u in s.threads && InRegion(s.threads[t]) && InRegion(s.threads[u]) :: t == u
  }

  /** Admission facts that need no hypothesis. */
  ghost predicate Core(c: Config, s: State) {
    && |s.data.fences| == c.shards
    && s.gate.inFlight == |Writers(s.threads)|
    && (s.gate.lifecycle == NotReady ==> s.threads == map[])
    && (s.gate.paused ==> HasRegion(s.threads))
    && (forall t | t in s.threads && Closer(s.threads[t]) :: s.gate.lifecycle != Ready)
    && (forall t | t in s.threads && Drained(s.threads[t]) :: s.gate.inFlight == 0)
    && (forall t | t in s.threads && s.threads[t].ShuttingDown? :: ScanOk(c, s.data.cache, s.threads[t]))
  }

  /** Admission facts about compactions that do not overlap. */
  ghost predicate Compaction(c: Config, s: State) {
    && (forall t | t in s.threads && InRegion(s.threads[t]) :: s.gate.paused)
    && (forall t | t in s.threads && Scanning(s.threads[t]) :: s.gate.inFlight == 0)
    && (forall t | t in s.threads && s.threads[t].Compacting? :: ScanOk(c, s.data.cache, s.threads[t]))
  }

  lemma WritersUpdate(threads: map<Tid, Pc>, t: Tid, pc: Pc)
    ensures var before := t in threads && InFlight(threads[t]);
            |Writers(threads[t := pc])| == |Writers(threads)| + (if InFlight(pc) then 1 else 0) - (if before then 1 else 0)
    ensures t in threads && InFlight(threads[t]) ==> |Writers(threads)| > 0
  {
    var w, w' := Writers(threads), Writers(threads[t := pc]);
    assert w' == w - {t} + (if InFlight(pc) then {t} else {});
    if t in threads && InFlight(threads[t]) {
      assert t in w;
    }
  }

  /** How the gate follows the mover's program counter. */
  predicate GateRel(g: Gate, pc: Pc, g': Gate, pc': Pc) {
    && g'.inFlight == g.inFlight + (if InFlight(pc') then 1 else 0) - (if InFlight(pc) then 1 else 0)
    && (InFlight(pc') && !InFlight(pc) ==> !g.paused && g.lifecycle == Ready)
    && g'.lifecycle == (if pc == ShuttingDown(ShutStop) then Stopped else g.lifecycle)
    && (Closer(pc') ==> Closer(pc))
    && (Drained(pc') ==> Drained(pc) || g.inFlight == 0)
  }

  predicate RegionRel(g: Gate, pc: Pc, g': Gate, pc': Pc) {
    && g'.paused == (if pc.Compacting? && pc.compact == Pause then true
                     else if pc.Compacting? && pc.compact == Resume then false else g.paused)
    && (InRegion(pc') <==> (InRegion(pc) && pc.compact != Resume) || (pc.Compacting? && pc.compact == Pause))
    && (Scanning(pc') ==> Scanning(pc) || g.inFlight == 0)
    && (Scanning(pc) ==> !InFlight(pc'))
  }

  lemma GateStep(c: Config, d: Data, g: Gate, pc: Pc, ch: Choice)
    requires |d.fences| == c.shards && CanStep(c, d, g, pc, ch)
    requires InFlight(pc) ==> g.inFlight > 0
    ensures var o := Act(c, d, g, pc, ch); GateRel(g, pc, o.gate, o.pc)
  {
    hide GateRel, ActPut, ActInvalidate, ActGet, ActClaim, ActFlush, ActCompact, ActShut;
    if pc.Putting? {
      PutGate(c, d, g, pc, ch);
    } else if pc.FlushEntry? || pc.Flushing? {
      FlushGate(d, g, pc, ch.ok);
    } else {
      OtherGate(c, d, g, pc, ch);
    }
  }

  lemma PutGate(c: Config, d: Data, g: Gate, pc: Pc, ch: Choice)
    requires |d.fences| == c.shards && pc.Putting? && CanStep(c, d, g, pc, ch) && (InFlight(pc) ==> g.inFlight > 0)
    ensures var o := ActPut(c, d, g, pc.k, pc.v, pc.n, pc.put, ch); GateRel(g, pc, o.gate, o.pc)
  {
    hide Append;
  }

  lemma FlushGate(d: Data, g: Gate, pc: Pc, ok: bool)
    requires pc.FlushEntry? || pc.Flushing?
    ensures pc.FlushEntry? ==> var o := ActClaim(d, g, pc.k, pc.expected, pc.ret); GateRel(g, pc, o.gate, o.pc)
    ensures pc.Flushing? ==> var o := ActFlush(d, g, pc.k, pc.v, pc.n, pc.flush, pc.ret, ok); GateRel(g, pc, o.gate, o.pc)
  {
    hide Append;
  }

  lemma OtherGate(c: Config, d: Data, g: Gate, pc: Pc, ch: Choice)
    requires |d.fences| == c.shards && CanStep(c, d, g, pc, ch) && (InFlight(pc) ==> g.inFlight > 0)
    requires !pc.Putting? && !pc.FlushEntry? && !pc.Flushing?
    ensures var o := Act(c, d, g, pc, ch); GateRel(g, pc, o.gate, o.pc)
  {
    hide ActPut, ActClaim, ActFlush;
  }

  lemma RegionStep(c: Config, d: Data, g: Gate, pc: Pc, ch: Choice)
    requires |d.fences| == c.shards && CanStep(c, d, g, pc, ch)
    ensures var o := Act(c, d, g, pc, ch); RegionRel(g, pc, o.gate, o.pc)
  {
    hide Append;
  }

  /** Only an admitted write can make an entry unflushed. */
  lemma OnlyWritersDirty(c: Config, d: Data, g: Gate, pc: Pc, ch: Choice)
    requires |d.fences| == c.shards && CanStep(c, d, g, pc, ch) && !InFlight(pc)
    ensures var o := Act(c, d, g, pc, ch);
            forall k | k in o.data.cache && o.data.cache[k].state != Clean :: k in d.cache && d.cache[k].state != Clean
  {
    hide Append;
  }

  lemma ScanStep(c: Config, d: Data, g: Gate, pc: Pc, ch: Choice)
    requires |d.fences| == c.shards && CanStep(c, d, g, pc, ch) && ScanOk(c, d.cache, pc)
    ensures var o := Act(c, d, g, pc, ch);
            o.pc.Compacting? || o.pc.ShuttingDown? ==> ScanOk(c, o.data.cache, o.pc)
  {
    hide Append;
  }

  lemma ScanKept(c: Config, cache: Cache, cache': Cache, q: Pc)
    requires ScanOk(c, cache, q)
    requires forall k | k in cache' && cache'[k].state != Clean :: k in cache && cache[k].state != Clean
    ensures ScanOk(c, cache', q)
  {
  }

  lemma StepCore(c: Config, s: State, a: Action, s': State)
    requires Core(c, s) && Transition(c, s, a, s')
    ensures Core(c, s')
  {
    match a
    case Start(t, first) =>
      WritersUpdate(s.threads, t, first);
      RegionKept(s.threads, t, first);
    case Crash => assert Writers(s'.threads) == {};
    case TornCrash(t) => assert Writers(s'.threads) == {};
    case PartialReplay(count) =>
    case Recover(fences) =>
    case MarkClean =>
    case SkipReplay(fences) =>
    case Step(t, ch) => ThreadStepCore(c, s, t, ch, s');
  }

  lemma ThreadStepCore(c: Config, s: State, t: Tid, ch: Choice, s': State)
    requires Core(c, s) && Transition(c, s, Step(t, ch), s')
    ensures Core(c, s')
  {
    hide GateRel, RegionRel, ScanOk;
    var pc := PcOf(s, t);
    WritersUpdate(s.threads, t, s'.threads[t]);
    GateStep(c, s.data, s.gate, pc, ch);
    RegionStep(c, s.data, s.gate, pc, ch);
    ThreadStepScan(c, s, t, ch, s');
    CoreLift(c, s, t, s');
  }

  lemma CoreLift(c: Config, s: State, t: Tid, s': State)
    requires Core(c, s) && |s'.data.fences| == c.shards && s.gate.lifecycle != NotReady
    requires t in s'.threads && s'.threads == s.threads[t := s'.threads[t]]
    requires GateRel(s.gate, PcOf(s, t), s'.gate, s'.threads[t]) && RegionRel(s.gate, PcOf(s, t), s'.gate, s'.threads[t])
    requires forall u | u in s'.threads && s'.threads[u].ShuttingDown? :: ScanOk(c, s'.data.cache, s'.threads[u])
    ensures Core(c, s')
  {
    WritersUpdate(s.threads, t, s'.threads[t]);
    RegionKept(s.threads, t, s'.threads[t]);
  }

  ghost predicate HasRegion(threads: map<Tid, Pc>) {
    exists t :: t in threads && InRegion(threads[t])
  }

  lemma RegionKept(threads: map<Tid, Pc>, t: Tid, pc: Pc)
    ensures InRegion(pc) ==> HasRegion(threads[t := pc])
    ensures HasRegion(threads) && !(t in threads && InRegion(threads[t])) ==> HasRegion(threads[t := pc])
  {
    if InRegion(pc) {
      assert t in threads[t := pc];
    } else if HasRegion(threads) && !(t in threads && InRegion(threads[t])) {
      var u :| u in threads && InRegion(threads[u]);
      assert u in threads[t := pc];
    }
  }

  /** Shutdown's scan keeps its findings, because after the drain no writer is left. */
  lemma ThreadStepScan(c: Config, s: State, t: Tid, ch: Choice, s': State)
    requires Core(c, s) && Transition(c, s, Step(t, ch), s')
    ensures forall u | u in s'.threads && s'.threads[u].ShuttingDown? :: ScanOk(c, s'.data.cache, s'.threads[u])
  {
    var pc := PcOf(s, t);
    forall u | u in s'.threads && s'.threads[u].ShuttingDown?
      ensures ScanOk(c, s'.data.cache, s'.threads[u])
    {
      if u == t {
        if pc.ShuttingDown? { ScanStep(c, s.data, s.gate, pc, ch); } else { ShutEntry(c, s.data, s.gate, pc, ch); }
      } else if s.threads[u] != ShuttingDown(ShutDrain) {
        WritersUpdate(s.threads, t, pc);
        OnlyWritersDirty(c, s.data, s.gate, pc, ch);
        ScanKept(c, s.data.cache, s'.data.cache, s.threads[u]);
      }
    }
  }

  lemma ShutEntry(c: Config, d: Data, g: Gate, pc: Pc, ch: Choice)
    requires |d.fences| == c.shards && CanStep(c, d, g, pc, ch) && !pc.ShuttingDown?
    ensures var o := Act(c, d, g, pc, ch); o.pc.ShuttingDown? ==> o.pc.shut == ShutStop
  {
  }

  /** Non-overlapping compactions keep admission shut while they scan. */
  lemma StepCompaction(c: Config, s: State, a: Action, s': State)
    requires Core(c, s) && Compaction(c, s) && Disjoint(s) && Disjoint(s') && Transition(c, s, a, s')
    ensures Compaction(c, s')
  {
    if a.Step? {
      var t, ch := a.t, a.ch;
      var pc := PcOf(s, t);
      WritersUpdate(s.threads, t, s'.threads[t]);
      GateStep(c, s.data, s.gate, pc, ch);
      RegionStep(c, s.data, s.gate, pc, ch);
      CompactionScan(c, s, t, ch, s');
    }
  }

  lemma CompactionScan(c: Config, s: State, t: Tid, ch: Choice, s': State)
    requires Core(c, s) && Compaction(c, s) && Transition(c, s, Step(t, ch), s')
    ensures forall u | u in s'.threads && s'.threads[u].Compacting? :: ScanOk(c, s'.data.cache, s'.threads[u])
  {
    var pc := PcOf(s, t);
    forall u | u in s'.threads && s'.threads[u].Compacting?
      ensures ScanOk(c, s'.data.cache, s'.threads[u])
    {
      if u == t {
        if pc.Compacting? { ScanStep(c, s.data, s.gate, pc, ch); } else { CompactEntry(c, s.data, s.gate, pc, ch); }
      } else if Scanning(s.threads[u]) {
        WritersUpdate(s.threads, t, pc);
        OnlyWritersDirty(c, s.data, s.gate, pc, ch);
        ScanKept(c, s.data.cache, s'.data.cache, s.threads[u]);
      }
    }
  }

  lemma CompactEntry(c: Config, d: Data, g: Gate, pc: Pc, ch: Choice)
    requires |d.fences| == c.shards && CanStep(c, d, g, pc, ch) && !pc.Compacting?
    ensures var o := Act(c, d, g, pc, ch); o.pc.Compacting? ==> o.pc.compact == Check
  {
  }

  lemma RunCore(c: Config, states: seq<State>, actions: seq<Action>, i: nat)
    requires IsRun(c, states, actions) && i < |states|
    ensures Core(c, states[i])
  {
    if i == 0 {
      assert Writers(states[0].threads) == {};
    } else {
      RunCore(c, states, actions, i - 1);
      assert Moves(c, states, actions, i - 1);
      StepCore(c, states[i - 1], actions[i - 1], states[i]);
    }
  }

  lemma RunCompaction(c: Config, states: seq<State>, actions: seq<Action>, i: nat)
    requires IsRun(c, states, actions) && i < |states| && (forall j | 0 <= j <= i :: Disjoint(states[j]))
    ensures Compaction(c, states[i])
  {
    if i > 0 {
      RunCompaction(c, states, actions, i - 1);
      RunCore(c, states, actions, i - 1);
      assert Moves(c, states, actions, i - 1);
      StepCompaction(c, states[i - 1], actions[i - 1], states[i]);
    }
  }

  /** In every interleaving the in-flight count is the number of threads between admission and release. */
  lemma InFlightCountExact(c: Config, states: seq<State>, actions: seq<Action>, i: nat)
    requires IsRun(c, states, actions) && i < |states|
    ensures states[i].gate.inFlight == |set t | t in states[i].threads && InFlight(states[i].threads[t])|
  {
    RunCore(c, states, actions, i);
    assert Writers(states[i].threads) == set t | t in states[i].threads && InFlight(states[i].threads[t]);
  }

  /** No admitted write is unfinished and every entry of every shard is Clean. */
  ghost predicate Quiescent(s: State) {
    && (forall t | t in s.threads :: !InFlight(s.threads[t]))
    && (forall k | k in s.data.cache :: s.data.cache[k].state == Clean)
  }

  /** Whenever Shutdown truncates the journal, in any interleaving, the engine is quiescent. */
  lemma ShutdownTruncationSafe(c: Config, states: seq<State>, actions: seq<Action>, i: nat)
    requires IsRun(c, states, actions) && i < |actions|
    requires actions[i].Step? && PcOf(states[i], actions[i].t) == ShuttingDown(ShutTruncate)
    ensures Quiescent(states[i])
    ensures actions[i].ch.ok ==> states[i + 1].data.journal == [] && !states[i + 1].data.torn
  {
    RunCore(c, states, actions, i);
    NoWriters(states[i]);
    assert Moves(c, states, actions, i);
  }

  /** Whenever a compaction truncates the journal, and none has overlapped so far, the engine is quiescent. */
  lemma CompactionTruncationSafe(c: Config, states: seq<State>, actions: seq<Action>, i: nat)
    requires IsRun(c, states, actions) && i < |actions|
    requires forall j | 0 <= j <= i :: Disjoint(states[j])
    requires actions[i].Step? && PcOf(states[i], actions[i].t).Compacting? && PcOf(states[i], actions[i].t).compact == Truncate
    ensures Quiescent(states[i])
    ensures actions[i].ch.ok && states[i].data.recordCount > 0 ==> states[i + 1].data.journal == [] && !states[i + 1].data.torn
  {
    assert Moves(c, states, actions, i);
    RunCompaction(c, states, actions, i);
    RunCore(c, states, actions, i);
    NoWriters(states[i]);
  }

  lemma NoWriters(s: State)
    ensures |Writers(s.threads)| == 0 ==> forall t | t in s.threads :: !InFlight(s.threads[t])
  {
    if |Writers(s.threads)| == 0 {
      forall t | t in s.threads
        ensures !InFlight(s.threads[t])
      {
        assert t !in Writers(s.threads);
      }
    }
  }
}
