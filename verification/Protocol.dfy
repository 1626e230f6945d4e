/**
The engine as a step machine. Every shard critical section, journal call, store call and
admission action is one atomic step of one thread; any thread may take the next step.

What the environment or another layer decides is part of the action: whether an I/O call
succeeds, which Clean entries of the locked shard an eviction removes, whether the shard is
over budget, which Dirty key relief picks. The Shard class shows that the real loops choose
among these.
*/
module Protocol {
  import opened CacheTypes
  import opened Replay

  datatype RawConfig = RawConfig(shards: nat, hash: Key -> nat, writeThrough: bool)

  type Config = c: RawConfig | c.shards > 0 witness RawConfig(1, _ => 0, false)

  function ShardOf(c: Config, k: Key): (i: nat)
    ensures i < c.shards
  {
    c.hash(k) % c.shards
  }

  // ----- Program counters -----

  /** Where a call of FlushKey returns to. */
  datatype Return =
    | ToCaller
    | ToRelief(owner: Key, stamp: nat, left: nat)
    | ToThrough
    | ToAll(shard: nat, rest: seq<Key>, failed: bool, closing: bool)

  datatype PutStage = PutChecked | PutAdmitted | Journaled | Relief(left: nat) | Evicting(left: nat, flushed: bool) | Through

  datatype InvalidateStage = InvChecked | InvAdmitted | Peeked | Noted | Removed

  datatype GetStage = Lookup | Missed(fence: nat) | Fetched(fence: nat, v: Value)

  datatype FlushStage = Claimed | Intended | Stored | Logged | Reverting

  datatype CompactStage = Check | Pause | Drain | Scan(i: nat, dirty: bool) | Truncate | Resume

  datatype ShutStage = ShutDrain | ShutStop | ShutScan(i: nat, dirty: bool) | ShutTruncate

  /** The stage names what the thread does next. Closing marks Shutdown's own FlushAll. */
  datatype Pc =
    | Idle
    | Putting(k: Key, v: Value, n: nat, put: PutStage)
    | Invalidating(k: Key, n: nat, force: bool, inv: InvalidateStage)
    | Releasing
    | Getting(k: Key, get: GetStage)
    | FlushEntry(k: Key, expected: Option<nat>, ret: Return)
    | Flushing(k: Key, v: Value, n: nat, flush: FlushStage, ret: Return)
    | AllShard(i: nat, failed: bool, closing: bool)
    | AllKeys(i: nat, todo: seq<Key>, failed: bool, closing: bool)
    | Compacting(closing: bool, compact: CompactStage)
    | ShuttingDown(shut: ShutStage)

  // ----- State -----

  /**
  The shards, the journal, the store and the version counter. `journal` holds the records replay can
  reach. Once a crash has torn an append, or a record was too long for a frame that replay reads
  (`torn`), later appends land behind those bytes and replay does not reach them; truncation clears
  them away. `marked` is the session marker's clean flag.
  */
  datatype Data = Data(
    cache: Cache,
    fences: seq<nat>,
    journal: seq<Record>,
    recordCount: nat,
    store: map<Key, Value>,
    counter: nat,
    torn: bool,
    marked: bool)

  /** Lifecycle and write admission. */
  datatype Gate = Gate(lifecycle: Lifecycle, inFlight: nat, paused: bool)

  type Tid = nat

  datatype State = State(data: Data, gate: Gate, threads: map<Tid, Pc>)

  /** The outcomes a step leaves open. */
  datatype Choice = Choice(ok: bool, over: bool, evict: set<Key>, pick: Option<Key>, dirty: seq<Key>)

  datatype Action =
    | Start(t: Tid, first: Pc)
    | Step(t: Tid, ch: Choice)
    | Crash
    | TornCrash(t: Tid)
    | PartialReplay(count: nat) // a replay that ends before or at a record it cannot decode or carry out
    | Recover(fences: seq<nat>)
    | MarkClean
    | SkipReplay(fences: seq<nat>)

  function PcOf(s: State, t: Tid): Pc {
    if t in s.threads then s.threads[t] else Idle
  }

  // ----- Shared pieces of the steps -----

  /** An eviction may remove only Clean entries of the locked shard. */
  predicate Evictable(c: Config, cache: Cache, shard: nat, keys: set<Key>) {
    forall k | k in keys :: k in cache && ShardOf(c, k) == shard && cache[k].state == Clean
  }

  predicate ShardUnflushed(c: Config, cache: Cache, i: nat) {
    exists k :: k in cache && ShardOf(c, k) == i && cache[k].state != Clean
  }

  /** Replay will not reach the record: something unreadable lies before it, or it is too long itself. */
  predicate Hides(d: Data, r: Record) {
    d.torn || !Framable(r)
  }

  function Append(d: Data, r: Record): (d': Data)
    ensures d' == d.(journal := d'.journal, torn := d'.torn, recordCount := d'.recordCount)
  {
    d.(journal := if Hides(d, r) then d.journal else d.journal + [r], torn := Hides(d, r), recordCount := d.recordCount + 1)
  }

  function Truncated(d: Data): Data {
    d.(journal := [], recordCount := 0, torn := false)
  }

  function Bumped(fences: seq<nat>, i: nat): seq<nat>
    requires i < |fences|
  {
    fences[i := fences[i] + 1]
  }

  /** InsertOrUpdateLocked under the shard lock: version guard, insert, fence, eviction. */
  function CommitData(c: Config, d: Data, k: Key, e: Entry, evict: set<Key>): (d': Data)
    requires |d.fences| == c.shards
    ensures d' == d.(cache := d'.cache, fences := d'.fences)
  {
    if k in d.cache && Stale(e.version, d.cache[k].version) then d
    else d.(cache := d.cache[k := e] - evict, fences := Bumped(d.fences, ShardOf(c, k)))
  }

  predicate CommitEnabled(c: Config, d: Data, k: Key, e: Entry, evict: set<Key>) {
    Evictable(c, Commit(d.cache, k, e), ShardOf(c, k), evict)
  }

  function AfterFlush(ret: Return, ok: bool): Pc {
    match ret
    case ToCaller => Idle
    case ToRelief(k, n, left) => Putting(k, [], n, Evicting(left, ok))
    case ToThrough => Releasing
    case ToAll(i, rest, failed, closing) => AllKeys(i, rest, failed || !ok, closing)
  }

  function AfterAll(closing: bool): Pc {
    if closing then ShuttingDown(ShutStop) else Idle
  }

  // ----- One step of one thread -----

  datatype Outcome = Outcome(data: Data, gate: Gate, pc: Pc)

  /** Operations a thread may begin, after their readiness check. */
  predicate Startable(g: Gate, first: Pc) {
    match first
    case Putting(_, _, n, stage) => g.lifecycle == Ready && stage == PutChecked && n == 0
    case Invalidating(_, n, _, stage) => g.lifecycle == Ready && stage == InvChecked && n == 0
    case Getting(_, stage) => g.lifecycle in {Ready, Stopping} && stage == Lookup
    case FlushEntry(_, expected, ret) => g.lifecycle in {Ready, Stopping} && expected == None && ret == ToCaller
    case AllShard(i, failed, closing) => g.lifecycle in {Ready, Stopping} && i == 0 && !failed && !closing
    case ShuttingDown(stage) => g.lifecycle == Ready && stage == ShutDrain
    case _ => false
  }

  predicate CanStep(c: Config, d: Data, g: Gate, pc: Pc, ch: Choice) {
    match pc
    case Idle => false
    case Putting(k, v, n, stage) => CanPut(c, d, g, k, v, n, stage, ch)
    case Invalidating(_, _, _, stage) => stage == InvChecked ==> !g.paused
    case Getting(k, stage) => stage.Fetched? ==> CommitEnabled(c, d, k, Entry(stage.v, 0, Clean), ch.evict)
    case AllShard(i, _, _) => i < c.shards ==> IsDirtySnapshot(c, d.cache, i, ch.dirty)
    case Compacting(_, stage) => stage == Drain ==> g.inFlight == 0
    case ShuttingDown(stage) => stage == ShutDrain ==> g.inFlight == 0
    case _ => true
  }

  predicate CanPut(c: Config, d: Data, g: Gate, k: Key, v: Value, n: nat, stage: PutStage, ch: Choice) {
    match stage
    case PutChecked => !g.paused
    case Journaled => CommitEnabled(c, d, k, Entry(v, n, Dirty), ch.evict)
    case Relief(_) =>
      && Evictable(c, d.cache, ShardOf(c, k), ch.evict)
      && (ch.pick.Some? ==>
            var p := ch.pick.value;
            p in d.cache && ShardOf(c, p) == ShardOf(c, k) && d.cache[p].state == Dirty)
    case Evicting(_, _) => Evictable(c, d.cache, ShardOf(c, k), ch.evict)
    case _ => true
  }

  predicate IsDirtySnapshot(c: Config, cache: Cache, i: nat, keys: seq<Key>) {
    && (forall k | k in keys :: k in cache && ShardOf(c, k) == i && cache[k].state == Dirty)
    && (forall k | k in cache && ShardOf(c, k) == i && cache[k].state == Dirty :: k in keys)
  }

  function Act(c: Config, d: Data, g: Gate, pc: Pc, ch: Choice): Outcome
    requires |d.fences| == c.shards && CanStep(c, d, g, pc, ch)
  {
    match pc
    case Idle => Outcome(d, g, Idle)
    case Putting(k, v, n, stage) => ActPut(c, d, g, k, v, n, stage, ch)
    case Invalidating(k, n, force, stage) => ActInvalidate(c, d, g, k, n, force, stage, ch.ok)
    case Releasing => Outcome(d, g.(inFlight := if g.inFlight > 0 then g.inFlight - 1 else 0), Idle)
    case Getting(k, stage) => ActGet(c, d, g, k, stage, ch)
    case FlushEntry(k, expected, ret) => ActClaim(d, g, k, expected, ret)
    case Flushing(k, v, n, stage, ret) => ActFlush(d, g, k, v, n, stage, ret, ch.ok)
    case AllShard(i, failed, closing) =>
      Outcome(d, g,
              if i < c.shards then AllKeys(i, ch.dirty, failed, closing)
              else if failed then AfterAll(closing)
              else Compacting(closing, Check))
    case AllKeys(i, todo, failed, closing) =>
      Outcome(d, g,
              if todo == [] then AllShard(i + 1, failed, closing)
              else FlushEntry(todo[0], None, ToAll(i, todo[1..], failed, closing)))
    case Compacting(closing, stage) => ActCompact(c, d, g, closing, stage, ch.ok)
    case ShuttingDown(stage) => ActShut(c, d, g, stage, ch.ok)
  }

  function Admitted(d: Data, g: Gate, pc: Pc): Outcome {
    if g.lifecycle == Ready then Outcome(d, g.(inFlight := g.inFlight + 1), pc) else Outcome(d, g, Idle)
  }

  function ActPut(c: Config, d: Data, g: Gate, k: Key, v: Value, n: nat, stage: PutStage, ch: Choice): Outcome
    requires |d.fences| == c.shards
  {
    match stage
    case PutChecked => Admitted(d, g, Putting(k, v, n, PutAdmitted))
    case PutAdmitted =>
      // The version is consumed even when the append fails.
      var m := d.counter + 1;
      if ch.ok then Outcome(Append(d.(counter := m), Upsert(k, v, m)), g, Putting(k, v, m, Journaled))
      else Outcome(d.(counter := m), g, Releasing)
    case Journaled =>
      Outcome(CommitData(c, d, k, Entry(v, n, Dirty), ch.evict), g, Putting(k, v, n, Relief(MAX_FLUSH_ATTEMPTS)))
    case Relief(left) =>
      if left == 0 || !ch.over then Outcome(d, g, Putting(k, v, n, Through))
      else if ch.pick.Some? then Outcome(d, g, FlushEntry(ch.pick.value, None, ToRelief(k, n, left - 1)))
      else Outcome(d.(cache := d.cache - ch.evict), g, Putting(k, v, n, Through))
    case Evicting(left, flushed) =>
      Outcome(d.(cache := d.cache - ch.evict), g,
              Putting(k, v, n, if flushed && ch.over then Relief(left) else Through))
    case Through =>
      Outcome(d, g, if c.writeThrough then FlushEntry(k, Some(n), ToThrough) else Releasing)
  }

  function ActInvalidate(c: Config, d: Data, g: Gate, k: Key, n: nat, force: bool, stage: InvalidateStage, ok: bool): Outcome
    requires |d.fences| == c.shards
  {
    match stage
    case InvChecked => Admitted(d, g, Invalidating(k, n, force, InvAdmitted))
    case InvAdmitted =>
      if !force && Unflushed(d.cache, k) then Outcome(d, g, Releasing)
      else Outcome(d, g, Invalidating(k, if k in d.cache then d.cache[k].version else 0, force, Peeked))
    case Peeked =>
      if ok then Outcome(Append(d, Invalidate(k, n)), g, Invalidating(k, n, force, Noted)) else Outcome(d, g, Releasing)
    case Noted =>
      if ok then Outcome(d.(store := d.store - {k}), g, Invalidating(k, n, force, Removed)) else Outcome(d, g, Releasing)
    case Removed =>
      var erased := if k in d.cache && d.cache[k].version == n then d.cache - {k} else d.cache;
      Outcome(d.(cache := erased, fences := Bumped(d.fences, ShardOf(c, k))), g, Releasing)
  }

  function ActGet(c: Config, d: Data, g: Gate, k: Key, stage: GetStage, ch: Choice): Outcome
    requires |d.fences| == c.shards
  {
    match stage
    case Lookup =>
      Outcome(d, g, if k in d.cache then Idle else Getting(k, Missed(d.fences[ShardOf(c, k)])))
    case Missed(f) =>
      if ch.ok && k in d.store && |d.store[k]| <= MAX_VALUE_BYTES
      then Outcome(d, g, Getting(k, Fetched(f, d.store[k])))
      else Outcome(d, g, Idle)
    case Fetched(f, v) =>
      Outcome(if d.fences[ShardOf(c, k)] == f then CommitData(c, d, k, Entry(v, 0, Clean), ch.evict) else d, g, Idle)
  }

  /** FlushKey's first critical section. */
  function ActClaim(d: Data, g: Gate, k: Key, expected: Option<nat>, ret: Return): Outcome {
    if k !in d.cache then Outcome(d, g, AfterFlush(ret, false))
    else
      var e := d.cache[k];
      if (expected.Some? && e.version != expected.value) || e.state != Dirty then Outcome(d, g, AfterFlush(ret, true))
      else
        Outcome(d.(cache := d.cache[k := e.(state := FlushInProgress)]), g, Flushing(k, e.value, e.version, Claimed, ret))
  }

  function ActFlush(d: Data, g: Gate, k: Key, v: Value, n: nat, stage: FlushStage, ret: Return, ok: bool): Outcome {
    var revert := Outcome(d, g, Flushing(k, v, n, Reverting, ret));
    match stage
    case Claimed =>
      if ok then Outcome(Append(d, FlushIntent(k, n)), g, Flushing(k, v, n, Intended, ret)) else revert
    case Intended =>
      if ok then Outcome(d.(store := d.store[k := v]), g, Flushing(k, v, n, Stored, ret)) else revert
    case Stored =>
      if ok then Outcome(Append(d, FlushComplete(k, n)), g, Flushing(k, v, n, Logged, ret)) else revert
    case Logged =>
      Outcome(d.(cache := Settle(d.cache, k, n, Clean)), g, AfterFlush(ret, true))
    case Reverting =>
      Outcome(d.(cache := Settle(d.cache, k, n, Dirty)), g, AfterFlush(ret, false))
  }

  function ActCompact(c: Config, d: Data, g: Gate, closing: bool, stage: CompactStage, ok: bool): Outcome {
    match stage
    case Check => Outcome(d, g, if d.recordCount == 0 then AfterAll(closing) else Compacting(closing, Pause))
    case Pause => Outcome(d, g.(paused := true), Compacting(closing, Drain))
    case Drain => Outcome(d, g, Compacting(closing, Scan(0, false)))
    case Scan(i, dirty) =>
      Outcome(d, g,
              Compacting(closing,
                         if i < c.shards then Scan(i + 1, dirty || ShardUnflushed(c, d.cache, i))
                         else if dirty then Resume
                         else Truncate))
    case Truncate => Outcome(if d.recordCount > 0 && ok then Truncated(d) else d, g, Compacting(closing, Resume))
    case Resume => Outcome(d, g.(paused := false), AfterAll(closing))
  }

  function ActShut(c: Config, d: Data, g: Gate, stage: ShutStage, ok: bool): Outcome {
    match stage
    case ShutDrain => Outcome(d, g, AllShard(0, false, true))
    case ShutStop => Outcome(d, g.(lifecycle := Stopped), ShuttingDown(ShutScan(0, false)))
    case ShutScan(i, dirty) =>
      Outcome(d, g,
              if i < c.shards then ShuttingDown(ShutScan(i + 1, dirty || ShardUnflushed(c, d.cache, i)))
              else if dirty then Idle
              else ShuttingDown(ShutTruncate))
    case ShutTruncate => Outcome(if ok then Truncated(d) else d, g, Idle)
  }

  // ----- Restart -----

  function Restored(p: PendingMap): Cache {
    map k | k in p :: Entry(p[k].value, p[k].version, Dirty)
  }

  /** Volatile state is gone; the journal and the store survive. */
  function Crashed(s: State): State {
    State(s.data.(cache := map[], recordCount := 0, counter := 0), Gate(NotReady, 0, false), map[])
  }

  /** An append was under way: some of its bytes reached the file, but not all. */
  function Torn(s: State): State {
    s.(data := s.data.(torn := true))
  }

  /** A startup that finds the marker clean opens a session without replay. */
  function Opened(s: State, fences: seq<nat>): State {
    s.(data := s.data.(fences := fences, marked := false), gate := s.gate.(lifecycle := Ready))
  }

  ghost function Replayed(s: State, fences: seq<nat>): State {
    var p := Pending(s.data.journal);
    s.(data := s.data.(cache := Restored(p), fences := fences, counter := MaxVersion(p),
                       store := s.data.store - InvalidatedKeys(s.data.journal)),
       gate := s.gate.(lifecycle := Ready))
  }

  // ----- Transitions and runs -----

  /** The machine's transition relation. */
  ghost predicate Transition(c: Config, s: State, a: Action, s': State) {
    && |s.data.fences| == c.shards
    && match a
       case Start(t, first) =>
         && PcOf(s, t) == Idle && Startable(s.gate, first)
         && s' == State(s.data, if first.ShuttingDown? then s.gate.(lifecycle := Stopping) else s.gate, s.threads[t := first])
       case Step(t, ch) =>
         && CanStep(c, s.data, s.gate, PcOf(s, t), ch)
         && var o := Act(c, s.data, s.gate, PcOf(s, t), ch);
            s' == State(o.data, o.gate, s.threads[t := o.pc])
       case Crash => s' == Crashed(s)
       case TornCrash(t) =>
         NextRecord(s.data, PcOf(s, t)).Some? && s' == Torn(Crashed(s))
       case PartialReplay(count) =>
         && s.gate.lifecycle == NotReady && !s.data.marked && count <= |s.data.journal| && AllSmall(s.data.journal[..count])
         && s' == s.(data := s.data.(store := s.data.store - InvalidatedKeys(s.data.journal[..count])))
       case Recover(fences) =>
         && s.gate.lifecycle == NotReady && !s.data.marked && |fences| == c.shards && AllSmall(s.data.journal)
         && s' == Replayed(s, fences)
       case MarkClean =>
         && s.gate.lifecycle == Stopped && (forall t | t in s.threads :: s.threads[t] == Idle)
         && s' == s.(data := s.data.(marked := true))
       case SkipReplay(fences) =>
         && s.gate.lifecycle == NotReady && s.data.marked && |fences| == c.shards
         && s' == Opened(s, fences)
  }

  /** A fresh process on some store: nothing journaled, nothing cached, no session opened yet. */
  predicate Init(c: Config, s: State) {
    && s.data.cache == map[] && s.data.journal == [] && s.data.recordCount == 0 && s.data.counter == 0 && !s.data.torn
    && |s.data.fences| == c.shards && s.gate == Gate(NotReady, 0, false) && s.threads == map[]
  }

  /** A run: states[i] --actions[i]--> states[i + 1], from an initial state. */
  ghost predicate IsRun(c: Config, states: seq<State>, actions: seq<Action>) {
    && |states| == |actions| + 1
    && Init(c, states[0])
    && forall i | 0 <= i < |actions| :: Moves(c, states, actions, i)
  }

  ghost predicate Moves(c: Config, states: seq<State>, actions: seq<Action>, i: nat)
    requires i < |actions| < |states|
  {
    Transition(c, states[i], actions[i], states[i + 1])
  }

  // ----- What a step does to the journal -----

  /** The record a thread appends when it is about to, None otherwise. */
  function NextRecord(d: Data, pc: Pc): Option<Record> {
    match pc
    case Putting(k, v, _, stage) => if stage == PutAdmitted then Some(Upsert(k, v, d.counter + 1)) else None
    case Invalidating(k, n, _, stage) => if stage == Peeked then Some(Invalidate(k, n)) else None
    case Flushing(k, _, n, stage, _) =>
      if stage == Claimed then Some(FlushIntent(k, n)) else if stage == Stored then Some(FlushComplete(k, n)) else None
    case _ => None
  }

  predicate Truncating(pc: Pc) {
    (pc.Compacting? && pc.compact == Truncate) || (pc.ShuttingDown? && pc.shut == ShutTruncate)
  }

  /** What a step may do to the readable journal: nothing, empty it, or add the thread's record unless that is hidden. */
  predicate JournalRel(d: Data, pc: Pc, ok: bool, d': Data) {
    var r := NextRecord(d, pc);
    d'.marked == d.marked &&
    if r.Some? && ok then d'.journal == (if Hides(d, r.value) then d.journal else d.journal + [r.value]) && d'.torn == Hides(d, r.value)
    else (d'.journal == d.journal && d'.torn == d.torn) || (Truncating(pc) && d'.journal == [] && !d'.torn)
  }

  lemma StepJournal(c: Config, d: Data, g: Gate, pc: Pc, ch: Choice)
    requires |d.fences| == c.shards && CanStep(c, d, g, pc, ch)
    ensures JournalRel(d, pc, ch.ok, Act(c, d, g, pc, ch).data)
  {
    hide JournalRel, ActPut, ActInvalidate, ActFlush;
    if pc.Putting? {
      PutJournal(c, d, g, pc, ch);
    } else if pc.Invalidating? {
      InvalidateJournal(c, d, g, pc, ch.ok);
    } else if pc.Flushing? {
      FlushJournal(d, g, pc, ch.ok);
    } else {
      RestJournal(c, d, g, pc, ch);
    }
  }

  lemma PutJournal(c: Config, d: Data, g: Gate, pc: Pc, ch: Choice)
    requires |d.fences| == c.shards && pc.Putting?
    ensures JournalRel(d, pc, ch.ok, ActPut(c, d, g, pc.k, pc.v, pc.n, pc.put, ch).data)
  {
  }

  lemma InvalidateJournal(c: Config, d: Data, g: Gate, pc: Pc, ok: bool)
    requires |d.fences| == c.shards && pc.Invalidating?
    ensures JournalRel(d, pc, ok, ActInvalidate(c, d, g, pc.k, pc.n, pc.force, pc.inv, ok).data)
  {
  }

  lemma FlushJournal(d: Data, g: Gate, pc: Pc, ok: bool)
    requires pc.Flushing?
    ensures JournalRel(d, pc, ok, ActFlush(d, g, pc.k, pc.v, pc.n, pc.flush, pc.ret, ok).data)
  {
  }

  lemma RestJournal(c: Config, d: Data, g: Gate, pc: Pc, ch: Choice)
    requires |d.fences| == c.shards && CanStep(c, d, g, pc, ch) && !pc.Putting? && !pc.Invalidating? && !pc.Flushing?
    ensures JournalRel(d, pc, ch.ok, Act(c, d, g, pc, ch).data)
  {
    hide ActPut, ActInvalidate, ActFlush;
  }

  // ----- What a step does to the cache -----

  function CommitCache(cache: Cache, k: Key, e: Entry, evict: set<Key>): Cache {
    if k in cache && Stale(e.version, cache[k].version) then cache else cache[k := e] - evict
  }

  /** The cache after a step, read off the program counter. */
  function NextCache(c: Config, d: Data, pc: Pc, ch: Choice): Cache
    requires |d.fences| == c.shards
  {
    match pc
    case Putting(k, v, n, stage) =>
      if stage == Journaled then CommitCache(d.cache, k, Entry(v, n, Dirty), ch.evict)
      else if stage.Evicting? || (stage.Relief? && stage.left > 0 && ch.over && ch.pick == None) then d.cache - ch.evict
      else d.cache
    case Invalidating(k, n, _, stage) =>
      if stage == Removed && k in d.cache && d.cache[k].version == n then d.cache - {k} else d.cache
    case Getting(k, stage) =>
      if stage.Fetched? && d.fences[ShardOf(c, k)] == stage.fence then CommitCache(d.cache, k, Entry(stage.v, 0, Clean), ch.evict)
      else d.cache
    case FlushEntry(k, expected, _) =>
      if k in d.cache && (expected.None? || expected.value == d.cache[k].version) && d.cache[k].state == Dirty
      then d.cache[k := d.cache[k].(state := FlushInProgress)]
      else d.cache
    case Flushing(k, _, n, stage, _) =>
      if stage == Logged then Settle(d.cache, k, n, Clean)
      else if stage == Reverting then Settle(d.cache, k, n, Dirty)
      else d.cache
    case _ => d.cache
  }

  lemma StepCache(c: Config, d: Data, g: Gate, pc: Pc, ch: Choice)
    requires |d.fences| == c.shards && CanStep(c, d, g, pc, ch)
    ensures Act(c, d, g, pc, ch).data.cache == NextCache(c, d, pc, ch)
  {
    hide NextCache, ActPut, ActGet, ActInvalidate, ActClaim, ActFlush, ActCompact, ActShut;
    if pc.Putting? {
      PutCache(c, d, g, pc, ch);
    } else if pc.Getting? || pc.Invalidating? {
      GetCache(c, d, g, pc, ch);
    } else if pc.FlushEntry? || pc.Flushing? {
      FlushCache(c, d, g, pc, ch);
    } else {
      RestCache(c, d, g, pc, ch);
    }
  }

  lemma PutCache(c: Config, d: Data, g: Gate, pc: Pc, ch: Choice)
    requires |d.fences| == c.shards && pc.Putting?
    ensures ActPut(c, d, g, pc.k, pc.v, pc.n, pc.put, ch).data.cache == NextCache(c, d, pc, ch)
  {
    hide Append, CommitData;
    if pc.put == Journaled {
      CommitIsCache(c, d, pc.k, Entry(pc.v, pc.n, Dirty), ch.evict);
    }
  }

  lemma CommitIsCache(c: Config, d: Data, k: Key, e: Entry, evict: set<Key>)
    requires |d.fences| == c.shards
    ensures CommitData(c, d, k, e, evict).cache == CommitCache(d.cache, k, e, evict)
  {
  }

  lemma GetCache(c: Config, d: Data, g: Gate, pc: Pc, ch: Choice)
    requires |d.fences| == c.shards && (pc.Getting? || pc.Invalidating?)
    ensures pc.Getting? ==> ActGet(c, d, g, pc.k, pc.get, ch).data.cache == NextCache(c, d, pc, ch)
    ensures pc.Invalidating? ==> ActInvalidate(c, d, g, pc.k, pc.n, pc.force, pc.inv, ch.ok).data.cache == NextCache(c, d, pc, ch)
  {
    hide Append;
  }

  lemma FlushCache(c: Config, d: Data, g: Gate, pc: Pc, ch: Choice)
    requires |d.fences| == c.shards && (pc.FlushEntry? || pc.Flushing?)
    ensures pc.FlushEntry? ==> ActClaim(d, g, pc.k, pc.expected, pc.ret).data.cache == NextCache(c, d, pc, ch)
    ensures pc.Flushing? ==> ActFlush(d, g, pc.k, pc.v, pc.n, pc.flush, pc.ret, ch.ok).data.cache == NextCache(c, d, pc, ch)
  {
    hide Append, Settle;
  }

  lemma RestCache(c: Config, d: Data, g: Gate, pc: Pc, ch: Choice)
    requires |d.fences| == c.shards && CanStep(c, d, g, pc, ch)
    requires !pc.Putting? && !pc.Getting? && !pc.Invalidating? && !pc.FlushEntry? && !pc.Flushing?
    ensures Act(c, d, g, pc, ch).data.cache == NextCache(c, d, pc, ch)
  {
    hide ActPut, ActGet, ActInvalidate, ActClaim, ActFlush;
  }
}
