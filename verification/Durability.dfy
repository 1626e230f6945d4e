/**
Crash durability over whole runs: what the durable state says about a key, and what the threads at
work on it may rely on, is kept by every step.
*/
module Durability {
  import opened CacheTypes
  import opened Replay
  import opened Protocol
  import opened Versions
  import opened CommitOrder
  import opened KeyViews
  import Admission
  import Limits

  // ----- What holds of one key -----

  /** What replay serves for the key: the pending write, else nothing if the journal invalidates it, else the stored value. */
  function RecoveredAt(v: KeyView): Option<Value> {
    if v.pending.Some? then Some(v.pending.value.value) else if v.gone then None else v.stored
  }

  predicate Covers(p: Option<Stamped>, x: Value, n: nat) {
    p.Some? && n <= p.value.version && (n == p.value.version ==> p.value.value == x)
  }

  /**
  While the engine runs: versions are in range and every Dirty entry is still pending, unless its
  invalidation is under way. After a tear nothing new is written, so what is cached is what was
  pending then, or a read-fill.
  */
  predicate LiveKey(v: KeyView, vanishing: bool) {
    && (v.pending.Some? && !v.torn ==> v.pending.value.version <= v.counter)
    && (v.torn && v.entry.Some? && v.entry.value.version > 0 ==> v.pending == Some(Stamped(v.entry.value.value, v.entry.value.version)))
    && (v.entry.Some? ==> v.entry.value.version <= v.counter && (v.entry.value.version == 0 ==> v.entry.value.state == Clean))
    && (v.entry.Some? && v.entry.value.state == Dirty && !vanishing ==> Covers(v.pending, v.entry.value.value, v.entry.value.version))
  }

  predicate FlushKeyOk(v: KeyView, x: Value, n: nat, stage: FlushStage) {
    && n >= 1
    && v.entry.Some? && v.entry.value.version >= n
    && (if v.entry.value.version == n then v.entry.value.state == FlushInProgress && v.entry.value.value == x else v.entry.value.state == Dirty)
    && (v.torn ==> v.pending == Some(Stamped(x, n)))
    && (if stage == Logged then !v.torn && v.pending.Some? ==> v.pending.value.version > n else Covers(v.pending, x, n))
    && (stage == Stored || stage == Logged ==> v.stored == Some(x))
  }

  predicate EraseOk(v: KeyView, n: nat, stage: InvalidateStage) {
    && (v.entry.Some? && v.entry.value.version != n ==> v.entry.value.version == 0 && v.entry.value.state == Clean)
    && (stage == Noted || stage == Removed ==> v.pending == None && v.gone && !v.torn)
    && (stage == Removed ==> v.stored == None)
  }

  /** What a thread at work on k may rely on. */
  predicate ThreadKey(v: KeyView, pc: Pc, k: Key) {
    if InWindow(pc) && pc.k == k then
      && pc.n >= 1 && !v.torn && v.pending == Some(Stamped(pc.v, pc.n))
      && (v.entry.Some? ==> v.entry.value.version < pc.n)
    else if pc.Flushing? && pc.k == k then FlushKeyOk(v, pc.v, pc.n, pc.flush)
    else if Erasing(pc) && pc.k == k then EraseOk(v, pc.n, pc.inv)
    else true
  }

  /**
  Two threads may not be flushing one key, nor be between append and commit of one key; and while an
  invalidation of a key is under way, no other thread may be doing either, or invalidating it.
  */
  predicate Overlap(p: Pc, q: Pc) {
    && Concerning(p) && Concerning(q) && p.k == q.k
    && (Erasing(p) || Erasing(q) || (p.Flushing? && q.Flushing?) || (InWindow(p) && InWindow(q)))
  }

  function NewTruth(truth: Option<Value>, pc: Pc, ok: bool, k: Key): Option<Value> {
    if ok && pc.Putting? && pc.put == PutAdmitted && pc.k == k then Some(pc.v)
    else if ok && pc.Invalidating? && pc.inv == Peeked && pc.k == k then None
    else truth
  }

  lemma UninvolvedKeeps(v: KeyView, v': KeyView, vanishing: bool, q: Pc, k: Key)
    requires LiveKey(v, vanishing) && ThreadKey(v, q, k) && Uninvolved(v, v')
    ensures RecoveredAt(v') == RecoveredAt(v) && LiveKey(v', vanishing) && ThreadKey(v', q, k)
  {
  }

  /** A caller's write that journals its record where replay cannot reach it: behind a tear, or too long for a frame. */
  predicate Buried(torn: bool, pc: Pc, ok: bool) {
    ok && Asks(pc) && (torn || !Limits.AskSized(Limits.ToFrame, pc))
  }

  predicate Asks(pc: Pc) {
    (pc.Putting? && pc.put == PutAdmitted) || (pc.Invalidating? && pc.inv == Peeked)
  }

  /** An invalidation is in the journal and its store removal fails. */
  predicate Halved(pc: Pc, ok: bool) {
    !ok && pc.Invalidating? && pc.inv == Noted
  }

  /** A flush of a key that was invalidated earlier in the journal is not recorded as complete. */
  predicate Unflushable(v: KeyView, pc: Pc, ok: bool) {
    ok && !v.torn && pc.Flushing? && pc.flush == Stored ==> !v.gone
  }

  /** What the hypotheses on the run say about a step of a thread at work on the key. */
  predicate Proper(v: KeyView, pc: Pc, ok: bool, pc': Pc, vanishing: bool) {
    && !Buried(v.torn, pc, ok) && !Halved(pc, ok) && Unflushable(v, pc, ok)
    && (vanishing && !pc.Invalidating? ==> !Concerning(pc) && !Concerning(pc'))
  }

  /** What a step of a thread at work on k leaves behind. */
  predicate Kept(v: KeyView, pc: Pc, ok: bool, v': KeyView, pc': Pc, vanishing: bool, k: Key) {
    && RecoveredAt(v') == NewTruth(RecoveredAt(v), pc, ok, k) && ThreadKey(v', pc', k)
    && LiveKey(v', if pc.Invalidating? && pc.inv == Removed then false else vanishing || Vanishing(pc', k))
  }

  lemma InvolvedMover(v: KeyView, pc: Pc, ok: bool, v': KeyView, pc': Pc, vanishing: bool, k: Key)
    requires LiveKey(v, vanishing) && ThreadKey(v, pc, k) && Concerns(pc, k)
    requires Involved(v, pc, ok, v', pc') && Proper(v, pc, ok, pc', vanishing)
    ensures Kept(v, pc, ok, v', pc', vanishing, k)
  {
    hide Involved, LiveKey, ThreadKey, Proper, Kept;
    if pc.Flushing? {
      FlushMover(v, pc, ok, v', pc', vanishing);
    } else if pc.Invalidating? {
      EraseMover(v, pc, ok, v', pc', vanishing);
    } else {
      PutMover(v, pc, ok, v', pc', vanishing);
    }
  }

  lemma FlushMover(v: KeyView, pc: Pc, ok: bool, v': KeyView, pc': Pc, vanishing: bool)
    requires pc.Flushing? && LiveKey(v, vanishing) && ThreadKey(v, pc, pc.k)
    requires Involved(v, pc, ok, v', pc') && Proper(v, pc, ok, pc', vanishing)
    ensures Kept(v, pc, ok, v', pc', vanishing, pc.k)
  {
  }

  lemma EraseMover(v: KeyView, pc: Pc, ok: bool, v': KeyView, pc': Pc, vanishing: bool)
    requires pc.Invalidating? && LiveKey(v, vanishing) && ThreadKey(v, pc, pc.k)
    requires Involved(v, pc, ok, v', pc') && Proper(v, pc, ok, pc', vanishing)
    ensures Kept(v, pc, ok, v', pc', vanishing, pc.k)
  {
  }

  lemma PutMover(v: KeyView, pc: Pc, ok: bool, v': KeyView, pc': Pc, vanishing: bool)
    requires (pc.Putting? || pc.FlushEntry?) && LiveKey(v, vanishing) && ThreadKey(v, pc, pc.k)
    requires Involved(v, pc, ok, v', pc') && Proper(v, pc, ok, pc', vanishing)
    ensures Kept(v, pc, ok, v', pc', vanishing, pc.k)
  {
  }

  lemma LiveWeaker(v: KeyView, vanishing: bool, vanishing': bool)
    requires LiveKey(v, vanishing) && (vanishing ==> vanishing')
    ensures LiveKey(v, vanishing')
  {
  }

  lemma InvolvedOther(v: KeyView, pc: Pc, ok: bool, v': KeyView, pc': Pc, vanishing: bool, q: Pc, k: Key)
    requires LiveKey(v, vanishing) && ThreadKey(v, pc, k) && ThreadKey(v, q, k) && Concerns(pc, k)
    requires Involved(v, pc, ok, v', pc') && Proper(v, pc, ok, pc', vanishing)
    requires !Overlap(pc, q) && !Overlap(pc', q) && !Clash(pc, q) && !Clash(q, pc)
    ensures ThreadKey(v', q, k)
  {
  }

  // ----- Whole states -----

  predicate Holds(e: Option<Entry>, x: Stamped) {
    e.Some? && e.value.state != Clean && e.value.version == x.version
  }

  /** Nothing is owed to the store: nothing pending, or only a completion that a tear has hidden; and no removal. */
  predicate Resting(v: KeyView) {
    if v.pending.Some? then v.torn && v.stored == Some(v.pending.value.value) else v.gone ==> v.stored == None
  }

  ghost predicate AnyVanishing(threads: map<Tid, Pc>, k: Key) {
    exists t :: t in threads && Vanishing(threads[t], k)
  }

  predicate Removing(pc: Pc, k: Key) {
    pc.Invalidating? && pc.inv == Noted && pc.k == k
  }

  ghost predicate AnyRemoving(threads: map<Tid, Pc>, k: Key) {
    exists t :: t in threads && Removing(threads[t], k)
  }

  /**
  A pending write is unflushed in the cache, or its Put is about to commit, or it is in the store
  already. A journaled removal has reached the store, or its thread is about to carry it out.
  */
  ghost predicate Backed(v: KeyView, threads: map<Tid, Pc>, k: Key) {
    || Resting(v)
    || (v.pending.Some? && (Holds(v.entry, v.pending.value) || PendingCommit(threads, k, v.pending.value)))
    || (v.pending.None? && AnyRemoving(threads, k))
  }

  /** Between sessions, or after an orderly stop. */
  predicate Closed(s: State) {
    s.gate.lifecycle == NotReady || (s.gate.lifecycle == Stopped && forall t | t in s.threads :: s.threads[t] == Idle)
  }

  ghost predicate DurInv(s: State, truth: Option<Value>, k: Key) {
    var v := View(s.data, k);
    && truth == RecoveredAt(v)
    && (s.data.marked ==> Resting(v) && Closed(s))
    && (s.gate.lifecycle != NotReady ==>
          && LiveKey(v, AnyVanishing(s.threads, k)) && Backed(v, s.threads, k)
          && forall t | t in s.threads :: ThreadKey(v, s.threads[t], k))
  }

  /**
  The interleavings covered: compactions do not overlap; no two flushes of one key overlap, nor two
  Puts of one key between append and commit, nor an invalidation and another mutation of its key; and
  no flush of a key is recorded as complete after its invalidation in the same journal. Puts may
  overlap flushes, and everything else interleaves freely.
  */
  ghost predicate Benign(s: State) {
    && Admission.Disjoint(s)
    && NoReflush(s.data.journal)
    && (forall t, u | t in s.threads && u in s.threads && t != u :: !Overlap(s.threads[t], s.threads[u]))
  }

  /**
  What the environment and the callers grant: no write is journaled where replay cannot reach it, no
  store removal of a journaled invalidation fails, and an orderly stop is marked clean only if its
  flush left nothing unflushed.
  */
  ghost predicate Fair(s: State, a: Action) {
    && (a.Step? ==> !Buried(s.data.torn, PcOf(s, a.t), a.ch.ok) && !Halved(PcOf(s, a.t), a.ch.ok))
    && (a.MarkClean? ==> forall k | k in s.data.cache :: s.data.cache[k].state == Clean)
  }

  lemma VanishingKept(threads: map<Tid, Pc>, t: Tid, pc': Pc, k: Key)
    ensures AnyVanishing(threads[t := pc'], k) ==> AnyVanishing(threads, k) || Vanishing(pc', k)
    ensures AnyVanishing(threads, k) ==> AnyVanishing(threads[t := pc'], k) || (t in threads && Vanishing(threads[t], k))
    ensures Vanishing(pc', k) ==> AnyVanishing(threads[t := pc'], k)
    ensures AnyRemoving(threads, k) ==> AnyRemoving(threads[t := pc'], k) || (t in threads && Removing(threads[t], k))
    ensures Removing(pc', k) ==> AnyRemoving(threads[t := pc'], k)
  {
    var after := threads[t := pc'];
    assert after[t] == pc';
    if AnyVanishing(threads, k) {
      var u :| u in threads && Vanishing(threads[u], k);
      assert u != t ==> u in after && after[u] == threads[u];
    }
    if AnyRemoving(threads, k) {
      var u :| u in threads && Removing(threads[u], k);
      assert u != t ==> u in after && after[u] == threads[u];
    }
  }

  lemma BackedUninvolved(v: KeyView, v': KeyView, threads: map<Tid, Pc>, t: Tid, pc': Pc, k: Key)
    requires LiveKey(v, AnyVanishing(threads, k)) && Uninvolved(v, v') && Backed(v, threads, k)
    requires !(t in threads && Concerning(threads[t]) && threads[t].k == k)
    ensures Backed(v', threads[t := pc'], k)
  {
    VanishingKept(threads, t, pc', k);
    if v.pending.Some? {
      PendingKept(threads, t, pc', k, v.pending.value);
    }
  }

  lemma BackedInvolved(v: KeyView, pc: Pc, ok: bool, v': KeyView, pc': Pc, threads: map<Tid, Pc>, t: Tid, k: Key)
    requires LiveKey(v, AnyVanishing(threads, k)) && ThreadKey(v, pc, k) && Concerns(pc, k) && Backed(v, threads, k)
    requires Involved(v, pc, ok, v', pc') && Proper(v, pc, ok, pc', AnyVanishing(threads, k))
    requires t in threads && threads[t] == pc
    ensures Backed(v', threads[t := pc'], k)
  {
    VanishingKept(threads, t, pc', k);
    if v'.pending.Some? {
      PendingKept(threads, t, pc', k, v'.pending.value);
    }
  }

  /** A completion record after an invalidation of its key would break NoReflush. */
  lemma ReflushExcluded(d: Data, pc: Pc, ok: bool, d': Data)
    requires NoReflush(d'.journal) && JournalRel(d, pc, ok, d') && Reached(d, pc, ok)
    ensures pc.Flushing? ==> Unflushable(View(d, pc.k), pc, ok)
  {
    hide InvalidatedKeys, NoReflush;
    if pc.Flushing? && pc.k in InvalidatedKeys(d.journal) {
      Reflushes(d.journal, pc.k, pc.n);
    }
  }

  lemma Reflushes(journal: seq<Record>, k: Key, n: nat)
    requires k in InvalidatedKeys(journal)
    ensures !NoReflush(journal + [FlushComplete(k, n)])
  {
    var i :| 0 <= i < |journal| && journal[i].Invalidate? && journal[i].key == k;
    var after := journal + [FlushComplete(k, n)];
    assert after[i] == journal[i] && after[|journal|] == FlushComplete(k, n);
  }

  lemma StepProper(c: Config, s: State, t: Tid, ch: Choice, s': State, k: Key)
    requires |s.data.fences| == c.shards && Benign(s) && Benign(s') && Fair(s, Step(t, ch)) && Transition(c, s, Step(t, ch), s')
    requires Concerns(PcOf(s, t), k) && Reached(s.data, PcOf(s, t), ch.ok)
    ensures Proper(View(s.data, k), PcOf(s, t), ch.ok, s'.threads[t], AnyVanishing(s.threads, k))
  {
    hide Act, NoReflush, Pending, InvalidatedKeys;
    var pc := PcOf(s, t);
    StepJournal(c, s.data, s.gate, pc, ch);
    ReflushExcluded(s.data, pc, ch.ok, s'.data);
    NextKey(c, s.data, s.gate, pc, ch);
    if AnyVanishing(s.threads, k) && !pc.Invalidating? {
      var u :| u in s.threads && Vanishing(s.threads[u], k);
      assert u != t && s'.threads[u] == s.threads[u];
      assert !Overlap(s.threads[t], s.threads[u]) && !Overlap(s'.threads[t], s'.threads[u]);
    }
  }

  lemma NextKey(c: Config, d: Data, g: Gate, pc: Pc, ch: Choice)
    requires |d.fences| == c.shards && CanStep(c, d, g, pc, ch)
    ensures var pc' := Act(c, d, g, pc, ch).pc;
            Concerning(pc') ==> (pc.Putting? || pc.Invalidating? || pc.FlushEntry? || pc.Flushing?) && pc'.k == pc.k
  {
    hide Append, CommitData, Settle;
  }

  lemma MoverDur(c: Config, s: State, t: Tid, ch: Choice, s': State, truth: Option<Value>, k: Key)
    requires Versions.Inv(c, s) && Benign(s) && Benign(s') && Transition(c, s, Step(t, ch), s') && !Truncating(PcOf(s, t))
    requires Fair(s, Step(t, ch)) && Reached(s.data, PcOf(s, t), ch.ok)
    requires DurInv(s, truth, k) && s.gate.lifecycle != NotReady
    ensures var v' := View(s'.data, k);
            && NewTruth(truth, PcOf(s, t), ch.ok, k) == RecoveredAt(v') && LiveKey(v', AnyVanishing(s'.threads, k))
            && Backed(v', s'.threads, k) && ThreadKey(v', s'.threads[t], k)
  {
    hide Act, View, Backed, NoReflush, CanStep, LiveKey, Involved, Uninvolved, AnyVanishing, Benign, Fair;
    var pc, v, v' := PcOf(s, t), View(s.data, k), View(s'.data, k);
    assert ThreadKey(v, pc, k);
    VanishingKept(s.threads, t, s'.threads[t], k);
    if Concerns(pc, k) {
      InvolvedStep(c, s.data, s.gate, pc, ch, k);
      StepProper(c, s, t, ch, s', k);
      InvolvedMover(v, pc, ch.ok, v', s'.threads[t], AnyVanishing(s.threads, k), k);
      BackedInvolved(v, pc, ch.ok, v', s'.threads[t], s.threads, t, k);
      LiveWeaker(v', if pc.Invalidating? && pc.inv == Removed then false else AnyVanishing(s.threads, k) || Vanishing(s'.threads[t], k),
                 AnyVanishing(s'.threads, k));
    } else {
      UninvolvedStep(c, s.data, s.gate, pc, ch, k);
      UninvolvedKeeps(v, v', AnyVanishing(s.threads, k), Idle, k);
      LiveWeaker(v', AnyVanishing(s.threads, k), AnyVanishing(s'.threads, k));
      BackedUninvolved(v, v', s.threads, t, s'.threads[t], k);
    }
  }

  lemma OtherDur(c: Config, s: State, t: Tid, ch: Choice, s': State, truth: Option<Value>, k: Key, u: Tid)
    requires Versions.Inv(c, s) && Benign(s) && Benign(s') && Transition(c, s, Step(t, ch), s') && !Truncating(PcOf(s, t))
    requires Fair(s, Step(t, ch)) && Reached(s.data, PcOf(s, t), ch.ok)
    requires DurInv(s, truth, k) && s.gate.lifecycle != NotReady && u in s.threads && u != t
    ensures ThreadKey(View(s'.data, k), s.threads[u], k)
  {
    hide Act, View, Backed, NoReflush, CanStep;
    var pc, q, v, v' := PcOf(s, t), s.threads[u], View(s.data, k), View(s'.data, k);
    if Concerns(pc, k) {
      InvolvedStep(c, s.data, s.gate, pc, ch, k);
      StepProper(c, s, t, ch, s', k);
      assert s'.threads[u] == q;
      InvolvedOther(v, pc, ch.ok, v', s'.threads[t], AnyVanishing(s.threads, k), q, k);
    } else {
      UninvolvedStep(c, s.data, s.gate, pc, ch, k);
      UninvolvedKeeps(v, v', AnyVanishing(s.threads, k), q, k);
    }
  }

  lemma TruncateDur(c: Config, s: State, t: Tid, ch: Choice, s': State, truth: Option<Value>, k: Key)
    requires Transition(c, s, Step(t, ch), s') && Truncating(PcOf(s, t)) && Admission.Quiescent(s)
    requires DurInv(s, truth, k) && s.gate.lifecycle != NotReady
    ensures DurInv(s', truth, k)
  {
    hide Act, NoReflush, Pending, InvalidatedKeys;
    TruncateStep(c, s.data, s.gate, PcOf(s, t), ch);
    var v, v' := View(s.data, k), View(s'.data, k);
    assert Resting(v) by {
      assert v.pending.Some? ==> !PendingCommit(s.threads, k, v.pending.value);
      assert !AnyRemoving(s.threads, k);
    }
    EmptyJournal();
    assert v' == v || v' == v.(pending := None, gone := false, torn := false);
    assert forall u | u in s'.threads :: !Concerning(s'.threads[u]) || s'.threads[u].k != k;
    assert LiveKey(v', false);
  }

  lemma EmptyJournal()
    ensures Pending([]) == map[] && InvalidatedKeys([]) == {}
  {
  }

  lemma TruncateStep(c: Config, d: Data, g: Gate, pc: Pc, ch: Choice)
    requires |d.fences| == c.shards && CanStep(c, d, g, pc, ch) && Truncating(pc)
    ensures var o := Act(c, d, g, pc, ch);
            (o.data == d || o.data == Truncated(d)) && o.gate == g && !Concerning(o.pc)
  {
  }

  lemma RecoverDur(c: Config, s: State, fences: seq<nat>, s': State, truth: Option<Value>, k: Key)
    requires Versions.Inv(c, s) && Transition(c, s, Recover(fences), s') && DurInv(s, truth, k)
    ensures DurInv(s', truth, k)
  {
    PendingVersions(s.data.journal);
    var p := Pending(s.data.journal);
    assert k in p ==> p[k].version <= MaxVersion(p);
    assert s'.threads == map[];
  }

  lemma MarkDur(c: Config, s: State, s': State, truth: Option<Value>, k: Key)
    requires Transition(c, s, MarkClean, s') && DurInv(s, truth, k) && Fair(s, MarkClean)
    ensures DurInv(s', truth, k)
  {
    var v := View(s.data, k);
    assert v.pending.Some? ==> !PendingCommit(s.threads, k, v.pending.value);
    assert !AnyRemoving(s.threads, k);
    assert View(s'.data, k) == v;
  }

  lemma PartialDur(c: Config, s: State, count: nat, s': State, truth: Option<Value>, k: Key)
    requires Transition(c, s, PartialReplay(count), s') && DurInv(s, truth, k)
    ensures DurInv(s', truth, k)
  {
    InvalidatedPrefix(s.data.journal, count);
  }

  lemma StartDur(c: Config, s: State, t: Tid, first: Pc, s': State, truth: Option<Value>, k: Key)
    requires Versions.Inv(c, s) && Transition(c, s, Start(t, first), s') && DurInv(s, truth, k)
    ensures DurInv(s', truth, k)
  {
    VanishingKept(s.threads, t, first, k);
    BackedUninvolved(View(s.data, k), View(s.data, k), s.threads, t, first, k);
  }

  lemma StepDur(c: Config, s: State, a: Action, s': State, truth: Option<Value>, k: Key)
    requires Versions.Inv(c, s) && Benign(s) && Benign(s') && Transition(c, s, a, s') && DurInv(s, truth, k)
    requires a.Step? && Truncating(PcOf(s, a.t)) ==> Admission.Quiescent(s)
    requires a.Step? ==> Reached(s.data, PcOf(s, a.t), a.ch.ok)
    requires Fair(s, a)
    ensures DurInv(s', if a.Step? then NewTruth(truth, PcOf(s, a.t), a.ch.ok, k) else truth, k)
  {
    hide NoReflush;
    match a
    case Start(t, first) => StartDur(c, s, t, first, s', truth, k);
    case Crash =>
    case TornCrash(t) =>
    case MarkClean => MarkDur(c, s, s', truth, k);
    case SkipReplay(fences) =>
    case PartialReplay(count) => PartialDur(c, s, count, s', truth, k);
    case Recover(fences) => RecoverDur(c, s, fences, s', truth, k);
    case Step(t, ch) =>
      if Truncating(PcOf(s, t)) {
        TruncateDur(c, s, t, ch, s', truth, k);
      } else {
        ThreadStepDur(c, s, t, ch, s', truth, k);
      }
  }

  lemma KeepsGate(c: Config, d: Data, g: Gate, pc: Pc, ch: Choice)
    requires |d.fences| == c.shards && CanStep(c, d, g, pc, ch) && g.lifecycle != NotReady
    ensures Act(c, d, g, pc, ch).gate.lifecycle != NotReady
  {
    hide Append, CommitData, Settle;
  }

  lemma ThreadStepDur(c: Config, s: State, t: Tid, ch: Choice, s': State, truth: Option<Value>, k: Key)
    requires Versions.Inv(c, s) && Benign(s) && Benign(s') && Transition(c, s, Step(t, ch), s') && DurInv(s, truth, k)
    requires !Truncating(PcOf(s, t)) && Fair(s, Step(t, ch)) && Reached(s.data, PcOf(s, t), ch.ok)
    ensures DurInv(s', NewTruth(truth, PcOf(s, t), ch.ok, k), k)
  {
    hide Act, ThreadKey, RecoveredAt, LiveKey, Backed, Benign, View;
    assert s.gate.lifecycle != NotReady && !s.data.marked;
    MoverDur(c, s, t, ch, s', truth, k);
    KeepsGate(c, s.data, s.gate, PcOf(s, t), ch);
    StepJournal(c, s.data, s.gate, PcOf(s, t), ch);
    forall u | u in s.threads && u != t
      ensures ThreadKey(View(s'.data, k), s.threads[u], k)
    {
      OtherDur(c, s, t, ch, s', truth, k, u);
    }
  }

  // ----- Whole runs -----

  /** A step that appends an Invalidate record of key k. */
  predicate JournalsRemoval(s: State, a: Action, k: Key) {
    a.Step? && a.ch.ok && var pc := PcOf(s, a.t); pc.Invalidating? && pc.inv == Peeked && pc.k == k
  }

  /** What the last journaled write of k in the run so far made of it, over all sessions; else its original store value. */
  function Truth(states: seq<State>, actions: seq<Action>, i: nat, k: Key): Option<Value>
    requires i <= |actions| < |states|
  {
    if i == 0 then At(states[0].data.store, k)
    else if JournalsPut(states[i - 1], actions[i - 1], k) then Some(PcOf(states[i - 1], actions[i - 1].t).v)
    else if JournalsRemoval(states[i - 1], actions[i - 1], k) then None
    else Truth(states, actions, i - 1, k)
  }

  ghost predicate BenignRun(c: Config, states: seq<State>, actions: seq<Action>) {
    && IsRun(c, states, actions) && (forall i | 0 <= i < |states| :: Benign(states[i]))
    && forall i | 0 <= i < |actions| :: Fair(states[i], actions[i])
  }

  lemma FirstDur(c: Config, states: seq<State>, actions: seq<Action>, k: Key)
    requires BenignRun(c, states, actions)
    ensures DurInv(states[0], Truth(states, actions, 0, k), k)
  {
  }

  /** In a fair run whatever is appended fits a frame that replay reads. */
  lemma RunReached(c: Config, states: seq<State>, actions: seq<Action>, i: nat)
    requires BenignRun(c, states, actions) && i < |actions| && actions[i].Step?
    ensures Reached(states[i].data, PcOf(states[i], actions[i].t), actions[i].ch.ok)
  {
    hide Transition, Benign, Limits.SizeInv, Limits.Sized;
    forall j | 0 <= j < i
      ensures Limits.StepSized(Limits.ToFrame, states[j], actions[j])
    {
      assert Fair(states[j], actions[j]);
    }
    Limits.RunSized(Limits.ToFrame, c, states, actions, i);
    if actions[i].ch.ok {
      assert Fair(states[i], actions[i]);
      Limits.NextSized(Limits.ToFrame, states[i], actions[i].t);
      var r := NextRecord(states[i].data, PcOf(states[i], actions[i].t));
      if r.Some? {
        Limits.MeetsMeaning(r.value);
      }
    }
  }

  lemma {:induction false} RunDur(c: Config, states: seq<State>, actions: seq<Action>, i: nat, k: Key)
    requires BenignRun(c, states, actions) && i < |states|
    ensures DurInv(states[i], Truth(states, actions, i, k), k)
  {
    hide Transition, DurInv, Reached, Benign, Fair;
    if i == 0 {
      FirstDur(c, states, actions, k);
    } else {
      RunDur(c, states, actions, i - 1, k);
      Versions.RunInv(c, states, actions, i - 1);
      assert Moves(c, states, actions, i - 1);
      var s, a := states[i - 1], actions[i - 1];
      if a.Step? {
        RunReached(c, states, actions, i - 1);
        if Truncating(PcOf(s, a.t)) {
          TruncationQuiescent(c, states, actions, i - 1);
        }
      }
      StepDur(c, s, a, states[i], Truth(states, actions, i - 1, k), k);
    }
  }

  lemma TruncationQuiescent(c: Config, states: seq<State>, actions: seq<Action>, i: nat)
    requires BenignRun(c, states, actions) && i < |actions|
    requires actions[i].Step? && Truncating(PcOf(states[i], actions[i].t))
    ensures Admission.Quiescent(states[i])
  {
    if PcOf(states[i], actions[i].t).Compacting? {
      Admission.CompactionTruncationSafe(c, states, actions, i);
    } else {
      Admission.ShutdownTruncationSafe(c, states, actions, i);
    }
  }

  /** Replay's pending writes and store removals come to the truth. */
  lemma RecoversTruth(c: Config, states: seq<State>, actions: seq<Action>, i: nat, k: Key)
    requires BenignRun(c, states, actions) && i < |states|
    ensures At(Recovered(states[i].data.journal, states[i].data.store), k) == Truth(states, actions, i, k)
    ensures states[i].data.marked ==> At(states[i].data.store, k) == Truth(states, actions, i, k)
  {
    RunDur(c, states, actions, i, k);
  }

  /** The map a startup serves on what a crash leaves: the store alone if the marker says clean, else by replay, which may fail. */
  function Startup(d: Data): Option<map<Key, Value>> {
    if d.marked then Some(d.store)
    else if AllSmall(d.journal) then Some(Recovered(d.journal, d.store))
    else None
  }

  /**
  Crash durability. In every benign run, over any number of sessions, a crash at any point, torn or
  not, leaves a state on which a startup that succeeds serves for every key what its last journaled
  Upsert or Invalidate made of it, or its original store value if it had none. If no caller ever
  passed a key or value over 64 MiB, every startup succeeds.
  */
  lemma CrashDurability(c: Config, states: seq<State>, actions: seq<Action>, i: nat, k: Key)
    requires BenignRun(c, states, actions) && i < |states|
    ensures Startup(states[i].data).Some? ==> At(Startup(states[i].data).value, k) == Truth(states, actions, i, k)
    ensures Limits.Called(Limits.ToDecode, actions) ==> Startup(states[i].data).Some?
  {
    RecoversTruth(c, states, actions, i, k);
    if Limits.Called(Limits.ToDecode, actions) {
      SmallCallsStart(c, states, actions, i);
    }
  }

  lemma SmallCallsStart(c: Config, states: seq<State>, actions: seq<Action>, i: nat)
    requires IsRun(c, states, actions) && i < |states| && Limits.Called(Limits.ToDecode, actions)
    ensures AllSmall(states[i].data.journal)
  {
    assert |states| == |actions| + 1;
    hide IsRun, Limits.StepSized;
    Limits.CallsSized(Limits.ToDecode, c, states, actions);
    Limits.RunSized(Limits.ToDecode, c, states, actions, i);
    forall j | 0 <= j < |states[i].data.journal|
      ensures Small(states[i].data.journal[j])
    {
      Limits.MeetsMeaning(states[i].data.journal[j]);
    }
  }

  /**
  Which acknowledged write survives. In a benign run whose journal replay can read so far, take the
  step that journals a Put. After it, startup succeeds exactly if the record is small enough to be
  decoded or too long to be reached at all; and then it serves the new value exactly if it is small,
  while every other key, or the key of a record never reached, is served as before.
  */
  lemma PutSurvivesExactly(c: Config, states: seq<State>, actions: seq<Action>, t: Tid, ch: Choice, s': State)
    requires BenignRun(c, states, actions)
    requires var s := states[|actions|];
             && Transition(c, s, Step(t, ch), s') && !s.data.torn && !s.data.marked && AllSmall(s.data.journal)
             && ch.ok && PcOf(s, t).Putting? && PcOf(s, t).put == PutAdmitted
    ensures var pc := PcOf(states[|actions|], t);
            var r := Upsert(pc.k, pc.v, states[|actions|].data.counter + 1);
            && (Startup(s'.data).Some? <==> Small(r) || !Framable(r))
            && (Startup(s'.data).Some? ==>
                  forall x :: At(Startup(s'.data).value, x)
                              == if x == pc.k && Small(r) then Some(pc.v) else Truth(states, actions, |actions|, x))
  {
    assert |states| == |actions| + 1;
    hide BenignRun, Recovered, Truth, CanStep, Act;
    var s, pc := states[|actions|], PcOf(states[|actions|], t);
    var r := Upsert(pc.k, pc.v, s.data.counter + 1);
    assert s'.data == Append(s.data.(counter := s.data.counter + 1), r) by { PutAppends(c, s.data, s.gate, pc, ch); }
    Limits.MeetsMeaning(r);
    AppendSmall(s.data.journal, r);
    forall x
      ensures At(Recovered(s.data.journal, s.data.store), x) == Truth(states, actions, |actions|, x)
      ensures At(Recovered(s.data.journal + [r], s.data.store), x)
              == if x == pc.k then Some(pc.v) else At(Recovered(s.data.journal, s.data.store), x)
    {
      RecoversTruth(c, states, actions, |actions|, x);
      UpsertRecovered(s.data, r, x);
    }
  }

  lemma PutAppends(c: Config, d: Data, g: Gate, pc: Pc, ch: Choice)
    requires |d.fences| == c.shards && CanStep(c, d, g, pc, ch) && ch.ok && pc.Putting? && pc.put == PutAdmitted
    ensures Act(c, d, g, pc, ch).data == Append(d.(counter := d.counter + 1), Upsert(pc.k, pc.v, d.counter + 1))
  {
    hide Append;
  }

  lemma AppendSmall(journal: seq<Record>, r: Record)
    requires AllSmall(journal)
    ensures AllSmall(journal + [r]) <==> Small(r)
  {
    assert (journal + [r])[|journal|] == r;
  }

  lemma UpsertRecovered(d: Data, r: Record, x: Key)
    requires r.Upsert?
    ensures At(Recovered(d.journal + [r], d.store), x) == if x == r.key then Some(r.value) else At(Recovered(d.journal, d.store), x)
  {
    hide Pending, InvalidatedKeys;
    ViewAppend(d, r);
  }

  /** The plain map: the cached value, else the stored one. */
  function Served(d: Data, k: Key): Option<Value> {
    if k in d.cache then Some(d.cache[k].value) else At(d.store, k)
  }

  /** Startup is what the machine does: after a crash a session can be opened exactly if Startup succeeds, and then it serves that map. */
  lemma StartupOpens(c: Config, s: State)
    requires |s.data.fences| == c.shards
    ensures Startup(s.data).Some? <==> exists a, s' :: Opens(a) && Transition(c, Crashed(s), a, s')
    ensures forall a, s' | Opens(a) && Transition(c, Crashed(s), a, s') ::
              forall k :: Served(s'.data, k) == At(Startup(s.data).value, k)
  {
    var s1, fences := Crashed(s), s.data.fences;
    assert Startup(s.data).Some? ==>
             if s.data.marked then Transition(c, s1, SkipReplay(fences), Opened(s1, fences))
             else Transition(c, s1, Recover(fences), Replayed(s1, fences));
  }
}
