/**
Version discipline of the step machine and what it buys: unflushed data never disappears
silently. No hypothesis on the interleaving.
*/
module Versions {
  import opened CacheTypes
  import opened Replay
  import opened Protocol

  /** A Put between its journal append and its shard commit. */
  predicate InWindow(pc: Pc) {
    pc.Putting? && pc.put == Journaled
  }

  /** The thread read version n of key k from a committed entry and still holds it. */
  predicate Carries(pc: Pc, k: Key, n: nat) {
    || (pc.Flushing? && pc.k == k && pc.n == n)
    || (pc.Invalidating? && !pc.inv.InvChecked? && !pc.inv.InvAdmitted? && pc.k == k && pc.n == n)
  }

  /** Journaled, uncommitted versions are unique, and nobody else holds them. */
  predicate Clash(p: Pc, q: Pc) {
    InWindow(p) && (Carries(q, p.k, p.n) || (InWindow(q) && q.n == p.n))
  }

  /** Versions come from the counter; version 0 is reserved for read-fills, which are Clean. */
  predicate DataOk(c: Config, d: Data) {
    && |d.fences| == c.shards
    && (forall k | k in d.cache :: d.cache[k].version <= d.counter && (d.cache[k].version == 0 ==> d.cache[k].state == Clean))
  }

  predicate Resident(cache: Cache, k: Key, n: nat) {
    k in cache && cache[k].version == n
  }

  /** What a thread may rely on about the entry it works on. */
  predicate PcOk(d: Data, pc: Pc) {
    match pc
    case Putting(k, _, n, stage) => stage == Journaled ==> 1 <= n <= d.counter && !Resident(d.cache, k, n)
    case Flushing(k, v, n, _, _) => 1 <= n <= d.counter && (Resident(d.cache, k, n) ==> d.cache[k].value == v)
    case Invalidating(k, n, force, stage) =>
      // A plain Invalidate holds the version of an entry that is Clean for good.
      (stage == Peeked || stage == Noted || stage == Removed) ==>
        n <= d.counter && (!force && Resident(d.cache, k, n) ==> d.cache[k].state == Clean)
    case _ => true
  }

  predicate JournalOk(journal: seq<Record>) {
    forall i | 0 <= i < |journal| :: journal[i].Upsert? ==> journal[i].version >= 1
  }

  lemma PendingVersions(journal: seq<Record>)
    requires JournalOk(journal)
    ensures forall k | k in Pending(journal) :: Pending(journal)[k].version >= 1
  {
    if journal != [] {
      PendingVersions(journal[..|journal| - 1]);
    }
  }

  ghost predicate Inv(c: Config, s: State) {
    && DataOk(c, s.data) && JournalOk(s.data.journal)
    && (s.gate.lifecycle == NotReady ==> s.threads == map[] && s.data.cache == map[])
    && (forall t | t in s.threads :: PcOk(s.data, s.threads[t]))
    && (forall t, u | t in s.threads && u in s.threads && t != u :: !Clash(s.threads[t], s.threads[u]))
  }

  /** Entries may leave, become Clean, or change between Dirty and FlushInProgress. */
  predicate Narrowed(before: Cache, after: Cache) {
    forall k | k in after :: k in before && Settled(before[k], after[k])
  }

  predicate Settled(e: Entry, e': Entry) {
    && e'.value == e.value && e'.version == e.version
    && (e.state == Clean || e.version == 0 ==> e'.state == Clean)
  }

  /** The mover commits entry e under key k and otherwise only narrows the cache. */
  predicate Committed(before: Cache, after: Cache, k: Key, e: Entry) {
    forall j | j in after :: (j == k && after[j] == e) || (j in before && Settled(before[j], after[j]))
  }

  /** What a step may do to the cache: narrow it, fill in a Clean version-0 entry, or commit its own Put. */
  predicate CacheEffect(d: Data, pc: Pc, d': Data) {
    if InWindow(pc) then Committed(d.cache, d'.cache, pc.k, Entry(pc.v, pc.n, Dirty))
    else if pc.Getting? && pc.get.Fetched? then Committed(d.cache, d'.cache, pc.k, Entry(pc.get.v, 0, Clean))
    else Narrowed(d.cache, d'.cache)
  }

  /** New versions come from the counter; versions in hand come from the cache. */
  predicate PcEffect(d: Data, pc: Pc, pc': Pc) {
    && (InWindow(pc') ==> pc'.n > d.counter)
    && (Versioned(pc') ==> Carries(pc, pc'.k, pc'.n) || Resident(d.cache, pc'.k, pc'.n) || pc'.n == 0)
  }

  predicate Versioned(pc: Pc) {
    pc.Flushing? || (pc.Invalidating? && !pc.inv.InvChecked? && !pc.inv.InvAdmitted?)
  }

  predicate Effect(c: Config, d: Data, pc: Pc, o: Outcome) {
    && DataOk(c, o.data) && d.counter <= o.data.counter
    && PcOk(o.data, o.pc) && PcEffect(d, pc, o.pc) && CacheEffect(d, pc, o.data)
  }

  lemma JournalEffect(c: Config, d: Data, g: Gate, pc: Pc, ch: Choice)
    requires DataOk(c, d) && pc.Putting? && (pc.put == PutChecked || pc.put == PutAdmitted || pc.put == Through)
    ensures Effect(c, d, pc, ActPut(c, d, g, pc.k, pc.v, pc.n, pc.put, ch))
  {
    hide Append;
  }

  lemma CommitEffect(c: Config, d: Data, g: Gate, pc: Pc, ch: Choice)
    requires DataOk(c, d) && PcOk(d, pc) && InWindow(pc) && CanPut(c, d, g, pc.k, pc.v, pc.n, pc.put, ch)
    ensures Effect(c, d, pc, ActPut(c, d, g, pc.k, pc.v, pc.n, pc.put, ch))
  {
  }

  lemma ReliefEffect(c: Config, d: Data, g: Gate, pc: Pc, ch: Choice)
    requires DataOk(c, d) && pc.Putting? && (pc.put.Relief? || pc.put.Evicting?)
    requires CanPut(c, d, g, pc.k, pc.v, pc.n, pc.put, ch)
    ensures Effect(c, d, pc, ActPut(c, d, g, pc.k, pc.v, pc.n, pc.put, ch))
  {
  }

  lemma InvalidateEffect(c: Config, d: Data, g: Gate, pc: Pc, ok: bool)
    requires DataOk(c, d) && PcOk(d, pc) && pc.Invalidating?
    ensures Effect(c, d, pc, ActInvalidate(c, d, g, pc.k, pc.n, pc.force, pc.inv, ok))
  {
    hide Effect, ActInvalidate;
    if pc.inv == Removed {
      EraseEffect(c, d, g, pc, ok);
    } else {
      NoteEffect(c, d, g, pc, ok);
    }
  }

  lemma EraseEffect(c: Config, d: Data, g: Gate, pc: Pc, ok: bool)
    requires DataOk(c, d) && PcOk(d, pc) && pc.Invalidating? && pc.inv == Removed
    ensures Effect(c, d, pc, ActInvalidate(c, d, g, pc.k, pc.n, pc.force, pc.inv, ok))
  {
  }

  lemma NoteEffect(c: Config, d: Data, g: Gate, pc: Pc, ok: bool)
    requires DataOk(c, d) && PcOk(d, pc) && pc.Invalidating? && pc.inv != Removed
    ensures Effect(c, d, pc, ActInvalidate(c, d, g, pc.k, pc.n, pc.force, pc.inv, ok))
  {
    hide Append;
  }

  lemma GetEffect(c: Config, d: Data, g: Gate, pc: Pc, ch: Choice)
    requires DataOk(c, d) && pc.Getting? && CanStep(c, d, g, pc, ch)
    ensures Effect(c, d, pc, ActGet(c, d, g, pc.k, pc.get, ch))
  {
    hide CommitData;
    var o := ActGet(c, d, g, pc.k, pc.get, ch);
    if o.data == d {
      QuietEffect(c, d, pc, o);
    } else {
      FillEffect(c, d, pc, ch.evict, o);
    }
  }

  lemma FillEffect(c: Config, d: Data, pc: Pc, evict: set<Key>, o: Outcome)
    requires DataOk(c, d) && pc.Getting? && pc.get.Fetched?
    requires o.data == CommitData(c, d, pc.k, Entry(pc.get.v, 0, Clean), evict) && o.pc == Idle
    ensures Effect(c, d, pc, o)
  {
  }

  lemma ClaimEffect(c: Config, d: Data, g: Gate, pc: Pc)
    requires DataOk(c, d) && pc.FlushEntry?
    ensures Effect(c, d, pc, ActClaim(d, g, pc.k, pc.expected, pc.ret))
  {
    var o := ActClaim(d, g, pc.k, pc.expected, pc.ret);
    if o.pc.Flushing? {
      ClaimedEffect(c, d, pc, o);
    } else {
      assert o.data == d;
      QuietEffect(c, d, pc, o);
    }
  }

  lemma ClaimedEffect(c: Config, d: Data, pc: Pc, o: Outcome)
    requires DataOk(c, d) && pc.FlushEntry? && pc.k in d.cache && d.cache[pc.k].state == Dirty
    requires o.data == d.(cache := d.cache[pc.k := d.cache[pc.k].(state := FlushInProgress)])
    requires o.pc.Flushing? && o.pc.k == pc.k && o.pc.v == d.cache[pc.k].value && o.pc.n == d.cache[pc.k].version
    ensures Effect(c, d, pc, o)
  {
  }

  /** A step that changes no data and holds no version afterwards. */
  lemma QuietEffect(c: Config, d: Data, pc: Pc, o: Outcome)
    requires DataOk(c, d) && !InWindow(pc) && o.data == d && !InWindow(o.pc) && !Versioned(o.pc)
    ensures Effect(c, d, pc, o)
  {
  }

  lemma FlushIoEffect(c: Config, d: Data, g: Gate, pc: Pc, ok: bool)
    requires DataOk(c, d) && PcOk(d, pc) && pc.Flushing? && pc.flush != Logged && pc.flush != Reverting
    ensures Effect(c, d, pc, ActFlush(d, g, pc.k, pc.v, pc.n, pc.flush, pc.ret, ok))
  {
    hide Append;
  }

  lemma FlushEndEffect(c: Config, d: Data, g: Gate, pc: Pc, ok: bool)
    requires DataOk(c, d) && PcOk(d, pc) && pc.Flushing? && (pc.flush == Logged || pc.flush == Reverting)
    ensures Effect(c, d, pc, ActFlush(d, g, pc.k, pc.v, pc.n, pc.flush, pc.ret, ok))
  {
  }

  lemma StepEffect(c: Config, d: Data, g: Gate, pc: Pc, ch: Choice)
    requires DataOk(c, d) && PcOk(d, pc) && CanStep(c, d, g, pc, ch)
    ensures Effect(c, d, pc, Act(c, d, g, pc, ch))
  {
    hide Effect, ActPut, ActInvalidate, ActGet, ActClaim, ActFlush, ActCompact, ActShut;
    if InWindow(pc) {
      CommitEffect(c, d, g, pc, ch);
    } else if pc.Putting? && (pc.put.Relief? || pc.put.Evicting?) {
      ReliefEffect(c, d, g, pc, ch);
    } else if pc.Putting? {
      JournalEffect(c, d, g, pc, ch);
    } else if pc.Invalidating? {
      InvalidateEffect(c, d, g, pc, ch.ok);
    } else if pc.Getting? {
      GetEffect(c, d, g, pc, ch);
    } else if pc.FlushEntry? {
      ClaimEffect(c, d, g, pc);
    } else if pc.Flushing? && (pc.flush == Logged || pc.flush == Reverting) {
      FlushEndEffect(c, d, g, pc, ch.ok);
    } else if pc.Flushing? {
      FlushIoEffect(c, d, g, pc, ch.ok);
    } else {
      RestEffect(c, d, g, pc, ch);
    }
  }

  lemma RestEffect(c: Config, d: Data, g: Gate, pc: Pc, ch: Choice)
    requires DataOk(c, d) && CanStep(c, d, g, pc, ch)
    requires pc.Releasing? || pc.AllShard? || pc.AllKeys? || pc.Compacting? || pc.ShuttingDown?
    ensures Effect(c, d, pc, Act(c, d, g, pc, ch))
  {
    hide Effect, ActPut, ActInvalidate, ActGet, ActClaim, ActFlush, ActCompact, ActShut;
    if pc.Compacting? {
      CompactEffect(c, d, g, pc, ch.ok);
    } else if pc.ShuttingDown? {
      ShutEffect(c, d, g, pc, ch.ok);
    } else {
      WalkEffect(c, d, g, pc, ch);
    }
  }

  lemma CompactEffect(c: Config, d: Data, g: Gate, pc: Pc, ok: bool)
    requires DataOk(c, d) && pc.Compacting?
    ensures Effect(c, d, pc, ActCompact(c, d, g, pc.closing, pc.compact, ok))
  {
    var o := ActCompact(c, d, g, pc.closing, pc.compact, ok);
    assert o.data.cache == d.cache && o.data.counter == d.counter && (o.pc.Compacting? || o.pc.ShuttingDown? || o.pc.Idle?);
    SameCacheEffect(c, d, pc, o);
  }

  /** A step that leaves cache and counter alone and moves outside the operations on entries. */
  lemma SameCacheEffect(c: Config, d: Data, pc: Pc, o: Outcome)
    requires DataOk(c, d) && (pc.Compacting? || pc.ShuttingDown?) && o.data.cache == d.cache && o.data.counter == d.counter
    requires o.data.fences == d.fences && (o.data.journal == d.journal || o.data.journal == [])
    requires o.pc.Compacting? || o.pc.ShuttingDown? || o.pc.Idle?
    ensures Effect(c, d, pc, o)
  {
  }

  lemma ShutEffect(c: Config, d: Data, g: Gate, pc: Pc, ok: bool)
    requires DataOk(c, d) && pc.ShuttingDown?
    ensures Effect(c, d, pc, ActShut(c, d, g, pc.shut, ok))
  {
    var o := ActShut(c, d, g, pc.shut, ok);
    if pc.shut == ShutDrain {
      WalkingEffect(c, d, pc, o);
    } else {
      SameCacheEffect(c, d, pc, o);
    }
  }

  lemma WalkingEffect(c: Config, d: Data, pc: Pc, o: Outcome)
    requires DataOk(c, d) && !InWindow(pc) && o.data == d && o.pc.AllShard? && !(pc.Getting? && pc.get.Fetched?)
    ensures Effect(c, d, pc, o)
  {
  }

  lemma WalkEffect(c: Config, d: Data, g: Gate, pc: Pc, ch: Choice)
    requires DataOk(c, d) && CanStep(c, d, g, pc, ch) && (pc.Releasing? || pc.AllShard? || pc.AllKeys?)
    ensures Effect(c, d, pc, Act(c, d, g, pc, ch))
  {
    hide ActPut, ActInvalidate, ActGet, ActClaim, ActFlush, ActCompact, ActShut;
  }

  /** A step disturbs no other thread q. */
  lemma OthersKeep(c: Config, d: Data, pc: Pc, o: Outcome, q: Pc)
    requires DataOk(c, d) && PcOk(d, q) && !Clash(pc, q) && !Clash(q, pc)
    requires Effect(c, d, pc, o)
    ensures PcOk(o.data, q)
    ensures !Clash(o.pc, q) && !Clash(q, o.pc)
  {
  }

  lemma RecoverInv(c: Config, s: State, fences: seq<nat>)
    requires Inv(c, s) && s.gate.lifecycle == NotReady && |fences| == c.shards
    ensures Inv(c, Replayed(s, fences))
  {
    PendingVersions(s.data.journal);
    var p, s' := Pending(s.data.journal), Replayed(s, fences);
    forall k | k in s'.data.cache
      ensures 1 <= s'.data.cache[k].version <= s'.data.counter
    {
      assert k in p;
    }
  }

  lemma StepInv(c: Config, s: State, a: Action, s': State)
    requires Inv(c, s) && Transition(c, s, a, s')
    ensures Inv(c, s')
  {
    match a
    case Start(t, first) =>
    case Crash =>
    case TornCrash(t) =>
    case PartialReplay(count) =>
    case MarkClean =>
    case SkipReplay(fences) =>
    case Recover(fences) => RecoverInv(c, s, fences);
    case Step(t, ch) => ThreadStepInv(c, s, t, ch, s');
  }

  lemma ThreadStepInv(c: Config, s: State, t: Tid, ch: Choice, s': State)
    requires Inv(c, s) && Transition(c, s, Step(t, ch), s')
    ensures Inv(c, s')
  {
    var pc := PcOf(s, t);
    StepEffect(c, s.data, s.gate, pc, ch);
    StepJournal(c, s.data, s.gate, pc, ch);
    forall u | u in s.threads && u != t
      ensures PcOk(s'.data, s.threads[u]) && !Clash(s'.threads[t], s.threads[u]) && !Clash(s.threads[u], s'.threads[t])
    {
      OthersKeep(c, s.data, pc, Act(c, s.data, s.gate, pc, ch), s.threads[u]);
    }
  }

  /** Every state of every run keeps the version discipline. */
  lemma RunInv(c: Config, states: seq<State>, actions: seq<Action>, i: nat)
    requires IsRun(c, states, actions) && i < |states|
    ensures Inv(c, states[i])
  {
    if i > 0 {
      RunInv(c, states, actions, i - 1);
      assert Moves(c, states, actions, i - 1);
      StepInv(c, states[i - 1], actions[i - 1], states[i]);
    }
  }

  /** The entry under k survives the step, possibly flushed, or a newer one takes its place. */
  predicate Survives(d: Data, d': Data, k: Key)
    requires k in d.cache
  {
    && k in d'.cache
    && (d'.cache[k].version > d.cache[k].version
        || (d'.cache[k].version == d.cache[k].version && d'.cache[k].value == d.cache[k].value))
  }

  /**
  Unflushed data is never dropped silently: in every run, whatever step is taken, an entry that
  is Dirty or FlushInProgress stays resident with its value or is replaced by a strictly newer
  version. The only exceptions are a crash and a ForceInvalidate that targeted this very version.
  It turns Clean only by the flush of this very version, after its FlushComplete was journaled.
  */
  lemma UnflushedNeverDropped(c: Config, states: seq<State>, actions: seq<Action>, i: nat, k: Key)
    requires IsRun(c, states, actions) && i < |actions|
    requires Unflushed(states[i].data.cache, k) && !actions[i].Crash? && !actions[i].TornCrash?
    ensures var d, d' := states[i].data, states[i + 1].data;
            var e := d.cache[k];
            || Survives(d, d', k)
            || (actions[i].Step? && PcOf(states[i], actions[i].t) == Invalidating(k, e.version, true, Removed))
    ensures var d, d' := states[i].data, states[i + 1].data;
            k in d'.cache && d'.cache[k].version == d.cache[k].version && d'.cache[k].state == Clean ==>
              actions[i].Step? && var pc := PcOf(states[i], actions[i].t);
              pc.Flushing? && pc.k == k && pc.n == d.cache[k].version && pc.flush == Logged
  {
    RunInv(c, states, actions, i);
    assert Moves(c, states, actions, i);
    if actions[i].Step? {
      StepKeepsUnflushed(c, states[i].data, states[i].gate, PcOf(states[i], actions[i].t), actions[i].ch, k);
    }
  }

  lemma StepKeepsUnflushed(c: Config, d: Data, g: Gate, pc: Pc, ch: Choice, k: Key)
    requires DataOk(c, d) && PcOk(d, pc) && CanStep(c, d, g, pc, ch) && Unflushed(d.cache, k)
    ensures var o := Act(c, d, g, pc, ch);
            Survives(d, o.data, k) || pc == Invalidating(k, d.cache[k].version, true, Removed)
    ensures var o := Act(c, d, g, pc, ch);
            k in o.data.cache && o.data.cache[k].version == d.cache[k].version && o.data.cache[k].state == Clean ==>
              pc.Flushing? && pc.k == k && pc.n == d.cache[k].version && pc.flush == Logged
  {
    hide Act;
    StepCache(c, d, g, pc, ch);
  }
}
