/**
Completion records name a version, and versions repeat: the counter restarts at the highest pending
one, or at zero. In every interleaving, with invalidations, overlaps, tears and skipped replays, a
FlushComplete still settles only the write whose value its flush has put into the store.
*/
module Completion {
  import opened CacheTypes
  import opened Replay
  import opened Protocol
  import opened Versions

  predicate AgreeEntry(p: Option<Stamped>, e: Option<Entry>) {
    p.Some? && e.Some? && e.value.version == p.value.version ==> e.value.value == p.value.value
  }

  predicate AgreePc(p: Option<Stamped>, pc: Pc, k: Key) {
    p.Some? && (InWindow(pc) || pc.Flushing?) && pc.k == k && pc.n == p.value.version ==> pc.v == p.value.value
  }

  /** Equal versions of a key mean equal values: in the journal, in the cache and in a thread's hands. */
  ghost predicate Agree(s: State, k: Key) {
    var p := At(Pending(s.data.journal), k);
    && (p.Some? ==> p.value.version >= 1)
    && (!s.data.torn ==>
          && AgreeEntry(p, At(s.data.cache, k))
          && forall t | t in s.threads :: AgreePc(p, s.threads[t], k))
  }

  // ----- One step -----

  /** Where a thread's version and value come from. */
  predicate HandsOn(d: Data, pc: Pc, ok: bool, pc': Pc) {
    && (pc'.Flushing? ==>
          || (pc.Flushing? && pc'.k == pc.k && pc'.n == pc.n && pc'.v == pc.v)
          || (Resident(d.cache, pc'.k, pc'.n) && d.cache[pc'.k].value == pc'.v))
    && (InWindow(pc') ==> pc.Putting? && pc.put == PutAdmitted && ok && pc'.k == pc.k && pc'.v == pc.v && pc'.n == d.counter + 1)
  }

  lemma StepHandsOn(c: Config, d: Data, g: Gate, pc: Pc, ch: Choice)
    requires |d.fences| == c.shards && CanStep(c, d, g, pc, ch)
    ensures HandsOn(d, pc, ch.ok, Act(c, d, g, pc, ch).pc)
  {
    hide Append, CommitData, Settle;
  }

  /** What a step does to the pending write of k. */
  predicate PendingRel(d: Data, pc: Pc, ok: bool, p: Option<Stamped>, p': Option<Stamped>, k: Key) {
    || p' == p
    || p' == None
    || (!d.torn && ok && pc.Putting? && pc.put == PutAdmitted && pc.k == k && p' == Some(Stamped(pc.v, d.counter + 1)))
  }

  lemma StepPending(d: Data, pc: Pc, ok: bool, d': Data, k: Key)
    requires JournalRel(d, pc, ok, d')
    ensures PendingRel(d, pc, ok, At(Pending(d.journal), k), At(Pending(d'.journal), k), k)
  {
    hide Pending;
    if d'.journal == [] {
      NothingPending();
    }
    var r := NextRecord(d, pc);
    if r.Some? {
      PendingAppend(d.journal, r.value);
    }
  }

  lemma NothingPending()
    ensures Pending([]) == map[]
  {
  }

  lemma EntryAgrees(d: Data, pc: Pc, ok: bool, d': Data, p: Option<Stamped>, p': Option<Stamped>, k: Key)
    requires (forall j | j in d.cache :: d.cache[j].version <= d.counter) && CacheEffect(d, pc, d')
    requires AgreeEntry(p, At(d.cache, k)) && AgreePc(p, pc, k) && PendingRel(d, pc, ok, p, p', k)
    requires p.Some? ==> p.value.version >= 1
    ensures AgreeEntry(p', At(d'.cache, k)) && (p'.Some? ==> p'.value.version >= 1)
  {
  }

  lemma MoverAgrees(c: Config, d: Data, pc: Pc, ok: bool, pc': Pc, p: Option<Stamped>, p': Option<Stamped>, k: Key)
    requires DataOk(c, d) && PcOk(d, pc) && HandsOn(d, pc, ok, pc')
    requires AgreeEntry(p, At(d.cache, k)) && AgreePc(p, pc, k) && PendingRel(d, pc, ok, p, p', k)
    requires !d.torn && (InWindow(pc') && pc'.k == k ==> p' == Some(Stamped(pc'.v, pc'.n)))
    ensures AgreePc(p', pc', k)
  {
  }

  lemma OtherAgrees(c: Config, d: Data, pc: Pc, ok: bool, p: Option<Stamped>, p': Option<Stamped>, q: Pc, k: Key)
    requires DataOk(c, d) && PcOk(d, q) && AgreePc(p, q, k) && PendingRel(d, pc, ok, p, p', k)
    ensures AgreePc(p', q, k)
  {
  }

  lemma JournaledIsPending(d: Data, pc: Pc, ok: bool, d': Data, pc': Pc)
    requires JournalRel(d, pc, ok, d') && HandsOn(d, pc, ok, pc') && !d'.torn && !d.torn && InWindow(pc')
    ensures At(Pending(d'.journal), pc'.k) == Some(Stamped(pc'.v, pc'.n))
  {
    hide Pending;
    PendingAppend(d.journal, Upsert(pc.k, pc.v, d.counter + 1));
  }

  lemma ThreadAgrees(c: Config, s: State, t: Tid, ch: Choice, s': State, k: Key)
    requires Versions.Inv(c, s) && Agree(s, k) && Transition(c, s, Step(t, ch), s')
    ensures Agree(s', k)
  {
    hide Act, Pending, DataOk, PcOk, HandsOn, CacheEffect, AgreeEntry, AgreePc;
    var pc, d, d' := PcOf(s, t), s.data, s'.data;
    var p, p' := At(Pending(d.journal), k), At(Pending(d'.journal), k);
    StepJournal(c, d, s.gate, pc, ch);
    StepPending(d, pc, ch.ok, d', k);
    if !d.torn && !d'.torn {
      StepEffect(c, d, s.gate, pc, ch);
      StepHandsOn(c, d, s.gate, pc, ch);
      IdleAgrees(s, t, k);
      EntryAgrees(d, pc, ch.ok, d', p, p', k) by { Bounded(c, d); }
      if InWindow(s'.threads[t]) && s'.threads[t].k == k {
        JournaledIsPending(d, pc, ch.ok, d', s'.threads[t]);
      }
      MoverAgrees(c, d, pc, ch.ok, s'.threads[t], p, p', k);
      forall u | u in s.threads && u != t
        ensures AgreePc(p', s.threads[u], k)
      {
        OtherAgrees(c, d, pc, ch.ok, p, p', s.threads[u], k);
      }
    } else if !d'.torn {
      Emptied(s', k);
    }
  }

  lemma Bounded(c: Config, d: Data)
    requires DataOk(c, d)
    ensures forall j | j in d.cache :: d.cache[j].version <= d.counter
  {
  }

  lemma IdleAgrees(s: State, t: Tid, k: Key)
    requires Agree(s, k) && !s.data.torn
    ensures AgreePc(At(Pending(s.data.journal), k), PcOf(s, t), k)
  {
  }

  lemma Emptied(s: State, k: Key)
    requires s.data.journal == []
    ensures Agree(s, k)
  {
  }

  lemma RecoverAgrees(c: Config, s: State, fences: seq<nat>, s': State, k: Key)
    requires Versions.Inv(c, s) && Agree(s, k) && Transition(c, s, Recover(fences), s')
    ensures Agree(s', k)
  {
    assert s'.threads == map[];
  }

  lemma StepAgrees(c: Config, s: State, a: Action, s': State, k: Key)
    requires Versions.Inv(c, s) && Agree(s, k) && Transition(c, s, a, s')
    ensures Agree(s', k)
  {
    match a
    case Step(t, ch) => ThreadAgrees(c, s, t, ch, s', k);
    case Recover(fences) => RecoverAgrees(c, s, fences, s', k);
    case Start(_, _) =>
    case Crash =>
    case TornCrash(_) =>
    case PartialReplay(_) =>
    case MarkClean =>
    case SkipReplay(_) =>
  }

  // ----- Whole runs -----

  lemma {:induction false} RunAgrees(c: Config, states: seq<State>, actions: seq<Action>, i: nat, k: Key)
    requires IsRun(c, states, actions) && i < |states|
    ensures Agree(states[i], k)
  {
    if i == 0 {
      Emptied(states[0], k);
    } else {
      RunAgrees(c, states, actions, i - 1, k);
      Versions.RunInv(c, states, actions, i - 1);
      assert Moves(c, states, actions, i - 1);
      StepAgrees(c, states[i - 1], actions[i - 1], states[i], k);
    }
  }

  /**
  In every run, when the completion record of a flush settles a pending Upsert, that Upsert has the
  value the flush stored, whichever session wrote it.
  */
  lemma CompletionMatches(c: Config, states: seq<State>, actions: seq<Action>, i: nat, k: Key)
    requires IsRun(c, states, actions) && i < |actions| && actions[i].Step?
    requires PcOf(states[i], actions[i].t).Flushing? && PcOf(states[i], actions[i].t).flush == Stored
    requires k in Pending(states[i].data.journal) && k !in Pending(states[i + 1].data.journal)
    ensures var pc := PcOf(states[i], actions[i].t);
            pc.k == k && Pending(states[i].data.journal)[k] == Stamped(pc.v, pc.n)
  {
    hide Pending;
    var s, pc := states[i], PcOf(states[i], actions[i].t);
    RunAgrees(c, states, actions, i, k);
    Versions.RunInv(c, states, actions, i);
    assert Moves(c, states, actions, i);
    StepJournal(c, s.data, s.gate, pc, actions[i].ch);
    PendingAppend(s.data.journal, FlushComplete(pc.k, pc.n));
    IdleAgrees(s, actions[i].t, k);
  }
}
