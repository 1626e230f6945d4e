/**
The concurrent engine refines a plain map. In benign runs without invalidations what a key is served
with changes at one kind of step only, the commit of a Put of that key; and while no Put of it is
between append and commit, it is what a restart would serve.
*/
module PlainMap {
  import opened CacheTypes
  import opened Replay
  import opened Protocol
  import opened Versions
  import opened CommitOrder
  import opened KeyViews
  import opened Durability
  import opened Reads
  import opened Answers
  import Fence

  function ServedAt(v: KeyView): Option<Value> {
    if v.entry.Some? then Some(v.entry.value.value) else v.stored
  }

  /** A Clean entry is what the store holds. */
  predicate CleanOk(v: KeyView) {
    v.entry.Some? && v.entry.value.state == Clean ==> v.stored == Some(v.entry.value.value)
  }

  /** A value read from the store is still stored there while the fence has not moved. */
  predicate FillOk(c: Config, d: Data, pc: Pc, k: Key)
    requires |d.fences| == c.shards
  {
    pc.Getting? && pc.get.Fetched? && pc.k == k && d.fences[ShardOf(c, k)] == pc.get.fence ==> At(d.store, k) == Some(pc.get.v)
  }

  ghost predicate PlainInv(c: Config, s: State, k: Key) {
    && |s.data.fences| == c.shards
    && (s.gate.lifecycle != NotReady ==> CleanOk(View(s.data, k)))
    && forall t | t in s.threads :: FillOk(c, s.data, s.threads[t], k)
  }

  // ----- One step -----

  /** A read-fill that the fence lets through. */
  predicate Fills(c: Config, d: Data, pc: Pc, k: Key)
    requires |d.fences| == c.shards
  {
    pc.Getting? && pc.get.Fetched? && pc.k == k && d.fences[ShardOf(c, k)] == pc.get.fence
  }

  predicate SettlesClean(e: Entry, pc: Pc, k: Key) {
    pc.Flushing? && pc.flush == Logged && pc.k == k && pc.n == e.version && e.state == FlushInProgress
  }

  /** How a step other than a commit may change the entry of k. */
  predicate EntryRel(c: Config, d: Data, pc: Pc, e: Option<Entry>, e': Option<Entry>, k: Key)
    requires |d.fences| == c.shards
  {
    || e' == e
    || (e.Some? && e.value.state == Clean && e' == None)
    || (e.Some? && e'.Some? && e'.value.value == e.value.value && e'.value.version == e.value.version
        && (e'.value.state == Clean ==> SettlesClean(e.value, pc, k)))
    || (Fills(c, d, pc, k) && (e' == None || e' == Some(Entry(pc.get.v, 0, Clean))))
  }

  lemma StepEntry(c: Config, d: Data, g: Gate, pc: Pc, ch: Choice, k: Key)
    requires |d.fences| == c.shards && CanStep(c, d, g, pc, ch) && !pc.Invalidating?
    requires Fills(c, d, pc, k) ==> k !in d.cache
    ensures var e' := At(Act(c, d, g, pc, ch).data.cache, k);
            if InWindow(pc) && pc.k == k
            then e' == if k in d.cache && Stale(pc.n, d.cache[k].version) then At(d.cache, k) else Some(Entry(pc.v, pc.n, Dirty))
            else EntryRel(c, d, pc, At(d.cache, k), e', k)
  {
    hide Act;
    StepCache(c, d, g, pc, ch);
  }

  /** The store changes only by a flush that has its intent record. */
  predicate StoreRel(pc: Pc, ok: bool, x: Option<Value>, x': Option<Value>, k: Key) {
    if pc.Flushing? && pc.flush == Intended && ok && pc.k == k then x' == Some(pc.v) else x' == x
  }

  lemma StepStore(c: Config, d: Data, g: Gate, pc: Pc, ch: Choice, k: Key)
    requires |d.fences| == c.shards && CanStep(c, d, g, pc, ch) && !pc.Invalidating?
    ensures StoreRel(pc, ch.ok, At(d.store, k), At(Act(c, d, g, pc, ch).data.store, k), k)
  {
    hide Append, CommitData, Settle;
  }

  /** What is served changes exactly at a commit, and Clean entries stay equal to the store. */
  lemma KeyServed(c: Config, d: Data, pc: Pc, ok: bool, d': Data, k: Key)
    requires |d.fences| == c.shards && !pc.Invalidating?
    requires var v, v' := View(d, k), View(d', k);
             && CleanOk(v) && ThreadKey(v, pc, k) && FillOk(c, d, pc, k) && (Fills(c, d, pc, k) ==> v.entry == None)
             && StoreRel(pc, ok, v.stored, v'.stored, k)
             && (if InWindow(pc) && pc.k == k
                 then v'.entry == if v.entry.Some? && Stale(pc.n, v.entry.value.version) then v.entry else Some(Entry(pc.v, pc.n, Dirty))
                 else EntryRel(c, d, pc, v.entry, v'.entry, k))
    ensures var v, v' := View(d, k), View(d', k);
            && ServedAt(v') == (if InWindow(pc) && pc.k == k then Some(pc.v) else ServedAt(v))
            && CleanOk(v')
  {
    hide Pending, InvalidatedKeys;
  }

  lemma ServedStep(c: Config, s: State, t: Tid, ch: Choice, s': State, truth: Option<Value>, k: Key)
    requires Fence.Inv(c, s) && Quiet(s) && DurInv(s, truth, k) && PlainInv(c, s, k) && s.gate.lifecycle != NotReady
    requires Transition(c, s, Step(t, ch), s')
    ensures Served(s'.data, k) == (if CommitsPut(s, Step(t, ch), k) then Some(PcOf(s, t).v) else Served(s.data, k))
    ensures CleanOk(View(s'.data, k))
  {
    hide Act, CanStep, StoreRel, EntryRel, LiveKey, Backed, Pending, InvalidatedKeys;
    var pc := PcOf(s, t);
    IdleOk(c, s, t, k);
    StepEntry(c, s.data, s.gate, pc, ch, k);
    StepStore(c, s.data, s.gate, pc, ch, k);
    KeyServed(c, s.data, pc, ch.ok, s'.data, k);
  }

  lemma IdleOk(c: Config, s: State, t: Tid, k: Key)
    requires Fence.Inv(c, s) && Quiet(s) && PlainInv(c, s, k)
    requires forall u | u in s.threads :: ThreadKey(View(s.data, k), s.threads[u], k)
    ensures !PcOf(s, t).Invalidating? && ThreadKey(View(s.data, k), PcOf(s, t), k) && FillOk(c, s.data, PcOf(s, t), k)
    ensures Fills(c, s.data, PcOf(s, t), k) ==> k !in s.data.cache
  {
  }

  /** The fence keeps values read by other threads up to date. */
  lemma FillKept(c: Config, s: State, t: Tid, ch: Choice, s': State, q: Pc, k: Key)
    requires Fence.Inv(c, s) && Quiet(s) && PlainInv(c, s, k) && Transition(c, s, Step(t, ch), s')
    requires ThreadKey(View(s.data, k), PcOf(s, t), k) && |s'.data.fences| == c.shards
    requires Fence.MissOk(c, s.data, q) && FillOk(c, s.data, q, k)
    ensures FillOk(c, s'.data, q, k)
  {
    hide Act, CanStep, View;
    if q.Getting? && q.get.Fetched? && q.k == k {
      var pc := PcOf(s, t);
      Fence.FenceStep(c, s.data, s.gate, pc, ch, ShardOf(c, k));
      StepStore(c, s.data, s.gate, pc, ch, k);
      if pc.Flushing? && pc.k == k {
        FlushingIsCached(s.data, pc, k);
      }
    }
  }

  lemma FlushingIsCached(d: Data, pc: Pc, k: Key)
    requires ThreadKey(View(d, k), pc, k) && pc.Flushing? && pc.k == k
    ensures k in d.cache
  {
  }

  /** A Get takes what is stored at that moment. */
  lemma FetchOk(c: Config, d: Data, g: Gate, pc: Pc, ch: Choice, k: Key)
    requires |d.fences| == c.shards && CanStep(c, d, g, pc, ch)
    ensures var o := Act(c, d, g, pc, ch); |o.data.fences| == c.shards && FillOk(c, o.data, o.pc, k)
  {
    hide Act, CanStep;
    Fence.FenceStep(c, d, g, pc, ch, 0);
    if pc.Getting? {
      GetFetches(c, d, g, pc, ch, k);
    } else {
      Fence.OnlyGetsGet(c, d, g, pc, ch);
    }
  }

  lemma GetFetches(c: Config, d: Data, g: Gate, pc: Pc, ch: Choice, k: Key)
    requires |d.fences| == c.shards && CanStep(c, d, g, pc, ch) && pc.Getting?
    ensures var o := Act(c, d, g, pc, ch); |o.data.fences| == c.shards ==> FillOk(c, o.data, o.pc, k)
  {
  }

  lemma ThreadStepPlain(c: Config, s: State, t: Tid, ch: Choice, s': State, truth: Option<Value>, k: Key)
    requires Fence.Inv(c, s) && Quiet(s) && DurInv(s, truth, k) && PlainInv(c, s, k) && s.gate.lifecycle != NotReady
    requires Transition(c, s, Step(t, ch), s')
    ensures PlainInv(c, s', k)
  {
    hide Act, CanStep, CleanOk, FillOk, View, Fence.MissOk;
    ServedStep(c, s, t, ch, s', truth, k);
    FetchOk(c, s.data, s.gate, PcOf(s, t), ch, k);
    IdleOk(c, s, t, k);
    forall u | u in s.threads && u != t
      ensures FillOk(c, s'.data, s.threads[u], k)
    {
      FillKept(c, s, t, ch, s', s.threads[u], k);
    }
  }

  lemma StepsLive(c: Config, s: State, t: Tid, ch: Choice)
    requires Versions.Inv(c, s) && CanStep(c, s.data, s.gate, PcOf(s, t), ch)
    ensures s.gate.lifecycle != NotReady
  {
  }

  lemma StepPlain(c: Config, s: State, a: Action, s': State, truth: Option<Value>, k: Key)
    requires Fence.Inv(c, s) && Versions.Inv(c, s) && Quiet(s) && DurInv(s, truth, k) && PlainInv(c, s, k) && Transition(c, s, a, s')
    ensures PlainInv(c, s', k)
  {
    hide Act, CanStep, Pending, InvalidatedKeys;
    if a.Step? {
      StepsLive(c, s, a.t, a.ch);
      ThreadStepPlain(c, s, a.t, a.ch, s', truth, k);
    } else if a.Start? {
      FirstStage(s.gate, a.first);
    } else if a.Recover? || a.SkipReplay? {
      assert s'.threads == map[];
    }
  }

  // ----- Whole runs -----

  lemma {:induction false} RunPlain(c: Config, states: seq<State>, actions: seq<Action>, i: nat, k: Key)
    requires QuietRun(c, states, actions) && i < |states|
    ensures PlainInv(c, states[i], k)
  {
    hide Transition, DurInv, Benign, Quiet, Fair, Versions.Inv, Fence.Inv;
    if i > 0 {
      RunPlain(c, states, actions, i - 1, k);
      RunDur(c, states, actions, i - 1, k);
      Versions.RunInv(c, states, actions, i - 1);
      Fence.RunInv(c, states, actions, i - 1);
      assert Moves(c, states, actions, i - 1);
      StepPlain(c, states[i - 1], actions[i - 1], states[i], Truth(states, actions, i - 1, k), k);
    }
  }

  /** The plain map of a run: what the last restart found, changed by the commits of Puts since. */
  function Plain(states: seq<State>, actions: seq<Action>, i: nat, k: Key): Option<Value>
    requires i <= |actions| < |states|
  {
    if i == 0 then At(states[0].data.store, k)
    else
      var s, a := states[i - 1], actions[i - 1];
      if Opens(a) then Truth(states, actions, i, k)
      else if CommitsPut(s, a, k) then Some(PcOf(s, a.t).v)
      else Plain(states, actions, i - 1, k)
  }

  lemma OpenServes(c: Config, states: seq<State>, actions: seq<Action>, i: nat, k: Key)
    requires QuietRun(c, states, actions) && i < |actions| && Opens(actions[i])
    ensures Served(states[i + 1].data, k) == Truth(states, actions, i + 1, k)
  {
    hide Benign, Quiet, Fair;
    RecoversTruth(c, states, actions, i, k);
    Versions.RunInv(c, states, actions, i);
    assert Moves(c, states, actions, i);
  }

  /**
  In every benign run without invalidations, while a session is open every key is served with the
  plain map's value: what the last restart found, changed only by the commits of its Puts, whatever
  flushes, evictions, read-fills, compactions and failures happen in between.
  */
  lemma {:induction false} ServesPlainMap(c: Config, states: seq<State>, actions: seq<Action>, i: nat, k: Key)
    requires QuietRun(c, states, actions) && i < |states| && states[i].gate.lifecycle != NotReady
    ensures Served(states[i].data, k) == Plain(states, actions, i, k)
  {
    hide Transition, DurInv, Benign, Quiet, Fair, Versions.Inv, Fence.Inv, PlainInv;
    assert i > 0;
    var s, a := states[i - 1], actions[i - 1];
    assert Moves(c, states, actions, i - 1);
    if Opens(a) {
      OpenServes(c, states, actions, i - 1, k);
    } else {
      Versions.RunInv(c, states, actions, i - 1);
      StaysOpen(c, s, a, states[i]);
      ServesPlainMap(c, states, actions, i - 1, k);
      if a.Step? {
        RunDur(c, states, actions, i - 1, k);
        RunPlain(c, states, actions, i - 1, k);
        Fence.RunInv(c, states, actions, i - 1);
        ServedStep(c, s, a.t, a.ch, states[i], Truth(states, actions, i - 1, k), k);
      }
    }
  }

  lemma StaysOpen(c: Config, s: State, a: Action, s': State)
    requires Versions.Inv(c, s) && Transition(c, s, a, s') && !Opens(a) && s'.gate.lifecycle != NotReady
    ensures s.gate.lifecycle != NotReady
    ensures (a.Start? || a.Step? || a.MarkClean?) && (!a.Step? ==> s'.data.cache == s.data.cache && s'.data.store == s.data.store)
  {
  }

  ghost predicate Settled(s: State, k: Key) {
    forall t | t in s.threads :: !(InWindow(s.threads[t]) && s.threads[t].k == k)
  }

  /** While no Put of k is between its append and its commit, k is served with what a restart would serve. */
  lemma {:induction false} ServesTruth(c: Config, states: seq<State>, actions: seq<Action>, i: nat, k: Key)
    requires QuietRun(c, states, actions) && i < |states| && states[i].gate.lifecycle != NotReady && Settled(states[i], k)
    ensures Served(states[i].data, k) == Truth(states, actions, i, k)
  {
    hide Transition, Benign, Quiet, Fair, Versions.Inv, Fence.Inv, PlainInv, LiveKey, Backed, CleanOk, Pending, InvalidatedKeys;
    assert i > 0;
    var s, a := states[i - 1], actions[i - 1];
    assert Moves(c, states, actions, i - 1);
    if Opens(a) {
      OpenServes(c, states, actions, i - 1, k);
    } else {
      Versions.RunInv(c, states, actions, i - 1);
      StaysOpen(c, s, a, states[i]);
      if a.Step? {
        RunDur(c, states, actions, i - 1, k);
        RunPlain(c, states, actions, i - 1, k);
        Fence.RunInv(c, states, actions, i - 1);
        ServedStep(c, s, a.t, a.ch, states[i], Truth(states, actions, i - 1, k), k);
      }
      WasSettled(c, s, a, states[i], k);
      if Settled(s, k) {
        ServesTruth(c, states, actions, i - 1, k);
      }
    }
  }

  /** A window is left only by its commit and entered only by its append. */
  lemma WasSettled(c: Config, s: State, a: Action, s': State, k: Key)
    requires Quiet(s) && Transition(c, s, a, s') && (a.Start? || a.Step? || a.MarkClean?) && Settled(s', k)
    ensures !(CommitsPut(s, a, k)) ==> Settled(s, k) && !JournalsPut(s, a, k) && !JournalsRemoval(s, a, k)
  {
    hide Act, CanStep;
    if a.Step? {
      WindowStep(c, s.data, s.gate, PcOf(s, a.t), a.ch);
      assert a.t in s'.threads && s'.threads[a.t] == Act(c, s.data, s.gate, PcOf(s, a.t), a.ch).pc;
    }
    forall t | t in s.threads
      ensures !CommitsPut(s, a, k) ==> !(InWindow(s.threads[t]) && s.threads[t].k == k)
    {
      if (a.Start? || a.Step?) && a.t != t {
        assert s'.threads[t] == s.threads[t];
      }
    }
  }

  lemma {:induction false} OpenThroughout(c: Config, states: seq<State>, actions: seq<Action>, p: nat, m: nat)
    requires IsRun(c, states, actions) && p <= m < |states| && Fence.OneSession(actions, p, m) && states[p].threads != map[]
    ensures states[m].gate.lifecycle != NotReady
    decreases m
  {
    hide Transition;
    Versions.RunInv(c, states, actions, p);
    if m > p {
      OpenThroughout(c, states, actions, p, m - 1);
      assert Moves(c, states, actions, m - 1);
      StaysLive(c, states[m - 1], actions[m - 1], states[m]);
    }
  }

  lemma StaysLive(c: Config, s: State, a: Action, s': State)
    requires Transition(c, s, a, s') && (a.Start? || a.Step?) && s.gate.lifecycle != NotReady
    ensures s'.gate.lifecycle != NotReady
  {
    hide Act, CanStep;
    if a.Step? {
      KeepsGate(c, s.data, s.gate, PcOf(s, a.t), a.ch);
    }
  }

  /** Every Get is atomic: its answer is the plain map's value at one moment m between its lookup at p and its return at j. */
  lemma GetsAreAtomic(c: Config, states: seq<State>, actions: seq<Action>, j: nat) returns (p: nat, m: nat)
    requires QuietRun(c, states, actions) && j < |actions| && actions[j].Step? && |states[j].data.fences| == c.shards
    requires PcOf(states[j], actions[j].t).Getting?
    requires Informs(ReplyOf(c, states[j].data, states[j].gate, PcOf(states[j], actions[j].t), actions[j].ch))
    ensures p <= m <= j && PcOf(states[p], actions[j].t) == Getting(PcOf(states[j], actions[j].t).k, Lookup)
    ensures var pc := PcOf(states[j], actions[j].t);
            Plain(states, actions, m, pc.k) == Content(ReplyOf(c, states[j].data, states[j].gate, pc, actions[j].ch))
  {
    hide QuietRun;
    QuietIsRun(c, states, actions);
    p, m := GetReadsSomeMoment(c, states, actions, j);
    OpenThroughout(c, states, actions, p, m);
    ServesPlainMap(c, states, actions, m, PcOf(states[j], actions[j].t).k);
  }
}
