/**
The per-shard mutation fence: equal values at a Get's miss and at its commit mean that the
shard saw no insert, update or completed invalidation in between.
*/
module Fence {
  import opened CacheTypes
  import opened Protocol
  import opened Versions

  /** Every entry the shard holds afterwards it held before, with the same value and version. */
  ghost predicate NothingNew(c: Config, before: Cache, after: Cache, shard: nat) {
    forall k | k in after && ShardOf(c, k) == shard ::
      k in before && after[k].value == before[k].value && after[k].version == before[k].version
  }

  predicate CompletesInvalidation(c: Config, pc: Pc, shard: nat) {
    pc.Invalidating? && pc.inv == Removed && ShardOf(c, pc.k) == shard
  }

  /** What a step must satisfy in shard i: fences only grow, and an equal fence means nothing new and no completed invalidation. */
  ghost predicate FenceRel(c: Config, d: Data, pc: Pc, d': Data, i: nat)
    requires |d.fences| == c.shards && i < c.shards
  {
    && |d'.fences| == c.shards && d.fences[i] <= d'.fences[i]
    && (d'.fences[i] == d.fences[i] ==> NothingNew(c, d.cache, d'.cache, i) && !CompletesInvalidation(c, pc, i))
  }

  /** A commit under the shard lock advances the fence of the shard it changes, or brings nothing. */
  lemma CommitFence(c: Config, d: Data, pc: Pc, k: Key, e: Entry, evict: set<Key>, i: nat)
    requires |d.fences| == c.shards && i < c.shards && !pc.Invalidating?
    ensures FenceRel(c, d, pc, CommitData(c, d, k, e, evict), i)
  {
  }

  /** A step that leaves the fences alone and brings no entry. */
  lemma QuietFence(c: Config, d: Data, pc: Pc, d': Data, i: nat)
    requires |d.fences| == c.shards && i < c.shards && d'.fences == d.fences && !CompletesInvalidation(c, pc, i)
    requires forall k | k in d'.cache :: k in d.cache && d'.cache[k].value == d.cache[k].value && d'.cache[k].version == d.cache[k].version
    ensures FenceRel(c, d, pc, d', i)
  {
  }

  lemma PutFence(c: Config, d: Data, g: Gate, pc: Pc, ch: Choice, i: nat)
    requires |d.fences| == c.shards && i < c.shards && pc.Putting?
    ensures FenceRel(c, d, pc, ActPut(c, d, g, pc.k, pc.v, pc.n, pc.put, ch).data, i)
  {
    hide FenceRel, Append, CommitData;
    var d' := ActPut(c, d, g, pc.k, pc.v, pc.n, pc.put, ch).data;
    if pc.put == Journaled {
      CommitFence(c, d, pc, pc.k, Entry(pc.v, pc.n, Dirty), ch.evict, i);
    } else {
      QuietFence(c, d, pc, d', i);
    }
  }

  lemma GetFence(c: Config, d: Data, g: Gate, pc: Pc, ch: Choice, i: nat)
    requires |d.fences| == c.shards && i < c.shards && pc.Getting?
    ensures FenceRel(c, d, pc, ActGet(c, d, g, pc.k, pc.get, ch).data, i)
  {
    hide FenceRel, CommitData;
    var d' := ActGet(c, d, g, pc.k, pc.get, ch).data;
    if d' == d {
      QuietFence(c, d, pc, d', i);
    } else {
      CommitFence(c, d, pc, pc.k, Entry(pc.get.v, 0, Clean), ch.evict, i);
    }
  }

  lemma InvalidateFence(c: Config, d: Data, g: Gate, pc: Pc, ok: bool, i: nat)
    requires |d.fences| == c.shards && i < c.shards && pc.Invalidating?
    ensures FenceRel(c, d, pc, ActInvalidate(c, d, g, pc.k, pc.n, pc.force, pc.inv, ok).data, i)
  {
    hide Append;
  }

  lemma RestFence(c: Config, d: Data, g: Gate, pc: Pc, ch: Choice, i: nat)
    requires |d.fences| == c.shards && CanStep(c, d, g, pc, ch) && i < c.shards
    requires !pc.Putting? && !pc.Invalidating? && !pc.Getting?
    ensures FenceRel(c, d, pc, Act(c, d, g, pc, ch).data, i)
  {
    hide FenceRel, ActPut, ActGet, ActInvalidate, Append;
    QuietFence(c, d, pc, Act(c, d, g, pc, ch).data, i);
  }

  lemma FenceStep(c: Config, d: Data, g: Gate, pc: Pc, ch: Choice, i: nat)
    requires |d.fences| == c.shards && CanStep(c, d, g, pc, ch) && i < c.shards
    ensures FenceRel(c, d, pc, Act(c, d, g, pc, ch).data, i)
  {
    hide FenceRel, ActPut, ActGet, ActInvalidate;
    if pc.Putting? {
      PutFence(c, d, g, pc, ch, i);
    } else if pc.Getting? {
      GetFence(c, d, g, pc, ch, i);
    } else if pc.Invalidating? {
      InvalidateFence(c, d, g, pc, ch.ok, i);
    } else {
      RestFence(c, d, g, pc, ch, i);
    }
  }

  /** A Get that missed: its snapshot is not ahead of the fence, and the key is absent while they agree. */
  predicate MissOk(c: Config, d: Data, pc: Pc)
    requires |d.fences| == c.shards
  {
    pc.Getting? && !pc.get.Lookup? ==>
      var now := d.fences[ShardOf(c, pc.k)];
      pc.get.fence <= now && (pc.get.fence == now ==> pc.k !in d.cache)
  }

  ghost predicate Inv(c: Config, s: State) {
    && |s.data.fences| == c.shards
    && (s.gate.lifecycle == NotReady ==> s.threads == map[])
    && forall t | t in s.threads :: MissOk(c, s.data, s.threads[t])
  }

  lemma MoverMiss(c: Config, d: Data, g: Gate, pc: Pc, ch: Choice)
    requires |d.fences| == c.shards && CanStep(c, d, g, pc, ch) && MissOk(c, d, pc)
    ensures var o := Act(c, d, g, pc, ch); |o.data.fences| == c.shards && MissOk(c, o.data, o.pc)
  {
    hide FenceRel, ActGet, MissOk, CanStep;
    if pc.Getting? {
      GetMiss(c, d, g, pc, ch);
    } else {
      NotGetting(c, d, g, pc, ch);
    }
  }

  lemma GetMiss(c: Config, d: Data, g: Gate, pc: Pc, ch: Choice)
    requires |d.fences| == c.shards && pc.Getting? && MissOk(c, d, pc)
    ensures var o := ActGet(c, d, g, pc.k, pc.get, ch); |o.data.fences| == c.shards && MissOk(c, o.data, o.pc)
  {
  }

  lemma NotGetting(c: Config, d: Data, g: Gate, pc: Pc, ch: Choice)
    requires |d.fences| == c.shards && CanStep(c, d, g, pc, ch) && !pc.Getting?
    ensures var o := Act(c, d, g, pc, ch); |o.data.fences| == c.shards && MissOk(c, o.data, o.pc)
  {
    hide Act, CanStep;
    FenceStep(c, d, g, pc, ch, 0);
    OnlyGetsGet(c, d, g, pc, ch);
  }

  lemma OnlyGetsGet(c: Config, d: Data, g: Gate, pc: Pc, ch: Choice)
    requires |d.fences| == c.shards && CanStep(c, d, g, pc, ch) && !pc.Getting?
    ensures !Act(c, d, g, pc, ch).pc.Getting?
  {
    hide Append, CommitData, Settle, ActGet, CanPut;
  }

  lemma StepInv(c: Config, s: State, a: Action, s': State)
    requires Inv(c, s) && Transition(c, s, a, s')
    ensures Inv(c, s')
  {
    if a.Step? {
      var pc := PcOf(s, a.t);
      MoverMiss(c, s.data, s.gate, pc, a.ch);
      forall u | u in s.threads && u != a.t
        ensures MissOk(c, s'.data, s.threads[u])
      {
        if s.threads[u].Getting? {
          FenceStep(c, s.data, s.gate, pc, a.ch, ShardOf(c, s.threads[u].k));
        }
      }
    }
  }

  lemma RunInv(c: Config, states: seq<State>, actions: seq<Action>, i: nat)
    requires IsRun(c, states, actions) && i < |states|
    ensures Inv(c, states[i])
  {
    if i > 0 {
      RunInv(c, states, actions, i - 1);
      assert Moves(c, states, actions, i - 1);
      StepInv(c, states[i - 1], actions[i - 1], states[i]);
    }
  }

  /** No restart between states i and j. */
  ghost predicate OneSession(actions: seq<Action>, i: nat, j: nat)
    requires i <= j <= |actions|
  {
    forall m | i <= m < j :: actions[m].Start? || actions[m].Step?
  }

  /** Step m neither inserts nor updates in the shard, and completes no invalidation there. */
  ghost predicate Untouched(c: Config, states: seq<State>, actions: seq<Action>, m: nat, shard: nat)
    requires m < |actions| < |states|
  {
    && NothingNew(c, states[m].data.cache, states[m + 1].data.cache, shard)
    && (actions[m].Step? ==> !CompletesInvalidation(c, PcOf(states[m], actions[m].t), shard))
  }

  /** Fences only grow, and equal fences enclose no mutation. */
  lemma EqualFences(c: Config, states: seq<State>, actions: seq<Action>, i: nat, j: nat, shard: nat)
    requires IsRun(c, states, actions) && i <= j <= |actions| && shard < c.shards && OneSession(actions, i, j)
    requires |states[i].data.fences| == |states[j].data.fences| == c.shards
    ensures states[i].data.fences[shard] <= states[j].data.fences[shard]
    ensures states[i].data.fences[shard] == states[j].data.fences[shard] ==>
              forall m | i <= m < j :: Untouched(c, states, actions, m, shard)
    decreases j - i
  {
    if i < j {
      var s, a, s' := states[i], actions[i], states[i + 1];
      assert Moves(c, states, actions, i);
      if a.Step? {
        FenceStep(c, s.data, s.gate, PcOf(s, a.t), a.ch, shard);
      }
      EqualFences(c, states, actions, i + 1, j, shard);
      assert Untouched(c, states, actions, i, shard) || s.data.fences[shard] < s'.data.fences[shard];
    }
  }

  predicate PastMiss(pc: Pc) {
    pc.Getting? && !pc.get.Lookup?
  }

  /** A Get gets past its miss only by missing, and keeps its snapshot. */
  lemma MissStep(c: Config, d: Data, g: Gate, pc: Pc, ch: Choice)
    requires |d.fences| == c.shards && CanStep(c, d, g, pc, ch)
    ensures var pc' := Act(c, d, g, pc, ch).pc;
            PastMiss(pc') ==>
              || (PastMiss(pc) && pc'.k == pc.k && pc'.get.fence == pc.get.fence)
              || (pc == Getting(pc'.k, Lookup) && pc'.k !in d.cache && d.fences[ShardOf(c, pc'.k)] == pc'.get.fence)
  {
    hide ActPut, ActInvalidate, ActClaim, ActFlush, ActCompact, ActShut;
    if !pc.Getting? {
      OnlyGetsGet(c, d, g, pc, ch);
    }
  }

  /** Where a Get that is past its miss observed the miss. */
  lemma MissPoint(c: Config, states: seq<State>, actions: seq<Action>, i: nat, t: Tid) returns (j: nat)
    requires IsRun(c, states, actions) && i < |states|
    requires PcOf(states[i], t).Getting? && !PcOf(states[i], t).get.Lookup?
    ensures j < i && OneSession(actions, j, i)
    ensures var pc := PcOf(states[i], t);
            && PcOf(states[j], t) == Getting(pc.k, Lookup) && pc.k !in states[j].data.cache
            && |states[j].data.fences| == c.shards && states[j].data.fences[ShardOf(c, pc.k)] == pc.get.fence
  {
    if i == 0 {
      assert false;
    }
    var s, a := states[i - 1], actions[i - 1];
    hide Act, CanStep;
    assert Moves(c, states, actions, i - 1);
    RunInv(c, states, actions, i - 1);
    if a.Step? && a.t == t {
      MissStep(c, s.data, s.gate, PcOf(s, t), a.ch);
    }
    if PcOf(s, t).Getting? && !PcOf(s, t).get.Lookup? {
      j := MissPoint(c, states, actions, i - 1, t);
    } else {
      j := i - 1;
    }
  }

  /**
  Fence soundness: when a Get commits its read with an unchanged fence, then since its miss the
  shard saw no insert, no update and no completed invalidation, and the key is absent, so the
  fill replaces nothing.
  */
  lemma FenceSound(c: Config, states: seq<State>, actions: seq<Action>, i: nat) returns (miss: nat)
    requires IsRun(c, states, actions) && i < |actions| && actions[i].Step?
    requires var pc := PcOf(states[i], actions[i].t);
             pc.Getting? && pc.get.Fetched? && |states[i].data.fences| == c.shards
             && states[i].data.fences[ShardOf(c, pc.k)] == pc.get.fence
    ensures miss < i
    ensures var k := PcOf(states[i], actions[i].t).k;
            && PcOf(states[miss], actions[i].t) == Getting(k, Lookup)
            && k !in states[miss].data.cache && k !in states[i].data.cache
            && forall m | miss <= m < i :: Untouched(c, states, actions, m, ShardOf(c, k))
  {
    RunInv(c, states, actions, i);
    miss := MissPoint(c, states, actions, i, actions[i].t);
    EqualFences(c, states, actions, miss, i, ShardOf(c, PcOf(states[i], actions[i].t).k));
  }

  /** A Put that commits over a read-fill, or over nothing, always becomes the resident entry. */
  lemma PutReplacesFill(c: Config, states: seq<State>, actions: seq<Action>, i: nat)
    requires IsRun(c, states, actions) && i < |actions| && actions[i].Step?
    requires var pc := PcOf(states[i], actions[i].t);
             InWindow(pc) && (pc.k in states[i].data.cache ==> states[i].data.cache[pc.k].version == 0)
    ensures var pc := PcOf(states[i], actions[i].t);
            pc.k in states[i + 1].data.cache && states[i + 1].data.cache[pc.k] == Entry(pc.v, pc.n, Dirty)
  {
    Versions.RunInv(c, states, actions, i);
    assert Moves(c, states, actions, i);
  }
}
