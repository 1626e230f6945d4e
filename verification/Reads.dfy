/** What a Get returns while other threads run: a value its key was served with at some moment of the call. */
module Reads {
  import opened CacheTypes
  import opened Protocol
  import opened Versions
  import opened Durability
  import opened KeyViews
  import opened Answers
  import Fence

  ghost predicate Quiet(s: State) {
    forall t | t in s.threads :: !s.threads[t].Invalidating?
  }

  /** A benign run in which nobody invalidates. */
  ghost predicate QuietRun(c: Config, states: seq<State>, actions: seq<Action>) {
    BenignRun(c, states, actions) && forall i | 0 <= i < |states| :: Quiet(states[i])
  }

  /** The answer tells what the key is mapped to: a value, or NotFound. */
  predicate Informs(reply: Reply) {
    reply.Told? && (reply.result.Ok? || reply.result == Err(NotFound))
  }

  function Content(reply: Reply): Option<Value>
    requires Informs(reply)
  {
    if reply.result.Ok? then reply.result.value else None
  }

  /** Some state between p and m served k with this value. */
  ghost predicate SeenSince(states: seq<State>, p: nat, m: nat, k: Key, x: Option<Value>)
    requires p <= m < |states|
  {
    exists q :: p <= q <= m && Served(states[q].data, k) == x
  }

  lemma SeenNow(states: seq<State>, p: nat, m: nat, k: Key)
    requires p <= m < |states|
    ensures SeenSince(states, p, m, k, Served(states[m].data, k))
  {
  }

  lemma SeenLater(states: seq<State>, p: nat, m: nat, k: Key, x: Option<Value>)
    requires p <= m && m + 1 < |states| && SeenSince(states, p, m, k, x)
    ensures SeenSince(states, p, m + 1, k, x)
  {
    var q :| p <= q <= m && Served(states[q].data, k) == x;
    assert p <= q <= m + 1;
  }

  // ----- One step -----

  /** How stored values, values on their way to the store and values read from it come about. */
  predicate ReadRel(d: Data, pc: Pc, d': Data, pc': Pc) {
    && (d'.store == d.store || (AboutToStore(pc) && d'.store == d.store[pc.k := pc.v]))
    && (AboutToStore(pc') ==>
          || (AboutToStore(pc) && pc'.k == pc.k && pc'.v == pc.v)
          || (pc'.k in d.cache && pc'.v == d.cache[pc'.k].value))
    && (pc'.Getting? && pc'.get.Fetched? ==> pc.Getting? && pc.k == pc'.k && pc'.k in d.store && pc'.get.v == d.store[pc'.k])
  }

  /** A flush before its store write. */
  predicate AboutToStore(pc: Pc) {
    pc.Flushing? && (pc.flush == Claimed || pc.flush == Intended)
  }

  lemma StepReads(c: Config, d: Data, g: Gate, pc: Pc, ch: Choice)
    requires |d.fences| == c.shards && CanStep(c, d, g, pc, ch) && !pc.Invalidating?
    ensures var o := Act(c, d, g, pc, ch); ReadRel(d, pc, o.data, o.pc)
  {
    hide ReadRel, ActPut, ActGet, ActClaim, ActFlush, ActCompact, ActShut;
    if pc.FlushEntry? || pc.Flushing? {
      FlushReads(d, g, pc, ch.ok);
    } else if pc.Putting? {
      PutReads(c, d, g, pc, ch);
    } else {
      RestReads(c, d, g, pc, ch);
    }
  }

  lemma FlushReads(d: Data, g: Gate, pc: Pc, ok: bool)
    requires pc.FlushEntry? || pc.Flushing?
    ensures pc.FlushEntry? ==> var o := ActClaim(d, g, pc.k, pc.expected, pc.ret); ReadRel(d, pc, o.data, o.pc)
    ensures pc.Flushing? ==> var o := ActFlush(d, g, pc.k, pc.v, pc.n, pc.flush, pc.ret, ok); ReadRel(d, pc, o.data, o.pc)
  {
    hide Append, Settle;
  }

  lemma PutReads(c: Config, d: Data, g: Gate, pc: Pc, ch: Choice)
    requires |d.fences| == c.shards && pc.Putting?
    ensures var o := ActPut(c, d, g, pc.k, pc.v, pc.n, pc.put, ch); ReadRel(d, pc, o.data, o.pc)
  {
    hide Append, CommitData;
  }

  lemma RestReads(c: Config, d: Data, g: Gate, pc: Pc, ch: Choice)
    requires |d.fences| == c.shards && CanStep(c, d, g, pc, ch)
    requires !pc.Invalidating? && !pc.Putting? && !pc.FlushEntry? && !pc.Flushing?
    ensures var o := Act(c, d, g, pc, ch); ReadRel(d, pc, o.data, o.pc)
  {
    hide CommitData, ActPut, ActClaim, ActFlush;
  }

  // ----- Since a miss -----

  ghost predicate PcSeen(states: seq<State>, p: nat, m: nat, pc: Pc, k: Key)
    requires p <= m < |states|
  {
    AboutToStore(pc) && pc.k == k ==> SeenSince(states, p, m, k, Some(pc.v))
  }

  /** What is stored under k, what flushes will store there and what t has read from there was served since p. */
  ghost predicate Seen(states: seq<State>, p: nat, m: nat, t: Tid, k: Key)
    requires p <= m < |states|
  {
    && SeenSince(states, p, m, k, At(states[m].data.store, k))
    && (forall u | u in states[m].threads :: PcSeen(states, p, m, states[m].threads[u], k))
    && var pc := PcOf(states[m], t);
       pc.Getting? && pc.get.Fetched? && pc.k == k ==> SeenSince(states, p, m, k, Some(pc.get.v))
  }

  /** At the miss the key is uncached, so in a benign run no flush of it is under way. */
  lemma SeenAtMiss(c: Config, states: seq<State>, actions: seq<Action>, p: nat, t: Tid, k: Key)
    requires QuietRun(c, states, actions) && p < |states| && k !in states[p].data.cache && PcOf(states[p], t) == Getting(k, Lookup)
    ensures Seen(states, p, p, t, k)
  {
    RunDur(c, states, actions, p, k);
    Versions.RunInv(c, states, actions, p);
    SeenNow(states, p, p, k);
    forall u | u in states[p].threads
      ensures PcSeen(states, p, p, states[p].threads[u], k)
    {
      assert ThreadKey(View(states[p].data, k), states[p].threads[u], k);
    }
  }

  lemma SeenStep(c: Config, states: seq<State>, p: nat, m: nat, a: Action, t: Tid, k: Key)
    requires p <= m && m + 1 < |states| && Seen(states, p, m, t, k) && |states[m].data.fences| == c.shards
    requires (a.Start? || a.Step?) && Transition(c, states[m], a, states[m + 1])
    requires a.Step? ==> !PcOf(states[m], a.t).Invalidating?
    ensures Seen(states, p, m + 1, t, k)
  {
    hide Act, CanStep, Startable;
    var s, s' := states[m], states[m + 1];
    SeenNow(states, p, m, k);
    if a.Step? {
      StepReads(c, s.data, s.gate, PcOf(s, a.t), a.ch);
      MoverSeen(states, p, m, a.t, k);
    } else {
      SeenLater(states, p, m, k, At(s.data.store, k));
      FirstStage(s.gate, a.first);
    }
    forall u | u in s.threads && u != a.t
      ensures PcSeen(states, p, m + 1, s.threads[u], k)
    {
      LaterPc(states, p, m, s.threads[u], k);
    }
    if t != a.t && PcOf(s, t).Getting? && PcOf(s, t).get.Fetched? && PcOf(s, t).k == k {
      SeenLater(states, p, m, k, Some(PcOf(s, t).get.v));
    }
  }

  lemma FirstStage(g: Gate, first: Pc)
    requires Startable(g, first)
    ensures !AboutToStore(first) && !(first.Getting? && first.get.Fetched?)
  {
  }

  lemma LaterPc(states: seq<State>, p: nat, m: nat, pc: Pc, k: Key)
    requires p <= m && m + 1 < |states| && PcSeen(states, p, m, pc, k)
    ensures PcSeen(states, p, m + 1, pc, k)
  {
    if AboutToStore(pc) && pc.k == k {
      SeenLater(states, p, m, k, Some(pc.v));
    }
  }

  lemma MoverSeen(states: seq<State>, p: nat, m: nat, u: Tid, k: Key)
    requires p <= m && m + 1 < |states|
    requires SeenSince(states, p, m, k, At(states[m].data.store, k)) && PcSeen(states, p, m, PcOf(states[m], u), k)
    requires SeenSince(states, p, m, k, Served(states[m].data, k))
    requires u in states[m + 1].threads
    requires ReadRel(states[m].data, PcOf(states[m], u), states[m + 1].data, states[m + 1].threads[u])
    ensures SeenSince(states, p, m + 1, k, At(states[m + 1].data.store, k)) && PcSeen(states, p, m + 1, states[m + 1].threads[u], k)
    ensures var pc := states[m + 1].threads[u];
            pc.Getting? && pc.get.Fetched? && pc.k == k ==> SeenSince(states, p, m + 1, k, Some(pc.get.v))
  {
    var pc := PcOf(states[m], u);
    SeenLater(states, p, m, k, At(states[m].data.store, k));
    SeenLater(states, p, m, k, Served(states[m].data, k));
    if AboutToStore(pc) && pc.k == k {
      SeenLater(states, p, m, k, Some(pc.v));
    }
  }

  lemma {:induction false} SeenUntil(c: Config, states: seq<State>, actions: seq<Action>, p: nat, m: nat, t: Tid, k: Key)
    requires QuietRun(c, states, actions) && p <= m < |states| && Fence.OneSession(actions, p, m)
    requires k !in states[p].data.cache && PcOf(states[p], t) == Getting(k, Lookup)
    ensures Seen(states, p, m, t, k)
    decreases m
  {
    hide Seen, Transition, Benign, Quiet;
    if m == p {
      SeenAtMiss(c, states, actions, p, t, k);
    } else {
      SeenUntil(c, states, actions, p, m - 1, t, k);
      assert Moves(c, states, actions, m - 1);
      Versions.RunInv(c, states, actions, m - 1);
      NoInvalidator(states[m - 1], actions[m - 1]);
      SeenStep(c, states, p, m - 1, actions[m - 1], t, k);
    }
  }

  lemma NoInvalidator(s: State, a: Action)
    requires Quiet(s)
    ensures a.Step? ==> !PcOf(s, a.t).Invalidating?
  {
  }

  /**
  In every benign run without invalidations, what a Get returns, a value or NotFound, is what the plain map held for its
  key at some moment m between its lookup at p and its return at j.
  */
  lemma GetReadsSomeMoment(c: Config, states: seq<State>, actions: seq<Action>, j: nat) returns (p: nat, m: nat)
    requires QuietRun(c, states, actions) && j < |actions| && actions[j].Step? && |states[j].data.fences| == c.shards
    requires PcOf(states[j], actions[j].t).Getting?
    requires Informs(ReplyOf(c, states[j].data, states[j].gate, PcOf(states[j], actions[j].t), actions[j].ch))
    ensures p <= m <= j && Fence.OneSession(actions, p, j) && PcOf(states[p], actions[j].t) == Getting(PcOf(states[j], actions[j].t).k, Lookup)
    ensures var pc := PcOf(states[j], actions[j].t);
            Served(states[m].data, pc.k) == Content(ReplyOf(c, states[j].data, states[j].gate, pc, actions[j].ch))
  {
    hide QuietRun;
    QuietIsRun(c, states, actions);
    var t, pc := actions[j].t, PcOf(states[j], actions[j].t);
    if pc.get.Lookup? {
      p, m := j, j;
    } else {
      p := Fence.MissPoint(c, states, actions, j, t);
      SeenUntil(c, states, actions, p, j, t, pc.k);
      var x := Content(ReplyOf(c, states[j].data, states[j].gate, pc, actions[j].ch));
      SeenNow(states, p, j, pc.k);
      assert SeenSince(states, p, j, pc.k, x);
      m :| p <= m <= j && Served(states[m].data, pc.k) == x;
    }
  }

  lemma QuietIsRun(c: Config, states: seq<State>, actions: seq<Action>)
    requires QuietRun(c, states, actions)
    ensures IsRun(c, states, actions)
  {
  }
}
