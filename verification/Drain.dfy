/**
Draining ends: no reachable state is stuck, and while admission is closed every step of an
admitted writer uses up part of a bounded budget.
*/
module Drain {
  import opened CacheTypes
  import opened Protocol
  import opened Admission

  /** An upper bound on the steps FlushKey still takes. */
  function FlushSteps(stage: FlushStage): nat {
    match stage
    case Claimed => 4
    case Intended => 3
    case Stored => 2
    case Logged => 1
    case Reverting => 1
  }

  function ReturnSteps(ret: Return): nat {
    match ret
    case ToRelief(_, _, left) => 9 + 7 * left
    case ToThrough => 1
    case _ => 0
  }

  /** An upper bound on the steps an admitted writer takes before it releases; 0 for other threads. */
  function Remaining(pc: Pc): nat {
    if !InFlight(pc) then 0
    else
      match pc
      case Putting(_, _, _, stage) =>
        (match stage
         case PutChecked => 0
         case PutAdmitted => 10 + 7 * MAX_FLUSH_ATTEMPTS
         case Journaled => 9 + 7 * MAX_FLUSH_ATTEMPTS
         case Relief(left) => 8 + 7 * left
         case Evicting(left, _) => 9 + 7 * left
         case Through => 7)
      case Invalidating(_, _, _, stage) =>
        (match stage
         case InvChecked => 0
         case InvAdmitted => 5
         case Peeked => 4
         case Noted => 3
         case Removed => 2)
      case Releasing => 1
      case FlushEntry(_, _, ret) => 5 + ReturnSteps(ret)
      case Flushing(_, _, _, stage, ret) => FlushSteps(stage) + ReturnSteps(ret)
      case _ => 0
  }

  predicate AdmissionClosed(g: Gate) {
    g.paused || g.lifecycle != Ready
  }

  lemma RemainingStep(c: Config, d: Data, g: Gate, pc: Pc, ch: Choice)
    requires |d.fences| == c.shards && CanStep(c, d, g, pc, ch)
    ensures InFlight(pc) ==> Remaining(Act(c, d, g, pc, ch).pc) < Remaining(pc)
    ensures !InFlight(pc) && AdmissionClosed(g) ==> Remaining(Act(c, d, g, pc, ch).pc) == 0
  {
    hide Append;
  }

  ghost function Total(threads: map<Tid, Pc>): nat {
    if threads == map[] then 0
    else
      var t :| t in threads;
      Remaining(threads[t]) + Total(threads - {t})
  }

  lemma TotalSplit(threads: map<Tid, Pc>, t: Tid)
    requires t in threads
    ensures Total(threads) == Remaining(threads[t]) + Total(threads - {t})
    decreases |threads|
  {
    var u :| u in threads && Total(threads) == Remaining(threads[u]) + Total(threads - {u});
    if u != t {
      TotalSplit(threads - {u}, t);
      TotalSplit(threads - {t}, u);
      assert threads - {u} - {t} == threads - {t} - {u};
    }
  }

  lemma TotalUpdate(threads: map<Tid, Pc>, t: Tid, pc: Pc)
    ensures Total(threads[t := pc]) + (if t in threads then Remaining(threads[t]) else 0) == Total(threads) + Remaining(pc)
  {
    TotalSplit(threads[t := pc], t);
    assert threads[t := pc] - {t} == threads - {t};
    if t in threads {
      TotalSplit(threads, t);
    } else {
      assert threads - {t} == threads;
    }
  }

  lemma RemainingPositive(pc: Pc)
    ensures Remaining(pc) > 0 <==> InFlight(pc)
  {
  }

  /** Nothing is left to do exactly when no writer is left. */
  lemma {:induction false} TotalZero(threads: map<Tid, Pc>)
    ensures Total(threads) == 0 <==> Writers(threads) == {}
    decreases |threads|
  {
    if threads != map[] {
      var t :| t in threads;
      var rest := threads - {t};
      TotalSplit(threads, t);
      TotalZero(rest);
      RemainingPositive(threads[t]);
      if InFlight(threads[t]) {
        assert t in Writers(threads);
      } else {
        assert Writers(threads) == Writers(rest);
      }
    }
  }

  predicate WriterStep(s: State, a: Action) {
    a.Step? && InFlight(PcOf(s, a.t))
  }

  /** While admission is closed a writer's step lowers the total and any other step leaves it alone. */
  lemma DrainStep(c: Config, s: State, a: Action, s': State)
    requires Transition(c, s, a, s') && (a.Start? || a.Step?) && AdmissionClosed(s.gate)
    ensures if WriterStep(s, a) then Total(s'.threads) < Total(s.threads) else Total(s'.threads) == Total(s.threads)
  {
    TotalUpdate(s.threads, a.t, s'.threads[a.t]);
    if a.Step? {
      RemainingStep(c, s.data, s.gate, PcOf(s, a.t), a.ch);
    }
  }

  function WriterSteps(states: seq<State>, actions: seq<Action>, i: nat, j: nat): nat
    requires i <= j <= |actions| < |states|
    decreases j
  {
    if i == j then 0
    else WriterSteps(states, actions, i, j - 1) + if WriterStep(states[j - 1], actions[j - 1]) then 1 else 0
  }

  /**
  Draining ends: in any stretch of a run during which admission stays closed, the admitted writers
  take at most Total steps together; while the count is not zero some writer can step, and when the
  total is used up the count is zero, which is what Shutdown and compaction wait for.
  */
  lemma {:induction false} DrainEnds(c: Config, states: seq<State>, actions: seq<Action>, i: nat, j: nat)
    requires IsRun(c, states, actions) && i <= j <= |actions|
    requires forall m | i <= m < j :: (actions[m].Start? || actions[m].Step?) && AdmissionClosed(states[m].gate)
    ensures WriterSteps(states, actions, i, j) + Total(states[j].threads) <= Total(states[i].threads)
    ensures Total(states[j].threads) == 0 <==> states[j].gate.inFlight == 0
    ensures states[j].gate.inFlight > 0 ==>
              exists t, ch :: t in states[j].threads && InFlight(states[j].threads[t])
                              && CanStep(c, states[j].data, states[j].gate, states[j].threads[t], ch)
    decreases j
  {
    if i < j {
      DrainEnds(c, states, actions, i, j - 1);
      assert Moves(c, states, actions, j - 1);
      DrainStep(c, states[j - 1], actions[j - 1], states[j]);
    }
    RunCore(c, states, actions, j);
    TotalZero(states[j].threads);
    if states[j].gate.inFlight > 0 {
      var t :| t in Writers(states[j].threads);
      WriterCanStep(c, states[j].data, states[j].gate, states[j].threads[t]);
    }
  }

  const CALM: Choice := Choice(true, false, {}, None, [])

  /** Writers never wait. */
  lemma WriterCanStep(c: Config, d: Data, g: Gate, pc: Pc)
    requires InFlight(pc)
    ensures CanStep(c, d, g, pc, CALM)
  {
  }

  ghost function Listing(s: set<Key>): (keys: seq<Key>)
    ensures forall k :: k in keys <==> k in s
  {
    if s == {} then []
    else
      var k :| k in s;
      [k] + Listing(s - {k})
  }

  /** Every thread that is not waiting for the gate can step. */
  lemma FreeCanStep(c: Config, d: Data, g: Gate, pc: Pc) returns (ch: Choice)
    requires pc != Idle
    requires pc.Putting? && pc.put == PutChecked ==> !g.paused
    requires pc.Invalidating? && pc.inv == InvChecked ==> !g.paused
    requires pc.Compacting? && pc.compact == CompactStage.Drain ==> g.inFlight == 0
    requires pc == ShuttingDown(ShutDrain) ==> g.inFlight == 0
    ensures CanStep(c, d, g, pc, ch)
  {
    ch := CALM;
    if pc.AllShard? {
      ch := CALM.(dirty := Listing(set k | k in d.cache && ShardOf(c, k) == pc.i && d.cache[k].state == Dirty));
    }
  }

  /** No deadlock: in every reachable state with an unfinished operation, some unfinished operation can step. */
  lemma NoDeadlock(c: Config, states: seq<State>, actions: seq<Action>, i: nat, t: Tid) returns (u: Tid, ch: Choice)
    requires IsRun(c, states, actions) && i < |states| && PcOf(states[i], t) != Idle
    ensures PcOf(states[i], u) != Idle && CanStep(c, states[i].data, states[i].gate, PcOf(states[i], u), ch)
  {
    RunCore(c, states, actions, i);
    var s := states[i];
    if s.gate.inFlight > 0 {
      u :| u in Writers(s.threads);
      ch := CALM;
      WriterCanStep(c, s.data, s.gate, s.threads[u]);
    } else {
      u := t;
      if s.gate.paused {
        u :| u in s.threads && InRegion(s.threads[u]);
      }
      ch := FreeCanStep(c, s.data, s.gate, PcOf(s, u));
    }
  }
}
