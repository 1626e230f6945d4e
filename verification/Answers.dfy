/**
What callers are told. A step may settle the answer of its thread's call; over every run each call is
told exactly one result, and the results mean what the interface promises.
*/
module Answers {
  import opened CacheTypes
  import opened Protocol
  import opened Versions
  import opened CommitOrder
  import Fence

  /**
  Ok(Some(v)) is a value read; Ok(None) is the success of a call that returns nothing. A FlushAll that
  fails passes on the error of the last of its flushes that failed.
  */
  datatype Reply = Silent | Told(result: Result<Option<Value>>) | ToldLastError

  const DONE: Reply := Told(Ok(None))

  function Failed(e: Error): Reply {
    Told(Err(e))
  }

  /** What the step of a thread at this point tells its caller. */
  function ReplyOf(c: Config, d: Data, g: Gate, pc: Pc, ch: Choice): Reply
    requires |d.fences| == c.shards
  {
    match pc
    case Idle => Silent
    case Releasing => Silent
    case Putting(_, _, _, stage) => PutReply(c, g, stage, ch.ok)
    case Invalidating(k, _, force, stage) => InvalidateReply(d, g, k, force, stage, ch.ok)
    case Getting(k, stage) => GetReply(c, d, k, stage, ch.ok)
    case FlushEntry(k, expected, ret) =>
      if k !in d.cache then FlushReply(ret, Failed(NotFound))
      else if (expected.Some? && d.cache[k].version != expected.value) || d.cache[k].state != Dirty then FlushReply(ret, DONE)
      else Silent
    case Flushing(_, _, _, stage, ret) =>
      if stage == Logged then FlushReply(ret, DONE)
      else if stage == Reverting then FlushReply(ret, Failed(IoError))
      else Silent
    case AllShard(i, failed, closing) => if i >= c.shards && failed && !closing then ToldLastError else Silent
    case AllKeys(_, _, _, _) => Silent
    case Compacting(closing, stage) => if !closing && (stage == Resume || (stage == Check && d.recordCount == 0)) then DONE else Silent
    case ShuttingDown(stage) => if stage == ShutTruncate || (stage.ShutScan? && stage.i >= c.shards && stage.dirty) then DONE else Silent
  }

  function PutReply(c: Config, g: Gate, stage: PutStage, ok: bool): Reply {
    match stage
    case PutChecked => if g.lifecycle == Ready then Silent else Failed(ServiceStopping)
    case PutAdmitted => if ok then Silent else Failed(IoError)
    case Through => if c.writeThrough then Silent else DONE
    case _ => Silent
  }

  function InvalidateReply(d: Data, g: Gate, k: Key, force: bool, stage: InvalidateStage, ok: bool): Reply {
    match stage
    case InvChecked => if g.lifecycle == Ready then Silent else Failed(ServiceStopping)
    case InvAdmitted => if !force && Unflushed(d.cache, k) then Failed(UnflushedDirtyData) else Silent
    case Peeked => if ok then Silent else Failed(IoError)
    case Noted => if ok then Silent else Failed(IoError)
    case Removed => DONE
  }

  function GetReply(c: Config, d: Data, k: Key, stage: GetStage, ok: bool): Reply
    requires |d.fences| == c.shards
  {
    match stage
    case Lookup => if k in d.cache then Told(Ok(Some(d.cache[k].value))) else Silent
    case Missed(_) =>
      if !ok then Failed(IoError)
      else if k !in d.store then Failed(NotFound)
      else if |d.store[k]| > MAX_VALUE_BYTES then Failed(CorruptData)
      else Silent
    case Fetched(fence, v) =>
      // With the fence moved, a live entry is preferred to the value read.
      if d.fences[ShardOf(c, k)] != fence && k in d.cache then Told(Ok(Some(d.cache[k].value))) else Told(Ok(Some(v)))
  }

  /** A flush answers a caller of Flush or of a write-through Put; relief and FlushAll go on. */
  function FlushReply(ret: Return, reply: Reply): Reply {
    if ret.ToCaller? || ret.ToThrough? then reply else Silent
  }

  // ----- One answer a call -----

  /** The thread's caller is still waiting. */
  predicate Owes(pc: Pc) {
    pc != Idle && pc != Releasing
  }

  lemma AnswerStep(c: Config, d: Data, g: Gate, pc: Pc, ch: Choice)
    requires |d.fences| == c.shards && CanStep(c, d, g, pc, ch)
    ensures !ReplyOf(c, d, g, pc, ch).Silent? <==> Owes(pc) && !Owes(Act(c, d, g, pc, ch).pc)
  {
    hide Append, CommitData, Settle;
  }

  /** How many answers thread t gives in steps b to e. */
  ghost function AnswersGiven(c: Config, states: seq<State>, actions: seq<Action>, b: nat, e: nat, t: Tid): nat
    requires b <= e <= |actions| < |states|
    decreases e
  {
    if e == b then 0
    else AnswersGiven(c, states, actions, b, e - 1, t) + if Tells(c, states[e - 1], actions[e - 1], t) then 1 else 0
  }

  ghost predicate Tells(c: Config, s: State, a: Action, t: Tid) {
    a.Step? && a.t == t && |s.data.fences| == c.shards && !ReplyOf(c, s.data, s.gate, PcOf(s, t), a.ch).Silent?
  }

  /** No restart and no new call of t from state b to state e. */
  ghost predicate SameCall(actions: seq<Action>, b: nat, e: nat, t: Tid)
    requires b <= e <= |actions|
  {
    forall m | b <= m < e :: actions[m].Step? || (actions[m].Start? && actions[m].t != t)
  }

  /** From its start on, a call has been told nothing while its thread is at work, and exactly one result afterwards. */
  lemma {:induction false} OneAnswer(c: Config, states: seq<State>, actions: seq<Action>, b: nat, e: nat, t: Tid, first: Pc)
    requires IsRun(c, states, actions) && b < e <= |actions| && actions[b] == Start(t, first) && SameCall(actions, b + 1, e, t)
    ensures AnswersGiven(c, states, actions, b, e, t) == if Owes(PcOf(states[e], t)) then 0 else 1
    decreases e
  {
    hide Act, CanStep, ReplyOf;
    assert Moves(c, states, actions, e - 1);
    if e == b + 1 {
      assert AnswersGiven(c, states, actions, b, b, t) == 0;
      StartOwes(states[b].gate, first);
    } else {
      OneAnswer(c, states, actions, b, e - 1, t, first);
      var s, a := states[e - 1], actions[e - 1];
      if a.Step? && a.t == t {
        AnswerStep(c, s.data, s.gate, PcOf(s, t), a.ch);
        if !Owes(PcOf(s, t)) {
          ReleasedAnswer(c, s.data, s.gate, PcOf(s, t), a.ch);
        }
      }
    }
  }

  lemma StartOwes(g: Gate, first: Pc)
    requires Startable(g, first)
    ensures Owes(first)
  {
  }

  lemma ReleasedAnswer(c: Config, d: Data, g: Gate, pc: Pc, ch: Choice)
    requires |d.fences| == c.shards && CanStep(c, d, g, pc, ch) && !Owes(pc)
    ensures !Owes(Act(c, d, g, pc, ch).pc)
  {
  }

  // ----- Where a thread comes from -----

  /** The last action of thread t before state i. */
  lemma {:induction false} LastMove(c: Config, states: seq<State>, actions: seq<Action>, i: nat, t: Tid) returns (m: nat)
    requires IsRun(c, states, actions) && i < |states| && PcOf(states[i], t) != Idle
    ensures m < i && (actions[m].Start? || actions[m].Step?) && actions[m].t == t && PcOf(states[m + 1], t) == PcOf(states[i], t)
    ensures Fence.OneSession(actions, m, i) && forall x | m < x < i :: actions[x].t != t
  {
    hide Act, CanStep, Startable;
    if i == 0 {
      assert false;
    }
    assert Moves(c, states, actions, i - 1);
    Versions.RunInv(c, states, actions, i - 1);
    var a := actions[i - 1];
    if (a.Start? || a.Step?) && a.t == t {
      m := i - 1;
    } else {
      m := LastMove(c, states, actions, i - 1, t);
    }
  }

  // ----- Get -----

  lemma FetchStep(c: Config, d: Data, g: Gate, pc: Pc, ch: Choice)
    requires |d.fences| == c.shards && CanStep(c, d, g, pc, ch)
    ensures var pc' := Act(c, d, g, pc, ch).pc;
            pc'.Getting? && pc'.get.Fetched? ==>
              && pc == Getting(pc'.k, Missed(pc'.get.fence)) && pc'.k in d.store
              && pc'.get.v == d.store[pc'.k] && |pc'.get.v| <= MAX_VALUE_BYTES
  {
    hide ActPut, ActInvalidate, ActClaim, ActFlush, ActCompact, ActShut;
    if !pc.Getting? {
      Fence.OnlyGetsGet(c, d, g, pc, ch);
    }
  }

  /** Where the value a Get has read was read: step q of the same call. */
  lemma FetchPoint(c: Config, states: seq<State>, actions: seq<Action>, i: nat, t: Tid) returns (q: nat)
    requires IsRun(c, states, actions) && i < |states| && PcOf(states[i], t).Getting? && PcOf(states[i], t).get.Fetched?
    ensures q < i && Fence.OneSession(actions, q, i)
    ensures var pc := PcOf(states[i], t);
            && PcOf(states[q], t) == Getting(pc.k, Missed(pc.get.fence))
            && At(states[q].data.store, pc.k) == Some(pc.get.v) && |pc.get.v| <= MAX_VALUE_BYTES
  {
    hide Act, CanStep;
    q := LastMove(c, states, actions, i, t);
    assert Moves(c, states, actions, q);
    var s, a := states[q], actions[q];
    if a.Step? {
      FetchStep(c, s.data, s.gate, PcOf(s, t), a.ch);
    }
  }

  /**
  What a Get answers, in every run. A call that ends at step j answers. If it answers a value while its
  key is cached, that is the live entry's value, never an older one read from the store; if the key is
  not cached, it is what the store held at a step q of the call. It answers an error only from its read
  of the store: a failed read, a key the store does not hold, or a value too large to be trusted. A
  value read is cached as Clean exactly if the fence has not moved.
  */
  lemma GetAnswers(c: Config, states: seq<State>, actions: seq<Action>, j: nat) returns (q: nat)
    requires IsRun(c, states, actions) && j < |actions| && actions[j].Step? && PcOf(states[j], actions[j].t).Getting?
    ensures |states[j].data.fences| == c.shards && q <= j && Fence.OneSession(actions, q, j)
    ensures var s, t := states[j], actions[j].t;
            var k, stage, reply := PcOf(s, t).k, PcOf(s, t).get, ReplyOf(c, s.data, s.gate, PcOf(s, t), actions[j].ch);
            && (reply.Told? <==> PcOf(states[j + 1], t) == Idle)
            && (k in s.data.cache && !stage.Missed? ==> reply == Told(Ok(Some(s.data.cache[k].value))))
            && (stage.Fetched? ==>
                  states[j + 1].data.cache == if s.data.fences[ShardOf(c, k)] == stage.fence
                                              then s.data.cache[k := Entry(stage.v, 0, Clean)] - actions[j].ch.evict
                                              else s.data.cache)
            && (reply.Told? && reply.result.Ok? && k !in s.data.cache ==>
                  PcOf(states[q], t).Getting? && PcOf(states[q], t).k == k && Told(Ok(At(states[q].data.store, k))) == reply)
            && (reply.Told? && reply.result.Err? ==>
                  && stage.Missed?
                  && (reply == Failed(IoError) <==> !actions[j].ch.ok)
                  && (reply == Failed(NotFound) <==> actions[j].ch.ok && k !in s.data.store)
                  && (reply == Failed(CorruptData) <==>
                        actions[j].ch.ok && k in s.data.store && |s.data.store[k]| > MAX_VALUE_BYTES))
  {
    hide Act, CanStep;
    var s, t := states[j], actions[j].t;
    Fence.RunInv(c, states, actions, j);
    assert Moves(c, states, actions, j);
    AnswerStep(c, s.data, s.gate, PcOf(s, t), actions[j].ch);
    GetStays(c, s.data, s.gate, PcOf(s, t), actions[j].ch);
    StepCache(c, s.data, s.gate, PcOf(s, t), actions[j].ch);
    q := j;
    if PcOf(s, t).get.Fetched? {
      assert Fence.MissOk(c, s.data, PcOf(s, t));
      q := FetchPoint(c, states, actions, j, t);
    }
  }

  lemma GetStays(c: Config, d: Data, g: Gate, pc: Pc, ch: Choice)
    requires |d.fences| == c.shards && CanStep(c, d, g, pc, ch) && pc.Getting?
    ensures Act(c, d, g, pc, ch).pc.Getting? || Act(c, d, g, pc, ch).pc == Idle
  {
  }

  // ----- Put -----

  /** The key and version of the Put a thread is working for, once it is journaled. */
  function Owner(pc: Pc): Option<(Key, nat)> {
    match pc
    case Putting(k, _, n, stage) => if stage == PutChecked || stage == PutAdmitted then None else Some((k, n))
    case FlushEntry(k, expected, ret) =>
      if ret.ToRelief? then Some((ret.owner, ret.stamp))
      else if ret.ToThrough? && expected.Some? then Some((k, expected.value))
      else None
    case Flushing(k, _, n, _, ret) => if ret.ToRelief? then Some((ret.owner, ret.stamp)) else if ret.ToThrough? then Some((k, n)) else None
    case _ => None
  }

  /** A Put comes to work for a version by journaling it, and goes on working for it until it answers. */
  lemma OwnerStep(c: Config, d: Data, g: Gate, pc: Pc, ch: Choice)
    requires |d.fences| == c.shards && CanStep(c, d, g, pc, ch) && !Unversioned(pc)
    ensures var o := Owner(Act(c, d, g, pc, ch).pc);
            o.Some? ==> o == Owner(pc) || (pc.Putting? && pc.put == PutAdmitted && ch.ok && o.value == (pc.k, d.counter + 1))
  {
    hide Append, CommitData, Settle;
  }

  lemma FirstOwns(g: Gate, first: Pc)
    requires Startable(g, first)
    ensures Owner(first) == None && !ForThrough(first)
  {
  }

  /** A flush on behalf of a write-through Put. */
  predicate ForThrough(pc: Pc) {
    (pc.FlushEntry? || pc.Flushing?) && pc.ret.ToThrough?
  }

  /** Such a flush asks for no particular version; this does not happen. */
  predicate Unversioned(pc: Pc) {
    pc.FlushEntry? && pc.ret.ToThrough? && pc.expected.None?
  }

  lemma ThroughStep(c: Config, d: Data, g: Gate, pc: Pc, ch: Choice)
    requires |d.fences| == c.shards && CanStep(c, d, g, pc, ch)
    ensures var pc' := Act(c, d, g, pc, ch).pc;
            !Unversioned(pc') && (ForThrough(pc') ==> ForThrough(pc) || c.writeThrough)
  {
    hide Append, CommitData, Settle;
  }

  /** Only a write-through configuration flushes on behalf of a Put, and then always its own version. */
  lemma {:induction false} ThroughOnly(c: Config, states: seq<State>, actions: seq<Action>, i: nat, t: Tid)
    requires IsRun(c, states, actions) && i < |states|
    ensures !Unversioned(PcOf(states[i], t)) && (ForThrough(PcOf(states[i], t)) ==> c.writeThrough)
    decreases i
  {
    hide Act, CanStep, Startable;
    if ForThrough(PcOf(states[i], t)) {
      var m := LastMove(c, states, actions, i, t);
      assert Moves(c, states, actions, m);
      var s, a := states[m], actions[m];
      if a.Step? {
        ThroughOnly(c, states, actions, m, t);
        ThroughStep(c, s.data, s.gate, PcOf(s, t), a.ch);
      } else {
        FirstOwns(s.gate, a.first);
      }
    }
  }

  /** The step at which the Put a thread is working for was journaled. */
  lemma {:induction false} PutPoint(c: Config, states: seq<State>, actions: seq<Action>, i: nat, t: Tid) returns (j: nat)
    requires IsRun(c, states, actions) && i < |states| && Owner(PcOf(states[i], t)).Some?
    ensures j < i && actions[j].Step? && actions[j].t == t && Fence.OneSession(actions, j, i)
    ensures PcOf(states[j], t).Putting? && JournalsPut(states[j], actions[j], PcOf(states[j], t).k)
    ensures Owner(PcOf(states[i], t)).value == (PcOf(states[j], t).k, states[j].data.counter + 1)
  {
    hide Act, CanStep, Startable, Owner;
    OwnerBusy(PcOf(states[i], t));
    var m := LastMove(c, states, actions, i, t);
    assert Moves(c, states, actions, m);
    var s, a := states[m], actions[m];
    if a.Start? {
      FirstOwns(s.gate, a.first);
      assert false;
    }
    ThroughOnly(c, states, actions, m, t);
    OwnerStep(c, s.data, s.gate, PcOf(s, t), a.ch);
    if Owner(PcOf(s, t)) == Owner(PcOf(states[i], t)) {
      j := PutPoint(c, states, actions, m, t);
    } else {
      j := m;
    }
  }

  lemma OwnerBusy(pc: Pc)
    requires Owner(pc).Some?
    ensures pc != Idle
  {
  }

  predicate Fresh(pc: Pc, k: Key, v: Value) {
    pc.Putting? && (pc.put == PutChecked || pc.put == PutAdmitted) && pc.k == k && pc.v == v
  }

  lemma FreshStep(c: Config, d: Data, g: Gate, pc: Pc, ch: Choice)
    requires |d.fences| == c.shards && CanStep(c, d, g, pc, ch)
    ensures var pc' := Act(c, d, g, pc, ch).pc;
            pc'.Putting? && (pc'.put == PutChecked || pc'.put == PutAdmitted) ==> Fresh(pc, pc'.k, pc'.v) && pc.put == PutChecked
  {
    hide Append, CommitData, Settle;
  }

  /** Where a Put that is not journaled yet began: its call has journaled nothing. */
  lemma {:induction false} CallPoint(c: Config, states: seq<State>, actions: seq<Action>, i: nat, t: Tid) returns (b: nat)
    requires IsRun(c, states, actions) && i < |states| && PcOf(states[i], t).Putting?
    requires PcOf(states[i], t).put == PutChecked || PcOf(states[i], t).put == PutAdmitted
    ensures b < i && Fence.OneSession(actions, b, i)
    ensures actions[b] == Start(t, Putting(PcOf(states[i], t).k, PcOf(states[i], t).v, 0, PutChecked))
    ensures forall m | b <= m < i && actions[m].Step? && actions[m].t == t :: !JournalsPut(states[m], actions[m], PcOf(states[i], t).k)
  {
    hide Act, CanStep;
    var x := LastMove(c, states, actions, i, t);
    assert Moves(c, states, actions, x);
    var s, a := states[x], actions[x];
    if a.Start? {
      b := x;
    } else {
      FreshStep(c, s.data, s.gate, PcOf(s, t), a.ch);
      b := CallPoint(c, states, actions, x, t);
    }
  }

  /**
  An acknowledged Put is journaled, in every run: if the answer of a Put that is past its append is
  settled at step i, then a call b of that thread asked for (k, v) and a step j in between appended its
  Upsert under the version n the thread has worked for since. Without write-through the answer is success.
  */
  lemma AckedPutIsJournaled(c: Config, states: seq<State>, actions: seq<Action>, i: nat) returns (b: nat, j: nat)
    requires IsRun(c, states, actions) && i < |actions| && actions[i].Step? && Owner(PcOf(states[i], actions[i].t)).Some?
    ensures |states[i].data.fences| == c.shards
    ensures b < j < i && Fence.OneSession(actions, b, i) && actions[j].Step? && actions[j].t == actions[i].t
    ensures var (k, n) := Owner(PcOf(states[i], actions[i].t)).value;
            && JournalsPut(states[j], actions[j], k) && states[j].data.counter + 1 == n
            && actions[b] == Start(actions[i].t, Putting(k, PcOf(states[j], actions[j].t).v, 0, PutChecked))
    ensures var reply := ReplyOf(c, states[i].data, states[i].gate, PcOf(states[i], actions[i].t), actions[i].ch);
            !c.writeThrough && reply.Told? ==> reply == DONE
  {
    hide Act, CanStep;
    var t := actions[i].t;
    assert Moves(c, states, actions, i);
    ThroughOnly(c, states, actions, i, t);
    j := PutPoint(c, states, actions, i, t);
    b := CallPoint(c, states, actions, j, t);
  }

  /**
  A Put that is refused has left nothing behind, in every run: if it is answered before its append, it
  is answered that the engine is stopping or that the append failed, and its call journaled nothing.
  */
  lemma RefusedPutLeavesNothing(c: Config, states: seq<State>, actions: seq<Action>, i: nat) returns (b: nat)
    requires IsRun(c, states, actions) && i < |actions| && actions[i].Step? && PcOf(states[i], actions[i].t).Putting?
    requires |states[i].data.fences| == c.shards && Owner(PcOf(states[i], actions[i].t)) == None
    requires ReplyOf(c, states[i].data, states[i].gate, PcOf(states[i], actions[i].t), actions[i].ch).Told?
    ensures var pc := PcOf(states[i], actions[i].t);
            && b < i && Fence.OneSession(actions, b, i) && actions[b] == Start(actions[i].t, Putting(pc.k, pc.v, 0, PutChecked))
            && (forall m | b <= m <= i && actions[m].Step? && actions[m].t == actions[i].t :: !JournalsPut(states[m], actions[m], pc.k))
            && ReplyOf(c, states[i].data, states[i].gate, pc, actions[i].ch)
               == (if states[i].gate.lifecycle != Ready && pc.put == PutChecked then Failed(ServiceStopping) else Failed(IoError))
  {
    b := CallPoint(c, states, actions, i, actions[i].t);
  }

  // ----- Flush -----

  lemma FlushBack(c: Config, d: Data, g: Gate, pc: Pc, ch: Choice)
    requires |d.fences| == c.shards && CanStep(c, d, g, pc, ch)
    ensures var o := Act(c, d, g, pc, ch);
            o.pc.Flushing? ==>
              && (o.pc.flush == Logged ==> pc == o.pc.(flush := Stored))
              && (o.pc.flush == Stored ==> pc == o.pc.(flush := Intended) && ch.ok && o.data.store == d.store[pc.k := pc.v])
  {
    hide Append, CommitData, Settle;
  }

  /**
  What a flush answers, to Flush or to a write-through Put, in every run. NotFound: the key is not
  cached. Success: the entry was no longer Dirty, or no longer of the expected version; or this very
  flush has put the claimed value into the store at step q. IoError: one of its own calls failed.
  */
  lemma FlushAnswers(c: Config, states: seq<State>, actions: seq<Action>, i: nat) returns (q: nat)
    requires IsRun(c, states, actions) && i < |actions| && actions[i].Step? && |states[i].data.fences| == c.shards
    requires var pc := PcOf(states[i], actions[i].t); pc.FlushEntry? || pc.Flushing?
    requires ReplyOf(c, states[i].data, states[i].gate, PcOf(states[i], actions[i].t), actions[i].ch).Told?
    ensures q <= i && Fence.OneSession(actions, q, i)
    ensures var pc, cache := PcOf(states[i], actions[i].t), states[i].data.cache;
            var reply := ReplyOf(c, states[i].data, states[i].gate, pc, actions[i].ch);
            && reply in {DONE, Failed(NotFound), Failed(IoError)}
            && (reply == Failed(NotFound) <==> pc.FlushEntry? && pc.k !in cache)
            && (reply == Failed(IoError) ==> pc.Flushing? && pc.flush == Reverting)
            && (reply == DONE && pc.FlushEntry? ==>
                  pc.k in cache && (cache[pc.k].state != Dirty || (pc.expected.Some? && cache[pc.k].version != pc.expected.value)))
            && (reply == DONE && pc.Flushing? ==>
                  && q < i && PcOf(states[q], actions[i].t) == pc.(flush := Intended)
                  && At(states[q + 1].data.store, pc.k) == Some(pc.v))
  {
    hide Act, CanStep;
    var t := actions[i].t;
    q := i;
    if PcOf(states[i], t).Flushing? && PcOf(states[i], t).flush == Logged {
      var m := FlushedFrom(c, states, actions, i, t);
      q := FlushedFrom(c, states, actions, m, t);
    }
  }

  lemma FlushedFrom(c: Config, states: seq<State>, actions: seq<Action>, i: nat, t: Tid) returns (m: nat)
    requires IsRun(c, states, actions) && i < |states| && PcOf(states[i], t).Flushing?
    requires PcOf(states[i], t).flush == Logged || PcOf(states[i], t).flush == Stored
    ensures m < i && Fence.OneSession(actions, m, i)
    ensures var pc := PcOf(states[i], t);
            && (pc.flush == Logged ==> PcOf(states[m], t) == pc.(flush := Stored))
            && (pc.flush == Stored ==> PcOf(states[m], t) == pc.(flush := Intended) && At(states[m + 1].data.store, pc.k) == Some(pc.v))
  {
    hide Act, CanStep;
    m := LastMove(c, states, actions, i, t);
    assert Moves(c, states, actions, m);
    if actions[m].Step? {
      FlushBack(c, states[m].data, states[m].gate, PcOf(states[m], t), actions[m].ch);
    }
  }

  // ----- Invalidate -----

  lemma InvalidateBack(c: Config, d: Data, g: Gate, pc: Pc, ch: Choice)
    requires |d.fences| == c.shards && CanStep(c, d, g, pc, ch)
    ensures var o := Act(c, d, g, pc, ch);
            o.pc.Invalidating? ==>
              && (o.pc.inv == Removed ==> pc == o.pc.(inv := Noted) && ch.ok && o.data.store == d.store - {pc.k})
              && (o.pc.inv == Noted ==> pc == o.pc.(inv := Peeked) && ch.ok)
  {
    hide Append, CommitData, Settle;
  }

  lemma InvalidateFrom(c: Config, states: seq<State>, actions: seq<Action>, i: nat, t: Tid) returns (m: nat)
    requires IsRun(c, states, actions) && i < |states| && PcOf(states[i], t).Invalidating?
    requires PcOf(states[i], t).inv == Removed || PcOf(states[i], t).inv == Noted
    ensures m < i && Fence.OneSession(actions, m, i) && actions[m].Step? && actions[m].t == t && actions[m].ch.ok
    ensures var pc := PcOf(states[i], t);
            && (pc.inv == Noted ==> PcOf(states[m], t) == pc.(inv := Peeked))
            && (pc.inv == Removed ==> PcOf(states[m], t) == pc.(inv := Noted) && pc.k !in states[m + 1].data.store)
  {
    hide Act, CanStep;
    m := LastMove(c, states, actions, i, t);
    assert Moves(c, states, actions, m);
    if actions[m].Step? {
      InvalidateBack(c, states[m].data, states[m].gate, PcOf(states[m], t), actions[m].ch);
    }
  }

  lemma EraseStep(c: Config, d: Data, g: Gate, pc: Pc, ch: Choice)
    requires |d.fences| == c.shards && CanStep(c, d, g, pc, ch) && pc.Invalidating? && pc.inv == Removed
    ensures !Resident(Act(c, d, g, pc, ch).data.cache, pc.k, pc.n)
  {
  }

  /**
  What an invalidation answers, in every run. UnflushedDirtyData exactly when it finds unflushed data
  and is not forced. Success: its record was journaled at step j, its store removal carried out at step
  q after it, and the version it noted is no longer cached.
  */
  lemma InvalidateAnswers(c: Config, states: seq<State>, actions: seq<Action>, i: nat) returns (j: nat, q: nat)
    requires IsRun(c, states, actions) && i < |actions| && actions[i].Step? && |states[i].data.fences| == c.shards
    requires PcOf(states[i], actions[i].t).Invalidating?
    ensures j <= q <= i && Fence.OneSession(actions, j, i)
    ensures var pc, t := PcOf(states[i], actions[i].t), actions[i].t;
            var reply := ReplyOf(c, states[i].data, states[i].gate, pc, actions[i].ch);
            && (reply == Failed(UnflushedDirtyData) <==> pc.inv == InvAdmitted && !pc.force && Unflushed(states[i].data.cache, pc.k))
            && (reply.Told? ==> reply == DONE || reply.result.error in {UnflushedDirtyData, ServiceStopping, IoError})
            && (reply == DONE ==>
                  && j < q < i && actions[j].Step? && actions[j].ch.ok && PcOf(states[j], t) == pc.(inv := Peeked)
                  && PcOf(states[q], t) == pc.(inv := Noted) && pc.k !in states[q + 1].data.store
                  && !Resident(states[i + 1].data.cache, pc.k, pc.n))
  {
    hide Act, CanStep;
    var s, t := states[i], actions[i].t;
    j, q := i, i;
    if PcOf(s, t).inv == Removed {
      assert Moves(c, states, actions, i);
      EraseStep(c, s.data, s.gate, PcOf(s, t), actions[i].ch);
      q := InvalidateFrom(c, states, actions, i, t);
      j := InvalidateFrom(c, states, actions, q, t);
    }
  }

  // ----- FlushAll -----

  /** A thread inside FlushAll, called by itself. */
  predicate InAll(pc: Pc) {
    match pc
    case AllShard(_, _, closing) => !closing
    case AllKeys(_, _, _, closing) => !closing
    case Compacting(closing, _) => !closing
    case FlushEntry(_, _, ret) => ret.ToAll? && !ret.closing
    case Flushing(_, _, _, _, ret) => ret.ToAll? && !ret.closing
    case _ => false
  }

  predicate Flagged(pc: Pc) {
    match pc
    case AllShard(_, failed, _) => failed
    case AllKeys(_, _, failed, _) => failed
    case FlushEntry(_, _, ret) => ret.ToAll? && ret.failed
    case Flushing(_, _, _, _, ret) => ret.ToAll? && ret.failed
    case _ => false
  }

  /** One of the flushes that FlushAll makes fails at this point: its key is gone, or a call failed and it is put back. */
  predicate LosesOne(d: Data, pc: Pc) {
    (pc.FlushEntry? && pc.k !in d.cache) || (pc.Flushing? && pc.flush == Reverting)
  }

  ghost predicate AnyLost(states: seq<State>, actions: seq<Action>, b: nat, e: nat, t: Tid)
    requires b <= e <= |actions| < |states|
  {
    exists m :: b <= m < e && Loses(states[m], actions[m], t)
  }

  predicate Loses(s: State, a: Action, t: Tid) {
    a.Step? && a.t == t && LosesOne(s.data, PcOf(s, t))
  }

  lemma AllStep(c: Config, d: Data, g: Gate, pc: Pc, ch: Choice)
    requires |d.fences| == c.shards && CanStep(c, d, g, pc, ch) && InAll(pc)
    ensures var pc' := Act(c, d, g, pc, ch).pc;
            pc' == Idle || (InAll(pc') && (Flagged(pc') <==> Flagged(pc) || LosesOne(d, pc)))
    ensures var reply := ReplyOf(c, d, g, pc, ch);
            !reply.Silent? ==> !LosesOne(d, pc) && reply == if Flagged(pc) then ToldLastError else DONE
  {
    hide Append, CommitData, Settle;
  }

  lemma LostLater(states: seq<State>, actions: seq<Action>, b: nat, e: nat, t: Tid)
    requires b <= e < |actions| < |states|
    ensures AnyLost(states, actions, b, e + 1, t) <==> AnyLost(states, actions, b, e, t) || Loses(states[e], actions[e], t)
  {
    if AnyLost(states, actions, b, e, t) {
      var m :| b <= m < e && Loses(states[m], actions[m], t);
      assert b <= m < e + 1;
    }
  }

  lemma {:induction false} AllPoint(c: Config, states: seq<State>, actions: seq<Action>, b: nat, e: nat, t: Tid)
    requires IsRun(c, states, actions) && b < e <= |actions| && actions[b] == Start(t, AllShard(0, false, false))
    requires SameCall(actions, b + 1, e, t) && PcOf(states[e], t) != Idle
    ensures InAll(PcOf(states[e], t)) && (Flagged(PcOf(states[e], t)) <==> AnyLost(states, actions, b, e, t))
    decreases e
  {
    hide Act, CanStep, InAll, Flagged, LosesOne, AnyLost, ReplyOf;
    assert Moves(c, states, actions, e - 1);
    LostLater(states, actions, b, e - 1, t);
    if e == b + 1 {
      AllFirst(states, actions, b, t);
    } else {
      var s, a := states[e - 1], actions[e - 1];
      if a.Step? && a.t == t {
        StepsBusy(c, s.data, s.gate, PcOf(s, t), a.ch);
        AllPoint(c, states, actions, b, e - 1, t);
        AllStep(c, s.data, s.gate, PcOf(s, t), a.ch);
      } else {
        AllPoint(c, states, actions, b, e - 1, t);
      }
    }
  }

  lemma AllFirst(states: seq<State>, actions: seq<Action>, b: nat, t: Tid)
    requires b < |actions| < |states|
    ensures InAll(AllShard(0, false, false)) && !Flagged(AllShard(0, false, false)) && !AnyLost(states, actions, b, b, t)
  {
  }

  lemma StepsBusy(c: Config, d: Data, g: Gate, pc: Pc, ch: Choice)
    requires CanStep(c, d, g, pc, ch)
    ensures pc != Idle
  {
  }

  /** FlushAll reports a failure exactly if one of the flushes it made failed, and success otherwise, in every run. */
  lemma FlushAllAnswers(c: Config, states: seq<State>, actions: seq<Action>, b: nat, i: nat, t: Tid)
    requires IsRun(c, states, actions) && b < i < |actions| && actions[b] == Start(t, AllShard(0, false, false))
    requires SameCall(actions, b + 1, i, t) && actions[i].Step? && actions[i].t == t && |states[i].data.fences| == c.shards
    requires !ReplyOf(c, states[i].data, states[i].gate, PcOf(states[i], t), actions[i].ch).Silent?
    ensures ReplyOf(c, states[i].data, states[i].gate, PcOf(states[i], t), actions[i].ch)
            == if AnyLost(states, actions, b, i, t) then ToldLastError else DONE
  {
    hide Act, CanStep, InAll, Flagged, LosesOne, AnyLost, ReplyOf;
    assert Moves(c, states, actions, i);
    StepsBusy(c, states[i].data, states[i].gate, PcOf(states[i], t), actions[i].ch);
    AllPoint(c, states, actions, b, i, t);
    AllStep(c, states[i].data, states[i].gate, PcOf(states[i], t), actions[i].ch);
  }

  // ----- FlushAll leaves no key out -----

  /** The shard FlushAll is at, and what it still has to flush there. */
  function AtShard(c: Config, pc: Pc): nat {
    match pc
    case AllShard(i, _, _) => i
    case AllKeys(i, _, _, _) => i
    case FlushEntry(_, _, ret) => if ret.ToAll? then ret.shard else 0
    case Flushing(_, _, _, _, ret) => if ret.ToAll? then ret.shard else 0
    case _ => c.shards
  }

  predicate Inside(pc: Pc) {
    pc.AllKeys? || pc.FlushEntry? || pc.Flushing?
  }

  function Left(pc: Pc): seq<Key> {
    match pc
    case AllKeys(_, todo, _, _) => todo
    case FlushEntry(k, _, ret) => if ret.ToAll? then [k] + ret.rest else []
    case Flushing(_, _, _, _, ret) => if ret.ToAll? then ret.rest else []
    case _ => []
  }

  lemma AllMoves(c: Config, d: Data, g: Gate, pc: Pc, ch: Choice)
    requires |d.fences| == c.shards && CanStep(c, d, g, pc, ch) && InAll(pc)
    ensures var pc' := Act(c, d, g, pc, ch).pc;
            InAll(pc') ==>
              if Inside(pc) then
                if Inside(pc') then
                  AtShard(c, pc') == AtShard(c, pc) && forall k | k in Left(pc) :: k in Left(pc') || (pc.FlushEntry? && pc.k == k)
                else Left(pc) == [] && AtShard(c, pc') == AtShard(c, pc) + 1
              else if Inside(pc') then
                && pc.AllShard? && pc.i < c.shards && AtShard(c, pc') == pc.i
                && forall k | k in d.cache && ShardOf(c, k) == pc.i && d.cache[k].state == Dirty :: k in Left(pc')
              else AtShard(c, pc) >= c.shards
    ensures !ReplyOf(c, d, g, pc, ch).Silent? ==> AtShard(c, pc) >= c.shards && !Inside(pc)
  {
    hide Append, CommitData, Settle;
  }

  /** Thread t has set out to flush k at some step from b to e. */
  ghost predicate Tried(states: seq<State>, actions: seq<Action>, b: nat, e: nat, t: Tid, k: Key)
    requires b <= e <= |actions| < |states|
  {
    exists m :: b <= m < e && SetsOut(states[m], actions[m], t, k)
  }

  predicate SetsOut(s: State, a: Action, t: Tid, k: Key) {
    a.Step? && a.t == t && PcOf(s, t).FlushEntry? && PcOf(s, t).k == k
  }

  /** Thread t looked at shard x at step m, and every key it found Dirty there it has tried by e, or it is still left. */
  ghost predicate Covered(c: Config, states: seq<State>, actions: seq<Action>, b: nat, e: nat, t: Tid, x: nat, left: seq<Key>, m: nat)
    requires b <= e <= |actions| < |states|
  {
    && b <= m < e && actions[m].Step? && actions[m].t == t && PcOf(states[m], t).AllShard? && PcOf(states[m], t).i == x
    && forall k | k in states[m].data.cache && ShardOf(c, k) == x && states[m].data.cache[k].state == Dirty ::
         k in left || Tried(states, actions, b, e, t, k)
  }

  ghost predicate ShardCovered(c: Config, states: seq<State>, actions: seq<Action>, b: nat, e: nat, t: Tid, x: nat, left: seq<Key>)
    requires b <= e <= |actions| < |states|
  {
    exists m: nat :: Covered(c, states, actions, b, e, t, x, left, m)
  }

  lemma CoveredLater(c: Config, states: seq<State>, actions: seq<Action>, b: nat, e: nat, t: Tid, x: nat, left: seq<Key>, left': seq<Key>)
    requires b <= e < |actions| < |states| && ShardCovered(c, states, actions, b, e, t, x, left)
    requires forall k | k in left :: k in left' || SetsOut(states[e], actions[e], t, k)
    ensures ShardCovered(c, states, actions, b, e + 1, t, x, left')
  {
    var m: nat :| Covered(c, states, actions, b, e, t, x, left, m);
    forall k | k in states[m].data.cache && ShardOf(c, k) == x && states[m].data.cache[k].state == Dirty
      ensures k in left' || Tried(states, actions, b, e + 1, t, k)
    {
      if Tried(states, actions, b, e, t, k) {
        var n :| b <= n < e && SetsOut(states[n], actions[n], t, k);
        assert b <= n < e + 1;
      }
    }
    assert Covered(c, states, actions, b, e + 1, t, x, left', m);
  }

  ghost predicate Progress(c: Config, states: seq<State>, actions: seq<Action>, b: nat, e: nat, t: Tid, pc: Pc)
    requires b <= e <= |actions| < |states|
  {
    && (forall x | 0 <= x < AtShard(c, pc) && x < c.shards :: ShardCovered(c, states, actions, b, e, t, x, []))
    && (Inside(pc) ==> AtShard(c, pc) < c.shards && ShardCovered(c, states, actions, b, e, t, AtShard(c, pc), Left(pc)))
  }

  lemma ProgressStep(c: Config, states: seq<State>, actions: seq<Action>, b: nat, e: nat, t: Tid)
    requires IsRun(c, states, actions) && b <= e < |actions| && actions[e].Step? && actions[e].t == t && InAll(PcOf(states[e], t))
    requires Progress(c, states, actions, b, e, t, PcOf(states[e], t)) && InAll(PcOf(states[e + 1], t))
    ensures Progress(c, states, actions, b, e + 1, t, PcOf(states[e + 1], t))
  {
    hide Act, CanStep, InAll, ShardCovered;
    assert Moves(c, states, actions, e);
    var s, pc, pc' := states[e], PcOf(states[e], t), PcOf(states[e + 1], t);
    AllMoves(c, s.data, s.gate, pc, actions[e].ch);
    var later := e + 1;
    forall x | 0 <= x < AtShard(c, pc) && x < c.shards
      ensures ShardCovered(c, states, actions, b, later, t, x, [])
    {
      CoveredLater(c, states, actions, b, e, t, x, [], []);
    }
    if Inside(pc) {
      CoveredLater(c, states, actions, b, e, t, AtShard(c, pc), Left(pc), Left(pc'));
      LeftOutside(pc');
    } else if Inside(pc') {
      FirstCovered(c, states, actions, b, e, t);
    }
  }

  lemma LeftOutside(pc: Pc)
    ensures !Inside(pc) ==> Left(pc) == []
  {
  }

  lemma FirstCovered(c: Config, states: seq<State>, actions: seq<Action>, b: nat, e: nat, t: Tid)
    requires b <= e < |actions| < |states| && actions[e].Step? && actions[e].t == t && PcOf(states[e], t).AllShard?
    requires forall k | k in states[e].data.cache && ShardOf(c, k) == PcOf(states[e], t).i && states[e].data.cache[k].state == Dirty ::
               k in Left(PcOf(states[e + 1], t))
    ensures ShardCovered(c, states, actions, b, e + 1, t, PcOf(states[e], t).i, Left(PcOf(states[e + 1], t)))
  {
    assert Covered(c, states, actions, b, e + 1, t, PcOf(states[e], t).i, Left(PcOf(states[e + 1], t)), e);
  }

  lemma ProgressOther(c: Config, states: seq<State>, actions: seq<Action>, b: nat, e: nat, t: Tid, pc: Pc)
    requires b <= e < |actions| < |states| && Progress(c, states, actions, b, e, t, pc)
    ensures Progress(c, states, actions, b, e + 1, t, pc)
  {
    hide ShardCovered;
    var later := e + 1;
    forall x | 0 <= x < AtShard(c, pc) && x < c.shards
      ensures ShardCovered(c, states, actions, b, later, t, x, [])
    {
      CoveredLater(c, states, actions, b, e, t, x, [], []);
    }
    if Inside(pc) {
      CoveredLater(c, states, actions, b, e, t, AtShard(c, pc), Left(pc), Left(pc));
    }
  }

  lemma {:induction false} AllProgress(c: Config, states: seq<State>, actions: seq<Action>, b: nat, e: nat, t: Tid)
    requires IsRun(c, states, actions) && b < e <= |actions| && actions[b] == Start(t, AllShard(0, false, false))
    requires SameCall(actions, b + 1, e, t) && PcOf(states[e], t) != Idle
    ensures InAll(PcOf(states[e], t)) && Progress(c, states, actions, b, e, t, PcOf(states[e], t))
    decreases e
  {
    hide Act, CanStep, InAll, Progress, ReplyOf;
    assert Moves(c, states, actions, e - 1);
    AllPoint(c, states, actions, b, e, t);
    if e == b + 1 {
      StartsAtZero(c, states, actions, b, e, t);
    } else {
      var s, a := states[e - 1], actions[e - 1];
      if a.Step? && a.t == t {
        StepsBusy(c, s.data, s.gate, PcOf(s, t), a.ch);
        AllProgress(c, states, actions, b, e - 1, t);
        ProgressStep(c, states, actions, b, e - 1, t);
      } else {
        AllProgress(c, states, actions, b, e - 1, t);
        ProgressOther(c, states, actions, b, e - 1, t, PcOf(s, t));
      }
    }
  }

  lemma StartsAtZero(c: Config, states: seq<State>, actions: seq<Action>, b: nat, e: nat, t: Tid)
    requires b <= e <= |actions| < |states|
    ensures Progress(c, states, actions, b, e, t, AllShard(0, false, false))
  {
  }

  /**
  Whatever it answers, and however many of its flushes fail, FlushAll has looked at every shard at some
  step m of its call and has set out to flush every key it found Dirty there.
  */
  lemma FlushAllTriesAll(c: Config, states: seq<State>, actions: seq<Action>, b: nat, i: nat, t: Tid, x: nat) returns (m: nat)
    requires IsRun(c, states, actions) && b < i < |actions| && actions[b] == Start(t, AllShard(0, false, false)) && x < c.shards
    requires SameCall(actions, b + 1, i, t) && actions[i].Step? && actions[i].t == t && |states[i].data.fences| == c.shards
    requires !ReplyOf(c, states[i].data, states[i].gate, PcOf(states[i], t), actions[i].ch).Silent?
    ensures b < m < i
    ensures forall k | k in states[m].data.cache && ShardOf(c, k) == x && states[m].data.cache[k].state == Dirty ::
              Tried(states, actions, b, i, t, k)
  {
    hide Act, CanStep, InAll, ReplyOf;
    assert Moves(c, states, actions, i);
    StepsBusy(c, states[i].data, states[i].gate, PcOf(states[i], t), actions[i].ch);
    AllProgress(c, states, actions, b, i, t);
    AllMoves(c, states[i].data, states[i].gate, PcOf(states[i], t), actions[i].ch);
    assert ShardCovered(c, states, actions, b, i, t, x, []);
    var m1: nat :| Covered(c, states, actions, b, i, t, x, [], m1);
    m := m1;
    assert m != b;
  }
}
