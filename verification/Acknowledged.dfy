/** From the answer of a Put to what a crash leaves: an acknowledged write survives until a later one is journaled. */
module Acknowledged {
  import opened CacheTypes
  import opened Protocol
  import opened CommitOrder
  import opened Durability
  import opened Answers
  import Limits

  /** A step that journals a write of k, or its removal. */
  predicate JournalsWrite(s: State, a: Action, k: Key) {
    JournalsPut(s, a, k) || JournalsRemoval(s, a, k)
  }

  lemma {:induction false} TruthSince(states: seq<State>, actions: seq<Action>, j: nat, m: nat, k: Key)
    requires j < m <= |actions| < |states| && JournalsPut(states[j], actions[j], k)
    requires forall x | j < x < m :: !JournalsWrite(states[x], actions[x], k)
    ensures Truth(states, actions, m, k) == Some(PcOf(states[j], actions[j].t).v)
    decreases m
  {
    if m > j + 1 {
      TruthSince(states, actions, j, m - 1, k);
    }
  }

  /**
  In every benign run in which no call passes a key or value over 64 MiB: once a Put past its append is
  answered at step i, whatever the answer, a crash at any later state m, in this session or another, is
  followed by a startup that serves its value, unless a later write of its key was journaled. The value
  is the one its call, at step b, was made with.
  */
  lemma AckedPutSurvives(c: Config, states: seq<State>, actions: seq<Action>, i: nat, m: nat) returns (b: nat, j: nat)
    requires BenignRun(c, states, actions) && Limits.Called(Limits.ToDecode, actions)
    requires i < m <= |actions| && actions[i].Step? && Owner(PcOf(states[i], actions[i].t)).Some?
    ensures b < j < i
    ensures var k := Owner(PcOf(states[i], actions[i].t)).value.0;
            && actions[b].Start? && actions[b].t == actions[i].t && actions[b].first.Putting? && actions[b].first.k == k
            && (JournalsPut(states[j], actions[j], k) && actions[j].t == actions[i].t)
            && ((forall x | j < x < m :: !JournalsWrite(states[x], actions[x], k)) ==>
                  Startup(states[m].data).Some? && At(Startup(states[m].data).value, k) == Some(actions[b].first.v))
  {
    hide Truth, JournalsRemoval;
    assert |states| == |actions| + 1;
    hide Benign, Fair, Moves, Startup;
    var k := Owner(PcOf(states[i], actions[i].t)).value.0;
    b, j := AckedPutIsJournaled(c, states, actions, i);
    CrashDurability(c, states, actions, m, k);
    if forall x | j < x < m :: !JournalsWrite(states[x], actions[x], k) {
      TruthSince(states, actions, j, m, k);
    }
  }
}
