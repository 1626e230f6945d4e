/**
What a completed invalidation guarantees about the cache. It notes the resident version, and at its
end erases that version only; whether the key is then uncached depends on what was committed in between.
*/
module Invalidation {
  import opened CacheTypes
  import opened Protocol
  import opened Versions
  import Fence

  /** The thread commits an entry of k: the shard section of a Put, or a read-fill whose fence still matches. */
  predicate Commits(c: Config, s: State, a: Action, k: Key) {
    a.Step? && |s.data.fences| == c.shards && CommitsPc(c, s.data, PcOf(s, a.t), k)
  }

  predicate CommitsPc(c: Config, d: Data, pc: Pc, k: Key)
    requires |d.fences| == c.shards
  {
    || (InWindow(pc) && pc.k == k)
    || (pc.Getting? && pc.get.Fetched? && pc.k == k && d.fences[ShardOf(c, k)] == pc.get.fence)
  }

  function CommitVersion(pc: Pc): nat {
    if pc.Putting? then pc.n else 0
  }

  /** How the resident version of k can change: it leaves, or a commit of k brings the new one. */
  lemma KeyChange(c: Config, d: Data, g: Gate, pc: Pc, ch: Choice, k: Key)
    requires |d.fences| == c.shards && CanStep(c, d, g, pc, ch)
    ensures var cache := Act(c, d, g, pc, ch).data.cache;
            k in cache ==>
              || Resident(d.cache, k, cache[k].version)
              || (CommitsPc(c, d, pc, k) && cache[k].version == CommitVersion(pc))
  {
    hide Act;
    StepCache(c, d, g, pc, ch);
  }

  predicate Noting(pc: Pc) {
    pc.Invalidating? && (pc.inv == Peeked || pc.inv == Noted || pc.inv == Removed)
  }

  /** A thread is past its note only by noting, or by going on with the same note. */
  lemma NoteStep(c: Config, d: Data, g: Gate, pc: Pc, ch: Choice)
    requires |d.fences| == c.shards && CanStep(c, d, g, pc, ch)
    ensures var o := Act(c, d, g, pc, ch);
            Noting(o.pc) ==>
              || (Noting(pc) && o.pc.k == pc.k && o.pc.n == pc.n && o.pc.force == pc.force)
              || (pc.Invalidating? && pc.inv == InvAdmitted && o.pc.k == pc.k && o.pc.force == pc.force && o.data.cache == d.cache
                  && o.pc.n == if pc.k in d.cache then d.cache[pc.k].version else 0)
  {
    hide Append, CommitData, Settle;
  }

  /** Where an invalidation that is past its note noted the resident version. */
  lemma NotePoint(c: Config, states: seq<State>, actions: seq<Action>, i: nat, t: Tid) returns (p: nat)
    requires IsRun(c, states, actions) && i < |states| && Noting(PcOf(states[i], t))
    ensures p < i && Fence.OneSession(actions, p, i) && |states[p].data.fences| == c.shards
    ensures var pc, cache := PcOf(states[i], t), states[p].data.cache;
            && actions[p].Step? && actions[p].t == t && PcOf(states[p], t).Invalidating? && PcOf(states[p], t).inv == InvAdmitted
            && PcOf(states[p], t).k == pc.k && states[p + 1].data.cache == cache
            && pc.n == if pc.k in cache then cache[pc.k].version else 0
  {
    if i == 0 {
      assert false;
    }
    var s, a := states[i - 1], actions[i - 1];
    assert Moves(c, states, actions, i - 1);
    Versions.RunInv(c, states, actions, i - 1);
    if a.Step? && a.t == t {
      NoteStep(c, s.data, s.gate, PcOf(s, t), a.ch);
    }
    if Noting(PcOf(s, t)) {
      p := NotePoint(c, states, actions, i - 1, t);
    } else {
      p := i - 1;
    }
  }

  /** Step m commits a version of k other than n, and that version stays resident until state j. */
  ghost predicate Displaces(c: Config, states: seq<State>, actions: seq<Action>, m: nat, j: nat, k: Key, n: nat)
    requires m < j < |states| && |actions| + 1 == |states|
  {
    && Commits(c, states[m], actions[m], k) && CommitVersion(PcOf(states[m], actions[m].t)) != n
    && forall q | m < q <= j :: Resident(states[q].data.cache, k, CommitVersion(PcOf(states[m], actions[m].t)))
  }

  /** From a note on, any other version of the key was brought by a commit and has stayed since. */
  lemma {:induction false} OtherVersion(c: Config, states: seq<State>, actions: seq<Action>, p: nat, j: nat, k: Key, n: nat)
    returns (m: nat)
    requires IsRun(c, states, actions) && p < j < |states| && Fence.OneSession(actions, p, j)
    requires k in states[p + 1].data.cache ==> states[p + 1].data.cache[k].version == n
    requires k in states[j].data.cache && states[j].data.cache[k].version != n
    ensures p < m < j && Displaces(c, states, actions, m, j, k, n)
    ensures Resident(states[j].data.cache, k, CommitVersion(PcOf(states[m], actions[m].t)))
    decreases j
  {
    var s, a := states[j - 1], actions[j - 1];
    assert Moves(c, states, actions, j - 1);
    Versions.RunInv(c, states, actions, j - 1);
    if a.Step? {
      KeyChange(c, s.data, s.gate, PcOf(s, a.t), a.ch, k);
    }
    if Resident(s.data.cache, k, states[j].data.cache[k].version) {
      m := OtherVersion(c, states, actions, p, j - 1, k, n);
    } else {
      m := j - 1;
    }
  }

  /** The erasing step removes exactly the noted version. */
  lemma EraseStep(c: Config, states: seq<State>, actions: seq<Action>, j: nat)
    requires IsRun(c, states, actions) && j < |actions| && actions[j].Step?
    requires PcOf(states[j], actions[j].t).Invalidating? && PcOf(states[j], actions[j].t).inv == Removed
    ensures var k, n := PcOf(states[j], actions[j].t).k, PcOf(states[j], actions[j].t).n;
            k in states[j + 1].data.cache <==> k in states[j].data.cache && states[j].data.cache[k].version != n
  {
    hide Act;
    assert Moves(c, states, actions, j);
    StepCache(c, states[j].data, states[j].gate, PcOf(states[j], actions[j].t), actions[j].ch);
  }

  /**
  A completed invalidation leaves its key cached exactly when, between its note and its erase, some
  thread committed another version of the key and that version was still resident at the end.
  */
  lemma InvalidationExact(c: Config, states: seq<State>, actions: seq<Action>, j: nat) returns (p: nat)
    requires IsRun(c, states, actions) && j < |actions| && actions[j].Step?
    requires PcOf(states[j], actions[j].t).Invalidating? && PcOf(states[j], actions[j].t).inv == Removed
    ensures p < j && actions[p].Step? && actions[p].t == actions[j].t
    ensures PcOf(states[p], actions[p].t).Invalidating? && PcOf(states[p], actions[p].t).inv == InvAdmitted
    ensures var k, n := PcOf(states[j], actions[j].t).k, PcOf(states[j], actions[j].t).n;
            k in states[j + 1].data.cache <==> exists m :: p < m < j && Displaces(c, states, actions, m, j, k, n)
    ensures (forall m | p < m < j :: !Commits(c, states[m], actions[m], PcOf(states[j], actions[j].t).k)) ==>
              PcOf(states[j], actions[j].t).k !in states[j + 1].data.cache
  {
    var pc := PcOf(states[j], actions[j].t);
    p := NotePoint(c, states, actions, j, actions[j].t);
    EraseStep(c, states, actions, j);
    if pc.k in states[j + 1].data.cache {
      var m := OtherVersion(c, states, actions, p, j, pc.k, pc.n);
      assert Commits(c, states[m], actions[m], pc.k);
    }
  }
}
