/**
Commit order does not matter: versions follow journal order, and the version guard makes the
resident value that of the newest committed Put, whatever order the commits arrive in.
*/
module CommitOrder {
  import opened CacheTypes
  import opened Replay
  import opened Protocol
  import opened Versions

  /** A step that appends an Upsert of key k. */
  predicate JournalsPut(s: State, a: Action, k: Key) {
    a.Step? && a.ch.ok && var pc := PcOf(s, a.t); pc.Putting? && pc.put == PutAdmitted && pc.k == k
  }

  /** A step that runs the shard commit of a Put of key k. */
  predicate CommitsPut(s: State, a: Action, k: Key) {
    a.Step? && InWindow(PcOf(s, a.t)) && PcOf(s, a.t).k == k
  }

  /** What the steps so far did with key k: its last journaled Upsert and its newest committed Put. */
  datatype Track = Track(last: Option<Stamped>, top: Option<Stamped>)

  function Newest(top: Option<Stamped>, x: Stamped): Option<Stamped> {
    if top.Some? && x.version <= top.value.version then top else Some(x)
  }

  function TrackKey(states: seq<State>, actions: seq<Action>, b: nat, j: nat, k: Key): Track
    requires b <= j <= |actions| < |states|
    decreases j
  {
    if j == b then Track(None, None)
    else
      var tr, s, a := TrackKey(states, actions, b, j - 1, k), states[j - 1], actions[j - 1];
      if JournalsPut(s, a, k) then tr.(last := Some(Stamped(PcOf(s, a.t).v, s.data.counter + 1)))
      else if CommitsPut(s, a, k) then tr.(top := Newest(tr.top, Stamped(PcOf(s, a.t).v, PcOf(s, a.t).n)))
      else tr
  }

  predicate WindowOk(pc: Pc, base: nat, k: Key, last: Option<Stamped>) {
    InWindow(pc) && pc.k == k ==>
      last.Some? && base < pc.n <= last.value.version && (pc.n == last.value.version ==> pc.v == last.value.value)
  }

  predicate Resides(cache: Cache, base: nat, k: Key, top: Option<Stamped>) {
    if top.Some? then base < top.value.version && k in cache && cache[k].version == top.value.version && cache[k].value == top.value.value
    else k in cache ==> cache[k].version <= base
  }

  predicate Ordered(base: nat, counter: nat, tr: Track) {
    && base <= counter
    && (tr.last.Some? ==> base < tr.last.value.version <= counter)
    && (tr.top.Some? ==> tr.last.Some? && tr.top.value.version <= tr.last.value.version)
  }

  ghost predicate OrderInv(s: State, base: nat, k: Key, tr: Track) {
    && Ordered(base, s.data.counter, tr)
    && Resides(s.data.cache, base, k, tr.top)
    && (tr.last.Some? ==> tr.top == tr.last || PendingCommit(s.threads, k, tr.last.value))
    && (forall t | t in s.threads :: WindowOk(s.threads[t], base, k, tr.last))
  }

  /** How a step changes the entry of one key it does not remove. */
  predicate KeyRel(d: Data, pc: Pc, d': Data, k: Key) {
    k in d'.cache ==>
      if InWindow(pc) && pc.k == k then
        if k in d.cache && Stale(pc.n, d.cache[k].version)
        then d'.cache[k] == d.cache[k]
        else d'.cache[k] == Entry(pc.v, pc.n, Dirty)
      else
        || d'.cache[k].version == 0
        || (k in d.cache && d'.cache[k].version == d.cache[k].version && d'.cache[k].value == d.cache[k].value)
  }

  lemma KeyStep(c: Config, d: Data, g: Gate, pc: Pc, ch: Choice, k: Key)
    requires |d.fences| == c.shards && CanStep(c, d, g, pc, ch)
    ensures KeyRel(d, pc, Act(c, d, g, pc, ch).data, k)
    ensures k in d.cache && d.cache[k].version > 0 && k in Act(c, d, g, pc, ch).data.cache ==>
              Act(c, d, g, pc, ch).data.cache[k].version > 0
  {
    hide Act;
    StepCache(c, d, g, pc, ch);
  }

  /** What a step of thread t does, as far as key k and the commit windows are concerned. */
  ghost predicate StepRel(s: State, t: Tid, s': State, k: Key, ok: bool) {
    var pc, d, d' := PcOf(s, t), s.data, s'.data;
    && t in s'.threads && s'.threads == s.threads[t := s'.threads[t]]
    && WindowRel(d, pc, d', s'.threads[t], ok) && KeyRel(d, pc, d', k)
    && (k in d.cache ==> k in d'.cache && (d.cache[k].version > 0 ==> d'.cache[k].version > 0))
  }

  predicate WindowRel(d: Data, pc: Pc, d': Data, pc': Pc, ok: bool) {
    && d'.counter == (if pc.Putting? && pc.put == PutAdmitted then d.counter + 1 else d.counter)
    && (InWindow(pc') <==> pc.Putting? && pc.put == PutAdmitted && ok)
    && (InWindow(pc') ==> pc'.k == pc.k && pc'.v == pc.v && pc'.n == d.counter + 1)
  }

  lemma WindowStep(c: Config, d: Data, g: Gate, pc: Pc, ch: Choice)
    requires |d.fences| == c.shards && CanStep(c, d, g, pc, ch)
    ensures var o := Act(c, d, g, pc, ch); WindowRel(d, pc, o.data, o.pc, ch.ok)
  {
  }

  predicate Witnesses(pc: Pc, k: Key, x: Stamped) {
    InWindow(pc) && pc.k == k && pc.v == x.value && pc.n == x.version
  }

  ghost predicate PendingCommit(threads: map<Tid, Pc>, k: Key, x: Stamped) {
    exists t :: t in threads && Witnesses(threads[t], k, x)
  }

  lemma PendingKept(threads: map<Tid, Pc>, t: Tid, pc: Pc, k: Key, x: Stamped)
    ensures PendingCommit(threads, k, x) && !(t in threads && Witnesses(threads[t], k, x)) ==> PendingCommit(threads[t := pc], k, x)
    ensures Witnesses(pc, k, x) ==> PendingCommit(threads[t := pc], k, x)
  {
    if Witnesses(pc, k, x) {
      assert t in threads[t := pc];
    } else if PendingCommit(threads, k, x) && !(t in threads && Witnesses(threads[t], k, x)) {
      var u :| u in threads && Witnesses(threads[u], k, x);
      assert u in threads[t := pc];
    }
  }

  lemma OrderJournal(s: State, t: Tid, s': State, base: nat, k: Key, tr: Track)
    requires OrderInv(s, base, k, tr) && StepRel(s, t, s', k, true)
    requires var pc := PcOf(s, t); pc.Putting? && pc.put == PutAdmitted && pc.k == k
    ensures OrderInv(s', base, k, tr.(last := Some(Stamped(PcOf(s, t).v, s.data.counter + 1))))
  {
    PendingKept(s.threads, t, s'.threads[t], k, Stamped(PcOf(s, t).v, s.data.counter + 1));
  }

  lemma OrderCommit(s: State, t: Tid, s': State, base: nat, k: Key, tr: Track, ok: bool)
    requires OrderInv(s, base, k, tr) && StepRel(s, t, s', k, ok)
    requires t in s.threads && InWindow(PcOf(s, t)) && PcOf(s, t).k == k && !Resident(s.data.cache, k, PcOf(s, t).n)
    requires k in s'.data.cache
    ensures OrderInv(s', base, k, tr.(top := Newest(tr.top, Stamped(PcOf(s, t).v, PcOf(s, t).n))))
  {
    assert WindowOk(s.threads[t], base, k, tr.last);
    PendingKept(s.threads, t, s'.threads[t], k, tr.last.value);
  }

  lemma OrderOther(s: State, t: Tid, s': State, base: nat, k: Key, tr: Track, ok: bool)
    requires OrderInv(s, base, k, tr) && StepRel(s, t, s', k, ok)
    requires !(InWindow(PcOf(s, t)) && PcOf(s, t).k == k)
    requires var pc := PcOf(s, t); !(ok && pc.Putting? && pc.put == PutAdmitted && pc.k == k)
    ensures OrderInv(s', base, k, tr)
  {
    if tr.last.Some? {
      PendingKept(s.threads, t, s'.threads[t], k, tr.last.value);
    }
  }

  lemma StepOrder(c: Config, states: seq<State>, actions: seq<Action>, b: nat, j: nat, base: nat, k: Key)
    requires b <= j < |actions| == |states| - 1
    requires var s, a, s' := states[j], actions[j], states[j + 1];
             Versions.Inv(c, s) && Transition(c, s, a, s') && (a.Start? || a.Step?) && (k in s.data.cache ==> k in s'.data.cache)
    requires OrderInv(states[j], base, k, TrackKey(states, actions, b, j, k))
    ensures OrderInv(states[j + 1], base, k, TrackKey(states, actions, b, j + 1, k))
  {
    var s, a, s', tr := states[j], actions[j], states[j + 1], TrackKey(states, actions, b, j, k);
    if a.Start? {
      if tr.last.Some? {
        PendingKept(s.threads, a.t, a.first, k, tr.last.value);
      }
    } else {
      KeyStep(c, s.data, s.gate, PcOf(s, a.t), a.ch, k);
      WindowStep(c, s.data, s.gate, PcOf(s, a.t), a.ch);
      if JournalsPut(s, a, k) {
        OrderJournal(s, a.t, s', base, k, tr);
      } else if CommitsPut(s, a, k) {
        CommitKeepsKey(c, s.data, s.gate, PcOf(s, a.t), a.ch);
        OrderCommit(s, a.t, s', base, k, tr, a.ch.ok);
      } else {
        OrderOther(s, a.t, s', base, k, tr, a.ch.ok);
      }
    }
  }

  lemma CommitKeepsKey(c: Config, d: Data, g: Gate, pc: Pc, ch: Choice)
    requires |d.fences| == c.shards && CanStep(c, d, g, pc, ch) && InWindow(pc)
    ensures pc.k in Act(c, d, g, pc, ch).data.cache
  {
  }

  /** One session, from the state right after startup, in which key k is never evicted or erased. */
  ghost predicate KeepsKey(c: Config, states: seq<State>, actions: seq<Action>, b: nat, j: nat, k: Key) {
    && IsRun(c, states, actions) && 0 < b <= j <= |actions| && Opens(actions[b - 1])
    && (forall m | b <= m < j :: actions[m].Start? || actions[m].Step?)
    && (forall m | b <= m < j :: Keeps(states, m, k))
  }

  /** The two ways a session begins. */
  predicate Opens(a: Action) {
    a.Recover? || a.SkipReplay?
  }

  ghost predicate Keeps(states: seq<State>, m: nat, k: Key)
    requires m + 1 < |states|
  {
    k in states[m].data.cache ==> k in states[m + 1].data.cache
  }

  lemma SessionStart(c: Config, s: State, a: Action, s': State, k: Key)
    requires Versions.Inv(c, s) && Versions.Inv(c, s') && Transition(c, s, a, s') && Opens(a)
    ensures OrderInv(s', s'.data.counter, k, Track(None, None))
  {
    assert s'.threads == map[];
  }

  lemma {:induction false} SessionOrder(c: Config, states: seq<State>, actions: seq<Action>, b: nat, j: nat, k: Key)
    requires KeepsKey(c, states, actions, b, j, k)
    ensures OrderInv(states[j], states[b].data.counter, k, TrackKey(states, actions, b, j, k))
    decreases j
  {
    if j == b {
      SessionStart(c, states[b - 1], actions[b - 1], states[b], k) by {
        Versions.RunInv(c, states, actions, b - 1);
        Versions.RunInv(c, states, actions, b);
        assert Moves(c, states, actions, b - 1);
      }
    } else {
      SessionOrder(c, states, actions, b, j - 1, k);
      Versions.RunInv(c, states, actions, j - 1);
      assert Moves(c, states, actions, j - 1) && Keeps(states, j - 1, k);
      StepOrder(c, states, actions, b, j - 1, states[b].data.counter, k);
    }
  }

  /**
  In any interleaving of one session that neither evicts nor invalidates k, the resident value is
  that of the highest-version committed Put; once no Put of k is between its append and its
  commit, it is that of the last journaled Upsert.
  */
  lemma CommitOrderIrrelevant(c: Config, states: seq<State>, actions: seq<Action>, b: nat, j: nat, k: Key)
    requires KeepsKey(c, states, actions, b, j, k)
    ensures var tr, cache := TrackKey(states, actions, b, j, k), states[j].data.cache;
            && (tr.top.Some? ==> k in cache && cache[k].value == tr.top.value.value && cache[k].version == tr.top.value.version)
            && (tr.last.Some? && (forall t | t in states[j].threads :: !(InWindow(states[j].threads[t]) && states[j].threads[t].k == k)) ==>
                  k in cache && cache[k].value == tr.last.value.value && cache[k].version == tr.last.value.version)
  {
    SessionOrder(c, states, actions, b, j, k);
  }

  /** The Upsert versions a session journals, in journal order. */
  function UpsertVersions(states: seq<State>, actions: seq<Action>, b: nat, j: nat): seq<nat>
    requires b <= j <= |actions| < |states|
    decreases j
  {
    if j == b then []
    else
      var s, a := states[j - 1], actions[j - 1];
      UpsertVersions(states, actions, b, j - 1)
      + if a.Step? && JournalsPut(s, a, PutKey(PcOf(s, a.t))) then [s.data.counter + 1] else []
  }

  function PutKey(pc: Pc): Key {
    if pc.Putting? then pc.k else []
  }

  /** Version order is journal order, and every new version exceeds all versions resident at recovery. */
  lemma VersionsIncrease(c: Config, states: seq<State>, actions: seq<Action>, b: nat, j: nat)
    requires IsRun(c, states, actions) && b <= j <= |actions|
    requires forall m | b <= m < j :: actions[m].Start? || actions[m].Step?
    ensures var vs := UpsertVersions(states, actions, b, j);
            && (forall x, y | 0 <= x < y < |vs| :: vs[x] < vs[y])
            && (forall x | 0 <= x < |vs| :: states[b].data.counter < vs[x] <= states[j].data.counter)
    ensures states[b].data.counter <= states[j].data.counter
    decreases j
  {
    if j > b {
      VersionsIncrease(c, states, actions, b, j - 1);
      var s, a := states[j - 1], actions[j - 1];
      assert Moves(c, states, actions, j - 1);
      if a.Step? {
        WindowStep(c, s.data, s.gate, PcOf(s, a.t), a.ch);
      }
    }
  }
}
