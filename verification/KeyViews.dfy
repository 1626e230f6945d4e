/**
One key at a time: what the journal, the store and the cache say about it, and how each step of the
machine changes that.
*/
module KeyViews {
  import opened CacheTypes
  import opened Replay
  import opened Protocol
  import opened Versions

  /** Everything the shared data says about one key. */
  datatype KeyView = KeyView(pending: Option<Stamped>, gone: bool, stored: Option<Value>, entry: Option<Entry>, counter: nat, torn: bool)

  function View(d: Data, k: Key): KeyView {
    KeyView(At(Pending(d.journal), k), k in InvalidatedKeys(d.journal), At(d.store, k), At(d.cache, k), d.counter, d.torn)
  }

  predicate Concerns(pc: Pc, k: Key) {
    (pc.Putting? || pc.Invalidating? || pc.FlushEntry? || pc.Flushing?) && pc.k == k
  }

  /** An invalidation from its note of the version to its erase. */
  predicate Erasing(pc: Pc) {
    pc.Invalidating? && (pc.inv == Peeked || pc.inv == Noted || pc.inv == Removed)
  }

  /** From its journal record to its erase. */
  predicate Vanishing(pc: Pc, k: Key) {
    pc.Invalidating? && (pc.inv == Noted || pc.inv == Removed) && pc.k == k
  }

  predicate Uninvolved(v: KeyView, v': KeyView) {
    && v'.pending == v.pending && v'.gone == v.gone && v'.stored == v.stored && v.counter <= v'.counter && v'.torn == v.torn
    && (v'.entry == v.entry
        || (v.entry.Some? && (v.entry.value.state == Clean || v.entry.value.version == 0) && v'.entry == None)
        || (v'.entry.Some? && v'.entry.value.version == 0 && v'.entry.value.state == Clean
            && (v.entry.Some? ==> v.entry.value.version == 0)))
  }

  function Restate(e: Option<Entry>, n: nat, state: DirtyState): Option<Entry> {
    if e.Some? && e.value.version == n && e.value.state == FlushInProgress then Some(e.value.(state := state)) else e
  }

  /** A completion record settles the pending write of its version, if replay can read it. */
  function Completed(v: KeyView, n: nat): Option<Stamped> {
    if !v.torn && v.pending.Some? && v.pending.value.version == n then None else v.pending
  }

  /** How a step of a thread working on k changes the view of k. */
  predicate Involved(v: KeyView, pc: Pc, ok: bool, v': KeyView, pc': Pc) {
    match pc
    case Putting(k, x, n, stage) =>
      if stage == PutAdmitted && ok then
        && v' == v.(pending := if v.torn then v.pending else Some(Stamped(x, v.counter + 1)), counter := v.counter + 1)
        && pc' == Putting(k, x, v.counter + 1, Journaled)
      else if stage == Journaled then
        && !Concerning(pc')
        && v' == if v.entry.Some? && Stale(n, v.entry.value.version) then v else v.(entry := Some(Entry(x, n, Dirty)))
      else Uninvolved(v, v') && !Concerning(pc')
    case FlushEntry(k, _, ret) =>
      if pc'.Flushing? then
        && v.entry.Some? && v.entry.value.state == Dirty
        && v' == v.(entry := Some(v.entry.value.(state := FlushInProgress)))
        && pc' == Flushing(k, v.entry.value.value, v.entry.value.version, Claimed, ret)
      else v' == v && !Concerning(pc')
    case Flushing(k, x, n, stage, ret) =>
      if stage == Logged then v' == v.(entry := Restate(v.entry, n, Clean)) && !Concerning(pc')
      else if stage == Reverting then v' == v.(entry := Restate(v.entry, n, Dirty)) && !Concerning(pc')
      else if !ok then v' == v && pc' == Flushing(k, x, n, Reverting, ret)
      else if stage == Claimed then v' == v && pc' == Flushing(k, x, n, Intended, ret)
      else if stage == Intended then v' == v.(stored := Some(x)) && pc' == Flushing(k, x, n, Stored, ret)
      else v' == v.(pending := Completed(v, n)) && pc' == Flushing(k, x, n, Logged, ret)
    case Invalidating(k, n, force, stage) =>
      if stage == Removed then
        && v' == (if v.entry.Some? && v.entry.value.version == n then v.(entry := None) else v)
        && !Concerning(pc')
      else if (stage == Peeked || stage == Noted) && !ok then v' == v && !Concerning(pc')
      else if stage == Peeked then v' == (if v.torn then v else v.(pending := None, gone := true)) && pc' == Invalidating(k, n, force, Noted)
      else if stage == Noted then v' == v.(stored := None) && pc' == Invalidating(k, n, force, Removed)
      else
        v' == v && (Concerning(pc') ==> pc' == Invalidating(k, if v.entry.Some? then v.entry.value.version else 0, force, Peeked))
    case _ => false
  }

  predicate Concerning(pc: Pc) {
    InWindow(pc) || pc.Flushing? || Erasing(pc)
  }

  /** Replay can read the frame of what is appended. */
  predicate Reached(d: Data, pc: Pc, ok: bool) {
    ok && NextRecord(d, pc).Some? ==> Framable(NextRecord(d, pc).value)
  }

  /** One more record, for the key it names and for the others. */
  lemma ViewAppend(d: Data, r: Record)
    ensures InvalidatedKeys(d.journal + [r]) == InvalidatedKeys(d.journal) + if r.Invalidate? then {r.key} else {}
    ensures Pending(d.journal + [r]) == ApplyRecord(Pending(d.journal), r)
  {
    PendingAppend(d.journal, r);
    InvalidatedAppend(d.journal + [r], |d.journal|);
    assert (d.journal + [r])[..|d.journal|] == d.journal && (d.journal + [r])[..|d.journal| + 1] == d.journal + [r];
  }

  lemma InvolvedPut(c: Config, d: Data, g: Gate, pc: Pc, ch: Choice)
    requires |d.fences| == c.shards && pc.Putting? && CanPut(c, d, g, pc.k, pc.v, pc.n, pc.put, ch) && Reached(d, pc, ch.ok)
    ensures var o := ActPut(c, d, g, pc.k, pc.v, pc.n, pc.put, ch);
            Involved(View(d, pc.k), pc, ch.ok, View(o.data, pc.k), o.pc)
  {
    hide Pending, InvalidatedKeys, Framable;
    if pc.put == PutAdmitted {
      ViewAppend(d, Upsert(pc.k, pc.v, d.counter + 1));
    } else {
      InvolvedCommit(c, d, g, pc, ch);
    }
  }

  lemma InvolvedCommit(c: Config, d: Data, g: Gate, pc: Pc, ch: Choice)
    requires |d.fences| == c.shards && pc.Putting? && CanPut(c, d, g, pc.k, pc.v, pc.n, pc.put, ch) && pc.put != PutAdmitted
    ensures var o := ActPut(c, d, g, pc.k, pc.v, pc.n, pc.put, ch);
            Involved(View(d, pc.k), pc, ch.ok, View(o.data, pc.k), o.pc)
  {
    hide Pending, InvalidatedKeys, Append;
  }

  lemma InvolvedFlush(d: Data, g: Gate, pc: Pc, ok: bool)
    requires pc.Flushing? && Reached(d, pc, ok)
    ensures var o := ActFlush(d, g, pc.k, pc.v, pc.n, pc.flush, pc.ret, ok);
            Involved(View(d, pc.k), pc, ok, View(o.data, pc.k), o.pc)
  {
    hide Pending, InvalidatedKeys, Framable;
    if pc.flush == Claimed {
      ViewAppend(d, FlushIntent(pc.k, pc.n));
    } else if pc.flush == Stored {
      ViewAppend(d, FlushComplete(pc.k, pc.n));
    }
  }

  lemma InvolvedStep(c: Config, d: Data, g: Gate, pc: Pc, ch: Choice, k: Key)
    requires |d.fences| == c.shards && CanStep(c, d, g, pc, ch) && Concerns(pc, k) && Reached(d, pc, ch.ok)
    ensures var o := Act(c, d, g, pc, ch); Involved(View(d, k), pc, ch.ok, View(o.data, k), o.pc)
  {
    if pc.Putting? {
      InvolvedPut(c, d, g, pc, ch);
    } else if pc.Flushing? {
      InvolvedFlush(d, g, pc, ch.ok);
    } else if pc.Invalidating? {
      InvolvedInvalidate(c, d, g, pc, ch.ok);
    }
  }

  lemma InvolvedInvalidate(c: Config, d: Data, g: Gate, pc: Pc, ok: bool)
    requires |d.fences| == c.shards && pc.Invalidating? && Reached(d, pc, ok)
    ensures var o := ActInvalidate(c, d, g, pc.k, pc.n, pc.force, pc.inv, ok);
            Involved(View(d, pc.k), pc, ok, View(o.data, pc.k), o.pc)
  {
    hide Pending, InvalidatedKeys, Framable;
    if pc.inv == Peeked {
      ViewAppend(d, Invalidate(pc.k, pc.n));
    }
  }

  lemma UninvolvedInvalidate(c: Config, d: Data, g: Gate, pc: Pc, ok: bool, k: Key)
    requires |d.fences| == c.shards && pc.Invalidating? && pc.k != k && Reached(d, pc, ok)
    ensures var o := ActInvalidate(c, d, g, pc.k, pc.n, pc.force, pc.inv, ok);
            Uninvolved(View(d, k), View(o.data, k)) && (Concerning(o.pc) ==> o.pc.k != k)
  {
    hide Pending, InvalidatedKeys, Framable;
    if pc.inv == Peeked {
      ViewAppend(d, Invalidate(pc.k, pc.n));
    }
  }

  lemma UninvolvedPut(c: Config, d: Data, g: Gate, pc: Pc, ch: Choice, k: Key)
    requires |d.fences| == c.shards && pc.Putting? && pc.k != k && CanPut(c, d, g, pc.k, pc.v, pc.n, pc.put, ch) && Reached(d, pc, ch.ok)
    ensures var o := ActPut(c, d, g, pc.k, pc.v, pc.n, pc.put, ch);
            Uninvolved(View(d, k), View(o.data, k)) && (Concerning(o.pc) ==> o.pc.k != k)
  {
    hide Pending, InvalidatedKeys, Framable;
    if pc.put == PutAdmitted {
      ViewAppend(d, Upsert(pc.k, pc.v, d.counter + 1));
    } else {
      UninvolvedCommit(c, d, g, pc, ch, k);
    }
  }

  lemma UninvolvedCommit(c: Config, d: Data, g: Gate, pc: Pc, ch: Choice, k: Key)
    requires |d.fences| == c.shards && pc.Putting? && pc.k != k && CanPut(c, d, g, pc.k, pc.v, pc.n, pc.put, ch) && pc.put != PutAdmitted
    ensures var o := ActPut(c, d, g, pc.k, pc.v, pc.n, pc.put, ch);
            Uninvolved(View(d, k), View(o.data, k)) && (Concerning(o.pc) ==> o.pc.k != k)
  {
    hide Pending, InvalidatedKeys, Append;
  }

  lemma UninvolvedFlush(d: Data, g: Gate, pc: Pc, ok: bool, k: Key)
    requires pc.Flushing? && pc.k != k && Reached(d, pc, ok)
    ensures var o := ActFlush(d, g, pc.k, pc.v, pc.n, pc.flush, pc.ret, ok);
            Uninvolved(View(d, k), View(o.data, k)) && (Concerning(o.pc) ==> o.pc.k != k)
  {
    hide Pending, InvalidatedKeys, Framable;
    if pc.flush == Claimed {
      ViewAppend(d, FlushIntent(pc.k, pc.n));
    } else if pc.flush == Stored {
      ViewAppend(d, FlushComplete(pc.k, pc.n));
    }
  }

  lemma UninvolvedGet(c: Config, d: Data, g: Gate, pc: Pc, ch: Choice, k: Key)
    requires |d.fences| == c.shards && pc.Getting? && CanStep(c, d, g, pc, ch)
    ensures var o := ActGet(c, d, g, pc.k, pc.get, ch);
            Uninvolved(View(d, k), View(o.data, k)) && !Concerning(o.pc)
  {
  }

  lemma UninvolvedStep(c: Config, d: Data, g: Gate, pc: Pc, ch: Choice, k: Key)
    requires |d.fences| == c.shards && CanStep(c, d, g, pc, ch)
    requires !Concerns(pc, k) && !Truncating(pc) && Reached(d, pc, ch.ok)
    ensures var o := Act(c, d, g, pc, ch);
            Uninvolved(View(d, k), View(o.data, k)) && (Concerning(o.pc) ==> o.pc.k != k)
  {
    if pc.Putting? {
      UninvolvedPut(c, d, g, pc, ch, k);
    } else if pc.Flushing? {
      UninvolvedFlush(d, g, pc, ch.ok, k);
    } else if pc.Invalidating? {
      UninvolvedInvalidate(c, d, g, pc, ch.ok, k);
    } else if pc.Getting? {
      UninvolvedGet(c, d, g, pc, ch, k);
    }
  }
}
