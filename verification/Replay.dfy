/** What journal replay reconstructs: the pending (journaled, not known flushed) writes. */
module Replay {
  import opened CacheTypes

  datatype Stamped = Stamped(value: Value, version: nat)

  type PendingMap = map<Key, Stamped>

  /** One turn of the replay callback on the table of pending writes. */
  function ApplyRecord(pending: PendingMap, record: Record): PendingMap {
    match record
    case Upsert(k, v, n) => pending[k := Stamped(v, n)]
    case FlushIntent(_, _) => pending
    case FlushComplete(k, n) => if k in pending && pending[k].version == n then pending - {k} else pending
    case Invalidate(k, _) => pending - {k}
  }

  function Pending(records: seq<Record>): PendingMap {
    if records == [] then map[]
    else ApplyRecord(Pending(records[..|records| - 1]), records[|records| - 1])
  }

  lemma PendingAppend(records: seq<Record>, record: Record)
    ensures Pending(records + [record]) == ApplyRecord(Pending(records), record)
  {
    assert (records + [record])[..|records|] == records;
  }

  /** Keys that some record invalidates; replay removes exactly these from the store. */
  function InvalidatedKeys(records: seq<Record>): set<Key> {
    set i | 0 <= i < |records| && records[i].Invalidate? :: records[i].key
  }

  /** The last Invalidate of k, if there is one, is followed by no FlushComplete of k. */
  function Vanished(records: seq<Record>, k: Key): bool {
    if records == [] then false
    else
      var r := records[|records| - 1];
      if r.Invalidate? && r.key == k then true
      else if r.FlushComplete? && r.key == k then false
      else Vanished(records[..|records| - 1], k)
  }

  lemma VanishedAppend(records: seq<Record>, r: Record, k: Key)
    ensures Vanished(records + [r], k)
            == if r.Invalidate? && r.key == k then true else if r.FlushComplete? && r.key == k then false else Vanished(records, k)
  {
    assert (records + [r])[..|records|] == records;
  }

  /** No FlushComplete of a key follows an Invalidate of it. */
  ghost predicate NoReflush(records: seq<Record>) {
    forall i, j | 0 <= i < j < |records| && records[i].Invalidate? && records[j].FlushComplete? :: records[i].key != records[j].key
  }

  /** A key that has vanished was invalidated; without a later flush every invalidated key has vanished. */
  lemma {:induction false} VanishedMeaning(records: seq<Record>, k: Key)
    ensures Vanished(records, k) ==> k in InvalidatedKeys(records)
    ensures NoReflush(records) && k in InvalidatedKeys(records) ==> Vanished(records, k)
  {
    if records != [] {
      var n := |records| - 1;
      var rest := records[..n];
      VanishedMeaning(rest, k);
      InvalidatedAppend(records, n);
      assert records[..n + 1] == records;
      assert NoReflush(records) ==> NoReflush(rest);
    }
  }

  // ----- What replay reaches -----

  predicate AllFramable(records: seq<Record>) {
    forall i | 0 <= i < |records| :: Framable(records[i])
  }

  /** The records that replay reaches in a journal: those before the first that is too long for a frame. */
  function Legible(records: seq<Record>): (r: seq<Record>)
    ensures r <= records
  {
    if records == [] || !Framable(records[0]) then [] else [records[0]] + Legible(records[1..])
  }

  lemma {:induction false} LegibleIs(records: seq<Record>, n: nat)
    requires n <= |records| && (forall i | 0 <= i < n :: Framable(records[i])) && (n < |records| ==> !Framable(records[n]))
    ensures Legible(records) == records[..n]
  {
    if n > 0 {
      LegibleIs(records[1..], n - 1);
    }
  }

  lemma {:induction false} LegibleUpTo(records: seq<Record>, n: nat)
    requires n <= |records| && AllFramable(records[..n])
    ensures records[..n] <= Legible(records)
  {
    if n > 0 {
      assert records[..n][0] == records[0];
      assert records[1..][..n - 1] == records[..n][1..];
      LegibleUpTo(records[1..], n - 1);
    }
  }

  lemma ScanFirst()
    ensures AllSmall([]) && AllFramable([]) && Pending([]) == map[] && InvalidatedKeys([]) == {}
  {
  }

  /** One turn of the scan: a prefix of legible, decoded records grows by one. */
  lemma ScanTurn(records: seq<Record>, n: nat)
    requires n < |records| && AllFramable(records[..n]) && AllSmall(records[..n]) && Framable(records[n])
    ensures AllFramable(records[..n + 1])
    ensures Small(records[n]) ==> AllSmall(records[..n + 1])
    ensures Pending(records[..n + 1]) == ApplyRecord(Pending(records[..n]), records[n])
    ensures InvalidatedKeys(records[..n + 1]) == InvalidatedKeys(records[..n]) + if records[n].Invalidate? then {records[n].key} else {}
  {
    hide Pending, InvalidatedKeys;
    FramableAppend(records[..n], records[n]);
    PendingAppend(records[..n], records[n]);
    InvalidatedAppend(records, n);
    assert records[..n] + [records[n]] == records[..n + 1];
  }

  /** Replay fails at a record that it reaches and cannot decode. */
  lemma LegibleFails(records: seq<Record>, n: nat)
    requires n < |records| && AllFramable(records[..n + 1]) && !Small(records[n])
    ensures !AllSmall(Legible(records))
  {
    LegibleUpTo(records, n + 1);
    assert Legible(records)[n] == records[n];
  }

  /** Replay ends without error at the end, or at a frame that is too long. */
  lemma LegibleEnds(records: seq<Record>, n: nat)
    requires n <= |records| && AllFramable(records[..n]) && (n < |records| ==> !Framable(records[n]))
    ensures Legible(records) == records[..n]
  {
    assert forall i | 0 <= i < n :: records[i] == records[..n][i];
    LegibleIs(records, n);
  }

  lemma LegibleAll(records: seq<Record>)
    requires AllFramable(records)
    ensures Legible(records) == records
  {
    LegibleIs(records, |records|);
  }

  lemma FramableAppend(records: seq<Record>, r: Record)
    ensures AllFramable(records + [r]) <==> AllFramable(records) && Framable(r)
  {
    assert (records + [r])[|records|] == r;
    assert forall i | 0 <= i < |records| :: (records + [r])[i] == records[i];
  }

  /** How many records replay reaches. */
  lemma LegibleSplit(rs: seq<Record>) returns (n: nat)
    ensures n <= |rs| && AllFramable(rs[..n]) && (n < |rs| ==> !Framable(rs[n])) && Legible(rs) == rs[..n]
  {
    n := 0;
    while n < |rs| && Framable(rs[n])
      invariant n <= |rs| && AllFramable(rs[..n])
    {
      FramableAppend(rs[..n], rs[n]);
      assert rs[..n] + [rs[n]] == rs[..n + 1];
      n := n + 1;
    }
    LegibleEnds(rs, n);
  }

  lemma LegibleAppend(rs: seq<Record>, r: Record)
    ensures Legible(rs + [r]) == if |Legible(rs)| == |rs| && Framable(r) then rs + [r] else Legible(rs)
  {
    hide Legible;
    var n := LegibleSplit(rs);
    var all := rs + [r];
    assert all[..n] == rs[..n];
    if n < |rs| {
      assert all[n] == rs[n];
      LegibleEnds(all, n);
    } else if Framable(r) {
      FramableAppend(rs, r);
      assert rs[..n] == rs && all[..n + 1] == all;
      LegibleEnds(all, n + 1);
    } else {
      assert all[n] == r;
      LegibleEnds(all, n);
    }
  }

  /** What a restart makes of a journal and a store: it fails on a record that is reached and not decoded. */
  function Restarted(records: seq<Record>, store: map<Key, Value>): Option<map<Key, Value>> {
    if AllSmall(Legible(records)) then Some(Recovered(Legible(records), store)) else None
  }

  /** The key/value map a restart serves: the pending write if there is one, else the store. */
  function Recovered(records: seq<Record>, store: map<Key, Value>): map<Key, Value> {
    var p := Pending(records);
    (store - InvalidatedKeys(records)) + map k | k in p :: p[k].value
  }

  /** The version counter after replay: the highest pending version, or 0. */
  ghost function MaxVersion(p: PendingMap): (m: nat)
    ensures forall k | k in p :: p[k].version <= m
    ensures m == 0 || exists k :: k in p && p[k].version == m
  {
    var versions := set k | k in p :: p[k].version;
    assert forall k | k in p :: p[k].version in versions;
    MaxOf(versions)
  }

  ghost function MaxOf(s: set<nat>): (m: nat)
    ensures forall x | x in s :: x <= m
    ensures m == 0 || m in s
  {
    if s == {} then 0
    else
      var x :| x in s;
      assert forall y | y in s :: y == x || y in s - {x};
      var rest := MaxOf(s - {x});
      if x < rest then rest else x
  }

  // ----- Exact meaning -----

  /** Record i is the last Upsert of k, and no later record invalidates k or completes its flush. */
  ghost predicate Standing(records: seq<Record>, k: Key, i: nat) {
    && i < |records| && records[i].Upsert? && records[i].key == k
    && forall j | i < j < |records| :: !Settles(records[j], k, records[i].version)
  }

  /** The record supersedes, flushes or removes the Upsert of k with version n. */
  predicate Settles(r: Record, k: Key, n: nat) {
    r.key == k && (r.Upsert? || r.Invalidate? || (r.FlushComplete? && r.version == n))
  }

  /**
  A key is recovered exactly when its last Upsert is followed by no Invalidate of the key and no
  FlushComplete of that version, and it is recovered with that Upsert's value and version.
  */
  lemma {:induction false} PendingExact(records: seq<Record>, k: Key)
    ensures k in Pending(records) <==> exists i: nat :: Standing(records, k, i)
    ensures forall i: nat | Standing(records, k, i) ::
              k in Pending(records) && Pending(records)[k] == Stamped(records[i].value, records[i].version)
  {
    if records != [] {
      var n := |records| - 1;
      var rest := records[..n];
      PendingExact(rest, k);
      forall i: nat
        ensures i < n ==> (Standing(records, k, i) <==> Standing(rest, k, i) && !Settles(records[n], k, rest[i].version))
      {
        if i < n && Standing(rest, k, i) && !Settles(records[n], k, rest[i].version) {
          forall j | i < j < |records|
            ensures !Settles(records[j], k, records[i].version)
          {
            assert j < n ==> records[j] == rest[j];
          }
        }
        if i < n && Standing(records, k, i) {
          assert forall j | i < j < n :: rest[j] == records[j];
        }
      }
      StandingStep(records, k);
    }
  }

  lemma StandingStep(records: seq<Record>, k: Key)
    requires records != []
    requires var n, rest := |records| - 1, records[..|records| - 1];
             && (k in Pending(rest) <==> exists i: nat :: Standing(rest, k, i))
             && (forall i: nat | Standing(rest, k, i) :: k in Pending(rest) && Pending(rest)[k] == Stamped(rest[i].value, rest[i].version))
             && (forall i: nat :: i < n ==> (Standing(records, k, i) <==> Standing(rest, k, i) && !Settles(records[n], k, rest[i].version)))
    ensures k in Pending(records) <==> exists i: nat :: Standing(records, k, i)
    ensures forall i: nat | Standing(records, k, i) ::
              k in Pending(records) && Pending(records)[k] == Stamped(records[i].value, records[i].version)
  {
    var n, rest := |records| - 1, records[..|records| - 1];
    var r := records[n];
    if r.Upsert? && r.key == k {
      assert Standing(records, k, n);
    } else if k in Pending(rest) {
      var i: nat :| Standing(rest, k, i);
      assert k in Pending(records) <==> !Settles(r, k, rest[i].version);
    }
  }

  // ----- Restarting -----

  lemma InvalidatedPrefix(records: seq<Record>, n: nat)
    requires n <= |records|
    ensures InvalidatedKeys(records[..n]) <= InvalidatedKeys(records)
  {
    forall k | k in InvalidatedKeys(records[..n])
      ensures k in InvalidatedKeys(records)
    {
      var i :| 0 <= i < n && records[..n][i].Invalidate? && records[..n][i].key == k;
      assert records[i].Invalidate? && records[i].key == k;
    }
  }

  /** Replay may be cut short after any number of records and started again, any number of times. */
  lemma ReplayRestartable(records: seq<Record>, store: map<Key, Value>, n: nat)
    requires n <= |records|
    ensures Recovered(records, store - InvalidatedKeys(records[..n])) == Recovered(records, store)
    ensures store - InvalidatedKeys(records[..n]) - InvalidatedKeys(records) == store - InvalidatedKeys(records)
  {
    InvalidatedPrefix(records, n);
  }

  /** An engine entered with pending writes p: what one pass of replay's second loop leaves. */
  function RestoredInto(index: Cache, p: PendingMap): Cache {
    map k | k in index.Keys + p.Keys ::
      if k in p && !(k in index && Stale(p[k].version, index[k].version))
      then Entry(p[k].value, p[k].version, Dirty)
      else index[k]
  }

  /** Replaying twice leaves the same entries as replaying once. */
  lemma ReplayIdempotent(p: PendingMap)
    ensures RestoredInto(RestoredInto(map[], p), p) == RestoredInto(map[], p)
  {
  }

  /** Restoring one more pending write is one insert under the version guard. */
  lemma RestoreStep(index: Cache, p: PendingMap, k: Key, w: Stamped)
    requires k !in p
    ensures At(RestoredInto(index, p), k) == At(index, k)
    ensures RestoredInto(index, p[k := w]) == Commit(RestoredInto(index, p), k, Entry(w.value, w.version, Dirty))
  {
  }

  lemma InvalidatedAppend(records: seq<Record>, n: nat)
    requires n < |records|
    ensures InvalidatedKeys(records[..n + 1]) == InvalidatedKeys(records[..n]) + if records[n].Invalidate? then {records[n].key} else {}
  {
    var a, b := records[..n], records[..n + 1];
    forall k | k in InvalidatedKeys(b)
      ensures k in InvalidatedKeys(a) || (records[n].Invalidate? && records[n].key == k)
    {
      var i :| 0 <= i < |b| && b[i].Invalidate? && b[i].key == k;
      if i < n { assert a[i].Invalidate? && a[i].key == k; }
    }
    InvalidatedPrefix(b, n);
    assert b[..n] == a;
    if records[n].Invalidate? { assert b[n].Invalidate? && b[n].key == records[n].key; }
  }
}
