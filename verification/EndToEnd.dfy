/** From the step machine down to bytes: what a restart reads back from the two files a crash leaves. */
module EndToEnd {
  import opened CacheTypes
  import opened Bytes
  import opened Replay
  import opened RecordCodec
  import opened Framing
  import Journal
  import BackingStore
  import Protocol
  import Durability
  import Limits

  /** Decodes the payload of every frame; one that does not decode fails the replay. */
  function DecodedAll(fs: seq<Journal.Frame>): Result<seq<Record>> {
    if fs == [] then Ok([])
    else
      var r := Decoded(fs[0].payload);
      if r.Err? then Err(r.error)
      else
        var rest := DecodedAll(fs[1..]);
        if rest.Err? then rest else Ok([r.value] + rest.value)
  }

  /** The map a restart serves from a journal file and a store file, through both scans and the codec. */
  function Restart(journal: seq<byte>, store: seq<byte>): Result<map<Key, Value>> {
    var records := DecodedAll(Journal.Frames(journal));
    if records.Err? then Err(records.error)
    else Ok(Recovered(records.value, BackingStore.MapOf(Scan(BackingStore.TakeEntry, store))))
  }

  /** The frames carry these records, of any length, whatever their sequence numbers. */
  predicate Carry(fs: seq<Journal.Frame>, rs: seq<Record>) {
    |fs| == |rs| && forall i | 0 <= i < |fs| :: fs[i].sequence < U64 && fs[i].payload == Encoded(rs[i]) && rs[i].version < U64
  }

  lemma EncodedLength(r: Record)
    ensures |Encoded(r)| == RECORD_OVERHEAD + |r.key| + |ValueOf(r)|
  {
  }

  lemma CarriedReadable(fs: seq<Journal.Frame>, rs: seq<Record>)
    requires Carry(fs, rs)
    ensures forall i | 0 <= i < |fs| :: Journal.Readable(fs[i]) <==> Framable(rs[i])
  {
    hide Encoded;
    forall i | 0 <= i < |fs|
      ensures Journal.Readable(fs[i]) <==> Framable(rs[i])
    {
      EncodedLength(rs[i]);
    }
  }

  /** Records that fit a frame are decoded, all of them, exactly if no key or value is over 64 MiB. */
  lemma {:induction false} CarriedDecode(fs: seq<Journal.Frame>, rs: seq<Record>)
    requires Carry(fs, rs) && AllFramable(rs)
    ensures DecodedAll(fs) == if AllSmall(rs) then Ok(rs) else Err(CorruptData)
  {
    hide Encoded, Decoded;
    if fs != [] {
      DecodedFirst(rs[0]);
      CarriedDecode(fs[1..], rs[1..]);
      SmallFirst(rs);
      assert [rs[0]] + rs[1..] == rs;
    }
  }

  lemma DecodedFirst(r: Record)
    requires Framable(r) && r.version < U64
    ensures Decoded(Encoded(r)) == if Small(r) then Ok(r) else Err(CorruptData)
  {
    hide Layout, Decoded;
    RoundTrip(r, []);
  }

  lemma SmallFirst(rs: seq<Record>)
    requires rs != []
    ensures AllSmall(rs) <==> Small(rs[0]) && AllSmall(rs[1..])
  {
    if Small(rs[0]) && AllSmall(rs[1..]) {
      forall i | 0 <= i < |rs|
        ensures Small(rs[i])
      {
        assert i > 0 ==> rs[i] == rs[1..][i - 1];
      }
    }
  }

  /** A journal of whole frames and a tail that is not accepted as a frame hands out exactly the frames. */
  lemma UnreadTail(fs: seq<Journal.Frame>, tail: seq<byte>)
    requires Journal.AllReadable(fs) && !Journal.Accepted(tail)
    ensures Journal.Frames(Journal.Written(fs) + tail) == fs
  {
    hide Journal.TakeFrame, Journal.FrameBytes, Journal.Accepted;
    Journal.AllAreFramed(fs);
    ScanPrinted(Journal.TakeFrame, Journal.FrameBytes, fs, tail);
    Journal.Shrinks(tail);
    ScanStep(Journal.TakeFrame, tail);
    Journal.TakeFrameExact(tail);
  }

  /**
  What follows the records that replay reaches: bytes that are not accepted as a frame, or the frame
  that is too long, of less than 4 GiB so that its length field is right.
  */
  predicate Ends(fs: seq<Journal.Frame>, rs: seq<Record>, tail: seq<byte>)
    requires |fs| == |rs|
  {
    var n := |Legible(rs)|;
    if n == |rs| then !Journal.Accepted(tail) else |fs[n].payload| < U32
  }

  /** Replay hands out exactly the frames of the records it reaches. */
  lemma FramesReached(fs: seq<Journal.Frame>, rs: seq<Record>, tail: seq<byte>)
    requires Carry(fs, rs) && Ends(fs, rs, tail)
    ensures Journal.Frames(Journal.Written(fs) + tail) == fs[..|Legible(rs)|]
  {
    hide Journal.Accepted, Journal.Frames, Framable;
    CarriedReadable(fs, rs);
    var n := LegibleSplit(rs);
    assert forall i | 0 <= i < n :: rs[..n][i] == rs[i];
    if n < |rs| {
      Journal.FramesExact(fs, n, tail);
    } else {
      assert fs[..n] == fs && rs[..n] == rs;
      UnreadTail(fs, tail);
    }
  }

  /** A store file whose last append was cut opens to the log before it. */
  lemma CutStore(log: seq<BackingStore.LogEntry>, e: BackingStore.LogEntry, j: nat)
    requires (forall i | 0 <= i < |log| :: BackingStore.Readable(log[i])) && BackingStore.Readable(e) && j < |BackingStore.LogBytes(e)|
    ensures Scan(BackingStore.TakeEntry, Printed(BackingStore.LogBytes, log) + BackingStore.LogBytes(e)[..j]) == log
  {
    BackingStore.ReopenAfterCrash(log, e, j);
  }

  /**
  What the two files read back to, whatever was written. If a record is too long for a frame, nothing
  from there on is read; and if a record before that has a key or value over 64 MiB, the restart fails.
  */
  lemma RestartExact(fs: seq<Journal.Frame>, rs: seq<Record>, tail: seq<byte>,
                     log: seq<BackingStore.LogEntry>, e: BackingStore.LogEntry, j: nat)
    requires Carry(fs, rs) && Ends(fs, rs, tail)
    requires (forall n | 0 <= n < |log| :: BackingStore.Readable(log[n])) && BackingStore.Readable(e) && j < |BackingStore.LogBytes(e)|
    ensures var served := Restarted(rs, BackingStore.MapOf(log));
            Restart(Journal.Written(fs) + tail, Printed(BackingStore.LogBytes, log) + BackingStore.LogBytes(e)[..j])
            == if served.Some? then Ok(served.value) else Err(CorruptData)
  {
    hide Journal.Accepted, Journal.Frames, Journal.Written, BackingStore.LogBytes, BackingStore.TakeEntry, BackingStore.MapOf;
    hide Recovered, Legible, AllSmall, DecodedAll, Carry, Ends, Scan;
    RecordsRead(fs, rs, tail);
    CutStore(log, e, j);
  }

  lemma RecordsRead(fs: seq<Journal.Frame>, rs: seq<Record>, tail: seq<byte>)
    requires Carry(fs, rs) && Ends(fs, rs, tail)
    ensures DecodedAll(Journal.Frames(Journal.Written(fs) + tail)) == if AllSmall(Legible(rs)) then Ok(Legible(rs)) else Err(CorruptData)
  {
    hide Journal.Frames, Journal.Written, Ends, Legible, AllSmall, DecodedAll, Encoded;
    FramesReached(fs, rs, tail);
    var n := LegibleSplit(rs);
    assert Carry(fs[..n], rs[..n]);
    CarriedDecode(fs[..n], rs[..n]);
  }

  // ----- The machine's journal is what is read from the file -----

  function Appended(d: Protocol.Data, rs: seq<Record>): Protocol.Data {
    if rs == [] then d else Protocol.Append(Appended(d, rs[..|rs| - 1]), rs[|rs| - 1])
  }

  lemma {:induction false} AppendedLegible(d: Protocol.Data, rs: seq<Record>)
    requires d.journal == [] && !d.torn
    ensures Appended(d, rs).journal == Legible(rs) && (Appended(d, rs).torn <==> |Legible(rs)| < |rs|)
  {
    hide Legible, Framable;
    if rs != [] {
      var n := |rs| - 1;
      AppendedLegible(d, rs[..n]);
      LegibleAppend(rs[..n], rs[n]);
      assert rs[..n] + [rs[n]] == rs;
    }
  }

  /**
  The machine keeps as its journal the records replay can reach. From a truncation on, that is exactly
  what the file of all appended frames reads back to.
  */
  lemma MachineReadsFile(d: Protocol.Data, fs: seq<Journal.Frame>, rs: seq<Record>)
    requires d.journal == [] && !d.torn && Carry(fs, rs) && Ends(fs, rs, [])
    ensures Carry(Journal.Frames(Journal.Written(fs)), Appended(d, rs).journal)
  {
    hide Journal.Frames, Framable;
    AppendedLegible(d, rs);
    FramesReached(fs, rs, []);
    assert Journal.Written(fs) + [] == Journal.Written(fs);
    var n := LegibleSplit(rs);
  }

  /** In every run the readable journal holds only records that fit a frame. */
  lemma {:induction false} JournalFramable(c: Protocol.Config, states: seq<Protocol.State>, actions: seq<Protocol.Action>, i: nat)
    requires Protocol.IsRun(c, states, actions) && i < |states|
    ensures AllFramable(states[i].data.journal)
  {
    hide Framable, Protocol.Act, Protocol.CanStep;
    if i > 0 {
      JournalFramable(c, states, actions, i - 1);
      assert Protocol.Moves(c, states, actions, i - 1);
      var s, a := states[i - 1], actions[i - 1];
      if a.Step? {
        Protocol.StepJournal(c, s.data, s.gate, Protocol.PcOf(s, a.t), a.ch);
      }
    }
  }

  /** Everything a benign run writes to the store is short enough to be read back when the store is reopened. */
  lemma StoredReadable(c: Protocol.Config, states: seq<Protocol.State>, actions: seq<Protocol.Action>, i: nat, t: Protocol.Tid, sequence: nat)
    requires Durability.BenignRun(c, states, actions) && i < |states| && sequence < U64
    requires t in states[i].threads && states[i].threads[t].Flushing?
    ensures var pc := states[i].threads[t]; BackingStore.Readable(BackingStore.LogEntry(sequence, 0, pc.k, pc.v))
  {
    forall j | 0 <= j < i
      ensures Limits.StepSized(Limits.ToFrame, states[j], actions[j])
    {
      assert Durability.Fair(states[j], actions[j]);
    }
    Limits.RunSized(Limits.ToFrame, c, states, actions, i);
    assert Limits.PcSized(Limits.ToFrame, states[i].threads[t]);
  }

  lemma AllTruth(c: Protocol.Config, states: seq<Protocol.State>, actions: seq<Protocol.Action>, i: nat)
    requires Durability.BenignRun(c, states, actions) && i < |states|
    ensures forall k :: At(Recovered(states[i].data.journal, states[i].data.store), k) == Durability.Truth(states, actions, i, k)
  {
    forall k
      ensures At(Recovered(states[i].data.journal, states[i].data.store), k) == Durability.Truth(states, actions, i, k)
    {
      Durability.RecoversTruth(c, states, actions, i, k);
    }
  }

  /**
  End to end. Take any state of a benign run. Let the journal file hold the frames of its readable
  records, followed by bytes that do not form a frame there, such as a torn append and whatever lies
  behind it; let the store file hold a log of the store's contents, followed by part of one more
  entry. Then a restart succeeds exactly if every readable record has a key and a value of at most
  64 MiB, as it does if no caller passed a longer one; and it serves every key with what its last
  journaled Upsert or Invalidate made of it, or its original store value.
  */
  lemma CrashServesTruth(c: Protocol.Config, states: seq<Protocol.State>, actions: seq<Protocol.Action>, i: nat,
                         fs: seq<Journal.Frame>, tail: seq<byte>,
                         log: seq<BackingStore.LogEntry>, e: BackingStore.LogEntry, j: nat)
    requires Durability.BenignRun(c, states, actions) && i < |states|
    requires Carry(fs, states[i].data.journal) && !Journal.Accepted(tail)
    requires BackingStore.MapOf(log) == states[i].data.store && (forall n | 0 <= n < |log| :: BackingStore.Readable(log[n]))
    requires BackingStore.Readable(e) && j < |BackingStore.LogBytes(e)|
    ensures var r := Restart(Journal.Written(fs) + tail, Printed(BackingStore.LogBytes, log) + BackingStore.LogBytes(e)[..j]);
            && (r.Ok? <==> AllSmall(states[i].data.journal))
            && (Limits.Called(Limits.ToDecode, actions) ==> r.Ok?)
            && (r.Ok? ==> forall k :: At(r.value, k) == Durability.Truth(states, actions, i, k))
  {
    hide Durability.Benign, Durability.Fair, Protocol.Moves, Journal.Accepted, Restart, Recovered;
    var journal := states[i].data.journal;
    JournalFramable(c, states, actions, i);
    LegibleAll(journal);
    RestartExact(fs, journal, tail, log, e, j);
    AllTruth(c, states, actions, i);
    if Limits.Called(Limits.ToDecode, actions) {
      Durability.SmallCallsStart(c, states, actions, i);
    }
  }

  /** A torn append with nothing behind it is such a tail. */
  lemma TornAppendUnread(f: Journal.Frame, j: nat)
    requires Journal.Writable(f) && j < |Journal.FrameBytes(f)|
    ensures !Journal.Accepted(Journal.FrameBytes(f)[..j])
  {
    Journal.FrameCut(f, j);
    Journal.TakeFrameExact(Journal.FrameBytes(f)[..j]);
  }

  /**
  The everyday crash, with no hypothesis on the tail: the journal file ends in one append torn at any
  byte, the store file in one write torn at any byte, and no caller passed more than 64 MiB.
  */
  lemma TornWritesServeTruth(c: Protocol.Config, states: seq<Protocol.State>, actions: seq<Protocol.Action>, i: nat,
                             fs: seq<Journal.Frame>, f: Journal.Frame, torn: nat,
                             log: seq<BackingStore.LogEntry>, e: BackingStore.LogEntry, j: nat)
    requires Durability.BenignRun(c, states, actions) && i < |states| && Limits.Called(Limits.ToDecode, actions)
    requires Carry(fs, states[i].data.journal) && Journal.Writable(f) && torn < |Journal.FrameBytes(f)|
    requires BackingStore.MapOf(log) == states[i].data.store && (forall n | 0 <= n < |log| :: BackingStore.Readable(log[n]))
    requires BackingStore.Readable(e) && j < |BackingStore.LogBytes(e)|
    ensures var r := Restart(Journal.Written(fs) + Journal.FrameBytes(f)[..torn],
                             Printed(BackingStore.LogBytes, log) + BackingStore.LogBytes(e)[..j]);
            r.Ok? && forall k :: At(r.value, k) == Durability.Truth(states, actions, i, k)
  {
    hide *;
    TornAppendUnread(f, torn);
    CrashServesTruth(c, states, actions, i, fs, Journal.FrameBytes(f)[..torn], log, e, j);
  }
}
