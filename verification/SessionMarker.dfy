/** The session marker file and the recovery manager that decides, at startup, whether to replay. */
module SessionMarkers {
  import opened CacheTypes
  import opened Bytes
  import opened Crc32
  import opened ByteFileModel

  const MAGIC: nat := 0x51434D31
  const VERSION: nat := 1
  const RECORD_SIZE: nat := 29

  datatype Marker = Marker(generation: nat, timestamp: nat, closedCleanly: byte)

  predicate Fits(m: Marker) {
    m.generation < U64 && m.timestamp < U64
  }

  // ----- The record as bytes -----

  function Covered(m: Marker): (s: seq<byte>)
    ensures |s| == 25 && s[24] == m.closedCleanly
  {
    Le(MAGIC, 4) + Le(VERSION, 4) + Le(m.generation, 8) + Le(m.timestamp, 8) + [m.closedCleanly]
  }

  function MarkerBytes(m: Marker): (s: seq<byte>)
    ensures |s| == RECORD_SIZE && s[..25] == Covered(m)
  {
    Covered(m) + Le(Crc(Covered(m)), 4)
  }

  datatype LastState = LastState(generation: nat, timestamp: nat, closedCleanly: bool)

  /** The checksum in a full-size record matches. */
  predicate Trusted(data: seq<byte>)
    requires |data| >= RECORD_SIZE
  {
    Crc(data[..25]) == UnLe(data[25..29])
  }

  predicate Recognised(data: seq<byte>)
    requires |data| >= RECORD_SIZE
  {
    UnLe(data[..4]) == MAGIC && UnLe(data[4..8]) == VERSION
  }

  /** What startup learns from the file: no file is clean, a torn record is unclean, a foreign one is an error. */
  function ReadState(data: seq<byte>): Result<LastState> {
    if |data| == 0 then Ok(LastState(0, 0, true))
    else if |data| < RECORD_SIZE then Ok(LastState(0, 0, false))
    else if !Recognised(data) then Err(CorruptData)
    else if !Trusted(data) then Ok(LastState(0, 0, false))
    else Ok(LastState(UnLe(data[8..16]), UnLe(data[16..24]), data[24] != 0))
  }

  predicate ReadsClean(data: seq<byte>) {
    ReadState(data).Ok? && ReadState(data).value.closedCleanly
  }

  /** The generation a process knows after reading; an untrusted record does not change it. */
  function KnownGeneration(data: seq<byte>, known: nat): nat {
    if |data| >= RECORD_SIZE && Recognised(data) && Trusted(data) then UnLe(data[8..16]) else known
  }

  // ----- Round trip -----

  lemma Slices(m: Marker)
    ensures var s := MarkerBytes(m);
            && s[..4] == Le(MAGIC, 4) && s[4..8] == Le(VERSION, 4) && s[8..16] == Le(m.generation, 8)
            && s[16..24] == Le(m.timestamp, 8) && s[24] == m.closedCleanly && s[25..29] == Le(Crc(Covered(m)), 4)
  {
    hide Le, Crc;
    SliceParts(Le(MAGIC, 4), Le(VERSION, 4), Le(m.generation, 8), Le(m.timestamp, 8), [m.closedCleanly], Le(Crc(Covered(m)), 4));
  }

  lemma SliceParts(a: seq<byte>, b: seq<byte>, c: seq<byte>, d: seq<byte>, e: seq<byte>, f: seq<byte>)
    requires |a| == 4 && |b| == 4 && |c| == 8 && |d| == 8 && |e| == 1 && |f| == 4
    ensures var s := a + b + c + d + e + f;
            s[..4] == a && s[4..8] == b && s[8..16] == c && s[16..24] == d && s[24..25] == e && s[25..29] == f
  {
  }

  /** A whole record is read back exactly. */
  lemma MarkerRoundTrip(m: Marker)
    requires Fits(m)
    ensures ReadState(MarkerBytes(m)) == Ok(LastState(m.generation, m.timestamp, m.closedCleanly != 0))
    ensures Recognised(MarkerBytes(m)) && Trusted(MarkerBytes(m))
  {
    hide Crc, Le, UnLe;
    Slices(m);
    Widths();
    CrcBound(Covered(m));
    Fitting(MAGIC, 4);
    Fitting(VERSION, 4);
    Fitting(m.generation, 8);
    Fitting(m.timestamp, 8);
    Fitting(Crc(Covered(m)), 4);
  }

  lemma Fitting(n: nat, k: nat)
    requires n < Pow256(k)
    ensures UnLe(Le(n, k)) == n
  {
    UnLeOfLe(n, k);
    ModSmall(n, Pow256(k));
  }

  // ----- Torn rewrites -----

  /** The file after a rewrite of which only the first j bytes arrived. */
  function Rewritten(data: seq<byte>, m: Marker, j: nat): seq<byte>
    requires j <= RECORD_SIZE
  {
    Overwritten(data, 0, MarkerBytes(m)[..j])
  }

  lemma RewrittenParts(data: seq<byte>, m: Marker, j: nat)
    requires j <= RECORD_SIZE && |data| == RECORD_SIZE
    ensures Rewritten(data, m, j) == MarkerBytes(m)[..j] + data[j..]
  {
    hide MarkerBytes;
  }

  /** A record that reads clean was trusted: its flag is set and its last four bytes are its checksum. */
  lemma CleanIsSealed(data: seq<byte>)
    requires |data| == RECORD_SIZE && ReadsClean(data)
    ensures data[24] != 0 && data == data[..25] + Le(Crc(data[..25]), 4)
  {
    LeOfUnLe(data[25..29]);
    assert data == data[..25] + data[25..29];
  }

  /**
  Rewriting an open marker with a clean one, cut at any byte: the file reads clean exactly when it
  is the whole new record. No assumption about checksum collisions is made.
  */
  lemma NoFalseClean(before: Marker, after: Marker, j: nat)
    requires before.closedCleanly == 0 && after.closedCleanly != 0 && Fits(after) && j <= RECORD_SIZE
    ensures ReadsClean(Rewritten(MarkerBytes(before), after, j)) <==> Rewritten(MarkerBytes(before), after, j) == MarkerBytes(after)
  {
    hide Crc, Le, UnLe, ReadState, Recognised, Trusted;
    var data := Rewritten(MarkerBytes(before), after, j);
    RewrittenParts(MarkerBytes(before), after, j);
    MarkerRoundTrip(after);
    if ReadsClean(data) {
      CleanIsSealed(data);
      assert MarkerBytes(before)[24] == MarkerBytes(before)[..25][24] == 0;
      assert j >= 25;
      assert data[..25] == Covered(after);
    }
  }

  /** Rewriting an open marker with another open one never reads clean, wherever it is cut. */
  lemma OpenStaysOpen(before: Marker, after: Marker, j: nat)
    requires before.closedCleanly == 0 && after.closedCleanly == 0 && j <= RECORD_SIZE
    ensures !ReadsClean(Rewritten(MarkerBytes(before), after, j))
  {
    hide Crc, Le, UnLe, ReadState, Recognised, Trusted;
    var data := Rewritten(MarkerBytes(before), after, j);
    RewrittenParts(MarkerBytes(before), after, j);
    assert MarkerBytes(before)[24] == MarkerBytes(before)[..25][24] == 0;
    assert MarkerBytes(after)[24] == MarkerBytes(after)[..25][24] == 0;
    if ReadsClean(data) {
      CleanIsSealed(data);
    }
  }

  // ----- Every torn rewrite can be read -----

  function Header(): (s: seq<byte>)
    ensures |s| == 8
  {
    Le(MAGIC, 4) + Le(VERSION, 4)
  }

  /** At most one record long and, if that long, with the right magic and version. */
  predicate Headed(file: seq<byte>) {
    |file| <= RECORD_SIZE && (|file| == RECORD_SIZE ==> file[..8] == Header())
  }

  /** Such a file never reads as an error, whatever else it holds. */
  lemma HeadedReadable(file: seq<byte>)
    requires Headed(file)
    ensures ReadState(file).Ok?
  {
    hide Crc, Le, UnLe;
    if |file| == RECORD_SIZE {
      Widths();
      Fitting(MAGIC, 4);
      Fitting(VERSION, 4);
      assert file[..4] == file[..8][..4] == Le(MAGIC, 4) && file[4..8] == file[..8][4..] == Le(VERSION, 4);
    }
  }

  lemma MarkerHeaded(m: Marker)
    ensures Headed(MarkerBytes(m)) && MarkerBytes(m)[..8] == Header()
  {
    hide Crc, Le;
    Slices(m);
    assert MarkerBytes(m)[..8] == MarkerBytes(m)[..4] + MarkerBytes(m)[4..8];
  }

  /** A rewrite cut at any byte keeps it so, also over a file that was itself torn. */
  lemma RewrittenHeaded(file: seq<byte>, m: Marker, j: nat)
    requires Headed(file) && j <= RECORD_SIZE
    ensures Headed(Rewritten(file, m, j))
  {
    hide MarkerBytes, Header;
    MarkerHeaded(m);
    var data, bytes := Rewritten(file, m, j), MarkerBytes(m);
    if |file| < RECORD_SIZE {
      assert |data| == RECORD_SIZE ==> data == bytes[..j] && bytes[..j] == bytes;
    } else {
      RewrittenParts(file, m, j);
      forall i | 0 <= i < 8
        ensures data[i] == Header()[i]
      {
        assert data[i] == if i < j then bytes[i] else file[i];
        assert bytes[i] == bytes[..8][i] && file[i] == file[..8][i];
      }
      assert data[..8] == Header();
    }
  }

  /** A marker rewritten by another and cut at any byte is always readable: a torn start or stop never blocks the next startup. */
  lemma TornMarkerReadable(before: Marker, after: Marker, j: nat)
    requires j <= RECORD_SIZE
    ensures ReadState(Rewritten(MarkerBytes(before), after, j)).Ok?
  {
    hide MarkerBytes, Rewritten, ReadState;
    MarkerHeaded(before);
    RewrittenHeaded(MarkerBytes(before), after, j);
    HeadedReadable(Rewritten(MarkerBytes(before), after, j));
  }

  /** A startup on a whole record opens the generation after it; on a torn one, the generation after the one it knew. */
  lemma NextSession(m: Marker, file: seq<byte>, known: nat, now: nat)
    requires Fits(m) && m.generation + 1 < U64 && known + 1 < U64
    ensures Started(MarkerBytes(m), known, now) == Marker(m.generation + 1, now, 0)
    ensures |file| < RECORD_SIZE || Crc(file[..25]) != UnLe(file[25..29]) ==> Started(file, known, now) == Marker(known + 1, now, 0)
  {
    hide MarkerBytes, Crc;
    Slices(m);
    MarkerRoundTrip(m);
    Fitting(m.generation, 8) by { Widths(); }
    ModSmall(m.generation + 1, U64);
    ModSmall(known + 1, U64);
  }

  // ----- The marker object -----

  /** How a marker write ends: how many bytes reach the file, and whether making them durable succeeds. */
  datatype Writing = Writing(reached: nat, durable: bool)

  predicate Whole(io: Writing) {
    io.reached == RECORD_SIZE && io.durable
  }

  class SessionMarker {
    const file: ByteFile
    var lastKnownGeneration: nat

    constructor (file: ByteFile)
      ensures this.file == file && lastKnownGeneration == 0
    {
      this.file, lastKnownGeneration := file, 0;
    }

    method ReadLastState() returns (r: Result<LastState>)
      modifies this`lastKnownGeneration, file`pos
      ensures r == ReadState(file.data) && lastKnownGeneration == KnownGeneration(file.data, old(lastKnownGeneration))
      // A file never written is clean, a short one is a torn first write, a foreign one an error.
      ensures |file.data| == 0 ==> r.Ok? && r.value.closedCleanly
      ensures 0 < |file.data| < RECORD_SIZE ==> r.Ok? && !r.value.closedCleanly
      ensures |file.data| >= RECORD_SIZE ==> (r.Err? <==> UnLe(file.data[..4]) != 0x51434D31 || UnLe(file.data[4..8]) != 1)
      ensures r.Err? ==> r.error == CorruptData
      // Nothing is taken from a record whose checksum fails.
      ensures r.Ok? && |file.data| >= RECORD_SIZE && Crc(file.data[..25]) != UnLe(file.data[25..29]) ==> r.value == LastState(0, 0, false)
      ensures r.Ok? && |file.data| >= RECORD_SIZE && Crc(file.data[..25]) == UnLe(file.data[25..29]) ==>
                r.value == LastState(UnLe(file.data[8..16]), UnLe(file.data[16..24]), file.data[24] != 0)
    {
      if |file.data| == 0 {
        return Ok(LastState(0, 0, true));
      }
      if |file.data| < RECORD_SIZE {
        return Ok(LastState(0, 0, false));
      }
      file.SeekTo(0);
      var raw := file.ReadExact(RECORD_SIZE);
      var record := raw.value;
      RecordSlices(file.data);
      if UnLe(record[..4]) != MAGIC || UnLe(record[4..8]) != VERSION {
        return Err(CorruptData);
      }
      var crc := Compute(record[..25]);
      if crc != UnLe(record[25..29]) {
        return Ok(LastState(0, 0, false));
      }
      lastKnownGeneration := UnLe(record[8..16]);
      return Ok(LastState(UnLe(record[8..16]), UnLe(record[16..24]), record[24] != 0));
    }

    /** Rewrites the record in place. A write that fails may have reached any byte; it succeeds exactly if it is whole and durable. */
    method WriteRecord(m: Marker, io: Writing) returns (r: Result<()>)
      requires lastKnownGeneration == m.generation && io.reached <= RECORD_SIZE
      modifies file
      ensures file.data == Rewritten(old(file.data), m, io.reached)
      ensures r == if Whole(io) then Ok(()) else Err(IoError)
    {
      var covered := Le(MAGIC, 4) + Le(VERSION, 4) + Le(m.generation, 8) + Le(m.timestamp, 8) + [m.closedCleanly];
      var crc := Compute(covered);
      var record := covered + Le(crc, 4);
      file.SeekTo(0);
      file.Write(record[..io.reached]);
      if io.reached != |record| {
        return Err(IoError);
      }
      r := if io.durable then Ok(()) else Err(IoError);
    }

    /** Opens a session under the next generation. */
    method OnSessionStart(now: nat, io: Writing) returns (r: Result<()>)
      requires io.reached <= RECORD_SIZE
      modifies this`lastKnownGeneration, file
      ensures lastKnownGeneration == NextGeneration(old(lastKnownGeneration))
      ensures file.data == Rewritten(old(file.data), Marker(lastKnownGeneration, now, 0), io.reached)
      ensures r == if Whole(io) then Ok(()) else Err(IoError)
    {
      lastKnownGeneration := NextGeneration(lastKnownGeneration);
      r := WriteRecord(Marker(lastKnownGeneration, now, 0), io);
    }

    method OnCleanShutdown(now: nat, io: Writing) returns (r: Result<()>)
      requires io.reached <= RECORD_SIZE
      modifies file
      ensures file.data == Rewritten(old(file.data), Marker(lastKnownGeneration, now, 1), io.reached)
      ensures r == if Whole(io) then Ok(()) else Err(IoError)
    {
      r := WriteRecord(Marker(lastKnownGeneration, now, 1), io);
    }
  }

  function NextGeneration(g: nat): (r: nat)
    ensures r < U64 && (g < U64 ==> r == g + 1 || (g == U64 - 1 && r == 0))
  {
    (g + 1) % U64
  }

  lemma RecordSlices(data: seq<byte>)
    requires |data| >= RECORD_SIZE
    ensures var r := data[0..][..RECORD_SIZE];
            && r[..4] == data[..4] && r[4..8] == data[4..8] && r[8..16] == data[8..16] && r[16..24] == data[16..24]
            && r[..25] == data[..25] && r[25..29] == data[25..29]
  {
  }

  // ----- The recovery manager -----

  datatype RecoveryState =
    | Unknown | CleanShutdown | UncleanShutdownDetected | RecoveryInProgress | RecoveryComplete | RecoveryFailed

  class RecoveryManager {
    const marker: SessionMarker
    var state: RecoveryState

    constructor (marker: SessionMarker)
      ensures this.marker == marker && state == Unknown
    {
      this.marker, state := marker, Unknown;
    }

    /**
    Startup. The replay handler, whose outcome is given, runs exactly when the marker is readable and
    not clean. The session opens exactly if the marker was readable, the replay, if any, succeeded, and
    the write of the open marker, which only then is made, succeeds.
    */
    method InitializeAndRecover(handler: Option<Result<()>>, now: nat, io: Writing) returns (r: Result<()>, ran: bool)
      requires io.reached <= RECORD_SIZE
      modifies this`state, marker, marker.file
      ensures ran <==> ReadState(old(marker.file.data)).Ok? && !ReadsClean(old(marker.file.data)) && handler.Some?
      ensures var last, failed := ReadState(old(marker.file.data)), ran && handler.value.Err?;
              && (last.Err? ==> r == Err(last.error))
              && (last.Ok? && failed ==> r == handler.value)
              && (last.Ok? && !failed ==> r == if Whole(io) then Ok(()) else Err(IoError))
              && marker.file.data == if last.Err? || failed then old(marker.file.data)
                                     else Rewritten(old(marker.file.data), Started(old(marker.file.data), old(marker.lastKnownGeneration), now), io.reached)
      ensures state == if r.Ok? then RecoveryComplete else RecoveryState.RecoveryFailed
    {
      ran := false;
      var last := marker.ReadLastState();
      if last.Err? {
        state := RecoveryState.RecoveryFailed;
        return Err(last.error), false;
      }
      if last.value.closedCleanly {
        state := CleanShutdown;
      } else {
        state := UncleanShutdownDetected;
        state := RecoveryInProgress;
        if handler.Some? {
          ran := true;
          if handler.value.Err? {
            state := RecoveryState.RecoveryFailed;
            return handler.value, true;
          }
        }
        state := RecoveryComplete;
      }
      r := marker.OnSessionStart(now, io);
      if r.Err? {
        state := RecoveryState.RecoveryFailed;
        return;
      }
      if state == CleanShutdown {
        state := RecoveryComplete;
      }
    }

    method MarkCleanShutdown(now: nat, io: Writing) returns (r: Result<()>)
      requires io.reached <= RECORD_SIZE
      modifies marker.file
      ensures marker.file.data == Rewritten(old(marker.file.data), Marker(marker.lastKnownGeneration, now, 1), io.reached)
      ensures r == if Whole(io) then Ok(()) else Err(IoError)
    {
      r := marker.OnCleanShutdown(now, io);
    }
  }

  /** The marker a process that knows the given generation writes when it starts on the given file. */
  function Started(data: seq<byte>, known: nat, now: nat): Marker {
    Marker(NextGeneration(KnownGeneration(data, known)), now, 0)
  }
}
