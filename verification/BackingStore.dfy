/** The backing store: an indexed append-only log that refines a map and cuts its own torn tail. */
module BackingStore {
  import opened CacheTypes
  import opened Bytes
  import opened Crc32
  import opened ByteFileModel
  import opened Framing

  const MAGIC: nat := 0x51434253
  const MAX_LOG_FIELD: nat := 256 * 1024 * 1024

  datatype LogEntry = LogEntry(sequence: nat, tombstone: byte, key: Key, value: Value)

  // ----- Log entries as bytes -----

  function Covered(e: LogEntry): seq<byte> {
    Le(MAGIC, 4) + (Le(e.sequence, 8) + ([e.tombstone] + (Le(|e.key|, 4) + (e.key + (Le(|e.value|, 4) + e.value)))))
  }

  function LogBytes(e: LogEntry): seq<byte> {
    Covered(e) + Le(Crc(Covered(e)), 4)
  }

  predicate Writable(e: LogEntry) {
    e.sequence < U64 && |e.key| < U32 && |e.value| < U32
  }

  predicate Readable(e: LogEntry) {
    e.sequence < U64 && |e.key| <= MAX_LOG_FIELD && |e.value| <= MAX_LOG_FIELD
  }

  datatype Head = Head(sequence: nat, tombstone: byte, keyLength: nat)

  function TakeHead(data: seq<byte>): (f: Field<Head>)
    ensures f.Got? ==> |data| == 17 + |f.rest|
  {
    var magic := TakeInt(data, 4);
    if magic.Short? || magic.value != MAGIC then Short else
    var sequence := TakeInt(magic.rest, 8);
    if sequence.Short? then Short else
    var tombstone := Take(sequence.rest, 1);
    if tombstone.Short? then Short else
    var length := TakeInt(tombstone.rest, 4);
    if length.Short? then Short else
    Got(Head(sequence.value, tombstone.value[0], length.value), length.rest)
  }

  /** Key and value, with the given limit on their lengths. */
  function TakeBody(h: Head, data: seq<byte>, limit: nat): (f: Field<LogEntry>)
    ensures f.Got? ==> |f.rest| <= |data|
  {
    if h.keyLength > limit then Short else
    var key := Take(data, h.keyLength);
    if key.Short? then Short else
    var length := TakeInt(key.rest, 4);
    if length.Short? || length.value > limit then Short else
    var value := Take(length.rest, length.value);
    if value.Short? then Short else
    Got(LogEntry(h.sequence, h.tombstone, key.value, value.value), value.rest)
  }

  function TakeSeal(e: LogEntry, data: seq<byte>): (f: Field<LogEntry>)
    ensures f.Got? ==> |f.rest| <= |data|
  {
    var stored := TakeInt(data, 4);
    if stored.Short? || stored.value != Crc(Covered(e)) then Short else Got(e, stored.rest)
  }

  /** One whole, intact entry off the front. */
  function TakeEntry(data: seq<byte>): (f: Field<LogEntry>)
    ensures f.Got? ==> |f.rest| < |data|
  {
    var h := TakeHead(data);
    if h.Short? then Short else
    var e := TakeBody(h.value, h.rest, MAX_LOG_FIELD);
    if e.Short? then Short else TakeSeal(e.value, e.rest)
  }

  lemma HeadFront(e: LogEntry, rest: seq<byte>)
    requires Writable(e)
    ensures TakeHead(Le(MAGIC, 4) + (Le(e.sequence, 8) + ([e.tombstone] + (Le(|e.key|, 4) + rest))))
            == Got(Head(e.sequence, e.tombstone, |e.key|), rest)
  {
    Widths();
    TakeIntFront(MAGIC, 4, Le(e.sequence, 8) + ([e.tombstone] + (Le(|e.key|, 4) + rest)));
    TakeIntFront(e.sequence, 8, [e.tombstone] + (Le(|e.key|, 4) + rest));
    TakeFront([e.tombstone], Le(|e.key|, 4) + rest);
    TakeIntFront(|e.key|, 4, rest);
  }

  lemma BodyFront(e: LogEntry, rest: seq<byte>, limit: nat)
    requires Writable(e)
    ensures TakeBody(Head(e.sequence, e.tombstone, |e.key|), e.key + (Le(|e.value|, 4) + (e.value + rest)), limit)
            == if |e.key| <= limit && |e.value| <= limit then Got(e, rest) else Short
  {
    Widths();
    TakeFront(e.key, Le(|e.value|, 4) + (e.value + rest));
    TakeIntFront(|e.value|, 4, e.value + rest);
    TakeFront(e.value, rest);
  }

  lemma SealFront(e: LogEntry, rest: seq<byte>)
    ensures TakeSeal(e, Le(Crc(Covered(e)), 4) + rest) == Got(e, rest)
  {
    Widths();
    CrcBound(Covered(e));
    TakeIntFront(Crc(Covered(e)), 4, rest);
  }

  lemma EntryRegrouped(a: seq<byte>, b: seq<byte>, c: seq<byte>, d: seq<byte>, e: seq<byte>, f: seq<byte>, g: seq<byte>, h: seq<byte>, rest: seq<byte>)
    ensures a + (b + (c + (d + (e + (f + g))))) + h + rest == a + (b + (c + (d + (e + (f + (g + (h + rest)))))))
  {
    var t := h + rest;
    Regroup(a + (b + (c + (d + (e + (f + g))))), h, rest);
    Regroup(a, b + (c + (d + (e + (f + g)))), t);
    Regroup(b, c + (d + (e + (f + g))), t);
    Regroup(c, d + (e + (f + g)), t);
    Regroup(d, e + (f + g), t);
    Regroup(e, f + g, t);
    Regroup(f, g, t);
  }

  lemma EntryNested(e: LogEntry, rest: seq<byte>)
    ensures LogBytes(e) + rest
            == Le(MAGIC, 4) + (Le(e.sequence, 8) + ([e.tombstone] + (Le(|e.key|, 4)
               + (e.key + (Le(|e.value|, 4) + (e.value + (Le(Crc(Covered(e)), 4) + rest)))))))
  {
    EntryRegrouped(Le(MAGIC, 4), Le(e.sequence, 8), [e.tombstone], Le(|e.key|, 4), e.key, Le(|e.value|, 4), e.value, Le(Crc(Covered(e)), 4), rest);
  }

  /** An entry is read back, whatever follows it, exactly when key and value are at most 256 MiB each. */
  lemma EntryFront(e: LogEntry, rest: seq<byte>)
    requires Writable(e)
    ensures TakeEntry(LogBytes(e) + rest) == if Readable(e) then Got(e, rest) else Short
  {
    var seal := Le(Crc(Covered(e)), 4) + rest;
    EntryNested(e, rest);
    HeadFront(e, e.key + (Le(|e.value|, 4) + (e.value + seal)));
    BodyFront(e, seal, MAX_LOG_FIELD);
    SealFront(e, rest);
  }

  // ----- What is read is exactly what was written -----

  lemma HeadExact(data: seq<byte>)
    requires TakeHead(data).Got?
    ensures var f := TakeHead(data); var h := f.value;
            && data == Le(MAGIC, 4) + (Le(h.sequence, 8) + ([h.tombstone] + (Le(h.keyLength, 4) + f.rest)))
            && h.sequence < U64
  {
    Widths();
    var magic := TakeInt(data, 4);
    TakeIntExact(data, 4);
    var sequence := TakeInt(magic.rest, 8);
    TakeIntExact(magic.rest, 8);
    var tombstone := Take(sequence.rest, 1);
    assert tombstone.value == [tombstone.value[0]];
    TakeIntExact(tombstone.rest, 4);
  }

  lemma BodyExact(h: Head, data: seq<byte>, limit: nat)
    requires TakeBody(h, data, limit).Got?
    ensures var f := TakeBody(h, data, limit); var e := f.value;
            && data == e.key + (Le(|e.value|, 4) + (e.value + f.rest))
            && e.sequence == h.sequence && e.tombstone == h.tombstone && |e.key| == h.keyLength <= limit && |e.value| <= limit
  {
    var key := Take(data, h.keyLength);
    TakeIntExact(key.rest, 4);
  }

  lemma SealExact(e: LogEntry, data: seq<byte>)
    requires TakeSeal(e, data).Got?
    ensures data == Le(Crc(Covered(e)), 4) + TakeSeal(e, data).rest && TakeSeal(e, data).value == e
  {
    TakeIntExact(data, 4);
  }

  lemma EntryExact(data: seq<byte>)
    requires TakeEntry(data).Got?
    ensures var f := TakeEntry(data); data == LogBytes(f.value) + f.rest && Readable(f.value)
  {
    var h := TakeHead(data);
    HeadExact(data);
    var b := TakeBody(h.value, h.rest, MAX_LOG_FIELD);
    BodyExact(h.value, h.rest, MAX_LOG_FIELD);
    SealExact(b.value, b.rest);
    EntryNested(b.value, TakeEntry(data).rest);
  }

  lemma AllExact()
    ensures forall d :: ExactAt(TakeEntry, LogBytes, d)
  {
    forall d
      ensures ExactAt(TakeEntry, LogBytes, d)
    {
      if TakeEntry(d).Got? {
        EntryExact(d);
      }
    }
  }

  lemma EntryRereadable(e: LogEntry)
    requires Readable(e)
    ensures Rereadable(TakeEntry, LogBytes, e)
  {
    forall rest
      ensures FrontAt(TakeEntry, LogBytes, e, rest)
    {
      EntryFront(e, rest);
    }
  }

  lemma EntryIsFramed(e: LogEntry)
    requires Readable(e)
    ensures Framed(TakeEntry, LogBytes, e)
  {
    EntryRereadable(e);
    forall j: nat
      ensures CutAt(TakeEntry, LogBytes, e, j)
    {
      EntryCut(e, j);
    }
  }

  lemma EntryCut(e: LogEntry, j: nat)
    requires Readable(e)
    ensures CutAt(TakeEntry, LogBytes, e, j)
  {
    hide TakeEntry;
    AllExact();
    EntryRereadable(e);
    if j < |LogBytes(e)| && TakeEntry(LogBytes(e)[..j]).Got? {
      EntryExact(LogBytes(e)[..j]);
      EntryRereadable(TakeEntry(LogBytes(e)[..j]).value);
    }
    CutRefused(TakeEntry, LogBytes, e, j);
  }

  lemma AllAreFramed(log: seq<LogEntry>)
    requires forall i | 0 <= i < |log| :: Readable(log[i])
    ensures AllFramed(TakeEntry, LogBytes, log)
  {
    forall i | 0 <= i < |log|
      ensures Framed(TakeEntry, LogBytes, log[i])
    {
      EntryIsFramed(log[i]);
    }
  }

  // ----- The map a log stands for -----

  /** Later entries win; a tombstone removes its key. */
  function MapOf(log: seq<LogEntry>): map<Key, Value> {
    if log == [] then map[]
    else
      var m, e := MapOf(log[..|log| - 1]), log[|log| - 1];
      if e.tombstone != 0 then m - {e.key} else m[e.key := e.value]
  }

  datatype IndexEntry = IndexEntry(offset: nat, tombstone: bool)

  /** Where the last entry of each key starts, and whether it is a tombstone. */
  function IndexOf(log: seq<LogEntry>): map<Key, IndexEntry> {
    if log == [] then map[]
    else
      var before, e := log[..|log| - 1], log[|log| - 1];
      IndexOf(before)[e.key := IndexEntry(|Printed(LogBytes, before)|, e.tombstone != 0)]
  }

  lemma AppendViews(log: seq<LogEntry>, e: LogEntry)
    ensures MapOf(log + [e]) == if e.tombstone != 0 then MapOf(log) - {e.key} else MapOf(log)[e.key := e.value]
    ensures IndexOf(log + [e]) == IndexOf(log)[e.key := IndexEntry(|Printed(LogBytes, log)|, e.tombstone != 0)]
    ensures Printed(LogBytes, log + [e]) == Printed(LogBytes, log) + LogBytes(e)
  {
    assert (log + [e])[..|log|] == log;
    PrintedConcat(LogBytes, log, [e]);
    assert Printed(LogBytes, [e]) == LogBytes(e) + [];
  }

  /** The index is exact: it holds a live key exactly when the map does, and points at the entry with its value. */
  lemma {:induction false} IndexPoints(log: seq<LogEntry>, key: Key)
    ensures key in MapOf(log) <==> key in IndexOf(log) && !IndexOf(log)[key].tombstone
    ensures key in MapOf(log) ==>
              exists i :: 0 <= i < |log| && PointsAt(log, i, key, MapOf(log)[key], IndexOf(log)[key].offset)
  {
    if log != [] {
      var n := |log| - 1;
      var before, e := log[..n], log[n];
      IndexPoints(before, key);
      if e.key == key {
        assert e.tombstone == 0 ==> PointsAt(log, n, key, e.value, |Printed(LogBytes, before)|);
      } else if key in MapOf(before) {
        var i :| 0 <= i < |before| && PointsAt(before, i, key, MapOf(before)[key], IndexOf(before)[key].offset);
        assert before[..i] == log[..i];
        assert PointsAt(log, i, key, MapOf(log)[key], IndexOf(log)[key].offset);
      }
    }
  }

  /** Entry i of the log is the given key's, has the given value and starts at the given offset. */
  predicate PointsAt(log: seq<LogEntry>, i: nat, key: Key, value: Value, offset: nat)
    requires i < |log|
  {
    log[i].key == key && log[i].value == value && offset == |Printed(LogBytes, log[..i])|
  }

  lemma EntryAtOffset(log: seq<LogEntry>, i: nat) returns (rest: seq<byte>)
    requires i < |log|
    ensures var data, offset := Printed(LogBytes, log), |Printed(LogBytes, log[..i])|;
            offset <= |data| && data[offset..] == LogBytes(log[i]) + rest
  {
    assert log == log[..i] + ([log[i]] + log[i + 1..]);
    PrintedConcat(LogBytes, log[..i], [log[i]] + log[i + 1..]);
    rest := Printed(LogBytes, log[i + 1..]);
    assert ([log[i]] + log[i + 1..])[1..] == log[i + 1..];
  }

  lemma {:induction false} LiveCount(log: seq<LogEntry>)
    ensures MapOf(log).Keys == set k | k in IndexOf(log) && !IndexOf(log)[k].tombstone
  {
    forall k
      ensures k in MapOf(log) <==> k in IndexOf(log) && !IndexOf(log)[k].tombstone
    {
      IndexPoints(log, k);
    }
  }

  // ----- Crash and reopen -----

  /**
  A crash during an append leaves the log before it and some prefix of the new entry. Reopening
  recovers the map before the append, or after it exactly when every byte arrived.
  */
  lemma ReopenAfterCrash(log: seq<LogEntry>, e: LogEntry, j: nat)
    requires (forall i | 0 <= i < |log| :: Readable(log[i])) && Readable(e) && j <= |LogBytes(e)|
    ensures var reopened := Scan(TakeEntry, Printed(LogBytes, log) + LogBytes(e)[..j]);
            && reopened == (if j == |LogBytes(e)| then log + [e] else log)
            && MapOf(reopened) == if j < |LogBytes(e)| then MapOf(log)
                                  else if e.tombstone != 0 then MapOf(log) - {e.key} else MapOf(log)[e.key := e.value]
  {
    hide TakeEntry, LogBytes, Scan;
    AllAreFramed(log);
    EntryIsFramed(e);
    ScanTorn(TakeEntry, LogBytes, log, e, j);
    AppendViews(log, e);
  }

  /**
  Which logs survive a reopen: all of it up to the first entry with a key or value over 256 MiB,
  and nothing from there on. Put does not refuse such entries.
  */
  lemma ReopenExact(log: seq<LogEntry>, k: nat)
    requires k <= |log| && (forall i | 0 <= i < k :: Readable(log[i]))
    requires k < |log| ==> Writable(log[k]) && !Readable(log[k])
    ensures Scan(TakeEntry, Printed(LogBytes, log)) == log[..k]
  {
    AllAreFramed(log[..k]);
    if k < |log| {
      forall rest
        ensures RefusedAt(TakeEntry, LogBytes, log[k], rest)
      {
        EntryFront(log[k], rest);
      }
    }
    ScanStops(TakeEntry, LogBytes, log, k);
  }

  /** The next sequence number, in 64 bits. */
  function Following(n: nat): (r: nat)
    requires n < U64
    ensures r < U64 && (n < U64 - 1 ==> r == n + 1)
  {
    if n == U64 - 1 then 0 else n + 1
  }

  /** The highest sequence number in the log, 0 if it is empty. */
  ghost predicate Highest(log: seq<LogEntry>, highest: nat) {
    && (forall i | 0 <= i < |log| :: log[i].sequence <= highest)
    && if log == [] then highest == 0 else exists i :: 0 <= i < |log| && log[i].sequence == highest
  }

  // ----- The store object -----

  lemma BytesLength(e: LogEntry)
    ensures |LogBytes(e)| == 25 + |e.key| + |e.value|
  {
  }

  class FileBackingStore {
    const file: ByteFile
    var index: map<Key, IndexEntry>
    var endOffset: nat
    var nextSequence: nat
    /** The entries in the file, in order. */
    ghost var log: seq<LogEntry>

    ghost predicate Valid()
      reads this, file
    {
      && file.data == Printed(LogBytes, log) && endOffset == |file.data| && index == IndexOf(log)
      && nextSequence < U64 && forall i | 0 <= i < |log| :: log[i].sequence < U64
    }

    /** The map the store stands for. */
    ghost function Contents(): map<Key, Value>
      reads this
    {
      MapOf(log)
    }

    constructor (file: ByteFile)
      ensures this.file == file && index == map[] && endOffset == 0 && nextSequence == 0 && log == []
    {
      this.file, index, endOffset, nextSequence, log := file, map[], 0, 0, [];
    }

    // ----- Opening -----

    method ReadHead() returns (h: Option<Head>)
      requires file.pos <= |file.data|
      modifies file`pos
      ensures old(file.pos) <= file.pos <= |file.data|
      ensures TakeHead(file.data[old(file.pos)..]) == if h.Some? then Got(h.value, file.data[file.pos..]) else Short
    {
      var magic := file.ReadInt(4);
      if magic.None? || magic.value != MAGIC {
        return None;
      }
      var sequence := file.ReadInt(8);
      if sequence.None? {
        return None;
      }
      var tombstone := file.ReadExact(1);
      if tombstone.None? {
        return None;
      }
      var length := file.ReadInt(4);
      if length.None? {
        return None;
      }
      return Some(Head(sequence.value, tombstone.value[0], length.value));
    }

    method ReadBody(h: Head, limit: nat) returns (e: Option<LogEntry>)
      requires file.pos <= |file.data|
      modifies file`pos
      ensures old(file.pos) <= file.pos <= |file.data|
      ensures TakeBody(h, file.data[old(file.pos)..], limit) == if e.Some? then Got(e.value, file.data[file.pos..]) else Short
    {
      if h.keyLength > limit {
        return None;
      }
      var key := file.ReadExact(h.keyLength);
      if key.None? {
        return None;
      }
      var length := file.ReadInt(4);
      if length.None? || length.value > limit {
        return None;
      }
      var value := file.ReadExact(length.value);
      if value.None? {
        return None;
      }
      return Some(LogEntry(h.sequence, h.tombstone, key.value, value.value));
    }

    method ReadEntry() returns (e: Option<LogEntry>)
      requires file.pos <= |file.data|
      modifies file`pos
      ensures old(file.pos) <= file.pos <= |file.data|
      ensures TakeEntry(file.data[old(file.pos)..]) == if e.Some? then Got(e.value, file.data[file.pos..]) else Short
    {
      hide TakeHead, TakeBody, Covered, UnLe;
      var h := ReadHead();
      if h.None? {
        return None;
      }
      e := ReadBody(h.value, MAX_LOG_FIELD);
      if e.None? {
        return;
      }
      var stored := file.ReadInt(4);
      if stored.None? {
        return None;
      }
      var crc := Compute(Covered(e.value));
      return if crc == stored.value then e else None;
    }

    method NextEntry() returns (e: Option<LogEntry>)
      requires file.pos <= |file.data|
      modifies file`pos
      ensures old(file.pos) <= file.pos <= |file.data|
      ensures e.None? ==> Scan(TakeEntry, file.data[old(file.pos)..]) == []
      ensures e.Some? ==>
                && Scan(TakeEntry, file.data[old(file.pos)..]) == [e.value] + Scan(TakeEntry, file.data[file.pos..])
                && file.data[old(file.pos)..] == LogBytes(e.value) + file.data[file.pos..]
                && Readable(e.value) && file.pos == old(file.pos) + |LogBytes(e.value)|
    {
      hide TakeEntry;
      ghost var rest := file.data[file.pos..];
      e := ReadEntry();
      if e.Some? {
        EntryExact(rest);
        BytesLength(e.value);
      }
      ScanStep(TakeEntry, rest);
    }

    /**
    Opens whatever the file holds: keeps the longest run of intact entries from the start, rebuilds
    the index from it and cuts everything after it.
    */
    method Initialize()
      requires index == map[] && log == []
      modifies this, file
      ensures Valid() && log == Scan(TakeEntry, old(file.data)) && file.data <= old(file.data)
      ensures forall i | 0 <= i < |log| :: Readable(log[i])
      ensures exists highest: nat :: highest < U64 && Highest(log, highest) && nextSequence == Following(highest)
    {
      hide TakeEntry, Scan, LogBytes, Printed, IndexOf, Highest, Following;
      EmptyHighest();
      file.SeekTo(0);
      var offset: nat, highest: nat := 0, 0;
      ghost var data := file.data;
      assert data[0..] == data;
      assert Printed(LogBytes, log) == [] && IndexOf(log) == map[] by {
        EmptyViews();
      }
      while true
        invariant file.data == data && file.pos == offset <= |data|
        invariant data[..offset] == Printed(LogBytes, log) && Scan(TakeEntry, data) == log + Scan(TakeEntry, data[offset..])
        invariant index == IndexOf(log) && highest < U64
        invariant (forall i | 0 <= i < |log| :: Readable(log[i])) && Highest(log, highest)
        decreases |data| - offset
      {
        var e := NextEntry();
        if e.None? {
          break;
        }
        AppendViews(log, e.value);
        HighestAppend(log, e.value, highest);
        LogGrow(log, e.value, Scan(TakeEntry, data[file.pos..]));
        BytesLength(e.value);
        SplitAt(data, offset, LogBytes(e.value), file.pos);
        index := index[e.value.key := IndexEntry(offset, e.value.tombstone != 0)];
        highest := if highest < e.value.sequence then e.value.sequence else highest;
        offset := offset + 25 + |e.value.key| + |e.value.value|;
        log := log + [e.value];
      }
      nextSequence := Following(highest);
      endOffset := offset;
      if |file.data| != offset {
        file.SetLength(offset);
      } else {
        assert data[..offset] == data;
      }
    }

    // ----- Operations -----

    /**
    Reads the map. The length fields have 32 bits and nothing checks them on writing, so this holds
    for the keys all of whose entries fit them.
    */
    method Get(key: Key) returns (r: Result<Value>)
      requires Valid()
      modifies file`pos
      ensures Valid() && (key !in Contents() <==> r == Err(NotFound))
      ensures key in Contents() && (forall i | 0 <= i < |log| && log[i].key == key :: Writable(log[i])) ==> r == Ok(Contents()[key])
    {
      hide TakeHead, TakeBody, LogBytes, Printed, MapOf, IndexOf;
      IndexPoints(log, key);
      if key !in index || index[key].tombstone {
        return Err(NotFound);
      }
      ghost var i :| 0 <= i < |log| && PointsAt(log, i, key, MapOf(log)[key], IndexOf(log)[key].offset);
      ghost var rest := EntryAtOffset(log, i);
      if Writable(log[i]) {
        ReadBack(log[i], rest);
      }
      file.SeekTo(index[key].offset);
      var h := ReadHead();
      if h.None? {
        return Err(CorruptData);
      }
      var e := ReadBody(h.value, U32);
      if e.None? {
        return Err(CorruptData);
      }
      return Ok(e.value.value);
    }

    /** Appends one entry at the end and points the index at it. */
    method AppendRecord(key: Key, value: Value, tombstone: bool)
      requires Valid()
      modifies this, file
      ensures Valid()
      ensures log == old(log) + [LogEntry(old(nextSequence), if tombstone then 1 else 0, key, if tombstone then [] else value)]
      ensures nextSequence == Following(old(nextSequence))
      ensures Contents() == if tombstone then old(Contents()) - {key} else old(Contents())[key := value]
    {
      hide Printed, MapOf, IndexOf, Crc, Le;
      var e := LogEntry(nextSequence, if tombstone then 1 else 0, key, if tombstone then [] else value);
      var frame := Le(MAGIC, 4);
      frame := frame + Le(e.sequence, 8);
      frame := frame + [e.tombstone];
      frame := frame + Le(|key|, 4);
      frame := frame + key;
      frame := frame + Le(|e.value|, 4);
      frame := frame + e.value;
      LeftNested(Le(MAGIC, 4), Le(e.sequence, 8), [e.tombstone], Le(|key|, 4), key, Le(|e.value|, 4), e.value);
      var crc := Compute(frame);
      frame := frame + Le(crc, 4);
      WriteFrame(e, frame);
    }

    method WriteFrame(e: LogEntry, frame: seq<byte>)
      requires Valid() && frame == LogBytes(e) && e.sequence == nextSequence
      modifies this, file
      ensures Valid() && log == old(log) + [e] && nextSequence == Following(old(nextSequence))
      ensures Contents() == if e.tombstone != 0 then old(Contents()) - {e.key} else old(Contents())[e.key := e.value]
    {
      hide LogBytes, Printed, MapOf, IndexOf;
      AppendViews(log, e);
      file.SeekTo(endOffset);
      file.Write(frame);
      index := index[e.key := IndexEntry(endOffset, e.tombstone != 0)];
      endOffset := endOffset + |frame|;
      nextSequence := Following(nextSequence);
      log := log + [e];
    }

    method Put(key: Key, value: Value)
      requires Valid()
      modifies this, file
      ensures Valid() && Contents() == old(Contents())[key := value]
      ensures log == old(log) + [LogEntry(old(nextSequence), 0, key, value)] && nextSequence == Following(old(nextSequence))
    {
      AppendRecord(key, value, false);
    }

    /** Removing an absent key writes nothing. */
    method Remove(key: Key)
      requires Valid()
      modifies this, file
      ensures Valid() && Contents() == old(Contents()) - {key}
      ensures key !in old(Contents()) ==> file.data == old(file.data) && log == old(log) && nextSequence == old(nextSequence)
      ensures key in old(Contents()) ==>
                log == old(log) + [LogEntry(old(nextSequence), 1, key, [])] && nextSequence == Following(old(nextSequence))
    {
      IndexPoints(log, key);
      if key !in index || index[key].tombstone {
        return;
      }
      AppendRecord(key, [], true);
    }

    method Contains(key: Key) returns (found: bool)
      requires Valid()
      ensures found <==> key in Contents()
    {
      IndexPoints(log, key);
      found := key in index && !index[key].tombstone;
    }

    method EntryCount() returns (count: nat)
      requires Valid()
      ensures count == |Contents()|
    {
      count := 0;
      var keys := index.Keys;
      ghost var live: set<Key> := {};
      while keys != {}
        invariant keys <= index.Keys && live == (set k | k in index && k !in keys && !index[k].tombstone)
        invariant count == |live|
        decreases keys
      {
        var k :| k in keys;
        keys := keys - {k};
        if !index[k].tombstone {
          count := count + 1;
          live := live + {k};
        }
      }
      LiveCount(log);
      assert live == Contents().Keys;
    }
  }

  /** Reading an entry back field by field, without its checksum. */
  lemma ReadBack(e: LogEntry, rest: seq<byte>)
    requires Writable(e)
    ensures var h := TakeHead(LogBytes(e) + rest);
            && h.Got? && h.value == Head(e.sequence, e.tombstone, |e.key|)
            && TakeBody(h.value, h.rest, U32).Got? && TakeBody(h.value, h.rest, U32).value == e
  {
    var seal := Le(Crc(Covered(e)), 4) + rest;
    EntryNested(e, rest);
    HeadFront(e, e.key + (Le(|e.value|, 4) + (e.value + seal)));
    BodyFront(e, seal, U32);
  }

  lemma LeftNested(a: seq<byte>, b: seq<byte>, c: seq<byte>, d: seq<byte>, e: seq<byte>, f: seq<byte>, g: seq<byte>)
    ensures a + b + c + d + e + f + g == a + (b + (c + (d + (e + (f + g)))))
  {
  }

  lemma LogGrow(log: seq<LogEntry>, e: LogEntry, rest: seq<LogEntry>)
    requires forall i | 0 <= i < |log| :: Readable(log[i])
    ensures log + ([e] + rest) == log + [e] + rest
    ensures Readable(e) ==> forall i | 0 <= i < |log + [e]| :: Readable((log + [e])[i])
  {
  }

  lemma EmptyHighest()
    ensures Highest([], 0)
  {
  }

  lemma HighestAppend(log: seq<LogEntry>, e: LogEntry, highest: nat)
    requires Highest(log, highest)
    ensures Highest(log + [e], if highest < e.sequence then e.sequence else highest)
  {
    var after := log + [e];
    assert after[|log|] == e && forall i | 0 <= i < |log| :: after[i] == log[i];
    if log != [] && e.sequence <= highest {
      var i :| 0 <= i < |log| && log[i].sequence == highest;
      assert after[i].sequence == highest;
    }
  }

  lemma EmptyViews()
    ensures Printed(LogBytes, []) == [] && IndexOf([]) == map[]
  {
  }

  lemma SplitAt(data: seq<byte>, offset: nat, frame: seq<byte>, next: nat)
    requires offset <= next <= |data| && next == offset + |frame| && data[offset..] == frame + data[next..]
    ensures data[..next] == data[..offset] + frame
  {
    assert data[offset..next] == data[offset..][..next - offset] == frame;
  }
}
