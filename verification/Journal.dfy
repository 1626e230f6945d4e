/** The write-ahead journal: framed appends, and replay that stops at the first frame it cannot trust. */
module Journal {
  import opened CacheTypes
  import opened Bytes
  import opened Crc32
  import opened ByteFileModel
  import opened RecordCodec
  import opened Framing

  const MAGIC: nat := 0x51434A31

  datatype Frame = Frame(sequence: nat, payload: seq<byte>)

  // ----- Frames as bytes -----

  /** What the checksum covers. */
  function Covered(f: Frame): seq<byte> {
    Le(MAGIC, 4) + (Le(f.sequence, 8) + (Le(|f.payload|, 4) + f.payload))
  }

  function FrameBytes(f: Frame): seq<byte> {
    Covered(f) + Le(Crc(Covered(f)), 4)
  }

  /** Reads one whole, intact frame off the front; anything else is None. */
  function TakeFrame(data: seq<byte>): (f: Field<Frame>)
    ensures f.Got? ==> |f.rest| < |data|
  {
    var magic := TakeInt(data, 4);
    if magic.Short? || magic.value != MAGIC then Short else
    var sequence := TakeInt(magic.rest, 8);
    if sequence.Short? then Short else
    var length := TakeInt(sequence.rest, 4);
    if length.Short? || length.value > MAX_PAYLOAD then Short else
    TakePayload(sequence.value, length.value, length.rest)
  }

  function TakePayload(sequence: nat, length: nat, data: seq<byte>): (f: Field<Frame>)
    ensures f.Got? ==> |f.rest| <= |data|
  {
    var payload := Take(data, length);
    if payload.Short? then Short else
    var stored := TakeInt(payload.rest, 4);
    if stored.Short? then Short else
    var f := Frame(sequence, payload.value);
    if stored.value != Crc(Covered(f)) then Short else Got(f, stored.rest)
  }

  /** Every frame replay can hand out, in order. */
  function Frames(data: seq<byte>): seq<Frame> {
    Scan(TakeFrame, data)
  }

  /** Frames whose fields a reader gives back unchanged. */
  predicate Readable(f: Frame) {
    f.sequence < U64 && |f.payload| <= MAX_PAYLOAD
  }

  predicate Writable(f: Frame) {
    f.sequence < U64 && |f.payload| < U32
  }

  lemma FrameNested(f: Frame, rest: seq<byte>)
    ensures FrameBytes(f) + rest
            == Le(MAGIC, 4) + (Le(f.sequence, 8) + (Le(|f.payload|, 4) + (f.payload + (Le(Crc(Covered(f)), 4) + rest))))
  {
    Nested(Le(MAGIC, 4), Le(f.sequence, 8), Le(|f.payload|, 4), f.payload, Le(Crc(Covered(f)), 4), rest);
  }

  lemma Nested(a: seq<byte>, b: seq<byte>, c: seq<byte>, d: seq<byte>, e: seq<byte>, rest: seq<byte>)
    ensures a + (b + (c + d)) + e + rest == a + (b + (c + (d + (e + rest))))
  {
    Regroup(a + (b + (c + d)), e, rest);
    Regroup(a, b + (c + d), e + rest);
    Regroup(b, c + d, e + rest);
    Regroup(c, d, e + rest);
  }

  lemma PayloadFront(f: Frame, rest: seq<byte>)
    ensures TakePayload(f.sequence, |f.payload|, f.payload + (Le(Crc(Covered(f)), 4) + rest)) == Got(f, rest)
  {
    Widths();
    CrcBound(Covered(f));
    TakeFront(f.payload, Le(Crc(Covered(f)), 4) + rest);
    TakeIntFront(Crc(Covered(f)), 4, rest);
  }

  /** A frame is read back, whatever follows it, exactly when its payload is at most 256 MiB. */
  lemma FrameFront(f: Frame, rest: seq<byte>)
    requires Writable(f)
    ensures TakeFrame(FrameBytes(f) + rest) == if Readable(f) then Got(f, rest) else Short
  {
    var tail := f.payload + (Le(Crc(Covered(f)), 4) + rest);
    FrameNested(f, rest);
    Widths();
    TakeIntFront(MAGIC, 4, Le(f.sequence, 8) + (Le(|f.payload|, 4) + tail));
    TakeIntFront(f.sequence, 8, Le(|f.payload|, 4) + tail);
    TakeIntFront(|f.payload|, 4, tail);
    PayloadFront(f, rest);
  }

  // ----- Cuts -----

  /** Reading a number off cut data: short, or the same number with the rest cut. */
  lemma TakeIntCut(data: seq<byte>, k: nat, j: nat)
    requires j <= |data| && TakeInt(data, k).Got?
    ensures j >= k ==> TakeInt(data[..j], k) == Got(TakeInt(data, k).value, TakeInt(data, k).rest[..j - k])
    ensures j < k ==> TakeInt(data[..j], k) == Short
  {
    if j >= k {
      assert data[..j][..k] == data[..k] && data[..j][k..] == data[k..][..j - k];
    }
  }

  /** A frame cut short anywhere is never read. */
  lemma FrameCut(f: Frame, j: nat)
    requires Writable(f) && j < |FrameBytes(f)|
    ensures TakeFrame(FrameBytes(f)[..j]) == Short
  {
    var c := Le(Crc(Covered(f)), 4);
    var d3 := f.payload + (c + []);
    var d2 := Le(|f.payload|, 4) + d3;
    var d1 := Le(f.sequence, 8) + d2;
    var d0 := Le(MAGIC, 4) + d1;
    FrameNested(f, []);
    assert FrameBytes(f) + [] == FrameBytes(f) == d0;
    Widths();
    TakeIntFront(MAGIC, 4, d1);
    TakeIntFront(f.sequence, 8, d2);
    TakeIntFront(|f.payload|, 4, d3);
    TakeIntCut(d0, 4, j);
    if j >= 4 {
      TakeIntCut(d1, 8, j - 4);
      if j >= 12 {
        TakeIntCut(d2, 4, j - 12);
        if j >= 16 {
          PayloadCut(f, d3[..j - 16]);
        }
      }
    }
  }

  lemma PayloadCut(f: Frame, d: seq<byte>)
    requires |d| < |f.payload| + 4
    ensures TakePayload(f.sequence, |f.payload|, d) == Short
  {
  }

  // ----- Appending and replaying a whole list -----

  function Numbered(payloads: seq<seq<byte>>, first: nat): (fs: seq<Frame>)
    ensures |fs| == |payloads| && forall i | 0 <= i < |fs| :: fs[i] == Frame(first + i, payloads[i])
  {
    seq(|payloads|, i requires 0 <= i < |payloads| => Frame(first + i, payloads[i]))
  }

  function Written(fs: seq<Frame>): seq<byte> {
    Printed(FrameBytes, fs)
  }

  predicate AllReadable(fs: seq<Frame>) {
    forall i | 0 <= i < |fs| :: Readable(fs[i])
  }

  lemma FrameIsFramed(f: Frame)
    requires Readable(f)
    ensures Framed(TakeFrame, FrameBytes, f)
  {
    forall rest
      ensures FrontAt(TakeFrame, FrameBytes, f, rest)
    {
      FrameFront(f, rest);
    }
    forall j: nat
      ensures CutAt(TakeFrame, FrameBytes, f, j)
    {
      if j < |FrameBytes(f)| {
        FrameCut(f, j);
      }
    }
  }

  lemma AllAreFramed(fs: seq<Frame>)
    requires AllReadable(fs)
    ensures AllFramed(TakeFrame, FrameBytes, fs)
  {
    forall i | 0 <= i < |fs|
      ensures Framed(TakeFrame, FrameBytes, fs[i])
    {
      FrameIsFramed(fs[i]);
    }
  }

  /**
  What replay reads back of a journal: everything up to the first frame with a payload over 256 MiB,
  and, without an error, nothing from there on. Append does not refuse such a payload.
  */
  lemma FramesExact(fs: seq<Frame>, k: nat, tail: seq<byte>)
    requires k < |fs| && AllReadable(fs[..k]) && Writable(fs[k]) && !Readable(fs[k])
    ensures Frames(Written(fs) + tail) == fs[..k]
  {
    hide TakeFrame, FrameBytes;
    AllAreFramed(fs[..k]);
    assert fs == fs[..k] + fs[k..] && fs[k..][0] == fs[k];
    var rest := Printed(FrameBytes, fs[k..][1..]) + tail;
    PrintedConcat(FrameBytes, fs[..k], fs[k..]);
    Regroup(Printed(FrameBytes, fs[..k]), Printed(FrameBytes, fs[k..]), tail);
    Regroup(FrameBytes(fs[k]), Printed(FrameBytes, fs[k..][1..]), tail);
    ScanPrinted(TakeFrame, FrameBytes, fs[..k], FrameBytes(fs[k]) + rest);
    FrameFront(fs[k], rest);
    ScanStep(TakeFrame, FrameBytes(fs[k]) + rest);
  }

  // ----- Through both codecs -----

  function EncodedAll(rs: seq<Record>): (ps: seq<seq<byte>>)
    ensures |ps| == |rs| && forall i | 0 <= i < |rs| :: ps[i] == Encoded(rs[i])
  {
    seq(|rs|, i requires 0 <= i < |rs| => Encoded(rs[i]))
  }

  /** The file after the records were appended with sequence numbers from first on. */
  function JournalOf(rs: seq<Record>, first: nat): seq<Frame> {
    Numbered(EncodedAll(rs), first)
  }

  lemma EncodedReadable(r: Record)
    requires Decodable(r)
    ensures |Encoded(r)| <= MAX_PAYLOAD && Decoded(Encoded(r)) == Ok(r)
  {
    RoundTrip(r, []);
  }

  /**
  Records appended with consecutive sequence numbers come back, decoded, in order and with those
  numbers; from a file cut at any byte, exactly the records whose frames are whole come back.
  */
  lemma JournalRoundTrip(rs: seq<Record>, first: nat, j: nat)
    requires first + |rs| <= U64 && (forall i | 0 <= i < |rs| :: Decodable(rs[i])) && j <= |Written(JournalOf(rs, first))|
    ensures var fs := Frames(Written(JournalOf(rs, first))[..j]);
            && |fs| == WholeFrames(FrameBytes, JournalOf(rs, first), j)
            && (j == |Written(JournalOf(rs, first))| ==> |fs| == |rs|)
            && forall i | 0 <= i < |fs| :: fs[i].sequence == first + i && Decoded(fs[i].payload) == Ok(rs[i])
  {
    hide TakeFrame;
    var all := JournalOf(rs, first);
    forall i | 0 <= i < |rs|
      ensures Readable(all[i]) && Decoded(all[i].payload) == Ok(rs[i])
    {
      EncodedReadable(rs[i]);
    }
    AllAreFramed(all);
    ScanCut(TakeFrame, FrameBytes, all, j);
    if j == |Written(all)| {
      WholeAll(FrameBytes, all);
    }
  }

  // ----- A torn tail that is appended to -----

  lemma MagicBytes()
    ensures Le(MAGIC, 4) == [0x31, 0x4A, 0x43, 0x51]
  {
    assert Le(MAGIC, 1) == [0x31];
    assert Le(MAGIC, 4) == [0x31] + Le(MAGIC / 256, 3);
    assert Le(MAGIC / 256, 3) == [0x4A] + Le(MAGIC / 65536, 2);
    assert Le(MAGIC / 65536, 2) == [0x43] + Le(MAGIC / 0x100_0000, 1);
  }

  /** What makes replay accept a frame at the start of the data, field by field at its offset. */
  predicate Accepted(data: seq<byte>) {
    && |data| >= 20 && data[..4] == Le(MAGIC, 4)
    && var n := UnLe(data[12..16]);
       n <= MAX_PAYLOAD && |data| >= 20 + n && data[16 + n..20 + n] == Le(Crc(data[..16 + n]), 4)
  }

  lemma TakeAt(data: seq<byte>, o: nat, k: nat)
    requires o <= |data|
    ensures TakeInt(data[o..], k) == if o + k <= |data| then Got(UnLe(data[o..o + k]), data[o + k..]) else Short
  {
    if o + k <= |data| {
      assert data[o..][..k] == data[o..o + k] && data[o..][k..] == data[o + k..];
    }
  }

  lemma MagicAt(data: seq<byte>)
    requires |data| >= 4
    ensures UnLe(data[..4]) == MAGIC <==> data[..4] == Le(MAGIC, 4)
  {
    LeOfUnLe(data[..4]);
    UnLeOfLe(MAGIC, 4);
    Widths();
  }

  /** The covered bytes of the frame that starts the data are the data's own. */
  lemma CoveredAt(data: seq<byte>, n: nat)
    requires |data| >= 16 + n && data[..4] == Le(MAGIC, 4) && n == UnLe(data[12..16])
    ensures Covered(Frame(UnLe(data[4..12]), data[16..16 + n])) == data[..16 + n]
  {
    hide Le, UnLe;
    LeOfUnLe(data[4..12]);
    LeOfUnLe(data[12..16]);
    CutInto(data[..16 + n], 4, 12, 16);
    assert data[..16 + n][..4] == data[..4] && data[..16 + n][4..12] == data[4..12];
    assert data[..16 + n][12..16] == data[12..16] && data[..16 + n][16..] == data[16..16 + n];
  }

  lemma CutInto(data: seq<byte>, a: nat, b: nat, c: nat)
    requires a <= b <= c <= |data|
    ensures data == data[..a] + (data[a..b] + (data[b..c] + data[c..]))
  {
    assert data[b..] == data[b..c] + data[c..];
    assert data[a..] == data[a..b] + data[b..];
  }

  /** Replay reads a frame off the front exactly when the bytes there are accepted. */
  lemma TakeFrameExact(data: seq<byte>)
    ensures TakeFrame(data).Got? <==> Accepted(data)
  {
    hide Crc, Covered, Le, UnLe;
    assert data[0..] == data;
    TakeAt(data, 0, 4);
    if |data| >= 4 {
      MagicAt(data);
      TakeAt(data, 4, 8);
      if |data| >= 12 && data[..4] == Le(MAGIC, 4) {
        TakeAt(data, 12, 4);
        if |data| >= 16 {
          PayloadExact(data, UnLe(data[12..16]));
        }
      }
    }
  }

  lemma PayloadExact(data: seq<byte>, n: nat)
    requires |data| >= 16 && data[..4] == Le(MAGIC, 4) && n == UnLe(data[12..16])
    ensures TakePayload(UnLe(data[4..12]), n, data[16..]).Got?
            <==> |data| >= 20 + n && data[16 + n..20 + n] == Le(Crc(data[..16 + n]), 4)
  {
    hide Crc, Covered, Le, UnLe;
    if |data| >= 16 + n {
      assert data[16..][..n] == data[16..16 + n] && data[16..][n..] == data[16 + n..];
      TakeAt(data, 16 + n, 4);
      CoveredAt(data, n);
      if |data| >= 20 + n {
        LeOfUnLe(data[16 + n..20 + n]);
        CrcBound(data[..16 + n]);
        Widths();
        UnLeOfLe(Crc(data[..16 + n]), 4);
        ModSmall(Crc(data[..16 + n]), U32);
      }
    }
  }

  /**
  Append goes to the end of the file and replay does not cut a torn tail. Whatever is appended after
  a frame torn at byte j, the frames before it are handed out, and nothing else is exactly when the
  splice of the torn bytes and what follows them is not accepted as a frame.
  */
  lemma TornTailHides(fs: seq<Frame>, f: Frame, j: nat, more: seq<byte>)
    requires AllReadable(fs) && j < |FrameBytes(f)|
    ensures var splice := FrameBytes(f)[..j] + more;
            && fs <= Frames(Written(fs) + splice)
            && (Frames(Written(fs) + splice) == fs <==> !Accepted(splice))
  {
    hide TakeFrame, FrameBytes, Accepted;
    var splice := FrameBytes(f)[..j] + more;
    AllAreFramed(fs);
    ScanPrinted(TakeFrame, FrameBytes, fs, splice);
    ScanStep(TakeFrame, splice) by { Shrinks(splice); }
    TakeFrameExact(splice);
  }

  lemma Shrinks(data: seq<byte>)
    ensures TakeFrame(data).Got? ==> |TakeFrame(data).rest| < |data|
  {
  }

  /** A tear inside the first four bytes is always fatal to what follows: no frame magic starts the splice. */
  lemma TornMagicHides(fs: seq<Frame>, f: Frame, j: nat, g: Frame, more: seq<byte>)
    requires AllReadable(fs) && 1 <= j <= 3
    ensures Frames(Written(fs) + (FrameBytes(f)[..j] + (FrameBytes(g) + more))) == fs
  {
    hide Crc, Accepted, Frames;
    var splice := FrameBytes(f)[..j] + (FrameBytes(g) + more);
    TornTailHides(fs, f, j, FrameBytes(g) + more);
    MagicBytes();
    assert FrameBytes(f)[..4] == Le(MAGIC, 4) && FrameBytes(g)[..4] == Le(MAGIC, 4);
    assert FrameBytes(g)[0] == FrameBytes(g)[..4][0] == 0x31;
    assert splice[j] == 0x31 && Le(MAGIC, 4)[j] != 0x31;
    assert splice[..4][j] == splice[j];
    NotAccepted(splice);
  }

  lemma NotAccepted(data: seq<byte>)
    requires |data| >= 4 && data[..4] != Le(MAGIC, 4)
    ensures !Accepted(data)
  {
  }

  /** A tear inside the checksum is mended exactly when what follows begins with the missing bytes. */
  lemma TornChecksumMends(f: Frame, j: nat, more: seq<byte>)
    requires Readable(f) && 16 + |f.payload| <= j < |FrameBytes(f)|
    ensures var rest := FrameBytes(f)[j..];
            Accepted(FrameBytes(f)[..j] + more) <==> rest <= more
  {
    hide Crc, Accepted, Le, UnLe, Covered, FrameBytes;
    HeaderBytes(f);
    var n, bytes := |f.payload|, FrameBytes(f);
    var splice, rest := bytes[..j] + more, bytes[j..];
    assert splice[..j] == bytes[..j] && splice[j..] == more;
    assert splice[..16 + n] == splice[..j][..16 + n] == bytes[..j][..16 + n] == bytes[..16 + n];
    assert splice[..4] == splice[..16 + n][..4] == bytes[..16 + n][..4] == bytes[..4];
    assert splice[12..16] == splice[..16 + n][12..16] == bytes[..16 + n][12..16] == bytes[12..16];
    AcceptedParts(splice, n);
    if |splice| >= 20 + n {
      SealedPart(splice, bytes, j, n);
    } else {
      assert |rest| > |more|;
    }
  }

  lemma AcceptedParts(data: seq<byte>, n: nat)
    ensures |data| >= 16 && data[..4] == Le(MAGIC, 4) && UnLe(data[12..16]) == n && n <= MAX_PAYLOAD ==>
              (Accepted(data) <==> |data| >= 20 + n && data[16 + n..20 + n] == Le(Crc(data[..16 + n]), 4))
  {
  }

  lemma HeaderBytes(f: Frame)
    requires Readable(f)
    ensures var bytes := FrameBytes(f);
            && |bytes| == 20 + |f.payload| && bytes[..4] == Le(MAGIC, 4) && UnLe(bytes[12..16]) == |f.payload|
            && bytes[..16 + |f.payload|] == Covered(f) && bytes[16 + |f.payload|..] == Le(Crc(Covered(f)), 4)
  {
    hide Crc;
    Widths();
    UnLeOfLe(|f.payload|, 4);
    ModSmall(|f.payload|, U32);
    assert FrameBytes(f)[12..16] == Covered(f)[12..16] == Le(|f.payload|, 4);
  }

  /** Cutting inside the last four bytes and continuing with more gives them back exactly if more starts with the rest. */
  lemma SealedPart(splice: seq<byte>, bytes: seq<byte>, j: nat, n: nat)
    requires |bytes| == 20 + n && 16 + n <= j < |bytes| <= |splice| && splice[..j] == bytes[..j]
    ensures splice[16 + n..20 + n] == bytes[16 + n..] <==> bytes[j..] <= splice[j..]
  {
    assert splice[16 + n..20 + n] == splice[16 + n..j] + splice[j..20 + n];
    assert bytes[16 + n..] == bytes[16 + n..j] + bytes[j..];
    assert splice[16 + n..j] == splice[..j][16 + n..] == bytes[..j][16 + n..] == bytes[16 + n..j];
    assert splice[j..20 + n] == splice[j..][..20 + n - j];
  }

  // ----- The journal object -----

  datatype Verdict = Continue | StopReplay | Refuse(error: Error)

  /** The frames the callback sees: all of them, up to its first verdict other than Continue. */
  function Delivered(fs: seq<Frame>, verdict: Frame -> Verdict): seq<Frame> {
    if fs == [] then []
    else if verdict(fs[0]) == Continue then [fs[0]] + Delivered(fs[1..], verdict)
    else [fs[0]]
  }

  lemma DeliveredGrow(seen: seq<Frame>, f: Frame, rest: seq<Frame>)
    ensures seen + ([f] + rest) == seen + [f] + rest
  {
  }

  lemma DeliveredNone(verdict: Frame -> Verdict)
    ensures Delivered([], verdict) == []
  {
  }

  lemma DeliveredFirst(f: Frame, rest: seq<Frame>, verdict: Frame -> Verdict)
    ensures Delivered([f] + rest, verdict) == [f] + if verdict(f) == Continue then Delivered(rest, verdict) else []
  {
    assert ([f] + rest)[1..] == rest;
  }

  /** What the callback sees: a prefix of the frames, each followed by the next exactly as long as it says Continue. */
  lemma {:induction false} DeliveredMeaning(fs: seq<Frame>, verdict: Frame -> Verdict)
    ensures var seen := Delivered(fs, verdict);
            && seen <= fs
            && (forall i | 0 <= i < |seen| - 1 :: verdict(seen[i]) == Continue)
            && (seen == fs || (seen != [] && verdict(seen[|seen| - 1]) != Continue))
  {
    if fs != [] && verdict(fs[0]) == Continue {
      DeliveredMeaning(fs[1..], verdict);
    }
  }

  class WriteAheadJournal {
    const file: ByteFile
    var nextSequence: nat
    var recordCount: nat

    constructor (file: ByteFile)
      ensures this.file == file && nextSequence == 0 && recordCount == 0
    {
      this.file, nextSequence, recordCount := file, 0, 0;
    }

    /** Adds one frame at the end of the file, under the next sequence number. */
    method Append(payload: seq<byte>) returns (sequence: nat)
      modifies this, file
      ensures sequence == old(nextSequence) && file.data == old(file.data) + FrameBytes(Frame(sequence, payload))
      ensures nextSequence == old(nextSequence) + 1 && recordCount == old(recordCount) + 1
    {
      sequence := nextSequence;
      var frame := Le(MAGIC, 4);
      frame := frame + Le(sequence, 8);
      frame := frame + Le(|payload|, 4);
      frame := frame + payload;
      assert frame == Covered(Frame(sequence, payload));
      var crc := Compute(frame);
      frame := frame + Le(crc, 4);
      file.SeekEnd();
      file.Write(frame);
      nextSequence, recordCount := nextSequence + 1, recordCount + 1;
    }

    /** Reads the next frame at the position. */
    method ReadFrame() returns (r: Option<Frame>)
      requires file.pos <= |file.data|
      modifies file`pos
      ensures file.pos <= |file.data|
      ensures var f := TakeFrame(file.data[old(file.pos)..]);
              if f.Got? then r == Some(f.value) && f.rest == file.data[file.pos..] && file.pos > old(file.pos) else r == None
    {
      var magic := file.ReadInt(4);
      if magic.None? || magic.value != MAGIC {
        return None;
      }
      var sequence := file.ReadInt(8);
      if sequence.None? {
        return None;
      }
      var length := file.ReadInt(4);
      if length.None? || length.value > MAX_PAYLOAD {
        return None;
      }
      r := ReadPayload(sequence.value, length.value);
    }

    method ReadPayload(sequence: nat, length: nat) returns (r: Option<Frame>)
      requires file.pos <= |file.data|
      modifies file`pos
      ensures old(file.pos) <= file.pos <= |file.data|
      ensures var f := TakePayload(sequence, length, file.data[old(file.pos)..]);
              if f.Got? then r == Some(f.value) && f.rest == file.data[file.pos..] else r == None
    {
      var payload := file.ReadExact(length);
      if payload.None? {
        return None;
      }
      var stored := file.ReadInt(4);
      if stored.None? {
        return None;
      }
      var f := Frame(sequence, payload.value);
      var crc := Compute(Covered(f));
      return if crc == stored.value then Some(f) else None;
    }

    /** Reads the next frame that replay hands out. */
    method NextFrame() returns (r: Option<Frame>)
      requires file.pos <= |file.data|
      modifies file`pos
      ensures file.pos <= |file.data| && (r.Some? ==> file.pos > old(file.pos))
      ensures Frames(file.data[old(file.pos)..]) == if r.Some? then [r.value] + Frames(file.data[file.pos..]) else []
    {
      ghost var rest := file.data[file.pos..];
      r := ReadFrame();
      ScanStep(TakeFrame, rest);
    }

    /**
    Hands every trusted frame to the callback in order. Neither the file nor the record count is
    changed; on success the next sequence number continues after the last frame handed out.
    */
    method Replay(verdict: Frame -> Verdict) returns (r: Result<()>, seen: seq<Frame>)
      modifies this`nextSequence, file`pos
      ensures seen == Delivered(Frames(file.data), verdict)
      ensures r == if seen != [] && verdict(seen[|seen| - 1]).Refuse? then Err(verdict(seen[|seen| - 1]).error) else Ok(())
      ensures nextSequence == if r.Ok? && seen != [] then seen[|seen| - 1].sequence + 1 else old(nextSequence)
    {
      hide TakeFrame, Scan, Delivered, Frames;
      file.SeekTo(0);
      seen := [];
      assert file.data[0..] == file.data;
      while true
        invariant file.pos <= |file.data| && nextSequence == old(nextSequence)
        invariant Delivered(Frames(file.data), verdict) == seen + Delivered(Frames(file.data[file.pos..]), verdict)
        invariant seen != [] ==> verdict(seen[|seen| - 1]) == Continue
        decreases |file.data| - file.pos
      {
        var f := NextFrame();
        if f.None? {
          DeliveredNone(verdict);
          break;
        }
        DeliveredFirst(f.value, Frames(file.data[file.pos..]), verdict);
        DeliveredGrow(seen, f.value, if verdict(f.value) == Continue then Delivered(Frames(file.data[file.pos..]), verdict) else []);
        seen := seen + [f.value];
        if verdict(f.value).Refuse? {
          return Err(verdict(f.value).error), seen;
        }
        if verdict(f.value) == StopReplay {
          break;
        }
      }
      if seen != [] {
        nextSequence := seen[|seen| - 1].sequence + 1;
      }
      return Ok(()), seen;
    }

    method Truncate()
      modifies this, file
      ensures file.data == [] && nextSequence == 0 && recordCount == 0
    {
      file.SetLength(0);
      file.SeekTo(0);
      nextSequence, recordCount := 0, 0;
    }
  }
}
