/** Append-only logs of self-delimiting frames: what a front-to-back scan recovers, whole or cut. */
module Framing {
  import opened CacheTypes
  import opened Bytes

  /** Takes one frame off the front of the data, or refuses. */
  type Reader<T> = seq<byte> -> Field<T>
  type Writer<!T> = T -> seq<byte>

  /** Every frame up to the first refusal. */
  function Scan<T>(take: Reader<T>, data: seq<byte>): seq<T>
    decreases |data|
  {
    var f := take(data);
    if f.Short? || |f.rest| >= |data| then [] else [f.value] + Scan(take, f.rest)
  }

  lemma ScanStep<T>(take: Reader<T>, data: seq<byte>)
    requires take(data).Got? ==> |take(data).rest| < |data|
    ensures Scan(take, data) == if take(data).Short? then [] else [take(data).value] + Scan(take, take(data).rest)
  {
  }

  function Printed<T>(bytes: Writer<T>, fs: seq<T>): seq<byte> {
    if fs == [] then [] else bytes(fs[0]) + Printed(bytes, fs[1..])
  }

  // ----- What makes a frame safe to scan -----

  predicate FrontAt<T(==)>(take: Reader<T>, bytes: Writer<T>, f: T, rest: seq<byte>) {
    take(bytes(f) + rest) == Got(f, rest)
  }

  predicate CutAt<T>(take: Reader<T>, bytes: Writer<T>, f: T, j: nat) {
    j < |bytes(f)| ==> take(bytes(f)[..j]).Short?
  }

  /** Read back whatever follows it, and never read when cut. */
  ghost predicate Framed<T>(take: Reader<T>, bytes: Writer<T>, f: T) {
    && bytes(f) != []
    && (forall rest :: FrontAt(take, bytes, f, rest))
    && (forall j :: CutAt(take, bytes, f, j))
  }

  ghost predicate AllFramed<T>(take: Reader<T>, bytes: Writer<T>, fs: seq<T>) {
    forall i | 0 <= i < |fs| :: Framed(take, bytes, fs[i])
  }

  // ----- Scans of printed logs -----

  lemma {:induction false} ScanPrinted<T>(take: Reader<T>, bytes: Writer<T>, fs: seq<T>, tail: seq<byte>)
    requires AllFramed(take, bytes, fs)
    ensures Scan(take, Printed(bytes, fs) + tail) == fs + Scan(take, tail)
  {
    if fs == [] {
      assert Printed(bytes, fs) + tail == tail;
    } else {
      var rest := Printed(bytes, fs[1..]) + tail;
      ScanPrinted(take, bytes, fs[1..], tail);
      Regroup(bytes(fs[0]), Printed(bytes, fs[1..]), tail);
      assert FrontAt(take, bytes, fs[0], rest);
    }
  }

  /** How many frames lie wholly within the first j bytes. */
  function WholeFrames<T>(bytes: Writer<T>, fs: seq<T>, j: nat): (n: nat)
    ensures n <= |fs|
  {
    if fs == [] || j < |bytes(fs[0])| then 0 else 1 + WholeFrames(bytes, fs[1..], j - |bytes(fs[0])|)
  }

  /** A log cut at any byte scans to exactly its whole frames. */
  lemma {:induction false} ScanCut<T>(take: Reader<T>, bytes: Writer<T>, fs: seq<T>, j: nat)
    requires AllFramed(take, bytes, fs) && j <= |Printed(bytes, fs)|
    ensures Scan(take, Printed(bytes, fs)[..j]) == fs[..WholeFrames(bytes, fs, j)]
  {
    if fs == [] {
      assert Printed(bytes, fs)[..j] == [];
      assert Printed(bytes, fs) == [];
    } else {
      var f, rest := bytes(fs[0]), Printed(bytes, fs[1..]);
      CutAfter(f, rest, j);
      if j < |f| {
        assert CutAt(take, bytes, fs[0], j);
      } else {
        assert FrontAt(take, bytes, fs[0], rest[..j - |f|]);
        ScanCut(take, bytes, fs[1..], j - |f|);
        assert [fs[0]] + fs[1..][..WholeFrames(bytes, fs[1..], j - |f|)] == fs[..WholeFrames(bytes, fs, j)];
      }
    }
  }

  lemma {:induction false} WholeAll<T>(bytes: Writer<T>, fs: seq<T>)
    ensures WholeFrames(bytes, fs, |Printed(bytes, fs)|) == |fs|
  {
    if fs != [] {
      WholeAll(bytes, fs[1..]);
    }
  }

  lemma {:induction false} PrintedConcat<T>(bytes: Writer<T>, a: seq<T>, b: seq<T>)
    ensures Printed(bytes, a + b) == Printed(bytes, a) + Printed(bytes, b)
  {
    if a == [] {
      assert a + b == b;
    } else {
      assert (a + b)[1..] == a[1..] + b;
      PrintedConcat(bytes, a[1..], b);
      Regroup(bytes(a[0]), Printed(bytes, a[1..]), Printed(bytes, b));
    }
  }

  /** A last frame torn at byte j is recovered exactly when it is whole; what precedes it always is. */
  lemma ScanTorn<T>(take: Reader<T>, bytes: Writer<T>, fs: seq<T>, f: T, j: nat)
    requires AllFramed(take, bytes, fs) && Framed(take, bytes, f) && j <= |bytes(f)|
    ensures Scan(take, Printed(bytes, fs) + bytes(f)[..j]) == if j == |bytes(f)| then fs + [f] else fs
  {
    ScanPrinted(take, bytes, fs, bytes(f)[..j]);
    if j == |bytes(f)| {
      assert bytes(f)[..j] == bytes(f) + [];
      assert FrontAt(take, bytes, f, []);
    } else {
      assert CutAt(take, bytes, f, j);
    }
  }

  predicate RefusedAt<T>(take: Reader<T>, bytes: Writer<T>, f: T, rest: seq<byte>) {
    take(bytes(f) + rest).Short?
  }

  /** A frame that is refused ends the scan, whatever follows it. */
  lemma ScanStops<T>(take: Reader<T>, bytes: Writer<T>, fs: seq<T>, k: nat)
    requires k <= |fs| && AllFramed(take, bytes, fs[..k])
    requires k < |fs| ==> forall rest :: RefusedAt(take, bytes, fs[k], rest)
    ensures Scan(take, Printed(bytes, fs)) == fs[..k]
  {
    var tail := Printed(bytes, fs[k..]);
    assert fs == fs[..k] + fs[k..];
    PrintedConcat(bytes, fs[..k], fs[k..]);
    ScanPrinted(take, bytes, fs[..k], tail);
    if k < |fs| {
      assert RefusedAt(take, bytes, fs[k], Printed(bytes, fs[k..][1..]));
    }
  }

  /** How many frames lie wholly in the file is the largest number whose bytes fit. */
  lemma {:induction false} WholeFramesFit<T>(bytes: Writer<T>, fs: seq<T>, j: nat)
    requires j <= |Printed(bytes, fs)|
    ensures var n := WholeFrames(bytes, fs, j);
            && |Printed(bytes, fs[..n])| <= j
            && (n < |fs| ==> j < |Printed(bytes, fs[..n + 1])|)
  {
    if fs != [] {
      var f := |bytes(fs[0])|;
      if j >= f {
        WholeFramesFit(bytes, fs[1..], j - f);
        var m := WholeFrames(bytes, fs[1..], j - f);
        assert fs[..m + 1][1..] == fs[1..][..m];
        assert m + 1 < |fs| ==> fs[..m + 2][1..] == fs[1..][..m + 1];
      } else {
        assert fs[..1][1..] == [];
      }
    }
  }

  // ----- Scans of arbitrary data -----

  predicate ExactAt<T>(take: Reader<T>, bytes: Writer<T>, data: seq<byte>) {
    take(data).Got? ==> data == bytes(take(data).value) + take(data).rest
  }

  /** What a scan recovers is, byte for byte, a prefix of the data, if every frame read is exactly its bytes. */
  lemma {:induction false} ScanPrefix<T>(take: Reader<T>, bytes: Writer<T>, data: seq<byte>)
    requires forall d :: ExactAt(take, bytes, d)
    ensures Printed(bytes, Scan(take, data)) <= data
    decreases |data|
  {
    var f := take(data);
    if f.Got? && |f.rest| < |data| {
      assert ExactAt(take, bytes, data);
      ScanPrefix(take, bytes, f.rest);
      assert ([f.value] + Scan(take, f.rest))[1..] == Scan(take, f.rest);
      ConcatPrefix(bytes(f.value), Printed(bytes, Scan(take, f.rest)), f.rest);
    }
  }

  lemma ConcatPrefix(a: seq<byte>, b: seq<byte>, c: seq<byte>)
    requires b <= c
    ensures a + b <= a + c
  {
  }

  /** f is read back whatever follows it. */
  ghost predicate Rereadable<T>(take: Reader<T>, bytes: Writer<T>, f: T) {
    forall rest :: FrontAt(take, bytes, f, rest)
  }

  lemma OneReading<T>(take: Reader<T>, bytes: Writer<T>, f: T, g: T, r: seq<byte>)
    requires Rereadable(take, bytes, f) && Rereadable(take, bytes, g) && bytes(f) == bytes(g) + r
    ensures f == g && r == []
  {
    assert FrontAt(take, bytes, f, []) && FrontAt(take, bytes, g, r);
    assert bytes(f) + [] == bytes(f);
  }

  /** If all that is read is exact and would be read again, a cut frame is never read. */
  lemma CutRefused<T>(take: Reader<T>, bytes: Writer<T>, f: T, j: nat)
    requires Rereadable(take, bytes, f) && ExactAt(take, bytes, bytes(f)[..if j <= |bytes(f)| then j else 0])
    requires j < |bytes(f)| && take(bytes(f)[..j]).Got? ==> Rereadable(take, bytes, take(bytes(f)[..j]).value)
    ensures CutAt(take, bytes, f, j)
  {
    if j < |bytes(f)| && take(bytes(f)[..j]).Got? {
      var g, r, s := take(bytes(f)[..j]).value, take(bytes(f)[..j]).rest, bytes(f)[j..];
      Regroup(bytes(g), r, s);
      assert bytes(f)[..j] + s == bytes(f);
      OneReading(take, bytes, f, g, r + s);
    }
  }
}
