/**
The table-driven CRC-32, its bit-by-bit reference (section 8 of RFC 1952), and burst detection.
32-bit words are numbers below 2^32: `w / 256` is a right shift by 8 and `w % 256` the low byte.
*/
module Crc32 {
  import opened CacheTypes
  import opened Bytes

  type Word = w: nat | w < U32

  const POLYNOMIAL: Word := 0xEDB88320
  const ALL_ONES: Word := 0xFFFFFFFF

  // ----- Exclusive or -----

  function Xor(a: nat, b: nat): nat {
    if a == 0 then b else (if a % 2 == b % 2 then 0 else 1) + 2 * Xor(a / 2, b / 2)
  }

  lemma XorHalf(a: nat, b: nat)
    ensures Xor(a, b) % 2 == (if a % 2 == b % 2 then 0 else 1) && Xor(a, b) / 2 == Xor(a / 2, b / 2)
  {
    if a > 0 {
      LowAndHigh(if a % 2 == b % 2 then 0 else 1, Xor(a / 2, b / 2));
    }
  }

  lemma LowAndHigh(p: nat, x: nat)
    requires p < 2
    ensures (p + 2 * x) % 2 == p && (p + 2 * x) / 2 == x
  {
  }

  lemma {:induction false} XorZero(a: nat)
    ensures Xor(a, 0) == a && Xor(0, a) == a && Xor(a, a) == 0
  {
    if a > 0 {
      XorZero(a / 2);
    }
  }

  lemma {:induction false} XorComm(a: nat, b: nat)
    ensures Xor(a, b) == Xor(b, a)
    decreases a
  {
    if a == 0 {
      XorZero(b);
    } else {
      XorComm(a / 2, b / 2);
      XorHalf(b, a);
    }
  }

  lemma AssocParity(a: nat, b: nat, c: nat)
    ensures Xor(Xor(a, b), c) % 2 == Xor(a, Xor(b, c)) % 2
  {
    XorHalf(a, b);
    XorHalf(b, c);
    XorHalf(Xor(a, b), c);
    XorHalf(a, Xor(b, c));
  }

  lemma AssocHalf(a: nat, b: nat, c: nat)
    ensures Xor(Xor(a, b), c) / 2 == Xor(Xor(a / 2, b / 2), c / 2)
    ensures Xor(a, Xor(b, c)) / 2 == Xor(a / 2, Xor(b / 2, c / 2))
  {
    XorHalf(a, b);
    XorHalf(b, c);
    XorHalf(Xor(a, b), c);
    XorHalf(a, Xor(b, c));
  }

  lemma SameNumber(x: nat, y: nat)
    requires x % 2 == y % 2 && x / 2 == y / 2
    ensures x == y
  {
  }

  lemma {:induction false} XorAssoc(a: nat, b: nat, c: nat)
    ensures Xor(Xor(a, b), c) == Xor(a, Xor(b, c))
    decreases a
  {
    if a > 0 {
      XorAssoc(a / 2, b / 2, c / 2);
      AssocParity(a, b, c);
      AssocHalf(a, b, c);
      SameNumber(Xor(Xor(a, b), c), Xor(a, Xor(b, c)));
    }
  }

  lemma XorCancel(a: nat, b: nat, c: nat)
    requires Xor(a, b) == Xor(a, c)
    ensures b == c
  {
    XorAssoc(a, a, b);
    XorAssoc(a, a, c);
    XorZero(a);
  }

  function Pow2(k: nat): (p: nat)
    ensures p > 0
  {
    if k == 0 then 1 else 2 * Pow2(k - 1)
  }

  lemma {:induction false} XorBound(a: nat, b: nat, k: nat)
    requires a < Pow2(k) && b < Pow2(k)
    ensures Xor(a, b) < Pow2(k)
    decreases k
  {
    if k == 0 {
      assert a == 0;
    } else {
      XorBound(a / 2, b / 2, k - 1);
      XorHalf(a, b);
    }
  }

  lemma XorDouble(low: nat, rest: nat)
    requires Xor(low / 2, rest) == low / 2 + rest
    ensures Xor(low, 2 * rest) == low + 2 * rest
  {
    XorHalf(low, 2 * rest);
    assert (2 * rest) % 2 == 0 && (2 * rest) / 2 == rest;
    SameNumber(Xor(low, 2 * rest), low + 2 * rest);
  }

  lemma DoubleTimes(p: nat, h: nat)
    ensures (2 * p) * h == 2 * (p * h)
  {
  }

  /** A number is the exclusive or of its low k bits and the rest. */
  lemma {:induction false} XorSplit(low: nat, high: nat, k: nat)
    requires low < Pow2(k)
    ensures Xor(low, Pow2(k) * high) == low + Pow2(k) * high
    decreases k
  {
    if k == 0 {
    } else {
      XorSplit(low / 2, high, k - 1);
      XorDouble(low, Pow2(k - 1) * high);
      DoubleTimes(Pow2(k - 1), high);
    }
  }

  lemma Powers()
    ensures Pow2(8) == 256 && Pow2(31) == 0x8000_0000 && Pow2(32) == U32
  {
    PowerAdd(8, 8);
    PowerAdd(16, 8);
    PowerAdd(24, 7);
    assert Pow2(4) == 16;
    assert Pow2(7) == 128;
  }

  lemma {:induction false} PowerAdd(j: nat, k: nat)
    ensures Pow2(j + k) == Pow2(j) * Pow2(k)
    decreases k
  {
    if k > 0 {
      PowerAdd(j, k - 1);
    }
  }

  // ----- The reference: reflected division, one message bit at a time -----

  /** One division step: shift the lowest bit out, subtract the polynomial if it was set. */
  function Shift(c: nat): nat {
    if c % 2 == 1 then Xor(POLYNOMIAL, c / 2) else c / 2
  }

  /** Divides the low n bits of w, lowest first, into the remainder c. */
  function Feed(c: nat, w: nat, n: nat): nat
    decreases n, c
  {
    if n == 0 then c else Feed(Shift(Xor(c, w % 2)), w / 2, n - 1)
  }

  function Divide(c: nat, message: seq<byte>): nat
    decreases |message|
  {
    if message == [] then c else Divide(Feed(c, message[0], 8), message[1..])
  }

  function Crc(message: seq<byte>): nat {
    Xor(Divide(ALL_ONES, message), ALL_ONES)
  }

  // ----- Many shifts at once -----

  function Shifts(c: nat, n: nat): nat
    decreases n, c
  {
    if n == 0 then c else Shifts(Shift(c), n - 1)
  }

  lemma ShiftLinear(c: nat, d: nat)
    ensures Shift(Xor(c, d)) == Xor(Shift(c), Shift(d))
  {
    var p, a, b := POLYNOMIAL, c / 2, d / 2;
    XorHalf(c, d);
    XorAssoc(p, a, b);
    XorComm(p, a);
    XorAssoc(a, p, b);
    XorAssoc(a, p, Xor(p, b));
    XorAssoc(p, p, b);
    XorZero(p);
  }

  lemma {:induction false} ShiftsLinear(c: nat, d: nat, n: nat)
    ensures Shifts(Xor(c, d), n) == Xor(Shifts(c, n), Shifts(d, n))
    decreases n
  {
    if n > 0 {
      ShiftLinear(c, d);
      ShiftsLinear(Shift(c), Shift(d), n - 1);
    }
  }

  lemma {:induction false} ShiftsAdd(c: nat, m: nat, n: nat)
    ensures Shifts(c, m + n) == Shifts(Shifts(c, m), n)
    decreases m
  {
    if m > 0 {
      ShiftsAdd(Shift(c), m - 1, n);
    }
  }

  lemma ShiftEven(x: nat)
    ensures Shift(2 * x) == x
  {
  }

  /** Low zero bits are simply shifted out. */
  lemma {:induction false} ShiftsHigh(high: nat, n: nat)
    ensures Shifts(Pow2(n) * high, n) == high
    decreases n
  {
    if n > 0 {
      hide Xor;
      DoubleTimes(Pow2(n - 1), high);
      ShiftEven(Pow2(n - 1) * high);
      ShiftsHigh(high, n - 1);
    }
  }

  /** Shifting out n bits: the low ones are divided, the high ones slide down. */
  lemma ShiftsSplit(c: nat, low: nat, high: nat, n: nat)
    requires low < Pow2(n)
    ensures Shifts(Xor(c, low + Pow2(n) * high), n) == Xor(Shifts(Xor(c, low), n), high)
  {
    XorSplit(low, high, n);
    XorAssoc(c, low, Pow2(n) * high);
    ShiftsLinear(Xor(c, low), Pow2(n) * high, n);
    ShiftsHigh(high, n);
  }

  /** Feeding n bits one by one is adding them all first and shifting n times. */
  lemma {:induction false} FeedIsShifts(c: nat, w: nat, n: nat)
    requires w < Pow2(n)
    ensures Feed(c, w, n) == Shifts(Xor(c, w), n)
    decreases n
  {
    if n == 0 {
      XorZero(c);
    } else {
      assert Pow2(1) == 2;
      ShiftsSplit(c, w % 2, w / 2, 1);
      assert w == w % 2 + Pow2(1) * (w / 2);
      assert forall x :: Shifts(x, 1) == Shift(x);
      assert Shift(Xor(c, w)) == Xor(Shift(Xor(c, w % 2)), w / 2);
      FeedIsShifts(Shift(Xor(c, w % 2)), w / 2, n - 1);
    }
  }

  /** One byte fed, seen from the whole number it starts. */
  lemma ByteSplit(c: nat, b: byte, high: nat)
    ensures Shifts(Xor(c, b + 256 * high), 8) == Xor(Feed(c, b, 8), high)
    ensures Feed(c, b, 8) == Shifts(Xor(c, b), 8)
  {
    Powers();
    FeedIsShifts(c, b, 8);
    ShiftsSplit(c, b, high, 8);
  }

  lemma NoShifts(c: nat)
    ensures Shifts(c, 0) == c
  {
  }

  /** The remainder in closed form: the whole message, read as one number, shifted out at once. */
  lemma {:induction false} DivideIsShifts(c: nat, message: seq<byte>)
    ensures Divide(c, message) == Shifts(Xor(c, UnLe(message)), 8 * |message|)
    decreases |message|
  {
    hide Shifts, Feed, Xor;
    if message == [] {
      XorZero(c);
      NoShifts(c);
    } else {
      var b, rest, w := message[0], message[1..], Xor(c, UnLe(message));
      DivideIsShifts(Feed(c, b, 8), rest);
      ByteSplit(c, b, UnLe(rest));
      ShiftsAdd(w, 8, 8 * |rest|);
      calc {
        Divide(c, message);
        Divide(Feed(c, b, 8), rest);
        Shifts(Xor(Feed(c, b, 8), UnLe(rest)), 8 * |rest|);
        Shifts(Shifts(w, 8), 8 * |rest|);
        Shifts(w, 8 + 8 * |rest|);
      }
    }
  }

  // ----- The table -----

  /** One table-driven step equals eight reference steps. */
  lemma TableStep(c: nat, b: byte)
    ensures Xor(Shifts(Xor(c, b) % 256, 8), c / 256) == Feed(c, b, 8)
  {
    var x := Xor(c, b);
    XorQuarter(c, b);
    ByteSplit(0, x % 256, x / 256);
    ByteSplit(c, b, 0);
    XorZero(x);
    XorZero(x % 256);
  }

  lemma XorQuarter(c: nat, b: byte)
    ensures Xor(c, b) / 256 == c / 256
  {
    Powers();
    XorHigh(c, b, 8);
  }

  lemma {:induction false} XorHigh(c: nat, b: nat, k: nat)
    requires b < Pow2(k)
    ensures Xor(c, b) / Pow2(k) == c / Pow2(k)
    decreases k
  {
    if k == 0 {
      XorZero(c);
    } else {
      XorHalf(c, b);
      XorHigh(c / 2, b / 2, k - 1);
      HalfDiv(c, Pow2(k - 1));
      HalfDiv(Xor(c, b), Pow2(k - 1));
    }
  }

  lemma HalfDiv(c: nat, p: nat)
    requires p > 0
    ensures c / (2 * p) == (c / 2) / p
  {
    var q, r := c / 2 / p, c / 2 % p;
    assert c / 2 == q * p + r;
    assert c == q * (2 * p) + (2 * r + c % 2);
    DivModUnique(c, 2 * p, q, 2 * r + c % 2);
  }

  lemma ShiftBound(c: Word)
    ensures Shift(c) < U32
  {
    Powers();
    XorBound(POLYNOMIAL, c / 2, 32);
  }

  lemma {:induction false} ShiftsBound(c: Word, n: nat)
    ensures Shifts(c, n) < U32
    decreases n
  {
    if n > 0 {
      ShiftBound(c);
      ShiftsBound(Shift(c), n - 1);
    }
  }

  lemma WordXor(a: Word, b: Word)
    ensures Xor(a, b) < U32
  {
    Powers();
    XorBound(a, b, 32);
  }

  lemma {:induction false} DivideBound(c: Word, message: seq<byte>)
    ensures Divide(c, message) < U32
    decreases |message|
  {
    if message != [] {
      Powers();
      FeedIsShifts(c, message[0], 8);
      WordXor(c, message[0]);
      ShiftsBound(Xor(c, message[0]), 8);
      DivideBound(Feed(c, message[0], 8), message[1..]);
    }
  }

  lemma CrcBound(message: seq<byte>)
    ensures Crc(message) < U32
  {
    DivideBound(ALL_ONES, message);
    WordXor(Divide(ALL_ONES, message), ALL_ONES);
  }

  method BuildTable() returns (table: array<nat>)
    ensures fresh(table) && table.Length == 256
    ensures forall i | 0 <= i < 256 :: table[i] == Shifts(i, 8)
  {
    table := new nat[256];
    for i := 0 to 256
      invariant forall j | 0 <= j < i :: table[j] == Shifts(j, 8)
    {
      var c: nat := i;
      for k := 0 to 8
        invariant Shifts(c, 8 - k) == Shifts(i, 8)
      {
        c := if c % 2 == 1 then Xor(POLYNOMIAL, c / 2) else c / 2;
      }
      table[i] := c;
    }
  }

  lemma {:induction false} DivideConcat(c: nat, a: seq<byte>, b: seq<byte>)
    ensures Divide(c, a + b) == Divide(Divide(c, a), b)
    decreases |a|
  {
    if a == [] {
      assert a + b == b;
    } else {
      assert (a + b)[1..] == a[1..] + b;
      DivideConcat(Feed(c, a[0], 8), a[1..], b);
    }
  }

  /** The seeded loop over the table computes the reference remainder. */
  method ComputeSeeded(table: array<nat>, data: seq<byte>, seed: nat) returns (crc: nat)
    requires table.Length == 256 && forall i | 0 <= i < 256 :: table[i] == Shifts(i, 8)
    ensures crc == Divide(seed, data)
  {
    crc := seed;
    for i := 0 to |data|
      invariant crc == Divide(seed, data[..i])
    {
      TableStep(crc, data[i]);
      DivideConcat(seed, data[..i], [data[i]]);
      assert data[..i] + [data[i]] == data[..i + 1];
      assert Divide(crc, [data[i]]) == Feed(crc, data[i], 8);
      crc := Xor(table[Xor(crc, data[i]) % 256], crc / 256);
    }
    assert data[..|data|] == data;
  }

  /** The checksum the formats store. */
  method Compute(data: seq<byte>) returns (crc: nat)
    ensures crc == Crc(data) && crc < U32
  {
    var table := BuildTable();
    CrcBound(data);
    var r := ComputeSeeded(table, data, ALL_ONES);
    crc := Xor(r, ALL_ONES);
  }

  // ----- Burst detection -----

  lemma {:induction false} XorTop(x: nat, k: nat)
    requires x < Pow2(k)
    ensures forall p | Pow2(k) <= p < Pow2(k + 1) :: Xor(p, x) >= Pow2(k)
    decreases k
  {
    forall p | Pow2(k) <= p < Pow2(k + 1)
      ensures Xor(p, x) >= Pow2(k)
    {
      if k > 0 {
        XorTop(x / 2, k - 1);
        XorHalf(p, x);
        assert Xor(p / 2, x / 2) >= Pow2(k - 1);
      } else {
        assert p == 1 && x == 0;
        XorZero(p);
      }
    }
  }

  /** The polynomial's top bit tells whether a bit was shifted out, so a step can be undone. */
  lemma ShiftInjective(c: Word, d: Word)
    requires Shift(c) == Shift(d)
    ensures c == d
  {
    Powers();
    XorTop(c / 2, 31);
    XorTop(d / 2, 31);
    if c % 2 == 1 && d % 2 == 1 {
      XorCancel(POLYNOMIAL, c / 2, d / 2);
    }
  }

  lemma {:induction false} ShiftsInjective(c: Word, d: Word, n: nat)
    requires Shifts(c, n) == Shifts(d, n)
    ensures c == d
    decreases n
  {
    if n > 0 {
      ShiftBound(c);
      ShiftBound(d);
      ShiftsInjective(Shift(c), Shift(d), n - 1);
      ShiftInjective(c, d);
    }
  }

  lemma UnLeWord(x: seq<byte>)
    requires |x| <= 4
    ensures UnLe(x) < U32
  {
    Widths();
    assert Pow256(2) == 65536 && Pow256(3) == 0x100_0000;
  }

  /** Up to four bytes are determined by the remainder they lead to. */
  lemma ChunkInjective(c: Word, x: seq<byte>, y: seq<byte>)
    requires |x| == |y| <= 4 && Divide(c, x) == Divide(c, y)
    ensures x == y
  {
    UnLeWord(x);
    UnLeWord(y);
    DivideIsShifts(c, x);
    DivideIsShifts(c, y);
    WordXor(c, UnLe(x));
    WordXor(c, UnLe(y));
    ShiftsInjective(Xor(c, UnLe(x)), Xor(c, UnLe(y)), 8 * |x|);
    XorCancel(c, UnLe(x), UnLe(y));
    LeOfUnLe(x);
    LeOfUnLe(y);
  }

  /** Equal bytes keep different remainders different. */
  lemma {:induction false} SuffixInjective(c: Word, d: Word, s: seq<byte>)
    requires Divide(c, s) == Divide(d, s)
    ensures c == d
    decreases |s|
  {
    if s != [] {
      DivideBound(c, [s[0]]);
      DivideBound(d, [s[0]]);
      assert Divide(c, [s[0]]) == Feed(c, s[0], 8) && Divide(d, [s[0]]) == Feed(d, s[0], 8);
      SuffixInjective(Feed(c, s[0], 8), Feed(d, s[0], 8), s[1..]);
      Powers();
      FeedIsShifts(c, s[0], 8);
      FeedIsShifts(d, s[0], 8);
      WordXor(c, s[0]);
      WordXor(d, s[0]);
      ShiftsInjective(Xor(c, s[0]), Xor(d, s[0]), 8);
      XorComm(c, s[0]);
      XorComm(d, s[0]);
      XorCancel(s[0], c, d);
    }
  }

  /** Two different messages of one length that agree outside four consecutive bytes have different checksums. */
  lemma BurstDetected(a: seq<byte>, b: seq<byte>, i: nat)
    requires |a| == |b| && a != b
    requires forall j | 0 <= j < |a| && !(i <= j < i + 4) :: a[j] == b[j]
    ensures Crc(a) != Crc(b)
  {
    hide Divide, Xor;
    var lo := if i < |a| then i else |a|;
    var hi := if i + 4 < |a| then i + 4 else |a|;
    var p, x, y, s := a[..lo], a[lo..hi], b[lo..hi], a[hi..];
    assert a == p + (x + s) && b == p + (y + s);
    DivideConcat(ALL_ONES, p, x + s);
    DivideConcat(ALL_ONES, p, y + s);
    DivideBound(ALL_ONES, p);
    BurstInside(Divide(ALL_ONES, p), x, y, s);
    XorComm(Divide(ALL_ONES, a), ALL_ONES);
    XorComm(Divide(ALL_ONES, b), ALL_ONES);
    if Crc(a) == Crc(b) {
      XorCancel(ALL_ONES, Divide(ALL_ONES, a), Divide(ALL_ONES, b));
    }
  }

  lemma BurstInside(c: Word, x: seq<byte>, y: seq<byte>, s: seq<byte>)
    requires |x| == |y| <= 4 && x + s != y + s
    ensures Divide(c, x + s) != Divide(c, y + s)
  {
    DivideConcat(c, x, s);
    DivideConcat(c, y, s);
    DivideBound(c, x);
    DivideBound(c, y);
    if Divide(c, x + s) == Divide(c, y + s) {
      SuffixInjective(Divide(c, x), Divide(c, y), s);
      ChunkInjective(c, x, y);
    }
  }

  // ----- A known value -----

  /** Exclusive or with k ones is the complement in k bits. */
  lemma {:induction false} XorOnes(x: nat, k: nat)
    requires x < Pow2(k)
    ensures Xor(x, Pow2(k) - 1) == Pow2(k) - 1 - x
    decreases k
  {
    if k > 0 {
      XorOnes(x / 2, k - 1);
      XorHalf(x, Pow2(k) - 1);
      assert (Pow2(k) - 1) / 2 == Pow2(k - 1) - 1 && (Pow2(k) - 1) % 2 == 1;
      SameNumber(Xor(x, Pow2(k) - 1), Pow2(k) - 1 - x);
    }
  }

  /** The checksum of the bytes FF FF FF 7F is 12477CDF: register, polynomial and complement are those of the standard. */
  lemma CheckValue()
    ensures Crc([0xFF, 0xFF, 0xFF, 0x7F]) == 0x1247_7CDF
  {
    hide Xor, Shifts, Divide;
    var m: seq<byte> := [0xFF, 0xFF, 0xFF, 0x7F];
    Powers();
    assert UnLe(m) == 0x7FFF_FFFF by {
      assert m[1..] == [0xFF, 0xFF, 0x7F] && m[1..][1..] == [0xFF, 0x7F] && m[1..][1..][1..] == [0x7F];
      assert UnLe([0x7F]) == 0x7F;
      assert UnLe([0xFF, 0x7F]) == 0x7FFF;
      assert UnLe([0xFF, 0xFF, 0x7F]) == 0x7F_FFFF;
    }
    DivideIsShifts(ALL_ONES, m);
    XorComm(ALL_ONES, 0x7FFF_FFFF);
    XorOnes(0x7FFF_FFFF, 32);
    ShiftsAdd(0x8000_0000, 31, 1);
    ShiftsHigh(1, 31);
    LastShift();
    XorOnes(0xEDB8_8320, 32);
  }

  lemma LastShift()
    ensures Shifts(1, 1) == 0xEDB8_8320
  {
    XorZero(POLYNOMIAL);
    assert Shifts(1, 1) == Shifts(Shift(1), 0);
  }
}
