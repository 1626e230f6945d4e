/** Little-endian integers, as the record formats lay them out in memory and on disk. */
module Bytes {
  import opened CacheTypes

  function Pow256(k: nat): (p: nat)
    ensures p > 0
  {
    if k == 0 then 1 else 256 * Pow256(k - 1)
  }

  /** The low k bytes of n, lowest first. */
  function Le(n: nat, k: nat): (s: seq<byte>)
    ensures |s| == k
  {
    if k == 0 then [] else [n % 256] + Le(n / 256, k - 1)
  }

  function UnLe(s: seq<byte>): (n: nat)
    ensures n < Pow256(|s|)
  {
    if s == [] then 0 else s[0] + 256 * UnLe(s[1..])
  }

  /** Reading back what was written gives the number, truncated to k bytes. */
  lemma {:induction false} UnLeOfLe(n: nat, k: nat)
    ensures UnLe(Le(n, k)) == n % Pow256(k)
  {
    if k > 0 {
      UnLeOfLe(n / 256, k - 1);
      assert Le(n, k)[1..] == Le(n / 256, k - 1);
      ModStep(n, Pow256(k - 1));
    }
  }

  lemma ModStep(n: nat, p: nat)
    requires p > 0
    ensures n % (256 * p) == n % 256 + 256 * ((n / 256) % p)
  {
    var q, r := n / 256 / p, n / 256 % p;
    assert n / 256 == q * p + r;
    assert n == q * (256 * p) + (256 * r + n % 256);
    assert 256 * r + n % 256 < 256 * p;
    DivModUnique(n, 256 * p, q, 256 * r + n % 256);
  }

  lemma DivModUnique(n: nat, d: nat, q: nat, r: nat)
    requires d > 0 && n == q * d + r && r < d
    ensures n % d == r && n / d == q
  {
    MulBound(n / d, q, d);
    MulBound(q, n / d, d);
  }

  lemma MulBound(a: nat, b: nat, d: nat)
    requires d > 0
    ensures a < b ==> a * d + d <= b * d
  {
    if a < b {
      assert (a + 1) * d <= b * d;
    }
  }

  /** Every k bytes are the encoding of their value. */
  lemma {:induction false} LeOfUnLe(s: seq<byte>)
    ensures Le(UnLe(s), |s|) == s
  {
    if s != [] {
      LeOfUnLe(s[1..]);
      var n := UnLe(s);
      assert n % 256 == s[0] && n / 256 == UnLe(s[1..]);
    }
  }

  const U32: nat := 0x1_0000_0000
  const U64: nat := 0x1_0000_0000_0000_0000

  lemma Widths()
    ensures Pow256(1) == 256 && Pow256(4) == U32 && Pow256(8) == U64
  {
    assert Pow256(1) == 256;
    assert Pow256(2) == 65536;
    assert Pow256(3) == 0x100_0000;
    assert Pow256(4) == U32;
    assert Pow256(5) == 0x100 * U32;
    assert Pow256(6) == 0x1_0000 * U32;
    assert Pow256(7) == 0x100_0000 * U32;
  }

  // ----- Reading fields off the front -----

  datatype Field<+T> = Short | Got(value: T, rest: seq<byte>)

  function Take(data: seq<byte>, n: nat): (f: Field<seq<byte>>)
    ensures f.Got? <==> |data| >= n
    ensures f.Got? ==> data == f.value + f.rest && |f.value| == n
  {
    if |data| < n then Short else Got(data[..n], data[n..])
  }

  function TakeInt(data: seq<byte>, k: nat): Field<nat> {
    match Take(data, k)
    case Short => Short
    case Got(bytes, rest) => Got(UnLe(bytes), rest)
  }

  lemma TakeFront(a: seq<byte>, rest: seq<byte>)
    ensures Take(a + rest, |a|) == Got(a, rest)
  {
  }

  /** A number that fits its field is read back, and the field is exactly its encoding. */
  lemma TakeIntFront(n: nat, k: nat, rest: seq<byte>)
    requires n < Pow256(k)
    ensures TakeInt(Le(n, k) + rest, k) == Got(n, rest)
  {
    UnLeOfLe(n, k);
    ModSmall(n, Pow256(k));
    TakeFront(Le(n, k), rest);
  }

  lemma ModSmall(n: nat, d: nat)
    requires n < d
    ensures n % d == n
  {
  }

  lemma TakeIntExact(data: seq<byte>, k: nat)
    requires TakeInt(data, k).Got?
    ensures var f := TakeInt(data, k); data == Le(f.value, k) + f.rest && f.value < Pow256(k)
  {
    LeOfUnLe(data[..k]);
  }

  // ----- Regrouping -----

  lemma Regroup(a: seq<byte>, b: seq<byte>, c: seq<byte>)
    ensures (a + b) + c == a + (b + c)
  {
  }

  lemma CutAfter(a: seq<byte>, b: seq<byte>, j: nat)
    requires j <= |a + b|
    ensures (a + b)[..j] == if j < |a| then a[..j] else a + b[..j - |a|]
  {
  }
}
