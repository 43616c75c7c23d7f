/** Fixed-width little-endian integers. */
module LittleEndian {
  import opened Bytes

  function Pow256(k: nat): (p: nat)
    ensures p > 0
  {
    if k == 0 then 1 else 256 * Pow256(k - 1)
  }

  /** The k low-order bytes of n, least significant first. */
  function ToLe(n: nat, k: nat): (b: seq<Byte>)
    ensures |b| == k
    decreases k
  {
    if k == 0 then [] else [n % 256] + ToLe(n / 256, k - 1)
  }

  function FromLe(b: seq<Byte>): (n: nat)
    decreases |b|
  {
    if b == [] then 0 else b[0] + 256 * FromLe(b[1..])
  }

  lemma {:induction false} FromLeBound(b: seq<Byte>)
    ensures FromLe(b) < Pow256(|b|)
    decreases |b|
  {
    if b != [] { FromLeBound(b[1..]); }
  }

  lemma {:induction false} FromToLe(n: nat, k: nat)
    requires n < Pow256(k)
    ensures FromLe(ToLe(n, k)) == n
    decreases k
  {
    if k > 0 {
      FromToLe(n / 256, k - 1);
      assert ToLe(n, k)[1..] == ToLe(n / 256, k - 1);
    }
  }

  lemma {:induction false} ToFromLe(b: seq<Byte>)
    ensures ToLe(FromLe(b), |b|) == b
    decreases |b|
  {
    if b != [] {
      ToFromLe(b[1..]);
      DivMod256(b[0], FromLe(b[1..]));
      assert b == [b[0]] + b[1..];
    }
  }

  lemma {:induction false} DivMod256(x: Byte, n: nat)
    ensures (x + 256 * n) % 256 == x && (x + 256 * n) / 256 == n
  {
  }

  lemma {:induction false} Widths()
    ensures Pow256(2) == 0x1_0000 && Pow256(4) == 0x1_0000_0000 && Pow256(8) == 0x1_0000_0000_0000_0000
  {
    assert Pow256(1) == 256;
    assert Pow256(2) == 0x1_0000;
    assert Pow256(3) == 0x100_0000;
    assert Pow256(4) == 0x1_0000_0000;
    assert Pow256(5) == 0x100_0000_0000;
    assert Pow256(6) == 0x1_0000_0000_0000;
    assert Pow256(7) == 0x100_0000_0000_0000;
  }

  // The bytes one by one.

  function Two(n: nat): seq<Byte> { [n % 256, n / 256 % 256] }

  function Four(n: nat): seq<Byte> { Two(n) + Two(n / 256 / 256) }

  function Eight(n: nat): seq<Byte> { Four(n) + Four(n / 256 / 256 / 256 / 256) }

  lemma {:induction false} TwoMore(n: nat, k: nat)
    ensures ToLe(n, k + 2) == Two(n) + ToLe(n / 256 / 256, k)
  {
    assert ToLe(n / 256, k + 1) == [n / 256 % 256] + ToLe(n / 256 / 256, k);
  }

  lemma {:induction false} TwoIs(n: nat)
    ensures ToLe(n, 2) == Two(n)
  {
    TwoMore(n, 0);
  }

  lemma {:induction false} FourIs(n: nat)
    ensures ToLe(n, 4) == Four(n)
  {
    TwoMore(n, 2);
    TwoIs(n / 256 / 256);
  }

  lemma {:induction false} EightIs(n: nat)
    ensures ToLe(n, 8) == Eight(n)
  {
    var m := n / 256 / 256;
    TwoMore(n, 6);
    TwoMore(m, 4);
    FourIs(m / 256 / 256);
    assert Two(n) + (Two(m) + Four(m / 256 / 256)) == Eight(n);
  }

  /** Two's complement. */
  function ToLeI64(x: I64): (b: seq<Byte>)
    ensures |b| == 8
  {
    ToLe(if x < 0 then x + U64_BOUND else x, 8)
  }

  function FromLeI64(b: seq<Byte>): (x: I64)
    requires |b| == 8
  {
    FromLeBound(b);
    Widths();
    var n := FromLe(b);
    if n >= I64_BOUND then n - U64_BOUND else n
  }

  lemma {:induction false} I64RoundTrip(x: I64)
    ensures FromLeI64(ToLeI64(x)) == x
  {
    Widths();
    FromToLe(if x < 0 then x + U64_BOUND else x, 8);
  }

  lemma {:induction false} I64Exact(b: seq<Byte>)
    requires |b| == 8
    ensures ToLeI64(FromLeI64(b)) == b
  {
    FromLeBound(b);
    Widths();
    ToFromLe(b);
  }
}
