/** Basic values: bytes, fixed-width little-endian integers, public keys and their order, socket
    addresses, instants.

    A public key is an array of 32 bytes. Rust orders such arrays lexicographically; `Rank` is
    the big-endian value of the array, and `RankIsArrayOrder` shows that comparing ranks is that
    order. The rest of the project compares keys by rank.
 */
module Bytes {

  newtype byte = x: int | 0 <= x < 256

  type u16 = x: int | 0 <= x < 0x1_0000
  type u32 = x: int | 0 <= x < 0x1_0000_0000

  type PublicKey = s: seq<byte> | |s| == 32 witness seq(32, _ => 0)
  type Signature = s: seq<byte> | |s| == 64 witness seq(64, _ => 0)

  datatype Addr = Addr(ip: (byte, byte, byte, byte), port: u16)

  datatype Option<+T> = None | Some(value: T)

  /** A reading of the monotonic clock, in milliseconds. */
  type Instant = nat

  /** Time since an instant; zero for one that lies ahead. */
  function Elapsed(now: Instant, since: Instant): (ms: nat) { if now < since then 0 else now - since }

  // ----- little-endian integers

  function Pow256(n: nat): (p: nat)
    ensures p > 0
  {
    if n == 0 then 1 else 256 * Pow256(n - 1)
  }

  /** The `n` low-order bytes of `v`, least significant first. */
  function ToLe(v: nat, n: nat): (b: seq<byte>)
    ensures |b| == n
  {
    if n == 0 then [] else [(v % 256) as byte] + ToLe(v / 256, n - 1)
  }

  function FromLe(b: seq<byte>): (v: nat)
  {
    if b == [] then 0 else b[0] as nat + 256 * FromLe(b[1..])
  }

  lemma {:induction false} DecodeEncoded(v: nat, n: nat)
    requires v < Pow256(n)
    ensures FromLe(ToLe(v, n)) == v
  {
    if n == 0 {
    } else {
      DecodeEncoded(v / 256, n - 1);
      assert ToLe(v, n)[1..] == ToLe(v / 256, n - 1);
    }
  }

  lemma {:induction false} EncodeDecoded(b: seq<byte>)
    ensures FromLe(b) < Pow256(|b|)
    ensures ToLe(FromLe(b), |b|) == b
  {
    if b == [] {
    } else {
      EncodeDecoded(b[1..]);
      assert FromLe(b) / 256 == FromLe(b[1..]);
      assert b == [b[0]] + b[1..];
    }
  }

  function U16Bytes(v: u16): (b: seq<byte>) ensures |b| == 2 { ToLe(v, 2) }
  function U32Bytes(v: u32): (b: seq<byte>) ensures |b| == 4 { ToLe(v, 4) }

  function BytesU16(b: seq<byte>): (v: u16)
    requires |b| == 2
  {
    EncodeDecoded(b); assert Pow256(2) == 0x1_0000;
    FromLe(b)
  }

  function BytesU32(b: seq<byte>): (v: u32)
    requires |b| == 4
  {
    EncodeDecoded(b); assert Pow256(4) == 0x1_0000_0000;
    FromLe(b)
  }

  const TWO_64: int := 0x1_0000_0000_0000_0000
  const TWO_63: int := 0x8000_0000_0000_0000

  /** The eight bytes of a two's-complement 64-bit integer; a value outside the range wraps. */
  function I64Bytes(v: int): (b: seq<byte>) ensures |b| == 8 { ToLe(v % TWO_64, 8) }

  function BytesI64(b: seq<byte>): (v: int)
    requires |b| == 8
  {
    var u := FromLe(b);
    if u < TWO_63 then u else u - TWO_64
  }

  lemma {:induction false} U16RoundTrip(v: u16, b: seq<byte>)
    requires |b| == 2
    ensures BytesU16(U16Bytes(v)) == v
    ensures U16Bytes(BytesU16(b)) == b
  {
    assert Pow256(2) == 0x1_0000;
    DecodeEncoded(v, 2);
    EncodeDecoded(b);
  }

  lemma {:induction false} U32RoundTrip(v: u32, b: seq<byte>)
    requires |b| == 4
    ensures BytesU32(U32Bytes(v)) == v
    ensures U32Bytes(BytesU32(b)) == b
  {
    assert Pow256(4) == 0x1_0000_0000;
    DecodeEncoded(v, 4);
    EncodeDecoded(b);
  }

  lemma {:induction false} I64RoundTrip(v: int, b: seq<byte>)
    requires -TWO_63 <= v < TWO_63
    requires |b| == 8
    ensures BytesI64(I64Bytes(v)) == v
    ensures -TWO_63 <= BytesI64(b) < TWO_63
    ensures I64Bytes(BytesI64(b)) == b
  {
    assert Pow256(8) == TWO_64;
    DecodeEncoded(v % TWO_64, 8);
    EncodeDecoded(b);
  }

  // ----- the order of keys

  /** The value of a byte string read most significant byte first. */
  function Rank(s: seq<byte>): (r: nat)
    ensures r < Pow256(|s|)
  {
    if s == [] then 0 else 256 * Rank(s[..|s| - 1]) + s[|s| - 1] as nat
  }

  /** One more than the greatest rank of a key. */
  ghost function KeySpace(): (n: nat) { Pow256(32) }

  /** Arrays compare by their first differing byte. */
  ghost predicate ArrayLess(a: seq<byte>, b: seq<byte>)
    requires |a| == |b|
  {
    exists i | 0 <= i < |a| :: a[..i] == b[..i] && a[i] < b[i]
  }

  lemma {:induction false} RankInjective(a: seq<byte>, b: seq<byte>)
    requires |a| == |b|
    requires Rank(a) == Rank(b)
    ensures a == b
  {
    if a == [] {
    } else {
      var n := |a| - 1;
      RankInjective(a[..n], b[..n]);
      assert a == a[..n] + [a[n]] && b == b[..n] + [b[n]];
    }
  }

  lemma {:induction false} RankIsArrayOrder(a: seq<byte>, b: seq<byte>)
    requires |a| == |b|
    ensures Rank(a) < Rank(b) <==> ArrayLess(a, b)
  {
    if a == [] {
    } else {
      var n := |a| - 1;
      var a', b' := a[..n], b[..n];
      RankIsArrayOrder(a', b');
      if a' == b' {
        if a[n] < b[n] {
          assert a[..n] == b[..n];
        }
        if ArrayLess(a, b) {
          var i :| 0 <= i < |a| && a[..i] == b[..i] && a[i] < b[i];
          assert i == n;
        }
      } else {
        if Rank(a') == Rank(b') { RankInjective(a', b'); }
        if ArrayLess(a', b') {
          var i :| 0 <= i < n && a'[..i] == b'[..i] && a'[i] < b'[i];
          assert a[..i] == a'[..i] && b[..i] == b'[..i];
        }
        if ArrayLess(a, b) {
          var i :| 0 <= i < |a| && a[..i] == b[..i] && a[i] < b[i];
          assert i < n;
          assert a'[..i] == a[..i] && b'[..i] == b[..i];
        }
      }
    }
  }
}
