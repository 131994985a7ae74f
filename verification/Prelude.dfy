/** Results, byte strings and fixed-width big-endian integers shared by all components. */
module Prelude {
  import ModArith

  datatype Option<+T> = None | Some(value: T)

  datatype Result<+T, +E> = Ok(value: T) | Err(error: E)

  type Byte = b: int | 0 <= b < 256

  type Bytes = seq<Byte>

  type Bytes32 = b: Bytes | |b| == 32 witness seq(32, _ => 0)

  const TWO_16: nat := 0x1_0000
  const TWO_32: nat := 0x1_0000_0000
  const TWO_63: int := 0x8000_0000_0000_0000
  const TWO_64: nat := 0x1_0000_0000_0000_0000

  type Uint16 = v: nat | v < TWO_16
  type Uint32 = v: nat | v < TWO_32
  type Uint64 = v: nat | v < TWO_64
  type Int64 = v: int | -TWO_63 <= v < TWO_63

  /** Saving to a store; a failed save may or may not have reached the disk. */
  datatype SaveOutcome = Saved | FailedLost | FailedKept

  /** The two's-complement int64 that an exact integer result is truncated to. */
  function Wrap64(v: int): (r: int)
    ensures -TWO_63 <= r < TWO_63
    ensures -TWO_63 <= v < TWO_63 ==> r == v
  {
    (v + TWO_63) % TWO_64 - TWO_63
  }

  function Pow256(k: nat): (p: nat)
    ensures p > 0
  {
    if k == 0 then 1 else 256 * Pow256(k - 1)
  }

  /** binary.BigEndian.PutUint16/PutUint64: the `len` low-order bytes, most significant first. */
  function ToBigEndian(v: nat, len: nat): (r: Bytes)
    ensures |r| == len
  {
    if len == 0 then [] else ToBigEndian(v / 256, len - 1) + [v % 256]
  }

  /** binary.BigEndian.Uint16/Uint64. */
  function FromBigEndian(b: Bytes): (v: nat)
    ensures v < Pow256(|b|)
  {
    if |b| == 0 then 0 else 256 * FromBigEndian(b[..|b| - 1]) + b[|b| - 1]
  }

  /** The most significant byte comes first. */
  lemma {:induction false} BigEndianBytes(v: nat, len: nat, i: nat)
    requires i < len
    ensures ToBigEndian(v, len)[i] == v / Pow256(len - 1 - i) % 256
  {
    if i < len - 1 {
      BigEndianBytes(v / 256, len - 1, i);
      DivDiv(v, Pow256(len - 2 - i));
    }
  }

  lemma DivDiv(v: nat, p: nat)
    requires p > 0
    ensures v / 256 / p == v / (256 * p)
  {
    var q := v / 256 / p;
    var r := v / 256 - q * p;
    var low := v % 256;
    assert v == q * (256 * p) + (256 * r + low);
    ModArith.DivModUnique(v, q, 256 * r + low, 256 * p);
  }

  lemma {:induction false} BigEndianRoundTrip(v: nat, len: nat)
    requires v < Pow256(len)
    ensures FromBigEndian(ToBigEndian(v, len)) == v
  {
    if len > 0 {
      BigEndianRoundTrip(v / 256, len - 1);
      assert ToBigEndian(v, len)[..len - 1] == ToBigEndian(v / 256, len - 1);
    }
  }

  lemma {:induction false} BigEndianCanonical(b: Bytes)
    ensures ToBigEndian(FromBigEndian(b), |b|) == b
  {
    if |b| > 0 {
      BigEndianCanonical(b[..|b| - 1]);
      var v := FromBigEndian(b);
      assert v / 256 == FromBigEndian(b[..|b| - 1]) && v % 256 == b[|b| - 1];
      assert b == b[..|b| - 1] + [b[|b| - 1]];
    }
  }

  lemma Pow256Values()
    ensures Pow256(2) == TWO_16
    ensures Pow256(8) == TWO_64
  {
    assert Pow256(4) == TWO_32;
    assert Pow256(6) == 0x1_0000_0000_0000;
  }

  lemma BigEndianInjective(v: Uint64, w: Uint64)
    requires ToBigEndian(v, 8) == ToBigEndian(w, 8)
    ensures v == w
  {
    Pow256Values();
    BigEndianRoundTrip(v, 8);
    BigEndianRoundTrip(w, 8);
  }

  predicate Distinct<T(==)>(s: seq<T>) {
    forall i, j :: 0 <= i < j < |s| ==> s[i] != s[j]
  }

  function Reverse<T>(s: seq<T>): (r: seq<T>)
    ensures |r| == |s|
    ensures forall i :: 0 <= i < |s| ==> r[i] == s[|s| - 1 - i]
  {
    seq(|s|, i requires 0 <= i < |s| => s[|s| - 1 - i])
  }
}
