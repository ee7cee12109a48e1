/**
 * Dot products of packed 8-bit and 4-bit values with a vector of reals
 * (core-runtime/src/engine/simd_matmul.rs): the scalar loops and the 8-lane kernels.
 */
module SimdDot {
  import opened MachineWords

  function Times(x: real, y: real): real { x * y }

  // A byte of 8-bit data is a number; a byte of 4-bit data is masked and shifted, so a bit vector.

  /** A byte read as a signed 8-bit integer. */
  function AsI8(b: Byte): int { if b < 128 then b else b - 256 }

  function AsU8(n: int): Byte
    requires -128 <= n < 128
  {
    if n < 0 then n + 256 else n
  }

  function LowNibble(b: bv8): int { (b & 0x0F) as int - 8 }

  function HighNibble(b: bv8): int { (b >> 4) as int - 8 }

  function Pack(low: bv8, high: bv8): bv8 { (high << 4) | (low & 0x0F) }

  /** The value stored at position `k` of packed data: two to a byte, low half first. */
  function Nibble(q: seq<bv8>, k: nat): int
    requires k < 2 * |q|
  {
    if k % 2 == 0 then LowNibble(q[k / 2]) else HighNibble(q[k / 2])
  }

  function Decode8(q: seq<Byte>): (v: seq<int>)
    ensures |v| == |q| && forall k | 0 <= k < |q| :: v[k] == AsI8(q[k])
  {
    seq(|q|, k requires 0 <= k < |q| => AsI8(q[k]))
  }

  function Decode4(q: seq<bv8>): (v: seq<int>)
    ensures |v| == 2 * |q| && forall k | 0 <= k < 2 * |q| :: v[k] == Nibble(q, k)
  {
    seq(2 * |q|, k requires 0 <= k < 2 * |q| => Nibble(q, k))
  }

  /** Bytes are two's complement; of two packed values the first is in the low half, both stored with 8 added. */
  lemma StoredForms()
    ensures Decode8([255, 128, 127]) == [-1, -128, 127]
    ensures Decode4([0x21, 0xF0]) == [-7, -6, -8, 7]
  {
    var q: seq<bv8> := [0x21, 0xF0];
    assert Nibble(q, 0) == LowNibble(0x21) && Nibble(q, 1) == HighNibble(0x21);
    assert Nibble(q, 2) == LowNibble(0xF0) && Nibble(q, 3) == HighNibble(0xF0);
  }

  lemma BothNibbles(q: seq<bv8>, i: nat)
    requires i < |q|
    ensures Decode4(q)[2 * i] == LowNibble(q[i]) && Decode4(q)[2 * i + 1] == HighNibble(q[i])
  {
    assert (2 * i) / 2 == i && (2 * i + 1) / 2 == i;
  }

  lemma NibblesOfPack(low: bv8, high: bv8)
    requires low < 16 && high < 16
    ensures Pack(low, high) & 0x0F == low && Pack(low, high) >> 4 == high
  {
  }

  /** Packing two values and unpacking the byte gives them back. */
  lemma PackRoundTrip(low: int, high: int)
    requires -8 <= low < 8 && -8 <= high < 8
    ensures var b := Pack((low + 8) as bv8, (high + 8) as bv8);
            LowNibble(b) == low && HighNibble(b) == high
  {
    NibblesOfPack((low + 8) as bv8, (high + 8) as bv8);
  }

  // ---------------------------------------------------------------- sums

  function WeightedSum(v: seq<int>, x: seq<real>, n: nat): real
    requires n <= |v| && n <= |x|
  {
    if n == 0 then 0.0 else WeightedSum(v, x, n - 1) + Times(v[n - 1] as real, x[n - 1])
  }

  /** What every kernel computes: the common prefix, weighted, times the block's scale. */
  function ScaledSum(v: seq<int>, x: seq<real>, scale: real): real
  {
    Times(WeightedSum(v, x, Min(|v|, |x|)), scale)
  }

  lemma EightMore(v: seq<int>, x: seq<real>, m: nat)
    requires m + 8 <= |v| && m + 8 <= |x|
    ensures WeightedSum(v, x, m + 8) == WeightedSum(v, x, m)
              + Times(v[m] as real, x[m]) + Times(v[m + 1] as real, x[m + 1])
              + Times(v[m + 2] as real, x[m + 2]) + Times(v[m + 3] as real, x[m + 3])
              + Times(v[m + 4] as real, x[m + 4]) + Times(v[m + 5] as real, x[m + 5])
              + Times(v[m + 6] as real, x[m + 6]) + Times(v[m + 7] as real, x[m + 7])
  {
    hide Times;
    assert WeightedSum(v, x, m + 2) == WeightedSum(v, x, m + 1) + Times(v[m + 1] as real, x[m + 1]);
    assert WeightedSum(v, x, m + 4) == WeightedSum(v, x, m + 3) + Times(v[m + 3] as real, x[m + 3]);
    assert WeightedSum(v, x, m + 6) == WeightedSum(v, x, m + 5) + Times(v[m + 5] as real, x[m + 5]);
  }

  // ---------------------------------------------------------------- lanes

  /** The eight lanes folded in halves: 4, then 2, then 1. */
  function HorizontalSum(v: seq<real>): real
    requires |v| == 8
  {
    var s := [v[0] + v[4], v[1] + v[5], v[2] + v[6], v[3] + v[7]];
    var t := [s[0] + s[2], s[1] + s[3]];
    t[0] + t[1]
  }

  function MultiplyAdd(a: seq<int>, b: seq<real>, acc: seq<real>): (r: seq<real>)
    requires |a| == |b| == |acc| == 8
    ensures |r| == 8
  {
    seq(8, j requires 0 <= j < 8 => acc[j] + Times(a[j] as real, b[j]))
  }

  lemma LaneStep(v: seq<int>, x: seq<real>, m: nat, acc: seq<real>)
    requires m + 8 <= |v| && m + 8 <= |x| && |acc| == 8
    requires HorizontalSum(acc) == WeightedSum(v, x, m)
    ensures HorizontalSum(MultiplyAdd(v[m..m + 8], x[m..m + 8], acc)) == WeightedSum(v, x, m + 8)
  {
    hide Times;
    EightMore(v, x, m);
    hide WeightedSum;
    var r := MultiplyAdd(v[m..m + 8], x[m..m + 8], acc);
    assert r[0] == acc[0] + Times(v[m] as real, x[m]);
    assert r[1] == acc[1] + Times(v[m + 1] as real, x[m + 1]);
    assert r[2] == acc[2] + Times(v[m + 2] as real, x[m + 2]);
    assert r[3] == acc[3] + Times(v[m + 3] as real, x[m + 3]);
    assert r[4] == acc[4] + Times(v[m + 4] as real, x[m + 4]);
    assert r[5] == acc[5] + Times(v[m + 5] as real, x[m + 5]);
    assert r[6] == acc[6] + Times(v[m + 6] as real, x[m + 6]);
    assert r[7] == acc[7] + Times(v[m + 7] as real, x[m + 7]);
  }

  // ---------------------------------------------------------------- 8-bit kernels

  method DotQ8Scalar(q: seq<Byte>, x: seq<real>, scale: real) returns (r: real)
    ensures r == ScaledSum(Decode8(q), x, scale)
  {
    var sum := 0.0;
    for i := 0 to Min(|q|, |x|)
      invariant sum == WeightedSum(Decode8(q), x, i)
    {
      sum := sum + Times(AsI8(q[i]) as real, x[i]);
    }
    r := Times(sum, scale);
  }

  method LoadQ8(data: seq<Byte>) returns (lanes: seq<int>)
    requires |data| >= 8
    ensures lanes == Decode8(data)[..8]
  {
    lanes := seq(8, j requires 0 <= j < 8 => AsI8(data[j]));
  }

  /** Eight products at a time, then the remainder one by one: the scalar sum. */
  method DotQ8Avx2(q: seq<Byte>, x: seq<real>, scale: real) returns (r: real)
    ensures r == ScaledSum(Decode8(q), x, scale)
  {
    hide Times, WeightedSum, HorizontalSum, MultiplyAdd, AsI8;
    ghost var v := Decode8(q);
    var len := Min(|q|, |x|);
    var chunks := len / 8;
    var acc := seq(8, _ => 0.0);
    ZeroLanes(v, x);
    for i := 0 to chunks
      invariant |acc| == 8 && HorizontalSum(acc) == WeightedSum(v, x, 8 * i)
    {
      var lanes := LoadQ8(q[8 * i..8 * i + 8]);
      assert lanes == v[8 * i..8 * i + 8];
      LaneStep(v, x, 8 * i, acc);
      acc := MultiplyAdd(lanes, x[8 * i..8 * i + 8], acc);
    }
    var remainder := Remainder8(q, x, 8 * chunks, len);
    r := Times(HorizontalSum(acc) + remainder, scale);
  }

  lemma ZeroLanes(v: seq<int>, x: seq<real>)
    ensures HorizontalSum(seq(8, _ => 0.0)) == WeightedSum(v, x, 0)
  {
  }

  method Remainder8(q: seq<Byte>, x: seq<real>, start: nat, len: nat) returns (r: real)
    requires start <= len <= |q| && len <= |x|
    ensures WeightedSum(Decode8(q), x, start) + r == WeightedSum(Decode8(q), x, len)
  {
    r := 0.0;
    for i := start to len
      invariant WeightedSum(Decode8(q), x, start) + r == WeightedSum(Decode8(q), x, i)
    {
      r := r + Times(AsI8(q[i]) as real, x[i]);
    }
  }

  // ---------------------------------------------------------------- 4-bit kernels

  /** Bytes from `byteStart` against inputs from `valStart`, stopping where the input ends. */
  method ScalarQ4Remainder(q: seq<bv8>, x: seq<real>, byteStart: nat, valStart: nat) returns (sum: real)
    requires valStart == 2 * byteStart && byteStart <= |q|
    ensures if valStart <= |x|
            then WeightedSum(Decode4(q), x, valStart) + sum == WeightedSum(Decode4(q), x, Min(2 * |q|, |x|))
            else sum == 0.0
  {
    hide Times, LowNibble, HighNibble, Nibble;
    ghost var v := Decode4(q);
    sum := 0.0;
    for i := byteStart to |q|
      invariant if valStart <= |x| then WeightedSum(v, x, valStart) + sum == WeightedSum(v, x, Min(2 * i, |x|)) else sum == 0.0
    {
      var k := valStart + (i - byteStart) * 2;
      BothNibbles(q, i);
      if k < |x| {
        sum := sum + Times(LowNibble(q[i]) as real, x[k]);
      }
      if k + 1 < |x| {
        sum := sum + Times(HighNibble(q[i]) as real, x[k + 1]);
      }
    }
  }

  method DotQ4Scalar(q: seq<bv8>, x: seq<real>, scale: real) returns (r: real)
    ensures r == ScaledSum(Decode4(q), x, scale)
  {
    var sum := ScalarQ4Remainder(q, x, 0, 0);
    r := Times(sum, scale);
  }

  method UnpackQ4(packed: seq<bv8>) returns (out: seq<int>)
    requires |packed| == 4
    ensures out == Decode4(packed)
  {
    hide LowNibble, HighNibble;
    var a := new int[8](_ => 0);
    for i := 0 to 4
      invariant forall k | 0 <= k < 2 * i :: a[k] == Nibble(packed, k)
    {
      a[i * 2] := LowNibble(packed[i]);
      a[i * 2 + 1] := HighNibble(packed[i]);
      assert (2 * i) / 2 == i && (2 * i + 1) / 2 == i;
    }
    out := a[..];
  }

  /** Positions that take part: whole groups of lanes, and then as far as bytes and input go. */
  function LanesEnd(q: seq<bv8>, x: seq<real>): nat
  {
    if 8 * (|q| / 4) > |x| then 8 * (|q| / 4) else Min(2 * |q|, |x|)
  }

  /** The sum the lanes and the remainder give; `beyond` is what lies after the input. */
  function LaneSum(q: seq<bv8>, x: seq<real>, beyond: seq<real>, scale: real): real
    requires 8 * (|q| / 4) <= |x| + |beyond|
  {
    Times(WeightedSum(Decode4(q), x + beyond, LanesEnd(q, x)), scale)
  }

  /**
   * The lanes load eight inputs at a time whether or not the input has them, from offsets that must
   * lie within it. While they stay inside the input the result is the scalar sum.
   */
  method DotQ4Avx2(q: seq<bv8>, x: seq<real>, beyond: seq<real>, scale: real) returns (r: real)
    requires 8 * (|q| / 4) <= |x| + 8 && 8 * (|q| / 4) <= |x| + |beyond|
    ensures r == LaneSum(q, x, beyond, scale)
    ensures 8 * (|q| / 4) <= |x| ==> r == ScaledSum(Decode4(q), x, scale)
  {
    hide Times, WeightedSum, HorizontalSum, MultiplyAdd, LowNibble, HighNibble;
    ghost var v := Decode4(q);
    var memory := x + beyond;
    var chunks := |q| / 4;
    var acc := seq(8, _ => 0.0);
    ZeroLanes(v, memory);
    for i := 0 to chunks
      invariant |acc| == 8 && HorizontalSum(acc) == WeightedSum(v, memory, 8 * i)
    {
      var lanes := UnpackQ4(q[4 * i..4 * i + 4]);
      assert lanes == v[8 * i..8 * i + 8] by { FourBytes(q, i); }
      LaneStep(v, memory, 8 * i, acc);
      acc := MultiplyAdd(lanes, memory[8 * i..8 * i + 8], acc);
    }
    var remainder := ScalarQ4Remainder(q, x, 4 * chunks, 8 * chunks);
    if 8 * chunks <= |x| {
      SamePrefixSum(v, x, memory, 8 * chunks);
      SamePrefixSum(v, x, memory, Min(2 * |q|, |x|));
    }
    r := Times(HorizontalSum(acc) + remainder, scale);
  }

  lemma {:induction false} SamePrefixSum(v: seq<int>, x: seq<real>, y: seq<real>, n: nat)
    requires n <= |v| && n <= |x| && x <= y
    ensures WeightedSum(v, x, n) == WeightedSum(v, y, n)
  {
    hide Times;
    if n > 0 {
      SamePrefixSum(v, x, y, n - 1);
    }
  }

  lemma FourBytes(q: seq<bv8>, i: nat)
    requires 4 * i + 4 <= |q|
    ensures Decode4(q[4 * i..4 * i + 4]) == Decode4(q)[8 * i..8 * i + 8]
  {
    hide LowNibble, HighNibble;
    var a, b := Decode4(q[4 * i..4 * i + 4]), Decode4(q)[8 * i..8 * i + 8];
    forall k | 0 <= k < |a|
      ensures a[k] == b[k]
    {
      assert (8 * i + k) / 2 == 4 * i + k / 2 && (8 * i + k) % 2 == k % 2;
    }
  }

  // ---------------------------------------------------------------- lanes against scalar

  lemma {:induction false} SumOfZeros(v: seq<int>, x: seq<real>, n: nat)
    requires n <= |v| && n <= |x| && forall j | 0 <= j < n :: x[j] == 0.0
    ensures WeightedSum(v, x, n) == 0.0
  {
    if n > 0 {
      SumOfZeros(v, x, n - 1);
    }
  }

  /** Bytes whose two values are seven. */
  function Sevens(n: nat): (q: seq<bv8>)
    ensures |q| == n && forall j | 0 <= j < n :: q[j] == 255
  {
    seq(n, _ => 255 as bv8)
  }

  lemma SevensDecode(n: nat, k: nat)
    requires k < 2 * n
    ensures Decode4(Sevens(n))[k] == 7
  {
    assert LowNibble(255) == 7 && HighNibble(255) == 7 by { NibblesOfFull(); }
    hide LowNibble, HighNibble;
  }

  lemma NibblesOfFull()
    ensures LowNibble(255) == 7 && HighNibble(255) == 7
  {
  }

  /** Zeros and then a one: only what lies beyond the input counts. */
  lemma LanesTakeOneMore(len: nat)
    requires len % 8 == 7
    ensures var q, x := Sevens((len + 1) / 2), seq(len, _ => 0.0);
            8 * (|q| / 4) == len + 1 && LaneSum(q, x, [1.0], 1.0) == 7.0 && ScaledSum(Decode4(q), x, 1.0) == 0.0
  {
    hide Nibble;
    var q, x := Sevens((len + 1) / 2), seq(len, _ => 0.0);
    var v := Decode4(q);
    SumOfZeros(v, x, len);
    SumOfZeros(v, x + [1.0], len);
    SevensDecode((len + 1) / 2, len);
    assert WeightedSum(v, x + [1.0], len + 1) == WeightedSum(v, x + [1.0], len) + Times(v[len] as real, (x + [1.0])[len]);
  }

  ghost predicate LanesAgree(q: seq<bv8>, x: seq<real>, beyond: seq<real>, scale: real)
  {
    8 * (|q| / 4) <= |x| + |beyond| ==> LaneSum(q, x, beyond, scale) == ScaledSum(Decode4(q), x, scale)
  }

  lemma LanesDiffer(len: nat)
    requires len % 8 == 7
    ensures !LanesAgree(Sevens((len + 1) / 2), seq(len, _ => 0.0), [1.0], 1.0)
  {
    hide LaneSum, ScaledSum;
    LanesTakeOneMore(len);
  }

  lemma WholeLanes(len: nat)
    requires len % 8 != 7
    ensures 8 * ((len + 1) / 2 / 4) <= len <= 2 * ((len + 1) / 2)
  {
  }

  lemma LanesSame(q: seq<bv8>, x: seq<real>, beyond: seq<real>, scale: real)
    requires |q| == (|x| + 1) / 2 && |x| % 8 != 7
    ensures LanesAgree(q, x, beyond, scale)
  {
    hide WeightedSum, Times, Nibble;
    WholeLanes(|x|);
    SamePrefixSum(Decode4(q), x, x + beyond, |x|);
  }

  /** On blocks of `len` columns the lanes give the scalar sum, for all values and inputs, if and only if not seven are left over. */
  lemma LanesEqualScalar(len: nat)
    ensures (forall q, x, beyond, scale | |x| == len && |q| == (len + 1) / 2 :: LanesAgree(q, x, beyond, scale))
       <==> len % 8 != 7
  {
    hide LanesAgree;
    if len % 8 == 7 {
      LanesDiffer(len);
    } else {
      forall q, x, beyond, scale | |x| == len && |q| == (len + 1) / 2
        ensures LanesAgree(q, x, beyond, scale)
      {
        LanesSame(q, x, beyond, scale);
      }
    }
  }
}
