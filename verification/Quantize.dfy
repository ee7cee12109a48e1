/**
 * Block quantization to 8 and 4 bits (core-runtime/src/engine/quantize.rs), over the reals, and how
 * far quantized entries and rows are from the originals.
 */
module Quantize {
  import opened MachineWords
  import opened SimdDot

  const BLOCK: nat := 32  // QUANT_BLOCK_SIZE

  function AbsR(x: real): real { if x < 0.0 then -x else x }

  /** Rounding to the nearest integer, halves away from zero. */
  function Round(x: real): int { if x >= 0.0 then (x + 0.5).Floor else -((-x + 0.5).Floor) }

  function Clamp(n: int, lo: int, hi: int): int { if n < lo then lo else if n > hi then hi else n }

  // ---------------------------------------------------------------- one value

  function ScaleOf(maxAbs: real, hi: int): real
    requires hi > 0
  {
    if maxAbs > 0.0 then maxAbs / (hi as real) else 1.0
  }

  /** A value as a multiple of the scale, between -(hi + 1) and hi. */
  function Quant(x: real, scale: real, hi: int): (q: int)
    requires scale != 0.0
    ensures hi >= 0 ==> -hi - 1 <= q <= hi
  {
    Clamp(Round(x / scale), -hi - 1, hi)
  }

  lemma RoundNear(x: real, hi: int)
    requires AbsR(x) <= hi as real
    ensures AbsR(x - Round(x) as real) <= 0.5 && -hi <= Round(x) <= hi
  {
  }

  /** Halves are rounded away from zero, and the two signs alike. */
  lemma RoundHalves(n: nat, x: real)
    ensures Round(n as real + 0.5) == n + 1
    ensures Round(-x) == -Round(x)
  {
  }

  lemma HalfStep(s: real, d: real)
    requires s > 0.0 && AbsR(d) <= 0.5
    ensures AbsR(d * s) <= s / 2.0
  {
    if d >= 0.0 {
      assert d * s <= 0.5 * s;
    } else {
      assert (-d) * s <= 0.5 * s;
    }
  }

  lemma DivBound(x: real, m: real, h: real)
    requires h > 0.0 && m > 0.0 && AbsR(x) <= m
    ensures m / h > 0.0 && AbsR(x / (m / h)) <= h && m / h / 2.0 == m / (2.0 * h)
  {
    var s := m / h;
    assert s * h == m;
    var y := x / s;
    assert y * s == x;
    assert y > h ==> y * s > h * s;
    assert y < -h ==> y * s < -h * s;
  }

  /** The value a quantized entry stands for. */
  function Dequant(q: int, scale: real): real { q as real * scale }

  /** Entry `k` of quantized data, scaled by its block. */
  function Entry(vals: seq<int>, scales: seq<real>, k: nat): real
    requires k < |vals| <= BLOCK * |scales|
  {
    Dequant(vals[k], scales[k / BLOCK])
  }

  lemma Undivide(x: real, s: real, q: real)
    requires s > 0.0
    ensures (x / s - q) * s == x - q * s
  {
    var y := x / s;
    assert y * s == x;
    assert (y - q) * s == y * s - q * s;
  }

  lemma ScaledError(x: real, s: real, q: int)
    requires s > 0.0 && AbsR(x / s - q as real) <= 0.5
    ensures AbsR(x - Dequant(q, s)) <= s / 2.0
  {
    hide AbsR;
    var d := x / s - q as real;
    HalfStep(s, d);
    Undivide(x, s, q as real);
    var e := d * s;
    assert e == x - Dequant(q, s);
  }

  /** Within range, rounding moves a value by at most half a step. */
  lemma StepError(x: real, s: real, hi: int)
    requires s > 0.0 && AbsR(x / s) <= hi as real
    ensures AbsR(x - Dequant(Quant(x, s, hi), s)) <= s / 2.0
  {
    var y := x / s;
    RoundNear(y, hi);
    var q := Quant(x, s, hi);
    assert q == Round(y);
    hide Round, Quant, AbsR, Dequant;
    ScaledError(x, s, q);
  }

  /** A quantized value is off by at most half a step of its block. */
  lemma QuantError(x: real, maxAbs: real, hi: int)
    requires hi > 0 && AbsR(x) <= maxAbs
    ensures var s := ScaleOf(maxAbs, hi);
            s > 0.0 && AbsR(x - Dequant(Quant(x, s, hi), s)) <= maxAbs / (2.0 * hi as real)
  {
    if maxAbs > 0.0 {
      hide Quant, Dequant;
      DivBound(x, maxAbs, hi as real);
      StepError(x, maxAbs / (hi as real), hi);
    } else {
      assert x == 0.0 && Quant(0.0, 1.0, hi) == 0;
      assert 0.0 / (2.0 * hi as real) == 0.0;
    }
  }

  // ---------------------------------------------------------------- blocks

  function MaxAbs(s: seq<real>): (m: real)
    ensures m >= 0.0
    ensures forall i | 0 <= i < |s| :: AbsR(s[i]) <= m
    ensures m > 0.0 ==> exists i :: 0 <= i < |s| && AbsR(s[i]) == m
  {
    if s == [] then 0.0
    else
      var m := MaxAbs(s[..|s| - 1]);
      if AbsR(s[|s| - 1]) > m then AbsR(s[|s| - 1]) else m
  }

  function Blocks(n: nat): (r: nat)
    ensures n <= BLOCK * r < n + BLOCK
  {
    (n + BLOCK - 1) / BLOCK
  }

  /** Block `b` of flat data; the last one may be short. */
  function BlockOf(data: seq<real>, b: nat): (block: seq<real>)
    requires BLOCK * b <= |data|
    ensures |block| <= BLOCK
  {
    if BLOCK * b + BLOCK <= |data| then data[BLOCK * b..BLOCK * b + BLOCK] else data[BLOCK * b..]
  }

  /**
   * `vals` and `scales` are the data quantized block by block of the flat list: padded with
   * zeros, one scale a block.
   */
  ghost predicate Quantized(data: seq<real>, vals: seq<int>, scales: seq<real>, hi: int)
    requires hi > 0
  {
    && |scales| == Blocks(|data|) && |vals| == BLOCK * |scales|
    && (forall b | 0 <= b < |scales| :: scales[b] == ScaleOf(MaxAbs(BlockOf(data, b)), hi) && scales[b] > 0.0)
    && (forall k | 0 <= k < |vals| :: vals[k] == (if k < |data| then Quant(data[k], scales[k / BLOCK], hi) else 0))
  }

  /** The error allowed to the entry at flat index `k`. */
  ghost function ErrorAt(data: seq<real>, hi: int, k: nat): real
    requires hi > 0 && k < |data|
  {
    MaxAbs(BlockOf(data, k / BLOCK)) / (2.0 * hi as real)
  }

  lemma Covers(data: seq<real>, vals: seq<int>, scales: seq<real>, hi: int)
    requires hi > 0 && Quantized(data, vals, scales, hi)
    ensures |data| <= |vals| == BLOCK * |scales|
  {
  }

  lemma ScalePositive(m: real, hi: int)
    requires m >= 0.0 && hi > 0
    ensures ScaleOf(m, hi) > 0.0
  {
  }

  /** All data have a quantized form. */
  lemma QuantizedExists(data: seq<real>, hi: int) returns (vals: seq<int>, scales: seq<real>)
    requires hi > 0
    ensures Quantized(data, vals, scales, hi)
  {
    hide Quant, ScaleOf, BlockOf;
    var n := Blocks(|data|);
    scales := seq(n, b requires 0 <= b < n => ScaleOf(MaxAbs(BlockOf(data, b)), hi));
    forall b | 0 <= b < n
      ensures scales[b] > 0.0
    {
      ScalePositive(MaxAbs(BlockOf(data, b)), hi);
    }
    vals := seq(BLOCK * n, k requires 0 <= k < BLOCK * n => if k < |data| then Quant(data[k], scales[k / BLOCK], hi) else 0);
  }

  lemma EntryValue(data: seq<real>, vals: seq<int>, scales: seq<real>, hi: int, k: nat)
    requires hi > 0 && Quantized(data, vals, scales, hi) && k < |vals|
    ensures |vals| == BLOCK * |scales| && k / BLOCK < |scales| && BLOCK * (k / BLOCK) <= |data|
    ensures scales[k / BLOCK] == ScaleOf(MaxAbs(BlockOf(data, k / BLOCK)), hi) > 0.0
    ensures vals[k] == if k < |data| then Quant(data[k], scales[k / BLOCK], hi) else 0
  {
    hide Quant, ScaleOf, Blocks, BlockOf;
  }

  lemma InBlock(data: seq<real>, k: nat)
    requires k < |data|
    ensures AbsR(data[k]) <= MaxAbs(BlockOf(data, k / BLOCK))
  {
    var b := k / BLOCK;
    assert BlockOf(data, b)[k - BLOCK * b] == data[k];
  }

  lemma EntryError(data: seq<real>, vals: seq<int>, scales: seq<real>, hi: int, k: nat)
    requires hi > 0 && Quantized(data, vals, scales, hi) && k < |data|
    ensures k < |vals| <= BLOCK * |scales| && AbsR(data[k] - Entry(vals, scales, k)) <= ErrorAt(data, hi, k)
  {
    hide Quantized, Quant, Dequant, ScaleOf, AbsR, BlockOf;
    Covers(data, vals, scales, hi);
    EntryValue(data, vals, scales, hi, k);
    InBlock(data, k);
    QuantError(data[k], MaxAbs(BlockOf(data, k / BLOCK)), hi);
  }

  // ---------------------------------------------------------------- rows

  /** Row entries against the input: exact, dequantized, and the error budget. */
  ghost function ExactRow(data: seq<real>, base: nat, x: seq<real>, n: nat): real
    requires n <= |x| && (n > 0 ==> base + n <= |data|)
  {
    if n == 0 then 0.0 else ExactRow(data, base, x, n - 1) + Times(data[base + n - 1], x[n - 1])
  }

  ghost function QuantRow(vals: seq<int>, scales: seq<real>, base: nat, x: seq<real>, n: nat): real
    requires n <= |x| && (n > 0 ==> base + n <= |vals| <= BLOCK * |scales|)
  {
    if n == 0 then 0.0
    else QuantRow(vals, scales, base, x, n - 1)
         + Times(Entry(vals, scales, base + n - 1), x[n - 1])
  }

  ghost function ErrorRow(data: seq<real>, hi: int, base: nat, x: seq<real>, n: nat): real
    requires hi > 0 && n <= |x| && (n > 0 ==> base + n <= |data|)
  {
    if n == 0 then 0.0
    else ErrorRow(data, hi, base, x, n - 1) + Times(ErrorAt(data, hi, base + n - 1), AbsR(x[n - 1]))
  }

  lemma TermError(a: real, b: real, e: real, x: real)
    requires AbsR(a - b) <= e
    ensures AbsR(Times(a, x) - Times(b, x)) <= Times(e, AbsR(x))
  {
    assert a * x - b * x == (a - b) * x;
    if x >= 0.0 {
      assert (a - b) * x <= e * x && -((a - b) * x) <= e * x by {
        assert (b - a) * x <= e * x;
      }
    } else {
      assert (a - b) * x == (b - a) * -x;
      assert (b - a) * -x <= e * -x && (a - b) * -x <= e * -x;
    }
  }

  lemma Triangle(a: real, b: real, e: real, c: real, d: real, f: real)
    requires AbsR(a - b) <= e && AbsR(c - d) <= f
    ensures AbsR(a + c - (b + d)) <= e + f
  {
  }

  lemma ZeroError()
    ensures AbsR(0.0 - 0.0) <= 0.0
  {
  }

  /** A row product of quantized entries differs from the exact one by at most its budget. */
  lemma {:induction false} RowError(data: seq<real>, vals: seq<int>, scales: seq<real>, hi: int, base: nat, x: seq<real>, n: nat)
    requires hi > 0 && Quantized(data, vals, scales, hi) && n <= |x| && (n > 0 ==> base + n <= |data|)
    ensures n > 0 ==> base + n <= |vals| <= BLOCK * |scales|
    ensures AbsR(ExactRow(data, base, x, n) - QuantRow(vals, scales, base, x, n)) <= ErrorRow(data, hi, base, x, n)
  {
    hide Quantized, ErrorAt, Entry, Times, AbsR;
    Covers(data, vals, scales, hi);
    if n > 0 {
      RowError(data, vals, scales, hi, base, x, n - 1);
      var k := base + n - 1;
      EntryError(data, vals, scales, hi, k);
      var d := Entry(vals, scales, k);
      TermError(data[k], d, ErrorAt(data, hi, k), x[n - 1]);
      Triangle(ExactRow(data, base, x, n - 1), QuantRow(vals, scales, base, x, n - 1), ErrorRow(data, hi, base, x, n - 1),
               Times(data[k], x[n - 1]), Times(d, x[n - 1]), Times(ErrorAt(data, hi, k), AbsR(x[n - 1])));
    } else {
      ZeroError();
    }
  }

  // ---------------------------------------------------------------- quantizing

  method FindMaxAbs(block: seq<real>) returns (m: real)
    ensures m == MaxAbs(block)
  {
    m := 0.0;
    for i := 0 to |block|
      invariant m == MaxAbs(block[..i])
    {
      assert block[..i + 1][..i] == block[..i];
      if AbsR(block[i]) > m {
        m := AbsR(block[i]);
      }
    }
    assert block[..|block|] == block;
  }

  method ChooseScale(block: seq<real>, hi: int) returns (scale: real)
    requires hi > 0
    ensures scale == ScaleOf(MaxAbs(block), hi) && scale > 0.0
  {
    var m := FindMaxAbs(block);
    scale := if m > 0.0 then m / (hi as real) else 1.0;
  }

  lemma QuantZero(scale: real, hi: int)
    requires scale > 0.0 && hi > 0
    ensures Quant(0.0, scale, hi) == 0
  {
    assert 0.0 / scale == 0.0;
  }

  /** The values of one block, `v[j]` for entry `j`, zeros after its end. */
  ghost predicate BlockDone(block: seq<real>, v: seq<int>, scale: real, hi: int)
    requires hi > 0
  {
    && |block| <= BLOCK == |v|
    && scale == ScaleOf(MaxAbs(block), hi) && scale > 0.0
    && forall j | 0 <= j < BLOCK :: v[j] == (if j < |block| then Quant(block[j], scale, hi) else 0)
  }

  method QuantizeBlock8(block: seq<real>) returns (q: seq<Byte>, scale: real)
    requires |block| <= BLOCK
    ensures BlockDone(block, Decode8(q), scale, 127)
  {
    hide Quant, ScaleOf;
    scale := ChooseScale(block, 127);
    q := [];
    for i := 0 to |block|
      invariant |q| == i
      invariant forall j | 0 <= j < i :: AsI8(q[j]) == Quant(block[j], scale, 127)
    {
      q := q + [AsU8(Quant(block[i], scale, 127))];
    }
    q := q + seq(BLOCK - |block|, _ => AsU8(0));
  }

  method QuantizeBlock4(block: seq<real>) returns (q: seq<bv8>, scale: real)
    requires |block| <= BLOCK
    ensures BlockDone(block, Decode4(q), scale, 7)
  {
    hide Quant, LowNibble, HighNibble, Pack, ScaleOf, Nibble;
    scale := ChooseScale(block, 7);
    QuantZero(scale, 7);
    var padded := block + seq(BLOCK - |block|, _ => 0.0);
    q := [];
    for i := 0 to BLOCK / 2
      invariant |q| == i
      invariant forall j | 0 <= j < 2 * i :: Decode4(q)[j] == Quant(padded[j], scale, 7)
    {
      var q0, q1 := Quant(padded[i * 2], scale, 7), Quant(padded[i * 2 + 1], scale, 7);
      var byte := Pack((q0 + 8) as bv8, (q1 + 8) as bv8);
      PackRoundTrip(q0, q1);
      AppendByte(q, byte);
      q := q + [byte];
    }
  }

  lemma AppendByte(q: seq<bv8>, b: bv8)
    ensures Decode4(q + [b]) == Decode4(q) + [LowNibble(b), HighNibble(b)]
  {
    hide LowNibble, HighNibble;
    BothNibbles(q + [b], |q|);
    forall k | 0 <= k < 2 * |q|
      ensures Decode4(q + [b])[k] == Decode4(q)[k]
    {
      assert (q + [b])[k / 2] == q[k / 2];
    }
  }

  /** The first `b` blocks of the data are done. */
  ghost predicate BlocksDone(data: seq<real>, v: seq<int>, scales: seq<real>, hi: int, b: nat)
    requires hi > 0
  {
    && b <= Blocks(|data|) && |scales| == b && |v| == BLOCK * b
    && forall i | 0 <= i < b :: BlockAt(data, v, scales, hi, i)
  }

  ghost predicate BlockAt(data: seq<real>, v: seq<int>, scales: seq<real>, hi: int, i: nat)
    requires hi > 0 && i < |scales| && |v| == BLOCK * |scales|
  {
    && BLOCK * i <= |data|
    && BlockDone(BlockOf(data, i), v[BLOCK * i..BLOCK * i + BLOCK], scales[i], hi)
  }

  lemma OneMoreBlock(data: seq<real>, v: seq<int>, scales: seq<real>, hi: int, b: nat, w: seq<int>, scale: real)
    requires hi > 0 && b < Blocks(|data|) && BlocksDone(data, v, scales, hi, b)
    requires BLOCK * b <= |data| && BlockDone(BlockOf(data, b), w, scale, hi)
    ensures BlocksDone(data, v + w, scales + [scale], hi, b + 1)
  {
    hide BlockDone, BlockOf;
    assert |w| == BLOCK by { DoneSize(BlockOf(data, b), w, scale, hi); }
    var v', scales' := v + w, scales + [scale];
    forall i | 0 <= i < b + 1
      ensures BlockAt(data, v', scales', hi, i)
    {
      if i < b {
        assert BlockAt(data, v, scales, hi, i);
        assert v'[BLOCK * i..BLOCK * i + BLOCK] == v[BLOCK * i..BLOCK * i + BLOCK];
      } else {
        assert v'[BLOCK * i..BLOCK * i + BLOCK] == w;
      }
    }
  }

  lemma DoneSize(block: seq<real>, v: seq<int>, scale: real, hi: int)
    requires hi > 0 && BlockDone(block, v, scale, hi)
    ensures |v| == BLOCK
  {
  }

  lemma EntryOfBlock(data: seq<real>, v: seq<int>, scales: seq<real>, hi: int, k: nat)
    requires hi > 0 && k < |v| == BLOCK * |scales| && |scales| == Blocks(|data|) && k / BLOCK < |scales|
    requires scales[k / BLOCK] > 0.0 && BlockAt(data, v, scales, hi, k / BLOCK)
    ensures v[k] == if k < |data| then Quant(data[k], scales[k / BLOCK], hi) else 0
  {
    hide Quant, ScaleOf;
    var b, j := k / BLOCK, k % BLOCK;
    assert v[BLOCK * b..BLOCK * b + BLOCK][j] == v[k];
    assert j < |BlockOf(data, b)| <==> k < |data|;
    assert k < |data| ==> BlockOf(data, b)[j] == data[k];
  }

  /** Block by block is the whole: the data are quantized. */
  lemma AllBlocks(data: seq<real>, v: seq<int>, scales: seq<real>, hi: int)
    requires hi > 0 && BlocksDone(data, v, scales, hi, Blocks(|data|))
    ensures Quantized(data, v, scales, hi)
  {
    hide Quant, ScaleOf, BlockOf, Blocks;
    forall b | 0 <= b < |scales|
      ensures scales[b] == ScaleOf(MaxAbs(BlockOf(data, b)), hi) && scales[b] > 0.0
    {
      assert BlockAt(data, v, scales, hi, b);
    }
    forall k | 0 <= k < |v|
      ensures v[k] == (if k < |data| then Quant(data[k], scales[k / BLOCK], hi) else 0)
    {
      assert BlockAt(data, v, scales, hi, k / BLOCK);
      EntryOfBlock(data, v, scales, hi, k);
    }
  }

  lemma JoinWords(q: seq<Byte>, r: seq<Byte>)
    ensures Decode8(q + r) == Decode8(q) + Decode8(r)
  {
    hide AsI8;
  }

  method QuantizeQ8(data: seq<real>) returns (q: seq<Byte>, scales: seq<real>)
    ensures Quantized(data, Decode8(q), scales, 127)
  {
    hide BlockAt, BlockDone, BlockOf, AsI8, Nibble;
    q, scales := [], [];
    var b := 0;
    while BLOCK * b < |data|
      invariant BlocksDone(data, Decode8(q), scales, 127, b)
    {
      var block, scale := QuantizeBlock8(BlockOf(data, b));
      OneMoreBlock(data, Decode8(q), scales, 127, b, Decode8(block), scale);
      JoinWords(q, block);
      q, scales, b := q + block, scales + [scale], b + 1;
    }
    AllBlocks(data, Decode8(q), scales, 127);
  }

  lemma JoinBytes(q: seq<bv8>, r: seq<bv8>)
    ensures Decode4(q + r) == Decode4(q) + Decode4(r)
  {
    hide LowNibble, HighNibble;
    var a, b := Decode4(q + r), Decode4(q) + Decode4(r);
    forall k | 0 <= k < |a|
      ensures a[k] == b[k]
    {
      if k >= 2 * |q| {
        assert (k - 2 * |q|) / 2 == k / 2 - |q| && (k - 2 * |q|) % 2 == k % 2;
      }
    }
  }

  method QuantizeQ4(data: seq<real>) returns (q: seq<bv8>, scales: seq<real>)
    ensures Quantized(data, Decode4(q), scales, 7)
  {
    hide BlockAt, BlockDone, BlockOf, AsI8, Nibble;
    q, scales := [], [];
    var b := 0;
    while BLOCK * b < |data|
      invariant BlocksDone(data, Decode4(q), scales, 7, b)
    {
      var block, scale := QuantizeBlock4(BlockOf(data, b));
      OneMoreBlock(data, Decode4(q), scales, 7, b, Decode4(block), scale);
      JoinBytes(q, block);
      q, scales, b := q + block, scales + [scale], b + 1;
    }
    AllBlocks(data, Decode4(q), scales, 7);
  }
}
