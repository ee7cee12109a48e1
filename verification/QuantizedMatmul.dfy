/**
 * Matrix-vector products over full-precision and quantized weights
 * (core-runtime/src/engine/quantize.rs), and how far they can be apart.
 */
module QuantizedMatmul {
  import opened MachineWords
  import opened SimdDot
  import opened Quantize

  // ---------------------------------------------------------------- products

  /** Columns that take part: the input may be shorter than the row. */
  function Width(cols: nat, x: seq<real>): nat { Min(cols, |x|) }

  lemma RowFits(i: nat, rows: nat, n: nat)
    requires i < rows
    ensures 0 <= i * n && i * n + n <= rows * n
  {
    assert (i + 1) * n <= rows * n;
  }

  /** The row products index no entry or block that is not there: the last row has the farthest one. */
  predicate Reachable(rows: nat, stride: nat, reach: nat, size: nat)
  {
    rows > 0 && reach > 0 ==> (rows - 1) * stride + reach <= size
  }

  lemma RowReachable(rows: nat, stride: nat, reach: nat, size: nat, i: nat)
    requires Reachable(rows, stride, reach, size) && i < rows
    ensures 0 <= i * stride && (reach > 0 ==> i * stride + reach <= size)
  {
    RowFits(i, rows, stride);
    assert rows * stride == (rows - 1) * stride + stride;
  }

  method MatmulF32(data: seq<real>, rows: nat, cols: nat, x: seq<real>, output: array<real>)
    requires Reachable(rows, cols, Width(cols, x), |data|) && rows <= output.Length
    modifies output
    ensures forall i | 0 <= i < rows :: ExactProduct(data, cols, x, Width(cols, x), i, output[i])
    ensures output[rows..] == old(output[rows..])
  {
    hide Reachable, ExactRow;
    for i := 0 to rows
      invariant forall k | 0 <= k < i :: ExactProduct(data, cols, x, Width(cols, x), k, output[k])
      invariant output[rows..] == old(output[rows..])
    {
      RowReachable(rows, cols, Width(cols, x), |data|, i);
      output[i] := RowF32(data, i * cols, x, Width(cols, x));
    }
  }

  method RowF32(data: seq<real>, base: nat, x: seq<real>, n: nat) returns (sum: real)
    requires n <= |x| && (n > 0 ==> base + n <= |data|)
    ensures sum == ExactRow(data, base, x, n)
  {
    sum := 0.0;
    for j := 0 to n
      invariant sum == ExactRow(data, base, x, j)
    {
      sum := sum + Times(data[base + j], x[j]);
    }
  }

  /** `r` is the exact product of row `i` with the first `n` inputs. */
  ghost predicate ExactProduct(data: seq<real>, cols: nat, x: seq<real>, n: nat, i: nat, r: real)
  {
    && n <= |x| && 0 <= i * cols && (n > 0 ==> i * cols + n <= |data|)
    && r == ExactRow(data, i * cols, x, n)
  }

  lemma EntryTerm(v: int, s: real, x: real, sum: real)
    ensures Times(sum + Times(v as real, x), s) == Times(sum, s) + Times(Dequant(v, s), x)
  {
    assert (sum + v as real * x) * s == sum * s + v as real * x * s;
    assert v as real * x * s == v as real * s * x;
  }

  /** One block's scaled sum is what the row gains over that block. */
  lemma {:induction false} BlockGain(vals: seq<int>, scales: seq<real>, base: nat, x: seq<real>, m: nat,
                                     v: seq<int>, y: seq<real>, n: nat)
    requires n <= BLOCK && (base + m) % BLOCK == 0
    requires base + m + n <= |vals| <= BLOCK * |scales| && m + n <= |x|
    requires n <= |v| && n <= |y| && (base + m) / BLOCK < |scales|
    requires forall j | 0 <= j < n :: v[j] == vals[base + m + j] && y[j] == x[m + j]
    ensures QuantRow(vals, scales, base, x, m + n)
         == QuantRow(vals, scales, base, x, m) + Times(WeightedSum(v, y, n), scales[(base + m) / BLOCK])
  {
    hide Times, Dequant, Entry;
    var s := scales[(base + m) / BLOCK];
    if n == 0 {
      ZeroTimes(s);
    } else {
      BlockGain(vals, scales, base, x, m, v, y, n - 1);
      EntryInBlock(vals, scales, base + m, n - 1);
      EntryTerm(v[n - 1], s, y[n - 1], WeightedSum(v, y, n - 1));
    }
  }

  lemma EntryInBlock(vals: seq<int>, scales: seq<real>, o: nat, j: nat)
    requires j < BLOCK && o % BLOCK == 0 && o + j < |vals| <= BLOCK * |scales|
    ensures o / BLOCK < |scales| && Entry(vals, scales, o + j) == Dequant(vals[o + j], scales[o / BLOCK])
  {
    hide Dequant;
    assert (o + j) / BLOCK == o / BLOCK;
  }

  lemma ZeroTimes(s: real)
    ensures Times(0.0, s) == 0.0
  {
  }

  /** Length of block `b` of a row that `n` columns of the input reach. */
  function BlockLength(n: nat, b: nat): (len: nat)
    ensures len <= BLOCK
  {
    if n <= BLOCK * b then 0 else Min(BLOCK, n - BLOCK * b)
  }

  /** The block at `b` holds `v` against the input part `y`. */
  ghost predicate BlockMatch(vals: seq<int>, first: nat, x: seq<real>, b: nat, v: seq<int>, y: seq<real>)
  {
    && |y| <= |v| && BLOCK * (first + b) + |y| <= |vals| && BLOCK * b + |y| <= |x|
    && forall j | 0 <= j < |y| :: v[j] == vals[BLOCK * (first + b) + j] && y[j] == x[BLOCK * b + j]
  }

  lemma BlockAdvance(vals: seq<int>, scales: seq<real>, first: nat, x: seq<real>, n: nat, b: nat, v: seq<int>, y: seq<real>)
    requires n <= |x| && BLOCK * first + n <= |vals| == BLOCK * |scales| && first + b < |scales|
    requires |y| == BlockLength(n, b) > 0 && BlockMatch(vals, first, x, b, v, y)
    ensures QuantRow(vals, scales, BLOCK * first, x, Min(BLOCK * b + BLOCK, n))
         == QuantRow(vals, scales, BLOCK * first, x, Min(BLOCK * b, n)) + ScaledSum(v, y, scales[first + b])
  {
    hide QuantRow, WeightedSum, Times;
    assert BLOCK * first + BLOCK * b == BLOCK * (first + b);
    BlockGain(vals, scales, BLOCK * first, x, BLOCK * b, v, y, |y|);
  }

  method DotQ8(avx2: bool, q: seq<Byte>, x: seq<real>, scale: real) returns (r: real)
    ensures r == ScaledSum(Decode8(q), x, scale)
  {
    if avx2 {
      r := DotQ8Avx2(q, x, scale);
    } else {
      r := DotQ8Scalar(q, x, scale);
    }
  }

  method RowQ8(avx2: bool, q: seq<Byte>, scales: seq<real>, first: nat, cols: nat, x: seq<real>) returns (sum: real)
    requires |q| == BLOCK * |scales| && (Width(cols, x) > 0 ==> first + Blocks(Width(cols, x)) <= |scales|)
    ensures sum == QuantRow(Decode8(q), scales, BLOCK * first, x, Width(cols, x))
  {
    hide QuantRow, ScaledSum, AsI8, Blocks;
    ghost var vals := Decode8(q);
    var n := Width(cols, x);
    NoColumns(vals, scales, BLOCK * first, x);
    sum := 0.0;
    for b := 0 to Blocks(cols)
      invariant sum == QuantRow(vals, scales, BLOCK * first, x, Min(BLOCK * b, n))
    {
      var len := BlockLength(n, b);
      if len > 0 {
        var o := BLOCK * (first + b);
        var qs, xs := q[o..o + len], x[BLOCK * b..BLOCK * b + len];
        var dot := DotQ8(avx2, qs, xs, scales[first + b]);
        BlockAdvance(vals, scales, first, x, n, b, Decode8(qs), xs);
        sum := sum + dot;
      }
    }
  }

  lemma NoColumns(vals: seq<int>, scales: seq<real>, base: nat, x: seq<real>)
    ensures QuantRow(vals, scales, base, x, 0) == 0.0
  {
  }

  // ---------------------------------------------------------------- 4-bit rows

  /** Columns the 4-bit kernels reach: the lanes take one more when seven are left over. */
  function Reach(avx2: bool, n: nat): nat { if avx2 && n % 8 == 7 then n + 1 else n }

  /** The 8-lane kernel reads no input beyond a block of `len` columns exactly when not seven are left over. */
  lemma LanesFit(len: nat)
    ensures 8 * ((len + 1) / 2 / 4) <= len <==> len % 8 != 7
    ensures 8 * ((len + 1) / 2 / 4) <= len + 1
  {
  }

  lemma ReachOfBlock(avx2: bool, n: nat, b: nat)
    requires BlockLength(n, b) > 0
    ensures BlockLength(Reach(avx2, n), b) == Reach(avx2, BlockLength(n, b)) <= BLOCK
    ensures Min(BLOCK * b, Reach(avx2, n)) == Min(BLOCK * b, n) == BLOCK * b
  {
    SameLeftOver(n - BLOCK * b, 4 * b);
    assert n == (n - BLOCK * b) + 8 * (4 * b);
  }

  lemma SameLeftOver(m: nat, k: nat)
    ensures (m + 8 * k) % 8 == m % 8
  {
  }

  /** A block against its part of the input, with what lies beyond that part. */
  method DotQ4(avx2: bool, q: seq<bv8>, x: seq<real>, beyond: seq<real>, scale: real) returns (r: real)
    requires |q| == (|x| + 1) / 2 && |beyond| >= 1
    ensures var n := Reach(avx2, |x|);
            n <= 2 * |q| && n <= |x| + 1 && r == ScaledSum(Decode4(q), (x + beyond)[..n], scale)
  {
    hide WeightedSum, Times, Nibble;
    LanesFit(|x|);
    ghost var n := Reach(avx2, |x|);
    ghost var y := (x + beyond)[..n];
    if avx2 {
      r := DotQ4Avx2(q, x, beyond, scale);
      SamePrefixSum(Decode4(q), y, x + beyond, n);
    } else {
      r := DotQ4Scalar(q, x, scale);
      assert y == x;
    }
  }

  /** The part of a row product that block `b` adds; `after` is what lies after the input. */
  method BlockQ4(avx2: bool, q: seq<bv8>, scales: seq<real>, first: nat, x: seq<real>, after: real, n: nat, b: nat)
    returns (dot: real)
    requires n <= |x| && 2 * |q| == BLOCK * |scales| && first + b < |scales| && BlockLength(n, b) > 0
    requires BLOCK * first + Reach(avx2, n) <= 2 * |q|
    ensures Reach(avx2, n) <= |x| + 1
    ensures QuantRow(Decode4(q), scales, BLOCK * first, x + [after], Min(BLOCK * b + BLOCK, Reach(avx2, n)))
         == QuantRow(Decode4(q), scales, BLOCK * first, x + [after], Min(BLOCK * b, Reach(avx2, n))) + dot
  {
    hide QuantRow, ScaledSum, Nibble, BlockMatch;
    var len := BlockLength(n, b);
    var o := BLOCK / 2 * (first + b);
    var packed := (len + 1) / 2;
    var k := BLOCK * b + len;
    var qs, xs, beyond := q[o..o + packed], x[BLOCK * b..k], x[k..] + [after];
    dot := DotQ4(avx2, qs, xs, beyond, scales[first + b]);
    ReachOfBlock(avx2, n, b);
    ghost var reach := Reach(avx2, len);
    ghost var y := (x + [after])[BLOCK * b..BLOCK * b + reach];
    assert (xs + beyond)[..reach] == y;
    PackedMatch(q, first, x + [after], b, o, packed, reach);
    BlockAdvance(Decode4(q), scales, first, x + [after], Reach(avx2, n), b, Decode4(qs), y);
  }

  method RowQ4(avx2: bool, q: seq<bv8>, scales: seq<real>, first: nat, cols: nat, x: seq<real>, after: real) returns (sum: real)
    requires 2 * |q| == BLOCK * |scales| && (Width(cols, x) > 0 ==> first + Blocks(Width(cols, x)) <= |scales|)
    ensures Reach(avx2, Width(cols, x)) <= |x| + 1
    ensures Width(cols, x) > 0 ==> BLOCK * first + Reach(avx2, Width(cols, x)) <= 2 * |q|
    ensures sum == QuantRow(Decode4(q), scales, BLOCK * first, x + [after], Reach(avx2, Width(cols, x)))
  {
    hide QuantRow, ScaledSum, Nibble, Blocks, BlockLength;
    ghost var vals := Decode4(q);
    var n := Width(cols, x);
    ghost var m := Reach(avx2, n);
    ReachInBlocks(avx2, n);
    NoColumns(vals, scales, BLOCK * first, x + [after]);
    sum := 0.0;
    for b := 0 to Blocks(cols)
      invariant sum == QuantRow(vals, scales, BLOCK * first, x + [after], Min(BLOCK * b, m))
    {
      BlockEdge(avx2, n, b);
      if BlockLength(n, b) > 0 {
        var dot := BlockQ4(avx2, q, scales, first, x, after, n, b);
        sum := sum + dot;
      }
    }
    ReachInColumns(avx2, n, cols);
  }

  lemma ReachInBlocks(avx2: bool, n: nat)
    ensures Reach(avx2, n) <= BLOCK * Blocks(n)
  {
    hide Blocks;
    SameLeftOver(0, 4 * Blocks(n));
    assert BLOCK * Blocks(n) == 8 * (4 * Blocks(n));
  }

  lemma ReachInColumns(avx2: bool, n: nat, cols: nat)
    requires n <= cols
    ensures Reach(avx2, n) <= BLOCK * Blocks(cols)
  {
    hide Blocks;
    SameLeftOver(0, 4 * Blocks(cols));
    assert BLOCK * Blocks(cols) == 8 * (4 * Blocks(cols));
  }

  lemma BlockEdge(avx2: bool, n: nat, b: nat)
    ensures BlockLength(n, b) > 0 ==> b < Blocks(n)
    ensures BlockLength(n, b) == 0 ==> n <= BLOCK * b && Reach(avx2, n) <= BLOCK * b
  {
    hide Blocks;
    SameLeftOver(0, 4 * b);
    assert BLOCK * b == 8 * (4 * b);
  }

  lemma PackedMatch(q: seq<bv8>, first: nat, x: seq<real>, b: nat, o: nat, packed: nat, len: nat)
    requires 2 * o == BLOCK * (first + b) && o + packed <= |q| && len <= 2 * packed && BLOCK * b + len <= |x|
    ensures BlockMatch(Decode4(q), first, x, b, Decode4(q[o..o + packed]), x[BLOCK * b..BLOCK * b + len])
  {
    hide Nibble;
    PackedSlice(q, o, packed);
    var v, y := Decode4(q)[2 * o..2 * o + 2 * packed], x[BLOCK * b..BLOCK * b + len];
    forall j | 0 <= j < len
      ensures v[j] == Decode4(q)[BLOCK * (first + b) + j] && y[j] == x[BLOCK * b + j]
    {
    }
  }

  lemma PackedSlice(q: seq<bv8>, o: nat, n: nat)
    requires o + n <= |q|
    ensures Decode4(q[o..o + n]) == Decode4(q)[2 * o..2 * o + 2 * n]
  {
    hide LowNibble, HighNibble;
    var a, b := Decode4(q[o..o + n]), Decode4(q)[2 * o..2 * o + 2 * n];
    forall k | 0 <= k < |a|
      ensures a[k] == b[k]
    {
      assert (2 * o + k) / 2 == o + k / 2 && (2 * o + k) % 2 == k % 2;
    }
  }

  // ---------------------------------------------------------------- all rows

  /** `r` is the product with the first `n` inputs of the entries that begin at block `i * Blocks(cols)`. */
  ghost predicate ProductRow(vals: seq<int>, scales: seq<real>, cols: nat, x: seq<real>, n: nat, i: nat, r: real)
  {
    && n <= |x| && 0 <= i * Blocks(cols)
    && (n > 0 ==> BLOCK * (i * Blocks(cols)) + n <= |vals| <= BLOCK * |scales|)
    && r == QuantRow(vals, scales, BLOCK * (i * Blocks(cols)), x, n)
  }

  method MatmulQ8(avx2: bool, q: seq<Byte>, scales: seq<real>, rows: nat, cols: nat, x: seq<real>, output: array<real>)
    requires |q| == BLOCK * |scales| && rows <= output.Length
    requires Reachable(rows, Blocks(cols), Blocks(Width(cols, x)), |scales|)
    modifies output
    ensures forall i | 0 <= i < rows :: ProductRow(Decode8(q), scales, cols, x, Width(cols, x), i, output[i])
    ensures output[rows..] == old(output[rows..])
  {
    hide QuantRow, Reachable, Blocks;
    for i := 0 to rows
      invariant forall k | 0 <= k < i :: ProductRow(Decode8(q), scales, cols, x, Width(cols, x), k, output[k])
      invariant output[rows..] == old(output[rows..])
    {
      RowReachable(rows, Blocks(cols), Blocks(Width(cols, x)), |scales|, i);
      output[i] := RowQ8(avx2, q, scales, i * Blocks(cols), cols, x);
    }
  }

  /**
   * With the lane kernel and seven columns left over, one more column takes part: the input that
   * follows the last one, which is `after` at the end of the input.
   */
  method MatmulQ4(avx2: bool, q: seq<bv8>, scales: seq<real>, rows: nat, cols: nat, x: seq<real>, after: real, output: array<real>)
    requires 2 * |q| == BLOCK * |scales| && rows <= output.Length
    requires Reachable(rows, Blocks(cols), Blocks(Width(cols, x)), |scales|)
    modifies output
    ensures forall i | 0 <= i < rows ::
              ProductRow(Decode4(q), scales, cols, x + [after], Reach(avx2, Width(cols, x)), i, output[i])
    ensures output[rows..] == old(output[rows..])
  {
    hide QuantRow, Reachable, Blocks;
    for i := 0 to rows
      invariant forall k | 0 <= k < i ::
                  ProductRow(Decode4(q), scales, cols, x + [after], Reach(avx2, Width(cols, x)), k, output[k])
      invariant output[rows..] == old(output[rows..])
    {
      RowReachable(rows, Blocks(cols), Blocks(Width(cols, x)), |scales|, i);
      output[i] := RowQ4(avx2, q, scales, i * Blocks(cols), cols, x, after);
    }
  }

  lemma {:induction false} SamePrefixRow(vals: seq<int>, scales: seq<real>, base: nat, x: seq<real>, y: seq<real>, n: nat)
    requires n <= |x| && x <= y && (n > 0 ==> base + n <= |vals| <= BLOCK * |scales|)
    ensures QuantRow(vals, scales, base, x, n) == QuantRow(vals, scales, base, y, n)
  {
    hide Times, Entry;
    if n > 0 {
      SamePrefixRow(vals, scales, base, x, y, n - 1);
    }
  }

  // ---------------------------------------------------------------- theorems

  /** Rows sit where the products look for them exactly when they fill whole blocks, or there is only one. */
  lemma RowsAligned(rows: nat, cols: nat)
    ensures (forall i | 0 <= i < rows :: BLOCK * (i * Blocks(cols)) == i * cols) <==> rows <= 1 || cols % BLOCK == 0
  {
    if cols % BLOCK == 0 {
      assert BLOCK * Blocks(cols) == cols;
      forall i | 0 <= i < rows
        ensures BLOCK * (i * Blocks(cols)) == i * cols
      {
        assert BLOCK * (i * Blocks(cols)) == i * (BLOCK * Blocks(cols));
      }
    } else if rows > 1 {
      assert BLOCK * (1 * Blocks(cols)) != 1 * cols;
    }
  }

  lemma AlignedBase(rows: nat, cols: nat, i: nat)
    requires i < rows && (rows <= 1 || cols % BLOCK == 0)
    ensures BLOCK * (i * Blocks(cols)) == i * cols
  {
    RowsAligned(rows, cols);
  }

  /**
   * A row of quantized entries against the exact row, when rows are where the products look for
   * them: within its budget, the sum over the columns of half a step of the entry's block times the
   * input's magnitude.
   */
  lemma ProductError(data: seq<real>, vals: seq<int>, scales: seq<real>, hi: int, rows: nat, cols: nat,
                     x: seq<real>, n: nat, i: nat)
    requires hi > 0 && Quantized(data, vals, scales, hi) && |data| == rows * cols
    requires rows <= 1 || cols % BLOCK == 0
    requires i < rows && n <= cols && n <= |x|
    ensures 0 <= i * cols && 0 <= i * Blocks(cols)
    ensures n > 0 ==> i * cols + n <= |data| && BLOCK * (i * Blocks(cols)) + n <= |vals| <= BLOCK * |scales|
    ensures AbsR(ExactRow(data, i * cols, x, n) - QuantRow(vals, scales, BLOCK * (i * Blocks(cols)), x, n))
         <= ErrorRow(data, hi, i * cols, x, n)
  {
    hide Quantized, Blocks, ExactRow, QuantRow, ErrorRow, AbsR;
    AlignedBase(rows, cols, i);
    RowFits(i, rows, cols);
    RowError(data, vals, scales, hi, i * cols, x, n);
  }

  lemma Commute(r: nat, c: nat, n: nat)
    requires c == BLOCK * n
    ensures r * c == BLOCK * (r * n)
  {
  }

  lemma BlockCount(data: seq<real>, vals: seq<int>, scales: seq<real>, hi: int)
    requires hi > 0 && Quantized(data, vals, scales, hi)
    ensures |scales| == Blocks(|data|)
  {
  }

  lemma MoreColumns(n: nat, cols: nat)
    requires n <= cols
    ensures Blocks(n) <= Blocks(cols)
  {
  }

  /** Rows of whole blocks, or a single row, have a stored block for each block of each row. */
  lemma BlocksStored(rows: nat, cols: nat, n: nat)
    requires (rows <= 1 || cols % BLOCK == 0) && n <= cols
    ensures 0 <= rows * cols && Reachable(rows, Blocks(cols), Blocks(n), Blocks(rows * cols))
  {
    RowFits(0, rows + 1, cols);
    MoreColumns(n, cols);
    if rows > 1 {
      Commute(rows, cols, Blocks(cols));
      assert (rows - 1) * Blocks(cols) + Blocks(cols) == rows * Blocks(cols);
    } else if rows == 1 {
      assert rows * cols == cols;
      assert (rows - 1) * Blocks(cols) == 0;
    }
  }

  // ---------------------------------------------------------------- the whole product

  datatype Format = F32 | Q8 | Q4

  /**
   * What row `i` of the products comes out as, `lanes` being the 4-bit lane kernel, is within the
   * row's budget of the exact product. `after` is the number that lies after the input.
   */
  ghost predicate RowWithin(lanes: bool, data: seq<real>, vals: seq<int>, scales: seq<real>, hi: int, cols: nat,
                            x: seq<real>, after: real, i: nat)
    requires hi > 0
  {
    var n := Width(cols, x);
    && 0 <= i * cols && 0 <= i * Blocks(cols) && Reach(lanes, n) <= |x| + 1
    && (n > 0 ==> i * cols + n <= |data| && BLOCK * (i * Blocks(cols)) + Reach(lanes, n) <= |vals| <= BLOCK * |scales|)
    && AbsR(ExactRow(data, i * cols, x, n)
            - QuantRow(vals, scales, BLOCK * (i * Blocks(cols)), x + [after], Reach(lanes, n)))
       <= ErrorRow(data, hi, i * cols, x, n)
  }

  /** The products run, and every row is within its budget. */
  ghost predicate Within(lanes: bool, data: seq<real>, vals: seq<int>, scales: seq<real>, hi: int, rows: nat, cols: nat,
                         x: seq<real>, after: real)
    requires hi > 0
  {
    && Reachable(rows, Blocks(cols), Blocks(Width(cols, x)), |scales|)
    && forall i | 0 <= i < rows :: RowWithin(lanes, data, vals, scales, hi, cols, x, after, i)
  }

  /** A shape and input length for which they do: whole blocks or one row, and no column too many. */
  predicate Sound(lanes: bool, rows: nat, cols: nat, m: nat)
  {
    rows == 0 || m == 0 || ((rows == 1 || cols % BLOCK == 0) && !(lanes && m < cols && m % 8 == 7))
  }

  lemma RowSnoc(vals: seq<int>, scales: seq<real>, base: nat, y: seq<real>, n: nat)
    requires n + 1 <= |y| && base + n + 1 <= |vals| <= BLOCK * |scales|
    ensures QuantRow(vals, scales, base, y, n + 1) == QuantRow(vals, scales, base, y, n) + Times(Entry(vals, scales, base + n), y[n])
  {
    hide Times, Entry;
  }

  /** Beyond the last column of a single row the entries are padding, which adds nothing. */
  lemma PaddingColumn(data: seq<real>, vals: seq<int>, scales: seq<real>, hi: int, y: seq<real>, n: nat)
    requires hi > 0 && Quantized(data, vals, scales, hi) && n == |data| < |vals| && n < |y|
    ensures |vals| <= BLOCK * |scales| && QuantRow(vals, scales, 0, y, n + 1) == QuantRow(vals, scales, 0, y, n)
  {
    hide Quantized, Quant, QuantRow;
    EntryValue(data, vals, scales, hi, n);
    assert Entry(vals, scales, n) == 0.0;
    RowSnoc(vals, scales, 0, y, n);
    ZeroTimes(y[n]);
  }

  lemma NotWhole(cols: nat)
    requires cols % 8 == 7
    ensures cols % BLOCK != 0
  {
  }

  lemma SoundRow(lanes: bool, data: seq<real>, vals: seq<int>, scales: seq<real>, hi: int, rows: nat, cols: nat,
                 x: seq<real>, after: real, i: nat)
    requires hi > 0 && |data| == rows * cols && Quantized(data, vals, scales, hi)
    requires rows <= 1 || cols % BLOCK == 0
    requires |x| > 0 && Sound(lanes, rows, cols, |x|) && i < rows
    ensures RowWithin(lanes, data, vals, scales, hi, cols, x, after, i)
  {
    hide Quantized, Blocks, ExactRow, QuantRow, ErrorRow, AbsR;
    var n, base := Width(cols, x), BLOCK * (i * Blocks(cols));
    ProductError(data, vals, scales, hi, rows, cols, x, n, i);
    SamePrefixRow(vals, scales, base, x, x + [after], n);
    if Reach(lanes, n) != n {
      // one more column than the row has: a single row, whose next entry is padding
      NotWhole(n);
      assert rows == 1 && i == 0 && rows * cols == cols == n && 0 * Blocks(cols) == 0;
      Covers(data, vals, scales, hi);
      ReachInBlocks(lanes, n);
      BlockCount(data, vals, scales, hi);
      PaddingColumn(data, vals, scales, hi, x + [after], n);
    }
  }

  lemma NoInput(lanes: bool, data: seq<real>, vals: seq<int>, scales: seq<real>, hi: int, rows: nat, cols: nat, after: real, i: nat)
    requires hi > 0 && i < rows
    ensures RowWithin(lanes, data, vals, scales, hi, cols, [], after, i)
  {
    RowFits(i, rows, cols);
    RowFits(i, rows, Blocks(cols));
  }

  lemma SoundWithin(lanes: bool, data: seq<real>, vals: seq<int>, scales: seq<real>, hi: int, rows: nat, cols: nat,
                    x: seq<real>, after: real)
    requires hi > 0 && |data| == rows * cols && Quantized(data, vals, scales, hi) && Sound(lanes, rows, cols, |x|)
    ensures Within(lanes, data, vals, scales, hi, rows, cols, x, after)
  {
    hide Quantized, RowWithin;
    BlockCount(data, vals, scales, hi);
    if rows > 0 && |x| > 0 {
      BlocksStored(rows, cols, Width(cols, x));
    } else {
      NoBlocks();
    }
    forall i | 0 <= i < rows
      ensures RowWithin(lanes, data, vals, scales, hi, cols, x, after, i)
    {
      if |x| > 0 {
        SoundRow(lanes, data, vals, scales, hi, rows, cols, x, after, i);
      } else {
        NoInput(lanes, data, vals, scales, hi, rows, cols, after, i);
      }
    }
  }

  lemma NoBlocks()
    ensures Blocks(0) == 0
  {
  }

  /** `r` is row `i`'s exact product, or for a quantized format within the row's budget of it. */
  ghost predicate Close(format: Format, data: seq<real>, cols: nat, x: seq<real>, i: nat, r: real)
  {
    var n := Width(cols, x);
    && 0 <= i * cols && (n > 0 ==> i * cols + n <= |data|)
    && var exact := ExactRow(data, i * cols, x, n);
       match format
       case F32 => r == exact
       case Q8 => AbsR(exact - r) <= ErrorRow(data, 127, i * cols, x, n)
       case Q4 => AbsR(exact - r) <= ErrorRow(data, 7, i * cols, x, n)
  }

  /**
   * Building a tensor in a format and multiplying by it. It runs (`ok`) exactly when every block the
   * input reaches is stored; in a sound shape it does, and every row is close to the exact product.
   */
  method Multiply(format: Format, avx2: bool, data: seq<real>, rows: nat, cols: nat, x: seq<real>, after: real, output: array<real>)
    returns (ok: bool)
    requires |data| == rows * cols && rows <= output.Length
    modifies output
    ensures ok <==> format == F32 || Reachable(rows, Blocks(cols), Blocks(Width(cols, x)), Blocks(|data|))
    ensures format == F32 || Sound(format == Q4 && avx2, rows, cols, |x|) ==>
              ok && forall i | 0 <= i < rows :: Close(format, data, cols, x, i, output[i])
    ensures output[rows..] == old(output[rows..])
  {
    hide Quantized, ProductRow, Blocks, Reachable, RowWithin, Close, ExactProduct, Sound;
    var n := Width(cols, x);
    match format
    case F32 =>
      ExactReachable(rows, cols, n);
      MatmulF32(data, rows, cols, x, output);
      ok := true;
      forall i | 0 <= i < rows
        ensures Close(format, data, cols, x, i, output[i])
      {
        CloseExact(data, cols, x, i, output[i]);
      }
    case Q8 =>
      var q, scales := QuantizeQ8(data);
      Covers(data, Decode8(q), scales, 127);
      BlockCount(data, Decode8(q), scales, 127);
      ok := Reachable(rows, Blocks(cols), Blocks(n), |scales|);
      if ok {
        MatmulQ8(avx2, q, scales, rows, cols, x, output);
      }
      if Sound(false, rows, cols, |x|) {
        SoundWithin(false, data, Decode8(q), scales, 127, rows, cols, x, after);
        forall i | 0 <= i < rows
          ensures Close(format, data, cols, x, i, output[i])
        {
          CloseQ8(data, Decode8(q), scales, cols, x, after, i, output[i]);
        }
      }
    case Q4 =>
      var q, scales := QuantizeQ4(data);
      Covers(data, Decode4(q), scales, 7);
      BlockCount(data, Decode4(q), scales, 7);
      ok := Reachable(rows, Blocks(cols), Blocks(n), |scales|);
      if ok {
        MatmulQ4(avx2, q, scales, rows, cols, x, after, output);
      }
      if Sound(avx2, rows, cols, |x|) {
        SoundWithin(avx2, data, Decode4(q), scales, 7, rows, cols, x, after);
        forall i | 0 <= i < rows
          ensures Close(format, data, cols, x, i, output[i])
        {
          CloseQ4(avx2, data, Decode4(q), scales, cols, x, after, i, output[i]);
        }
      }
  }

  lemma ExactReachable(rows: nat, cols: nat, n: nat)
    requires n <= cols
    ensures 0 <= rows * cols && Reachable(rows, cols, n, rows * cols)
  {
    RowFits(0, rows + 1, cols);
    assert rows > 0 ==> (rows - 1) * cols + cols == rows * cols;
  }

  lemma CloseExact(data: seq<real>, cols: nat, x: seq<real>, i: nat, r: real)
    requires ExactProduct(data, cols, x, Width(cols, x), i, r)
    ensures Close(F32, data, cols, x, i, r)
  {
    hide ExactRow;
  }

  lemma CloseQ8(data: seq<real>, vals: seq<int>, scales: seq<real>, cols: nat, x: seq<real>, after: real, i: nat, r: real)
    requires RowWithin(false, data, vals, scales, 127, cols, x, after, i)
    requires ProductRow(vals, scales, cols, x, Width(cols, x), i, r)
    ensures Close(Q8, data, cols, x, i, r)
  {
    hide Blocks, ExactRow, QuantRow, ErrorRow, AbsR;
    SamePrefixRow(vals, scales, BLOCK * (i * Blocks(cols)), x, x + [after], Width(cols, x));
  }

  lemma CloseQ4(lanes: bool, data: seq<real>, vals: seq<int>, scales: seq<real>, cols: nat, x: seq<real>, after: real, i: nat, r: real)
    requires RowWithin(lanes, data, vals, scales, 7, cols, x, after, i)
    requires ProductRow(vals, scales, cols, x + [after], Reach(lanes, Width(cols, x)), i, r)
    ensures Close(Q4, data, cols, x, i, r)
  {
    hide Blocks, ExactRow, QuantRow, ErrorRow, AbsR;
  }

  // ---------------------------------------------------------------- inputs with one non-zero number

  /** A number, and zeros after it. */
  function Spike(c: real, m: nat): (x: seq<real>)
    ensures |x| == m && forall j | 0 <= j < m :: x[j] == if j == 0 then c else 0.0
  {
    seq(m, j => if j == 0 then c else 0.0)
  }

  ghost predicate IsSpike(y: seq<real>, c: real, n: nat) { 1 <= n <= |y| && y[0] == c && forall j | 0 < j < n :: y[j] == 0.0 }

  lemma TimesZero(a: real)
    ensures Times(a, 0.0) == 0.0 && Times(a, AbsR(0.0)) == 0.0
  {
  }

  lemma {:induction false} SpikeExact(data: seq<real>, base: nat, y: seq<real>, c: real, n: nat)
    requires IsSpike(y, c, n) && base + n <= |data|
    ensures ExactRow(data, base, y, n) == Times(data[base], c)
  {
    hide Times;
    if n == 1 {
      assert ExactRow(data, base, y, 0) == 0.0;
    } else {
      SpikeExact(data, base, y, c, n - 1);
      TimesZero(data[base + n - 1]);
    }
  }

  lemma {:induction false} SpikeQuant(vals: seq<int>, scales: seq<real>, base: nat, y: seq<real>, c: real, n: nat)
    requires IsSpike(y, c, n) && base + n <= |vals| <= BLOCK * |scales|
    ensures QuantRow(vals, scales, base, y, n) == Times(Entry(vals, scales, base), c)
  {
    hide Times, Entry;
    if n == 1 {
      assert QuantRow(vals, scales, base, y, 0) == 0.0;
    } else {
      SpikeQuant(vals, scales, base, y, c, n - 1);
      TimesZero(Entry(vals, scales, base + n - 1));
    }
  }

  lemma {:induction false} SpikeError(data: seq<real>, hi: int, base: nat, y: seq<real>, c: real, n: nat)
    requires hi > 0 && IsSpike(y, c, n) && base + n <= |data|
    ensures ErrorRow(data, hi, base, y, n) == Times(ErrorAt(data, hi, base), AbsR(c))
  {
    hide Times, ErrorAt, AbsR;
    if n == 1 {
      assert ErrorRow(data, hi, base, y, 0) == 0.0;
    } else {
      SpikeError(data, hi, base, y, c, n - 1);
      TimesZero(ErrorAt(data, hi, base + n - 1));
    }
  }

  lemma HalfBound(m: real, d: real)
    requires 0.0 <= m <= 1.0 && d >= 2.0
    ensures m / d <= 0.5
  {
    var y := m / d;
    assert y * d == m;
    assert y > 0.5 ==> y * d > 0.5 * d;
  }

  /** Where no entry is above one, no entry may be off by more than a half. */
  lemma SmallError(data: seq<real>, hi: int, k: nat)
    requires hi > 0 && k < |data| && forall j | 0 <= j < |data| :: AbsR(data[j]) <= 1.0
    ensures ErrorAt(data, hi, k) <= 0.5
  {
    var m := MaxAbs(BlockOf(data, k / BLOCK));
    assert m <= 1.0;
    HalfBound(m, 2.0 * hi as real);
  }

  // ---------------------------------------------------------------- rows that do not fill whole blocks

  /** A single non-zero entry, the first of row 1. */
  function Probe(rows: nat, cols: nat): (data: seq<real>)
    ensures |data| == rows * cols
    ensures forall k | 0 <= k < |data| :: data[k] == if k == cols then 1.0 else 0.0
  {
    RowFits(0, rows + 1, cols);
    seq(rows * cols, k => if k == cols then 1.0 else 0.0)
  }

  lemma ProbeZero(rows: nat, cols: nat, vals: seq<int>, scales: seq<real>, hi: int, k: nat)
    requires hi > 0 && Quantized(Probe(rows, cols), vals, scales, hi) && k < |vals| && k != cols
    ensures |vals| <= BLOCK * |scales| && Entry(vals, scales, k) == 0.0
  {
    hide Quant, Quantized;
    EntryValue(Probe(rows, cols), vals, scales, hi, k);
    QuantZero(scales[k / BLOCK], hi);
  }

  /** On this data row 1 is read from another place, and its product is off by more than its budget. */
  lemma MisplacedRow(lanes: bool, vals: seq<int>, scales: seq<real>, hi: int, rows: nat, cols: nat, m: nat)
    requires hi > 0 && rows > 1 && cols % BLOCK != 0 && m > 0
    requires Quantized(Probe(rows, cols), vals, scales, hi)
    ensures !RowWithin(lanes, Probe(rows, cols), vals, scales, hi, cols, Spike(1.0, m), 0.0, 1)
  {
    hide Quantized, ErrorAt, Entry, Probe, ExactRow, QuantRow, ErrorRow, Spike;
    var data, x := Probe(rows, cols), Spike(1.0, m);
    var n, base, y := Width(cols, x), BLOCK * Blocks(cols), x + [0.0];
    RowFits(1, rows, cols);
    assert base > cols && n > 0 && 1 * cols == cols && 1 * Blocks(cols) == Blocks(cols);
    if base + Reach(lanes, n) <= |vals| <= BLOCK * |scales| {
      SpikeExact(data, cols, x, 1.0, n);
      SpikeError(data, hi, cols, x, 1.0, n);
      SpikeQuant(vals, scales, base, y, 1.0, Reach(lanes, n));
      ProbeZero(rows, cols, vals, scales, hi, base);
      SmallError(data, hi, cols);
    }
  }

  // ---------------------------------------------------------------- a column too many

  function Cells(rows: nat, cols: nat): (k: nat)
    ensures k == rows * cols
  {
    RowFits(0, rows + 1, cols);
    rows * cols
  }

  function Ones(k: nat): (data: seq<real>)
    ensures |data| == k && forall j | 0 <= j < k :: data[j] == 1.0
  {
    seq(k, _ => 1.0)
  }

  lemma OnesEntry(k: nat, vals: seq<int>, scales: seq<real>, hi: int, j: nat)
    requires hi > 0 && Quantized(Ones(k), vals, scales, hi) && j < k
    ensures j < |vals| <= BLOCK * |scales| && Entry(vals, scales, j) >= 0.5
  {
    hide Quantized, Entry, ErrorAt;
    EntryError(Ones(k), vals, scales, hi, j);
    SmallError(Ones(k), hi, j);
  }

  /** With seven columns left over and one more in the row, the lanes multiply an entry by what lies after the input. */
  lemma LaneMissesRow(vals: seq<int>, scales: seq<real>, hi: int, rows: nat, cols: nat, m: nat)
    requires hi > 0 && rows > 0 && m < cols && m % 8 == 7
    requires Quantized(Ones(Cells(rows, cols)), vals, scales, hi)
    ensures !RowWithin(true, Ones(Cells(rows, cols)), vals, scales, hi, cols, Spike(0.0, m), 1.0, 0)
  {
    hide Quantized, ErrorAt, Entry, ExactRow, QuantRow, ErrorRow, Spike, Ones, Blocks;
    var data, x := Ones(Cells(rows, cols)), Spike(0.0, m);
    RowFits(0, rows, cols);
    assert 0 * cols == 0 && 0 * Blocks(cols) == 0;
    SpikeExact(data, 0, x, 0.0, m);
    SpikeError(data, hi, 0, x, 0.0, m);
    TimesZero(data[0]);
    TimesZero(ErrorAt(data, hi, 0));
    OnesEntry(Cells(rows, cols), vals, scales, hi, m);
    if m + 1 <= |vals| <= BLOCK * |scales| {
      SpikeQuant(vals, scales, 0, x + [1.0], 0.0, m);
      TimesZero(Entry(vals, scales, 0));
      RowSnoc(vals, scales, 0, x + [1.0], m);
      assert Times(Entry(vals, scales, m), 1.0) == Entry(vals, scales, m);
    }
  }

  // ---------------------------------------------------------------- exactly when

  /**
   * For all data, inputs and surroundings of a shape, quantized products run and stay within their
   * budgets over the columns of the input if and only if the shape is sound: no row, no input, or
   * rows where they are looked for and no column too many. `lanes` is false for 8 bits.
   */
  lemma WithinExactly(lanes: bool, rows: nat, cols: nat, m: nat, hi: int)
    requires hi > 0
    ensures (forall data, vals, scales, x, after | |data| == rows * cols && Quantized(data, vals, scales, hi) && |x| == m ::
               Within(lanes, data, vals, scales, hi, rows, cols, x, after))
       <==> Sound(lanes, rows, cols, m)
  {
    hide Quantized, Within;
    if Sound(lanes, rows, cols, m) {
      forall data, vals, scales, x, after | |data| == rows * cols && Quantized(data, vals, scales, hi) && |x| == m
        ensures Within(lanes, data, vals, scales, hi, rows, cols, x, after)
      {
        SoundWithin(lanes, data, vals, scales, hi, rows, cols, x, after);
      }
    } else if rows > 1 && cols % BLOCK != 0 {
      var vals, scales := QuantizedExists(Probe(rows, cols), hi);
      MisplacedRow(lanes, vals, scales, hi, rows, cols, m);
      OneRowOff(lanes, Probe(rows, cols), vals, scales, hi, rows, cols, Spike(1.0, m), 0.0, 1);
    } else {
      RowFits(0, rows, cols);
      var vals, scales := QuantizedExists(Ones(Cells(rows, cols)), hi);
      LaneMissesRow(vals, scales, hi, rows, cols, m);
      OneRowOff(lanes, Ones(Cells(rows, cols)), vals, scales, hi, rows, cols, Spike(0.0, m), 1.0, 0);
    }
  }

  lemma OneRowOff(lanes: bool, data: seq<real>, vals: seq<int>, scales: seq<real>, hi: int, rows: nat, cols: nat,
                  x: seq<real>, after: real, i: nat)
    requires hi > 0 && i < rows && !RowWithin(lanes, data, vals, scales, hi, cols, x, after, i)
    ensures !Within(lanes, data, vals, scales, hi, rows, cols, x, after)
  {
    hide RowWithin, Reachable, Blocks;
  }

  /**
   * Through quantization and product, in a shape of two or more rows that do not fill whole blocks:
   * either a block index is out of range (`ok` is false), or row 1 comes out beyond its budget.
   */
  method UnalignedMisses(avx2: bool, rows: nat, cols: nat, output: array<real>) returns (ok: bool)
    requires rows > 1 && cols % BLOCK != 0 && rows <= output.Length
    modifies output
    ensures ok <==> Reachable(rows, Blocks(cols), 1, Blocks(rows * cols))
    ensures ok ==> !Close(Q8, Probe(rows, cols), cols, Spike(1.0, 1), 1, output[1])
  {
    hide Quantized, Reachable, Blocks, Probe, RowWithin, ProductRow, Close;
    var data := Probe(rows, cols);
    var q, scales := QuantizeQ8(data);
    Covers(data, Decode8(q), scales, 127);
    BlockCount(data, Decode8(q), scales, 127);
    assert Blocks(1) == 1 by { OneBlock(); }
    ok := Reachable(rows, Blocks(cols), 1, |scales|);
    if ok {
      MatmulQ8(avx2, q, scales, rows, cols, Spike(1.0, 1), output);
      MisplacedRow(false, Decode8(q), scales, 127, rows, cols, 1);
      RowFits(1, rows, cols);
      NotCloseQ8(data, Decode8(q), scales, cols, Spike(1.0, 1), 0.0, 1, output[1]);
    }
  }

  lemma NotCloseQ8(data: seq<real>, vals: seq<int>, scales: seq<real>, cols: nat, x: seq<real>, after: real, i: nat, r: real)
    requires ProductRow(vals, scales, cols, x, Width(cols, x), i, r)
    requires !RowWithin(false, data, vals, scales, 127, cols, x, after, i)
    ensures !Close(Q8, data, cols, x, i, r)
  {
    hide Blocks, ExactRow, QuantRow, ErrorRow, AbsR;
    SamePrefixRow(vals, scales, BLOCK * (i * Blocks(cols)), x, x + [after], Width(cols, x));
  }

  lemma OneBlock()
    ensures Blocks(1) == 1
  {
  }

  /**
   * Through quantization and product with the lane kernel, in whole blocks or a single row: an input
   * shorter than the row with seven columns left over, all zeros, has row 0 come out beyond its
   * budget. One row of 32 columns and seven inputs is such a shape.
   */
  method LanesMiss(rows: nat, cols: nat, m: nat, output: array<real>)
    requires rows > 0 && (rows == 1 || cols % BLOCK == 0) && m < cols && m % 8 == 7 && rows <= output.Length
    modifies output
    ensures !Close(Q4, Ones(Cells(rows, cols)), cols, Spike(0.0, m), 0, output[0])
  {
    hide Quantized, Reachable, Blocks, RowWithin, ProductRow, Close;
    var data := Ones(Cells(rows, cols));
    var q, scales := QuantizeQ4(data);
    Covers(data, Decode4(q), scales, 7);
    BlockCount(data, Decode4(q), scales, 7);
    BlocksStored(rows, cols, m);
    MatmulQ4(true, q, scales, rows, cols, Spike(0.0, m), 1.0, output);
    LaneMissesRow(Decode4(q), scales, 7, rows, cols, m);
    NotCloseQ4(data, Decode4(q), scales, cols, Spike(0.0, m), 1.0, 0, output[0]);
  }

  lemma NotCloseQ4(data: seq<real>, vals: seq<int>, scales: seq<real>, cols: nat, x: seq<real>, after: real, i: nat, r: real)
    requires ProductRow(vals, scales, cols, x + [after], Reach(true, Width(cols, x)), i, r)
    requires !RowWithin(true, data, vals, scales, 7, cols, x, after, i)
    ensures !Close(Q4, data, cols, x, i, r)
  {
    hide Blocks, ExactRow, QuantRow, ErrorRow, AbsR;
  }
}
