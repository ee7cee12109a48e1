/**
 * Tiled attention with an online softmax (core-runtime/src/engine/flash_attn.rs), over
 * the reals.  The exponential is a parameter; negative infinity is None.
 */
module FlashAttention {
  import opened Wrappers
  import opened Vectors

  /** The laws of the exponential the algorithm relies on. */
  ghost predicate IsExp(exp: real -> real) { forall x, y :: ExpLaw(exp, x, y) }

  ghost predicate ExpLaw(exp: real -> real, x: real, y: real) {
    exp(x) > 0.0 && exp(x + y) == exp(x) * exp(y) && (x < y ==> exp(x) < exp(y))
  }

  lemma ExpLaws(exp: real -> real, x: real, y: real)
    requires IsExp(exp)
    ensures exp(x) > 0.0 && exp(y) > 0.0 && exp(x) * exp(y) == exp(x + y)
    ensures exp(0.0) == 1.0
    ensures x < y ==> exp(x) < exp(y)
  {
    assert ExpLaw(exp, x, y) && ExpLaw(exp, y, x) && ExpLaw(exp, 0.0, 0.0);
    assert exp(0.0 + 0.0) == exp(0.0);
  }

  // ---------------------------------------------------------------- plain attention

  /** Row `i` of a flattened matrix with rows of length `h`. */
  function Row(m: seq<real>, h: nat, i: nat): (r: seq<real>)
    requires (i + 1) * h <= |m|
    ensures |r| == h
  {
    assert (i + 1) * h == i * h + h;
    m[i * h..i * h + h]
  }

  predicate HasRows(m: seq<real>, h: nat, n: nat) { n * h <= |m| }

  lemma FewerRows(m: seq<real>, h: nat, i: nat, n: nat)
    requires HasRows(m, h, n) && i < n
    ensures (i + 1) * h <= |m| && i * h + h == (i + 1) * h
  {
    assert (i + 1) * h <= n * h;
  }

  /** The attention scores of one query: its products with the first `n` keys. */
  ghost function Scores(query: seq<real>, keys: seq<real>, h: nat, n: nat): (s: seq<real>)
    requires HasRows(keys, h, n)
    ensures |s| == n
  {
    if n == 0 then []
    else
      FewerRows(keys, h, n - 1, n);
      Scores(query, keys, h, n - 1) + [Dot(query, Row(keys, h, n - 1))]
  }

  /** Coordinate `j` of the first `n` values. */
  ghost function Column(values: seq<real>, h: nat, n: nat, j: nat): (v: seq<real>)
    requires HasRows(values, h, n) && j < h
    ensures |v| == n
  {
    if n == 0 then []
    else
      FewerRows(values, h, n - 1, n);
      Column(values, h, n - 1, j) + [Row(values, h, n - 1)[j]]
  }

  lemma {:induction false} ScoreAt(query: seq<real>, keys: seq<real>, h: nat, n: nat, i: nat)
    requires HasRows(keys, h, n) && i < n
    ensures (i + 1) * h <= |keys| && Scores(query, keys, h, n)[i] == Dot(query, Row(keys, h, i))
  {
    FewerRows(keys, h, i, n);
    if i < n - 1 {
      FewerRows(keys, h, n - 1, n);
      FewerRows(keys, h, n - 2, n);
      ScoreAt(query, keys, h, n - 1, i);
    }
  }

  lemma {:induction false} ColumnAt(values: seq<real>, h: nat, n: nat, j: nat, i: nat)
    requires HasRows(values, h, n) && j < h && i < n
    ensures i * h + j < |values| && Column(values, h, n, j)[i] == values[i * h + j]
  {
    FewerRows(values, h, i, n);
    if i < n - 1 {
      FewerRows(values, h, n - 2, n);
      ColumnAt(values, h, n - 1, j, i);
    }
  }

  /** The softmax weights of the first `n` scores, each divided by exp(c). */
  ghost function WeightSum(exp: real -> real, s: seq<real>, n: nat, c: real): real
    requires n <= |s|
  {
    if n == 0 then 0.0 else WeightSum(exp, s, n - 1, c) + exp(s[n - 1] - c)
  }

  /** The first `n` values under those weights. */
  ghost function ValueSum(exp: real -> real, s: seq<real>, v: seq<real>, n: nat, c: real): real
    requires n <= |s| && n <= |v|
  {
    if n == 0 then 0.0 else ValueSum(exp, s, v, n - 1, c) + exp(s[n - 1] - c) * v[n - 1]
  }

  /** Softmax of the scores, applied to the values. */
  ghost function Attention(exp: real -> real, s: seq<real>, v: seq<real>): real
    requires IsExp(exp) && 0 < |s| == |v|
  {
    WeightPositive(exp, s, |s|, 0.0);
    ValueSum(exp, s, v, |s|, 0.0) / WeightSum(exp, s, |s|, 0.0)
  }

  lemma {:induction false} WeightPositive(exp: real -> real, s: seq<real>, n: nat, c: real)
    requires IsExp(exp) && n <= |s|
    ensures n > 0 ==> WeightSum(exp, s, n, c) > 0.0
  {
    if n > 0 {
      WeightPositive(exp, s, n - 1, c);
      ExpLaws(exp, s[n - 1] - c, 0.0);
    }
  }

  lemma Distribute(k: real, w: real, e: real, v: real)
    ensures k * (w + e * v) == k * w + (k * e) * v
  {
  }

  /** Moving the reference point from `c` to `d` scales both sums by exp(c - d). */
  lemma {:induction false} Rescale(exp: real -> real, s: seq<real>, v: seq<real>, n: nat, c: real, d: real)
    requires IsExp(exp) && n <= |s| && n <= |v|
    ensures ValueSum(exp, s, v, n, d) == exp(c - d) * ValueSum(exp, s, v, n, c)
  {
    if n > 0 {
      Rescale(exp, s, v, n - 1, c, d);
      var k, e := exp(c - d), exp(s[n - 1] - c);
      ExpLaws(exp, c - d, s[n - 1] - c);
      assert c - d + (s[n - 1] - c) == s[n - 1] - d;
      Distribute(k, ValueSum(exp, s, v, n - 1, c), e, v[n - 1]);
    }
  }

  lemma {:induction false} RescaleWeights(exp: real -> real, s: seq<real>, n: nat, c: real, d: real)
    requires IsExp(exp) && n <= |s|
    ensures WeightSum(exp, s, n, d) == exp(c - d) * WeightSum(exp, s, n, c)
  {
    if n > 0 {
      RescaleWeights(exp, s, n - 1, c, d);
      var k, e := exp(c - d), exp(s[n - 1] - c);
      ExpLaws(exp, c - d, s[n - 1] - c);
      assert c - d + (s[n - 1] - c) == s[n - 1] - d;
      Distribute(k, WeightSum(exp, s, n - 1, c), e, 1.0);
    }
  }

  lemma CancelFactor(k: real, x: real, y: real)
    requires k > 0.0 && y > 0.0
    ensures k * y > 0.0 && (k * x) / (k * y) == x / y
  {
    var q := x / y;
    assert q * y == x;
    assert k * x == q * (k * y);
  }

  /** The quotient of the two sums does not depend on the reference point. */
  lemma QuotientIsAttention(exp: real -> real, s: seq<real>, v: seq<real>, c: real)
    requires IsExp(exp) && 0 < |s| == |v|
    ensures WeightSum(exp, s, |s|, c) > 0.0
    ensures ValueSum(exp, s, v, |s|, c) / WeightSum(exp, s, |s|, c) == Attention(exp, s, v)
  {
    hide WeightSum, ValueSum;
    WeightPositive(exp, s, |s|, c);
    Rescale(exp, s, v, |s|, c, 0.0);
    RescaleWeights(exp, s, |s|, c, 0.0);
    ExpLaws(exp, c - 0.0, 0.0);
    CancelFactor(exp(c - 0.0), ValueSum(exp, s, v, |s|, c), WeightSum(exp, s, |s|, c));
  }

  lemma BetweenRatio(lo: real, hi: real, x: real, y: real)
    requires y > 0.0 && lo * y <= x <= hi * y
    ensures lo <= x / y <= hi
  {
    var q := x / y;
    assert q * y == x;
  }

  lemma TermBounded(lo: real, hi: real, w: real, x: real, e: real, v: real)
    requires e > 0.0 && lo <= v <= hi && lo * w <= x <= hi * w
    ensures lo * (w + e) <= x + e * v <= hi * (w + e)
  {
    assert lo * e <= v * e <= hi * e;
  }

  lemma {:induction false} ValueSumBounded(exp: real -> real, s: seq<real>, v: seq<real>, n: nat, lo: real, hi: real)
    requires IsExp(exp) && n <= |s| && n <= |v|
    requires forall i | 0 <= i < n :: lo <= v[i] <= hi
    ensures lo * WeightSum(exp, s, n, 0.0) <= ValueSum(exp, s, v, n, 0.0) <= hi * WeightSum(exp, s, n, 0.0)
  {
    if n > 0 {
      ValueSumBounded(exp, s, v, n - 1, lo, hi);
      ExpLaws(exp, s[n - 1] - 0.0, 0.0);
      TermBounded(lo, hi, WeightSum(exp, s, n - 1, 0.0), ValueSum(exp, s, v, n - 1, 0.0),
                  exp(s[n - 1] - 0.0), v[n - 1]);
    }
  }

  /** Attention averages: it lies between any bounds of the values it is applied to. */
  lemma AttentionBounded(exp: real -> real, s: seq<real>, v: seq<real>, lo: real, hi: real)
    requires IsExp(exp) && 0 < |s| == |v|
    requires forall i | 0 <= i < |v| :: lo <= v[i] <= hi
    ensures lo <= Attention(exp, s, v) <= hi
  {
    hide WeightSum, ValueSum;
    ValueSumBounded(exp, s, v, |s|, lo, hi);
    WeightPositive(exp, s, |s|, 0.0);
    BetweenRatio(lo, hi, ValueSum(exp, s, v, |s|, 0.0), WeightSum(exp, s, |s|, 0.0));
  }

  // ---------------------------------------------------------------- the tiled algorithm

  function MaxOf(m: Option<real>, x: real): Option<real> {
    match m
    case None => Some(x)
    case Some(y) => Some(if x > y then x else y)
  }

  function Max(m: Option<real>, x: Option<real>): Option<real> {
    match x
    case None => m
    case Some(y) => MaxOf(m, y)
  }

  /** `m` is the greatest element of `s`, None when there is none. */
  ghost predicate IsMax(s: seq<real>, m: Option<real>) {
    match m
    case None => s == []
    case Some(x) => x in s && forall i | 0 <= i < |s| :: s[i] <= x
  }

  /** The sums over the first `n` positions relative to `c`, one value column per coordinate. */
  ghost predicate Sums(exp: real -> real, s: seq<real>, values: seq<real>, n: nat, c: real, sum: real, acc: seq<real>)
    requires HasRows(values, |acc|, |s|) && n <= |s|
  {
    && sum == WeightSum(exp, s, n, c)
    && (forall j | 0 <= j < |acc| :: acc[j] == ValueSum(exp, s, Column(values, |acc|, |s|, j), n, c))
  }

  /** The running state after `n` positions: the sums relative to the greatest score so far. */
  ghost predicate Online(exp: real -> real, s: seq<real>, values: seq<real>, n: nat, max: Option<real>, sum: real, acc: seq<real>)
    requires HasRows(values, |acc|, |s|) && n <= |s|
  {
    IsMax(s[..n], max) && Sums(exp, s, values, n, if max.Some? then max.value else 0.0, sum, acc)
  }

  /** Scores of one block, and the greatest of them. */
  method ComputeBlockScores(query: seq<real>, keys: seq<real>, headDim: nat, start: nat, blockLen: nat,
                            scoresOut: array<real>, ghost n: nat)
    returns (blockMax: Option<real>)
    requires HasRows(keys, headDim, n) && start + blockLen <= n && blockLen <= scoresOut.Length
    modifies scoresOut
    ensures scoresOut[..blockLen] == Scores(query, keys, headDim, n)[start..start + blockLen]
    ensures IsMax(scoresOut[..blockLen], blockMax)
  {
    hide HasRows, Scores, Dot;
    ghost var s := Scores(query, keys, headDim, n);
    blockMax := None;
    for i := 0 to blockLen
      invariant scoresOut[..i] == s[start..start + i]
      invariant IsMax(scoresOut[..i], blockMax)
    {
      ScoreAt(query, keys, headDim, n, start + i);
      var score := DotProduct(query, Row(keys, headDim, start + i));
      scoresOut[i] := score;
      assert scoresOut[..i + 1] == s[start..start + i] + [score];
      blockMax := MaxOf(blockMax, score);
    }
  }

  /** Position `n` added to the sums. */
  lemma SumsStep(exp: real -> real, s: seq<real>, values: seq<real>, n: nat, c: real, sum: real,
                 before: seq<real>, after: seq<real>)
    requires |before| == |after| && HasRows(values, |before|, |s|) && n < |s|
    requires Sums(exp, s, values, n, c, sum, before)
    requires forall j | 0 <= j < |after| ::
               after[j] == before[j] + exp(s[n] - c) * Column(values, |after|, |s|, j)[n]
    ensures Sums(exp, s, values, n + 1, c, sum + exp(s[n] - c), after)
  {
    hide Column, HasRows;
  }

  method AddPosition(exp: real -> real, weight: real, values: seq<real>, start: nat, acc: array<real>,
                     ghost s: seq<real>, ghost c: real, ghost sum: real)
    requires HasRows(values, acc.Length, |s|) && start < |s| && weight == exp(s[start] - c)
    requires Sums(exp, s, values, start, c, sum, acc[..])
    modifies acc
    ensures Sums(exp, s, values, start + 1, c, sum + weight, acc[..])
  {
    hide Column, Sums;
    FewerRows(values, acc.Length, start, |s|);
    ghost var before := acc[..];
    var h, offset := acc.Length, start * acc.Length;
    hide HasRows;
    for j := 0 to h
      invariant forall k | 0 <= k < j :: acc[k] == before[k] + weight * Column(values, h, |s|, k)[start]
      invariant forall k | j <= k < h :: acc[k] == before[k]
    {
      ColumnAt(values, h, |s|, j, start);
      acc[j] := acc[j] + weight * values[offset + j];
    }
    SumsStep(exp, s, values, start, c, sum, before, acc[..]);
  }

  /** The accumulator and its sum moved from reference point `c` to `d`. */
  lemma SumsRescale(exp: real -> real, s: seq<real>, values: seq<real>, n: nat, c: real, d: real, sum: real,
                    before: seq<real>, after: seq<real>)
    requires IsExp(exp) && |before| == |after| && HasRows(values, |before|, |s|) && n <= |s|
    requires Sums(exp, s, values, n, c, sum, before)
    requires forall j | 0 <= j < |after| :: after[j] == before[j] * exp(c - d)
    ensures Sums(exp, s, values, n, d, sum * exp(c - d), after)
  {
    hide Column, HasRows, WeightSum, ValueSum;
    RescaleWeights(exp, s, n, c, d);
    forall j | 0 <= j < |after| ensures after[j] == ValueSum(exp, s, Column(values, |after|, |s|, j), n, d) {
      Rescale(exp, s, Column(values, |after|, |s|, j), n, c, d);
    }
  }

  method ScaleAll(acc: array<real>, k: real)
    modifies acc
    ensures forall j | 0 <= j < acc.Length :: acc[j] == old(acc[j]) * k
  {
    for j := 0 to acc.Length
      invariant forall i | 0 <= i < j :: acc[i] == old(acc[i]) * k
      invariant forall i | j <= i < acc.Length :: acc[i] == old(acc[i])
    {
      acc[j] := acc[j] * k;
    }
  }

  /** The maximum of a list extended by a block. */
  lemma MaxExtends(s: seq<real>, t: seq<real>, m: Option<real>, x: Option<real>)
    requires IsMax(s, m) && IsMax(t, x)
    ensures IsMax(s + t, Max(m, x))
  {
  }

  /** The correction of the sums when the greatest score grows from `globalMax` to `newMax`. */
  method Correct(exp: real -> real, globalMax: Option<real>, newMax: real, globalSum: real, acc: array<real>,
                 ghost s: seq<real>, ghost values: seq<real>, ghost n: nat)
    returns (sum: real)
    requires IsExp(exp) && HasRows(values, acc.Length, |s|) && n <= |s|
    requires Online(exp, s, values, n, globalMax, globalSum, acc[..])
    requires globalMax.Some? ==> globalMax.value <= newMax
    modifies acc
    ensures Sums(exp, s, values, n, newMax, sum, acc[..])
  {
    sum := globalSum;
    var correction := if globalMax.Some? then exp(globalMax.value - newMax) else 0.0;
    ghost var before := acc[..];
    if globalMax.Some? {
      ExpLaws(exp, globalMax.value - newMax, 0.0);
    }
    if correction > 0.0 && correction < 1.0 {
      ScaleAll(acc, correction);
      sum := sum * correction;
      SumsRescale(exp, s, values, n, globalMax.value, newMax, globalSum, before, acc[..]);
    } else if globalMax.Some? {
      assert globalMax.value - newMax == 0.0;
    }
  }

  /** The positions of a block added to the sums, in order. */
  method AddBlock(exp: real -> real, scores: seq<real>, values: seq<real>, start: nat, newMax: real, sum0: real,
                  acc: array<real>, ghost s: seq<real>)
    returns (sum: real)
    requires HasRows(values, acc.Length, |s|)
    requires start + |scores| <= |s| && scores == s[start..start + |scores|]
    requires Sums(exp, s, values, start, newMax, sum0, acc[..])
    modifies acc
    ensures Sums(exp, s, values, start + |scores|, newMax, sum, acc[..])
  {
    hide Sums, HasRows;
    sum := sum0;
    for i := 0 to |scores|
      invariant Sums(exp, s, values, start + i, newMax, sum, acc[..])
    {
      assert scores[i] == s[start + i];
      var weight := exp(scores[i] - newMax);
      AddPosition(exp, weight, values, start + i, acc, s, newMax, sum);
      sum := sum + weight;
    }
  }

  /** A block added to the running state. */
  method UpdateAccumulator(exp: real -> real, scores: seq<real>, values: seq<real>, start: nat, blockMax: Option<real>,
                           globalMax: Option<real>, globalSum: real, acc: array<real>, ghost s: seq<real>)
    returns (max: Option<real>, sum: real)
    requires IsExp(exp) && HasRows(values, acc.Length, |s|)
    requires start + |scores| <= |s| && scores == s[start..start + |scores|] && 0 < |scores|
    requires IsMax(scores, blockMax)
    requires Online(exp, s, values, start, globalMax, globalSum, acc[..])
    modifies acc
    ensures Online(exp, s, values, start + |scores|, max, sum, acc[..])
  {
    hide Sums, HasRows, IsExp;
    max := Max(globalMax, blockMax);
    MaxExtends(s[..start], scores, globalMax, blockMax);
    assert s[..start] + scores == s[..start + |scores|];
    var newMax := max.value;
    sum := Correct(exp, globalMax, newMax, globalSum, acc, s, values, start);
    sum := AddBlock(exp, scores, values, start, newMax, sum, acc, s);
  }

  lemma OnlineStart(exp: real -> real, s: seq<real>, values: seq<real>, acc: seq<real>)
    requires HasRows(values, |acc|, |s|) && forall j | 0 <= j < |acc| :: acc[j] == 0.0
    ensures Online(exp, s, values, 0, None, 0.0, acc)
  {
  }

  /** The normalised accumulator is the plain attention. */
  lemma OnlineFinish(exp: real -> real, s: seq<real>, values: seq<real>, max: Option<real>, sum: real, acc: seq<real>)
    requires IsExp(exp) && 0 < |s| && HasRows(values, |acc|, |s|)
    requires Online(exp, s, values, |s|, max, sum, acc)
    ensures sum > 0.0
    ensures forall j | 0 <= j < |acc| :: acc[j] / sum == Attention(exp, s, Column(values, |acc|, |s|, j))
  {
    hide HasRows, Column, WeightSum, ValueSum, Attention;
    var c := max.value;
    WeightPositive(exp, s, |s|, c);
    forall j | 0 <= j < |acc| ensures acc[j] / sum == Attention(exp, s, Column(values, |acc|, |s|, j)) {
      QuotientIsAttention(exp, s, Column(values, |acc|, |s|, j), c);
    }
  }

  /** Blocks of a positive size cover the positions, the last one possibly short. */
  lemma Blocks(n: nat, size: nat, b: nat)
    requires 0 < size && b < (n + size - 1) / size
    ensures b * size < n && (b + 1) * size == b * size + size
  {
    assert (b + 1) * size <= (n + size - 1) / size * size <= n + size - 1;
  }

  lemma BlocksCover(n: nat, size: nat)
    requires 0 < size
    ensures (n + size - 1) / size * size >= n
  {
  }

  /** One tile: its scores, then its contribution. */
  method Tile(exp: real -> real, headDim: nat, query: seq<real>, keys: seq<real>, values: seq<real>,
              start: nat, end: nat, scoresBuf: array<real>, acc: array<real>,
              globalMax: Option<real>, globalSum: real, ghost n: nat)
    returns (max: Option<real>, sum: real)
    requires IsExp(exp) && HasRows(keys, headDim, n) && HasRows(values, headDim, n)
    requires start < end <= n && end - start <= scoresBuf.Length && acc.Length == headDim && acc != scoresBuf
    requires Online(exp, Scores(query, keys, headDim, n), values, start, globalMax, globalSum, acc[..])
    modifies acc, scoresBuf
    ensures Online(exp, Scores(query, keys, headDim, n), values, end, max, sum, acc[..])
  {
    hide Online, Scores, HasRows, IsExp, IsMax;
    ghost var s := Scores(query, keys, headDim, n);
    ghost var before := acc[..];
    var blockMax := ComputeBlockScores(query, keys, headDim, start, end - start, scoresBuf, n);
    assert acc[..] == before;
    max, sum := UpdateAccumulator(exp, scoresBuf[..end - start], values, start, blockMax, globalMax, globalSum, acc, s);
  }

  /** All tiles of the sequence. */
  method Tiles(exp: real -> real, blockSize: nat, headDim: nat, query: seq<real>, keys: seq<real>, values: seq<real>,
               seqLen: nat, acc: array<real>)
    returns (globalMax: Option<real>, globalSum: real)
    requires IsExp(exp) && HasRows(keys, headDim, seqLen) && HasRows(values, headDim, seqLen)
    requires blockSize > 0 && acc.Length == headDim && forall j | 0 <= j < headDim :: acc[j] == 0.0
    modifies acc
    ensures Online(exp, Scores(query, keys, headDim, seqLen), values, seqLen, globalMax, globalSum, acc[..])
  {
    hide Online, Scores, HasRows, IsExp;
    globalMax, globalSum := None, 0.0;
    OnlineStart(exp, Scores(query, keys, headDim, seqLen), values, acc[..]);
    var scoresBuf := new real[blockSize];
    var numBlocks := (seqLen + blockSize - 1) / blockSize;
    ghost var done := 0;
    for blockIdx := 0 to numBlocks
      invariant done == if blockIdx * blockSize < seqLen then blockIdx * blockSize else seqLen
      invariant Online(exp, Scores(query, keys, headDim, seqLen), values, done, globalMax, globalSum, acc[..])
    {
      Blocks(seqLen, blockSize, blockIdx);
      var start := blockIdx * blockSize;
      var end := if start + blockSize < seqLen then start + blockSize else seqLen;
      globalMax, globalSum :=
        Tile(exp, headDim, query, keys, values, start, end, scoresBuf, acc, globalMax, globalSum, seqLen);
      done := end;
    }
    BlocksCover(seqLen, blockSize);
  }

  /**
   * The tiled attention of one query.  The output is the plain softmax attention of every
   * position, for every block size; what lies beyond the head dimension is not touched.
   */
  method Forward(exp: real -> real, blockSize: nat, headDim: nat, query: seq<real>, keys: seq<real>, values: seq<real>,
                 seqLen: nat, output: array<real>)
    requires IsExp(exp)
    requires HasRows(keys, headDim, seqLen) && HasRows(values, headDim, seqLen)
    requires seqLen == 0 || blockSize > 0
    modifies output
    ensures forall j | 0 <= j < output.Length ::
              output[j] == if seqLen > 0 && j < headDim
                           then Attention(exp, Scores(query, keys, headDim, seqLen), Column(values, headDim, seqLen, j))
                           else old(output[j])
  {
    hide Online, Scores, Column, HasRows, Attention, IsExp;
    if seqLen == 0 {
      return;
    }
    ghost var s := Scores(query, keys, headDim, seqLen);
    var acc := new real[headDim](_ => 0.0);
    var globalMax, globalSum := Tiles(exp, blockSize, headDim, query, keys, values, seqLen, acc);
    OnlineFinish(exp, s, values, globalMax, globalSum, acc[..]);
    if globalSum > 0.0 {
      var m := if headDim < output.Length then headDim else output.Length;
      for i := 0 to m
        invariant forall j | 0 <= j < i :: output[j] == Attention(exp, s, Column(values, headDim, seqLen, j))
        invariant forall j | i <= j < output.Length :: output[j] == old(output[j])
        invariant forall j | 0 <= j < headDim :: acc[j] / globalSum == Attention(exp, s, Column(values, headDim, seqLen, j))
      {
        output[i] := acc[i] / globalSum;
      }
    }
  }
}
