/** Whitespace positions, 32 bytes at a time and one by one (core-runtime/src/engine/simd_tokenizer.rs). */
module WhitespaceScan {
  import opened MachineWords

  const LANES: nat := 32

  predicate IsSpace(b: Byte) { b == 32 || b == 10 || b == 9 }

  /** Positions of whitespace among the first `n` bytes, in order. */
  function Positions(text: seq<Byte>, n: nat): seq<nat>
    requires n <= |text|
  {
    if n == 0 then []
    else Positions(text, n - 1) + if IsSpace(text[n - 1]) then [n - 1] else []
  }

  /** The scan lists exactly the whitespace positions, in increasing order. */
  lemma {:induction false} PositionsExact(text: seq<Byte>, n: nat)
    requires n <= |text|
    ensures forall i, j | 0 <= i < j < |Positions(text, n)| :: Positions(text, n)[i] < Positions(text, n)[j]
    ensures forall p | p in Positions(text, n) :: p < n && text[p] in {32, 10, 9}
    ensures forall p | 0 <= p < n && text[p] in {32, 10, 9} :: p in Positions(text, n)
  {
    if n > 0 {
      PositionsExact(text, n - 1);
      var before := Positions(text, n - 1);
      forall i | 0 <= i < |before|
        ensures before[i] < n - 1
      {
        assert before[i] in before;
      }
      assert IsSpace(text[n - 1]) ==> Positions(text, n)[|before|] == n - 1;
    }
  }

  // ---------------------------------------------------------------- masks

  /** One bit a lane, the first lane lowest. */
  function Mask(lanes: seq<bool>): nat
  {
    if lanes == [] then 0 else (if lanes[0] then 1 else 0) + 2 * Mask(lanes[1..])
  }

  /** `(mask >> bit) & 1 == 1` */
  predicate Bit(mask: nat, bit: nat)
  {
    if bit == 0 then mask % 2 == 1 else Bit(mask / 2, bit - 1)
  }

  lemma {:induction false} MaskBits(lanes: seq<bool>, bit: nat)
    requires bit < |lanes|
    ensures Bit(Mask(lanes), bit) <==> lanes[bit]
  {
    if bit > 0 {
      MaskBits(lanes[1..], bit - 1);
    }
  }

  /** Three lane-wise comparisons, or-ed together. */
  function SpaceLanes(block: seq<Byte>): (lanes: seq<bool>)
    ensures |lanes| == |block|
    ensures forall i | 0 <= i < |block| :: lanes[i] <==> IsSpace(block[i])
  {
    var spaces := seq(|block|, i requires 0 <= i < |block| => block[i] == 32);
    var newlines := seq(|block|, i requires 0 <= i < |block| => block[i] == 10);
    var tabs := seq(|block|, i requires 0 <= i < |block| => block[i] == 9);
    seq(|block|, i requires 0 <= i < |block| => (spaces[i] || newlines[i]) || tabs[i])
  }

  // ---------------------------------------------------------------- scans

  method ScanScalar(text: seq<Byte>) returns (r: seq<nat>)
    ensures r == Positions(text, |text|)
  {
    r := [];
    for i := 0 to |text|
      invariant r == Positions(text, i)
    {
      if IsSpace(text[i]) {
        r := r + [i];
      }
    }
  }

  /** Appends the positions of the mask's bits, `base` on. */
  method ExtractPositions(mask: nat, base: nat, positions: seq<nat>, ghost text: seq<Byte>) returns (r: seq<nat>)
    requires base + LANES <= |text| && positions == Positions(text, base)
    requires forall i | 0 <= i < LANES :: Bit(mask, i) <==> IsSpace(text[base + i])
    ensures r == Positions(text, base + LANES)
  {
    hide Bit;
    r := positions;
    for bit := 0 to LANES
      invariant r == Positions(text, base + bit)
    {
      if Bit(mask, bit) {
        r := r + [base + bit];
      }
    }
  }

  /** The blocked scan gives the same list as the scan byte by byte. */
  method ScanBlocks(text: seq<Byte>) returns (r: seq<nat>)
    ensures r == Positions(text, |text|)
  {
    r := [];
    var chunks := |text| / LANES;
    for c := 0 to chunks
      invariant r == Positions(text, LANES * c)
    {
      var block := text[LANES * c..LANES * c + LANES];
      var mask := Mask(SpaceLanes(block));
      forall i | 0 <= i < LANES
        ensures Bit(mask, i) <==> IsSpace(text[LANES * c + i])
      {
        MaskBits(SpaceLanes(block), i);
      }
      r := ExtractPositions(mask, LANES * c, r, text);
    }
    var base := LANES * chunks;
    for i := base to |text|
      invariant r == Positions(text, i)
    {
      if IsSpace(text[i]) {
        r := r + [i];
      }
    }
  }
}
