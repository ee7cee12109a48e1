/** The greedy tokenizer (core-runtime/src/engine/simd_tokenizer.rs). */
module Tokenizer {
  import opened MachineWords
  import opened Wrappers

  const NEWLINE: Byte := 10
  const MAX_TOKEN: nat := 16

  type Bytes = seq<Byte>

  // ---------------------------------------------------------------- vocabulary

  /** The parts of the file between newlines; an empty file is one empty line. */
  function Lines(b: Bytes): (r: seq<Bytes>)
    ensures |r| >= 1
  {
    if b == [] then [[]]
    else
      var before := Lines(b[..|b| - 1]);
      if b[|b| - 1] == NEWLINE then before + [[]]
      else before[..|before| - 1] + [before[|before| - 1] + [b[|b| - 1]]]
  }

  function Joined(lines: seq<Bytes>): Bytes
    requires lines != []
  {
    if |lines| == 1 then lines[0] else Joined(lines[..|lines| - 1]) + [10] + lines[|lines| - 1]
  }

  /** The lines hold no newline, and with one between each two they make up the file. */
  lemma {:induction false} LinesExact(b: Bytes)
    ensures Joined(Lines(b)) == b
    ensures forall i | 0 <= i < |Lines(b)| :: 10 !in Lines(b)[i]
  {
    if b != [] {
      var n := |b| - 1;
      LinesExact(b[..n]);
      var before, r := Lines(b[..n]), Lines(b);
      assert b == b[..n] + [b[n]];
      if b[n] == NEWLINE {
        assert r[..|before|] == before;
      } else if |before| > 1 {
        assert r[..|before| - 1] == before[..|before| - 1];
      }
    }
  }

  /** Token bytes in file order, blank lines skipped; and for each token the number of its last line. */
  datatype Vocabulary = Vocabulary(list: seq<Bytes>, ids: map<Bytes, nat>)

  function VocabularyOf(lines: seq<Bytes>, n: nat): Vocabulary
    requires n <= |lines|
  {
    if n == 0 then Vocabulary([], map[])
    else
      var v := VocabularyOf(lines, n - 1);
      var line := lines[n - 1];
      if line == [] then v else Vocabulary(v.list + [line], v.ids[line := (n - 1) % WORD32])
  }

  method SplitLines(b: Bytes) returns (lines: seq<Bytes>)
    ensures lines == Lines(b)
  {
    lines := [];
    var line := [];
    for i := 0 to |b|
      invariant lines + [line] == Lines(b[..i])
    {
      assert b[..i + 1][..i] == b[..i];
      if b[i] == NEWLINE {
        lines, line := lines + [line], [];
      } else {
        line := line + [b[i]];
      }
    }
    assert b[..|b|] == b;
    lines := lines + [line];
  }

  method FromVocab(b: Bytes) returns (v: Vocabulary)
    ensures v == VocabularyOf(Lines(b), |Lines(b)|)
  {
    var lines := SplitLines(b);
    v := Vocabulary([], map[]);
    for id := 0 to |lines|
      invariant v == VocabularyOf(lines, id)
    {
      if lines[id] != [] {
        v := Vocabulary(v.list + [lines[id]], v.ids[lines[id] := id % WORD32]);
      }
    }
  }

  /** Looking up a token's id in the list gives the token. */
  ghost predicate Consistent(v: Vocabulary)
  {
    forall t | t in v.ids :: v.ids[t] < |v.list| && v.list[v.ids[t]] == t
  }

  /** Entries are not empty, and each has an id. */
  ghost predicate WellFormed(v: Vocabulary)
  {
    && (forall i | 0 <= i < |v.list| :: v.list[i] != [] && v.list[i] in v.ids)
    && (forall t | t in v.ids :: t != [])
  }

  predicate BlankBefore(lines: seq<Bytes>, n: nat)
    requires n <= |lines|
  {
    exists i :: 0 <= i < n && lines[i] == []
  }

  /** A blank line with a token after it, among the first `n`. */
  predicate InteriorBlank(lines: seq<Bytes>, n: nat)
    requires n <= |lines|
  {
    exists j :: 0 <= j < n && lines[j] != [] && BlankBefore(lines, j)
  }

  lemma {:induction false} BuiltWellFormed(lines: seq<Bytes>, n: nat)
    requires n <= |lines|
    ensures WellFormed(VocabularyOf(lines, n)) && |VocabularyOf(lines, n).list| <= n
    ensures |VocabularyOf(lines, n).list| == n <==> !BlankBefore(lines, n)
  {
    if n > 0 {
      BuiltWellFormed(lines, n - 1);
      assert lines[n - 1] == [] ==> BlankBefore(lines, n);
      assert lines[n - 1] != [] ==> (BlankBefore(lines, n) <==> BlankBefore(lines, n - 1));
    }
  }

  lemma NothingInconsistent()
    ensures Consistent(Vocabulary([], map[]))
  {
  }

  lemma NoInteriorBefore(lines: seq<Bytes>, n: nat)
    requires 0 < n <= |lines| && !InteriorBlank(lines, n)
    ensures !InteriorBlank(lines, n - 1) && (lines[n - 1] != [] ==> !BlankBefore(lines, n - 1))
  {
  }

  lemma ConsistentPush(v: Vocabulary, line: Bytes)
    requires Consistent(v)
    ensures Consistent(Vocabulary(v.list + [line], v.ids[line := |v.list|]))
  {
  }

  lemma {:induction false} NoInteriorConsistent(lines: seq<Bytes>, n: nat)
    requires n <= |lines| <= WORD32 && !InteriorBlank(lines, n)
    ensures Consistent(VocabularyOf(lines, n))
  {
    hide InteriorBlank, BlankBefore, WellFormed, Consistent;
    if n == 0 {
      NothingInconsistent();
    } else {
      NoInteriorBefore(lines, n);
      NoInteriorConsistent(lines, n - 1);
      BuiltWellFormed(lines, n - 1);
      if lines[n - 1] != [] {
        ConsistentPush(VocabularyOf(lines, n - 1), lines[n - 1]);
      }
    }
  }

  lemma {:induction false} InteriorInconsistent(lines: seq<Bytes>, n: nat)
    requires n <= |lines| <= WORD32 && InteriorBlank(lines, n)
    ensures !Consistent(VocabularyOf(lines, n))
  {
    var v := VocabularyOf(lines, n);
    if lines[n - 1] == [] {
      assert InteriorBlank(lines, n - 1);
      InteriorInconsistent(lines, n - 1);
    } else {
      assert BlankBefore(lines, n - 1) by {
        var j :| 0 <= j < n && lines[j] != [] && BlankBefore(lines, j);
        var i :| 0 <= i < j && lines[i] == [];
      }
      BuiltWellFormed(lines, n - 1);
      assert lines[n - 1] in v.ids && v.ids[lines[n - 1]] == n - 1;
    }
  }

  /** Ids index the token list exactly when no token follows a blank line. */
  lemma IdsIndexList(b: Bytes)
    requires |Lines(b)| <= WORD32
    ensures Consistent(VocabularyOf(Lines(b), |Lines(b)|)) <==> !InteriorBlank(Lines(b), |Lines(b)|)
  {
    hide VocabularyOf, Lines, Consistent, InteriorBlank;
    var lines := Lines(b);
    if InteriorBlank(lines, |lines|) {
      InteriorInconsistent(lines, |lines|);
    } else {
      NoInteriorConsistent(lines, |lines|);
    }
  }

  // ---------------------------------------------------------------- encoding

  predicate Match(v: Vocabulary, b: Bytes, pos: nat, len: nat) { pos + len <= |b| && b[pos..pos + len] in v.ids }

  datatype Best = Best(len: nat, id: nat)

  /** The longest entry of at most `max` bytes at `pos`, or the byte itself. */
  function LongestMatch(v: Vocabulary, b: Bytes, pos: nat, max: nat): (r: Best)
    requires pos < |b| && pos + max <= |b|
    ensures 1 <= r.len && pos + r.len <= |b|
    ensures forall len | r.len < len <= max :: !Match(v, b, pos, len)
    ensures Match(v, b, pos, r.len) && 1 <= r.len <= max ==> r.id == v.ids[b[pos..pos + r.len]]
    ensures !(Match(v, b, pos, r.len) && 1 <= r.len <= max) ==> r == Best(1, b[pos])
  {
    if max == 0 then Best(1, b[pos])
    else if b[pos..pos + max] in v.ids then Best(max, v.ids[b[pos..pos + max]])
    else LongestMatch(v, b, pos, max - 1)
  }

  function Step(v: Vocabulary, b: Bytes, pos: nat): (r: Best)
    requires pos < |b|
    ensures 1 <= r.len <= 16 && pos + r.len <= |b|
  {
    LongestMatch(v, b, pos, Min(|b| - pos, MAX_TOKEN))
  }

  /** No entry at `pos`, of any length the search tries. */
  predicate Falls(v: Vocabulary, b: Bytes, pos: nat)
    requires pos < |b|
  {
    forall len | 1 <= len <= Min(|b| - pos, MAX_TOKEN) :: !Match(v, b, pos, len)
  }

  method FindLongestMatch(v: Vocabulary, b: Bytes, pos: nat) returns (r: Best)
    requires pos < |b|
    ensures r == Step(v, b, pos)
  {
    var len := Min(|b| - pos, MAX_TOKEN);
    while len > 0
      invariant pos + len <= |b|
      invariant LongestMatch(v, b, pos, len) == Step(v, b, pos)
    {
      if b[pos..pos + len] in v.ids {
        return Best(len, v.ids[b[pos..pos + len]]);
      }
      len := len - 1;
    }
    return Best(1, b[pos]);
  }

  function Encoded(v: Vocabulary, b: Bytes, pos: nat): seq<nat>
    requires pos <= |b|
    decreases |b| - pos
  {
    if pos == |b| then [] else [Step(v, b, pos).id] + Encoded(v, b, pos + Step(v, b, pos).len)
  }

  method Encode(v: Vocabulary, b: Bytes) returns (tokens: seq<nat>)
    ensures tokens == Encoded(v, b, 0)
  {
    hide Step;
    tokens := [];
    var pos := 0;
    while pos < |b|
      invariant pos <= |b| && tokens + Encoded(v, b, pos) == Encoded(v, b, 0)
    {
      var best := FindLongestMatch(v, b, pos);
      assert tokens + Encoded(v, b, pos) == (tokens + [best.id]) + Encoded(v, b, pos + best.len);
      tokens := tokens + [best.id];
      pos := pos + best.len;
    }
  }

  // ---------------------------------------------------------------- decoding

  datatype DecodeError = InvalidToken(id: nat) | NotText

  function Decoded(v: Vocabulary, tokens: seq<nat>): Result<Bytes, nat>
  {
    if tokens == [] then Ok([])
    else if tokens[0] >= |v.list| then Err(tokens[0])
    else match Decoded(v, tokens[1..])
      case Err(id) => Err(id)
      case Ok(rest) => Ok(v.list[tokens[0]] + rest)
  }

  /** Decoding fails exactly if some id is past the list, and reports the first such. */
  lemma {:induction false} DecodeExact(v: Vocabulary, tokens: seq<nat>)
    ensures Decoded(v, tokens).Ok? <==> forall i | 0 <= i < |tokens| :: tokens[i] < |v.list|
    ensures Decoded(v, tokens).Err? ==>
              exists k :: 0 <= k < |tokens| && Decoded(v, tokens) == Err(tokens[k]) && tokens[k] >= |v.list|
                          && forall i | 0 <= i < k :: tokens[i] < |v.list|
  {
    if tokens != [] {
      DecodeExact(v, tokens[1..]);
      if tokens[0] < |v.list| && Decoded(v, tokens[1..]).Err? {
        var k :| 0 <= k < |tokens[1..]| && Decoded(v, tokens[1..]) == Err(tokens[1..][k]) && tokens[1..][k] >= |v.list|
                 && forall i | 0 <= i < k :: tokens[1..][i] < |v.list|;
        assert tokens[k + 1] == tokens[1..][k];
        forall i | 0 <= i < k + 1
          ensures tokens[i] < |v.list|
        {
          assert i > 0 ==> tokens[i] == tokens[1..][i - 1];
        }
      } else if tokens[0] >= |v.list| {
        assert Decoded(v, tokens) == Err(tokens[0]);
      } else {
        assert forall i | 1 <= i < |tokens| :: tokens[i] == tokens[1..][i - 1];
      }
    }
  }

  /** `text` says which byte strings are valid text. */
  method Decode(v: Vocabulary, tokens: seq<nat>, text: Bytes -> bool) returns (r: Result<Bytes, DecodeError>)
    ensures match Decoded(v, tokens)
            case Err(id) => r == Err(InvalidToken(id))
            case Ok(b) => r == if text(b) then Ok(b) else Err(NotText)
  {
    var b: Bytes := [];
    assert tokens[0..] == tokens && (Decoded(v, tokens).Ok? ==> b + Decoded(v, tokens).value == Decoded(v, tokens).value);
    for i := 0 to |tokens|
      invariant Decoded(v, tokens) == match Decoded(v, tokens[i..]) case Err(id) => Err(id) case Ok(rest) => Ok(b + rest)
    {
      assert tokens[i..][1..] == tokens[i + 1..];
      if tokens[i] >= |v.list| {
        return Err(InvalidToken(tokens[i]));
      }
      ghost var rest := Decoded(v, tokens[i + 1..]);
      assert rest.Ok? ==> b + (v.list[tokens[i]] + rest.value) == (b + v.list[tokens[i]]) + rest.value;
      b := b + v.list[tokens[i]];
    }
    assert b + [] == b;
    r := if text(b) then Ok(b) else Err(NotText);
  }

  // ---------------------------------------------------------------- the round trip

  /** The encoder never takes the single-byte fallback from `pos` on. */
  predicate NeverFalls(v: Vocabulary, b: Bytes, pos: nat)
    requires pos <= |b|
    decreases |b| - pos
  {
    pos == |b| || (!Falls(v, b, pos) && NeverFalls(v, b, pos + Step(v, b, pos).len))
  }

  lemma StepMatches(v: Vocabulary, b: Bytes, pos: nat)
    requires pos < |b|
    ensures var r := Step(v, b, pos);
            if Falls(v, b, pos) then r == Best(1, b[pos])
            else Match(v, b, pos, r.len) && r.id == v.ids[b[pos..pos + r.len]]
  {
    var r := Step(v, b, pos);
    var max := Min(|b| - pos, MAX_TOKEN);
    if !Falls(v, b, pos) {
      var len :| 1 <= len <= max && Match(v, b, pos, len);
      assert r == LongestMatch(v, b, pos, max);
    }
  }

  /** The token chosen at `pos`, and what it decodes to. */
  lemma FirstToken(v: Vocabulary, b: Bytes, pos: nat)
    requires Consistent(v) && pos < |b|
    ensures var r := Step(v, b, pos);
            && Encoded(v, b, pos) == [r.id] + Encoded(v, b, pos + r.len)
            && if Falls(v, b, pos) then r == Best(1, b[pos])
               else r.id < |v.list| && v.list[r.id] == b[pos..pos + r.len]
  {
    StepMatches(v, b, pos);
    hide Step, Falls;
  }

  lemma DecodeFirst(v: Vocabulary, id: nat, tokens: seq<nat>)
    ensures Decoded(v, [id] + tokens) ==
            if id >= |v.list| then Err(id)
            else match Decoded(v, tokens) case Err(e) => Err(e) case Ok(rest) => Ok(v.list[id] + rest)
  {
    assert ([id] + tokens)[1..] == tokens;
  }

  /** A decoded encoding is at least as long as the text it came from. */
  lemma {:induction false} DecodedLength(v: Vocabulary, b: Bytes, pos: nat)
    requires WellFormed(v) && Consistent(v) && pos <= |b|
    ensures var d := Decoded(v, Encoded(v, b, pos)); d.Ok? ==> |d.value| >= |b| - pos
    decreases |b| - pos
  {
    hide Step, Falls, Decoded, Consistent;
    if pos < |b| {
      var r := Step(v, b, pos);
      FirstToken(v, b, pos);
      DecodeFirst(v, r.id, Encoded(v, b, pos + r.len));
      DecodedLength(v, b, pos + r.len);
    }
  }

  /** With consistent ids, decoding undoes encoding exactly when the encoder never falls back. */
  lemma {:induction false} RoundTrip(v: Vocabulary, b: Bytes, pos: nat)
    requires WellFormed(v) && Consistent(v) && pos <= |b|
    ensures Decoded(v, Encoded(v, b, pos)) == Ok(b[pos..]) <==> NeverFalls(v, b, pos)
    decreases |b| - pos
  {
    hide Step, Falls, Decoded, Consistent, WellFormed, Encoded;
    if pos == |b| {
      NothingLeft(v, b);
    } else {
      var r := Step(v, b, pos);
      var rest := Encoded(v, b, pos + r.len);
      FirstToken(v, b, pos);
      DecodeFirst(v, r.id, rest);
      RoundTrip(v, b, pos + r.len);
      if Falls(v, b, pos) {
        FallbackShows(v, b, pos, Decoded(v, rest));
      } else if Decoded(v, rest).Ok? {
        SamePrefix(b, pos, r.len, Decoded(v, rest).value);
      }
    }
  }

  lemma NothingLeft(v: Vocabulary, b: Bytes)
    ensures Encoded(v, b, |b|) == [] && Decoded(v, []) == Ok(b[|b|..])
  {
    assert b[|b|..] == [];
  }

  lemma SamePrefix(b: Bytes, pos: nat, len: nat, d: Bytes)
    requires pos + len <= |b|
    ensures b[pos..pos + len] + d == b[pos..] <==> d == b[pos + len..]
  {
    assert b[pos..] == b[pos..pos + len] + b[pos + len..];
    assert b[pos..pos + len] + d == b[pos..] ==> d == b[pos..][len..];
  }

  lemma FallbackShows(v: Vocabulary, b: Bytes, pos: nat, d: Result<Bytes, nat>)
    requires WellFormed(v) && Consistent(v) && pos < |b| && Falls(v, b, pos)
    requires d == Decoded(v, Encoded(v, b, pos + 1))
    ensures b[pos] < |v.list| && d.Ok? ==> v.list[b[pos]] + d.value != b[pos..]
  {
    DecodedLength(v, b, pos + 1);
    if b[pos] < |v.list| && d.Ok? && v.list[b[pos]] + d.value == b[pos..] {
      assert |v.list[b[pos]]| == 1;
      assert v.list[b[pos]] == [b[pos..][0]] == b[pos..pos + 1];
      assert Match(v, b, pos, 1);
      assert false;
    }
  }

  /** A vocabulary that holds every byte of the text as a token leaves nothing to fall back on. */
  lemma {:induction false} AllBytesKnown(v: Vocabulary, b: Bytes, pos: nat)
    requires pos <= |b| && forall i | 0 <= i < |b| :: [b[i]] in v.ids
    ensures NeverFalls(v, b, pos)
    decreases |b| - pos
  {
    if pos < |b| {
      assert b[pos..pos + 1] == [b[pos]];
      assert Match(v, b, pos, 1);
      AllBytesKnown(v, b, pos + Step(v, b, pos).len);
    }
  }

  /** From a vocabulary file without interior blank lines, holding every byte of the text. */
  lemma FileRoundTrip(file: Bytes, b: Bytes)
    requires |Lines(file)| <= WORD32 && !InteriorBlank(Lines(file), |Lines(file)|)
    requires forall i | 0 <= i < |b| :: [b[i]] in VocabularyOf(Lines(file), |Lines(file)|).ids
    ensures var v := VocabularyOf(Lines(file), |Lines(file)|);
            Decoded(v, Encoded(v, b, 0)) == Ok(b)
  {
    var lines := Lines(file);
    var v := VocabularyOf(lines, |lines|);
    hide VocabularyOf, Lines, InteriorBlank, Consistent, WellFormed;
    IdsIndexList(file);
    BuiltWellFormed(lines, |lines|);
    AllBytesKnown(v, b, 0);
    RoundTrip(v, b, 0);
    assert b[0..] == b;
  }

  // ---------------------------------------------------------------- which tokens survive

  /** Entry `k` of the list comes from a line at or after `k`, line `k` itself exactly when none is blank so far. */
  lemma {:induction false} EntryLine(lines: seq<Bytes>, n: nat, k: nat) returns (j: nat)
    requires n <= |lines| && k < |VocabularyOf(lines, n).list|
    ensures k <= j < n && VocabularyOf(lines, n).list[k] == lines[j] != []
    ensures j == k <==> lines[k] != [] && !BlankBefore(lines, k)
  {
    hide BlankBefore;
    BuiltWellFormed(lines, n - 1);
    if k < |VocabularyOf(lines, n - 1).list| {
      j := EntryLine(lines, n - 1, k);
    } else {
      j := n - 1;
      if k < n - 1 && lines[k] != [] && !BlankBefore(lines, k) {
        FullBefore(lines, n - 1, k);
      }
    }
  }

  /** An id is the last line that holds the token. */
  lemma {:induction false} IdIsLastLine(lines: seq<Bytes>, n: nat, t: Bytes)
    requires n <= |lines| <= WORD32 && t in VocabularyOf(lines, n).ids
    ensures var id := VocabularyOf(lines, n).ids[t];
            id < n && lines[id] == t != [] && forall j | id < j < n :: lines[j] != t
  {
    BuiltWellFormed(lines, n);
    hide BlankBefore;
    if lines[n - 1] != t {
      IdIsLastLine(lines, n - 1, t);
    }
  }

  /** A token of at most 16 bytes is encoded as itself. */
  lemma TokenEncodes(v: Vocabulary, t: Bytes)
    requires t in v.ids && 0 < |t| <= 16
    ensures Encoded(v, t, 0) == [v.ids[t]]
  {
    assert t[0..0 + |t|] == t;
    assert Step(v, t, 0) == Best(|t|, v.ids[t]);
    assert Encoded(v, t, |t|) == [];
  }

  /**
   * In every file, a token of at most 16 bytes decodes from its own encoding if and only if no blank
   * line precedes its last line.
   */
  lemma TokenSurvives(lines: seq<Bytes>, t: Bytes)
    requires |lines| <= WORD32 && t in VocabularyOf(lines, |lines|).ids && |t| <= 16
    ensures var v := VocabularyOf(lines, |lines|);
            && v.ids[t] < |lines|
            && (Decoded(v, Encoded(v, t, 0)) == Ok(t) <==> !BlankBefore(lines, v.ids[t]))
  {
    hide VocabularyOf, BlankBefore, Encoded, Decoded;
    var n := |lines|;
    var v := VocabularyOf(lines, n);
    var id := v.ids[t];
    IdIsLastLine(lines, n, t);
    TokenEncodes(v, t);
    DecodeFirst(v, id, []);
    assert [id] + [] == [id];
    NothingDecoded(v);
    if id < |v.list| {
      var j := EntryLine(lines, n, id);
      assert v.list[id] + [] == v.list[id];
    } else if !BlankBefore(lines, id) {
      FullBefore(lines, n, id);
    }
  }

  lemma NothingDecoded(v: Vocabulary)
    ensures Decoded(v, []) == Ok([])
  {
  }

  /** Without a blank line before it, a token's line is in the list. */
  lemma {:induction false} FullBefore(lines: seq<Bytes>, n: nat, id: nat)
    requires id < n <= |lines| && lines[id] != [] && !BlankBefore(lines, id)
    ensures id < |VocabularyOf(lines, n).list|
  {
    if id < n - 1 {
      FullBefore(lines, n - 1, id);
    } else {
      BuiltWellFormed(lines, id);
    }
  }

  /** A file where it fails: of the lines A, blank, B the token B gets an id past the list. */
  lemma InteriorBlankBreaks()
    ensures var v := VocabularyOf([[65], [], [66]], 3);
            Encoded(v, [66], 0) == [2] && Decoded(v, [2]) == Err(2)
  {
    var lines: seq<Bytes> := [[65], [], [66]];
    var v1 := VocabularyOf(lines, 1);
    assert v1 == Vocabulary([[65]], map[[65] := 0]);
    assert VocabularyOf(lines, 2) == v1;
    var v := VocabularyOf(lines, 3);
    assert v == Vocabulary([[65], [66]], map[[65] := 0, [66] := 2]);
    TokenEncodes(v, [66]);
  }
}
