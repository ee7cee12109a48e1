/**
 * Token arrays and frames on the wire: the packed binary token codec
 * (core-runtime/src/ipc/encoding.rs) and length-prefixed frames (core-runtime/src/ipc/server.rs).
 */
module Framing {
  import opened MachineWords
  import opened Wrappers

  type Word = n: int | 0 <= n < WORD32

  /** The four bytes of a word, least significant first. */
  function ToLe(n: Word): (b: seq<Byte>)
    ensures |b| == 4
  {
    [n % 256, n / 0x100 % 256, n / 0x1_0000 % 256, n / 0x100_0000]
  }

  function FromLe(b: seq<Byte>): Word
    requires |b| == 4
  {
    var b0: int, b1: int, b2: int, b3: int := b[0], b[1], b[2], b[3];
    b0 + 0x100 * b1 + 0x1_0000 * b2 + 0x100_0000 * b3
  }

  lemma WordRoundTrip(n: Word)
    ensures FromLe(ToLe(n)) == n
  {
    assert n / 0x100 == 256 * (n / 0x1_0000) + n / 0x100 % 256;
    assert n / 0x1_0000 == 256 * (n / 0x100_0000) + n / 0x1_0000 % 256;
  }

  lemma BytesRoundTrip(b: seq<Byte>)
    requires |b| == 4
    ensures ToLe(FromLe(b)) == b
  {
    var b0: int, b1: int, b2: int, b3: int := b[0], b[1], b[2], b[3];
    var n: int, n1: int, n2: int := FromLe(b), b1 + 0x100 * b2 + 0x1_0000 * b3, b2 + 0x100 * b3;
    assert n == b0 + 256 * n1;
    assert n % 256 == b0 && n / 256 == n1;
    assert n1 == b1 + 256 * n2;
    assert n1 % 256 == b1 && n1 / 256 == n2;
    assert n / 0x1_0000 == n2 && n / 0x100_0000 == b3;
  }

  /** The first byte counts ones, the second 256s, and so on. */
  lemma LittleEndian(n: Word)
    ensures var b := ToLe(n); b[0] as int + 256 * b[1] as int + 65536 * b[2] as int + 16777216 * b[3] as int == n
  {
    WordRoundTrip(n);
  }

  // ---------------------------------------------------------------- token arrays

  datatype FormatError = TooShort | WrongLength(expected: nat, got: nat)

  function Body(tokens: seq<Word>): (b: seq<Byte>)
    ensures |b| == 4 * |tokens|
  {
    if tokens == [] then [] else Body(tokens[..|tokens| - 1]) + ToLe(tokens[|tokens| - 1])
  }

  /** A count, cut to 32 bits, and the tokens. */
  function Encoded(tokens: seq<Word>): seq<Byte> { ToLe(|tokens| % WORD32) + Body(tokens) }

  function Words(b: seq<Byte>, n: nat): (t: seq<Word>)
    requires 4 * n <= |b|
    ensures |t| == n
  {
    if n == 0 then [] else Words(b, n - 1) + [FromLe(b[4 * n - 4..4 * n])]
  }

  function Decoded(b: seq<Byte>): Result<seq<Word>, FormatError>
  {
    if |b| < 4 then Err(TooShort)
    else
      var count := FromLe(b[..4]);
      if |b| != 4 + count * 4 then Err(WrongLength(4 + count * 4, |b|)) else Ok(Words(b[4..], count))
  }

  method Encode(tokens: seq<Word>) returns (buf: seq<Byte>)
    ensures buf == Encoded(tokens)
  {
    hide ToLe;
    buf := ToLe(|tokens| % WORD32);
    for i := 0 to |tokens|
      invariant buf == ToLe(|tokens| % WORD32) + Body(tokens[..i])
    {
      assert tokens[..i + 1][..i] == tokens[..i];
      buf := buf + ToLe(tokens[i]);
    }
    assert tokens[..|tokens|] == tokens;
  }

  lemma Shifted(b: seq<Byte>, i: nat)
    requires i + 8 <= |b|
    ensures b[i + 4..i + 8] == b[4..][i..i + 4]
  {
    var x, y := b[i + 4..i + 8], b[4..][i..i + 4];
    assert forall k | 0 <= k < |x| :: x[k] == y[k];
  }

  method Decode(b: seq<Byte>) returns (r: Result<seq<Word>, FormatError>)
    ensures r == Decoded(b)
  {
    if |b| < 4 {
      return Err(TooShort);
    }
    var count: int := FromLe(b[..4]);
    var expected := 4 + count * 4;
    if |b| != expected {
      return Err(WrongLength(expected, |b|));
    }
    hide FromLe;
    var tokens := [];
    for i := 0 to count
      invariant tokens == Words(b[4..], i)
    {
      var o := 4 + i * 4;
      assert b[o..o + 4] == b[4..][4 * i..4 * i + 4] by { Shifted(b, 4 * i); }
      tokens := tokens + [FromLe(b[o..o + 4])];
    }
    return Ok(tokens);
  }

  lemma {:induction false} WordsOfBody(tokens: seq<Word>, tail: seq<Byte>)
    ensures Words(Body(tokens) + tail, |tokens|) == tokens
  {
    hide ToLe, FromLe;
    if tokens != [] {
      var n := |tokens| - 1;
      var front, last := tokens[..n], tokens[n];
      assert Body(tokens) + tail == Body(front) + (ToLe(last) + tail);
      WordsOfBody(front, ToLe(last) + tail);
      assert (Body(front) + (ToLe(last) + tail))[4 * n..4 * n + 4] == ToLe(last);
      WordRoundTrip(last);
    }
  }

  lemma {:induction false} BodyOfWords(b: seq<Byte>, n: nat)
    requires 4 * n <= |b|
    ensures Body(Words(b, n)) == b[..4 * n]
  {
    hide ToLe, FromLe;
    if n > 0 {
      var m := n - 1;
      BodyOfWords(b, m);
      assert Words(b, n)[..m] == Words(b, m);
      BytesRoundTrip(b[4 * m..4 * m + 4]);
      assert b[..4 * n] == b[..4 * m] + b[4 * m..4 * m + 4];
    }
  }

  /** Decoding undoes encoding exactly for lists shorter than 2^32; a longer one is refused. */
  lemma DecodeEncode(tokens: seq<Word>)
    ensures |tokens| < WORD32 ==> Decoded(Encoded(tokens)) == Ok(tokens)
    ensures |tokens| >= WORD32 ==> Decoded(Encoded(tokens)).Err?
  {
    hide ToLe, FromLe, Body, Words;
    var count := |tokens| % WORD32;
    var b := Encoded(tokens);
    assert b[..4] == ToLe(count) && b[4..] == Body(tokens);
    WordRoundTrip(count);
    if |tokens| < WORD32 {
      WordsOfBody(tokens, []);
      assert Body(tokens) + [] == Body(tokens);
    }
  }

  /** What is refused: bytes without a count, and bytes whose number is not the one the count calls for. */
  lemma DecodeErrors(b: seq<Byte>)
    ensures Decoded(b) == Err(TooShort) <==> |b| < 4
    ensures |b| >= 4 ==>
              var count := b[0] as int + 256 * b[1] as int + 65536 * b[2] as int + 16777216 * b[3] as int;
              && (Decoded(b).Ok? <==> |b| == 4 + 4 * count)
              && (Decoded(b).Err? ==> Decoded(b) == Err(WrongLength(4 + 4 * count, |b|)))
  {
  }

  /** Bytes that decode are the encoding of what they decode to. */
  lemma EncodeDecode(b: seq<Byte>)
    requires Decoded(b).Ok?
    ensures |Decoded(b).value| < WORD32 && Encoded(Decoded(b).value) == b
  {
    hide ToLe, FromLe, Body, Words;
    var count := FromLe(b[..4]);
    BodyOfWords(b[4..], count);
    BytesRoundTrip(b[..4]);
    assert b[4..][..4 * count] == b[4..];
    assert b == b[..4] + b[4..];
  }

  // ---------------------------------------------------------------- frames

  type Frame = seq<Byte>

  datatype ReadError = UnexpectedEof | FrameTooLarge(size: nat, max: nat)

  function Framed(data: Frame): seq<Byte> { ToLe(|data| % WORD32) + data }

  /** What a read of one frame takes from the input, and the input that is left. */
  function TakeFrame(input: seq<Byte>, max: nat): (r: (Result<Frame, ReadError>, seq<Byte>))
    ensures r.0.Ok? ==> |r.1| < |input|
  {
    if |input| < 4 then (Err(UnexpectedEof), [])
    else
      var len := FromLe(input[..4]);
      if len > max then (Err(FrameTooLarge(len, max)), input[4..])
      else if |input| < 4 + len then (Err(UnexpectedEof), [])
      else (Ok(input[4..4 + len]), input[4 + len..])
  }

  /** A socket seen from one side: the bytes still to be read, the bytes written. */
  class Socket {
    var incoming: seq<Byte>
    var outgoing: seq<Byte>

    /** Fills the buffer or fails, in which case what was there is gone. */
    method ReadExact(n: nat) returns (r: Option<seq<Byte>>)
      modifies this`incoming
      ensures n <= |old(incoming)| ==> r == Some(old(incoming)[..n]) && incoming == old(incoming)[n..]
      ensures n > |old(incoming)| ==> r == None && incoming == []
    {
      if n > |incoming| {
        incoming := [];
        return None;
      }
      r := Some(incoming[..n]);
      incoming := incoming[n..];
    }

    method ReadFrame(max: nat) returns (r: Result<Frame, ReadError>)
      modifies this`incoming
      ensures (r, incoming) == TakeFrame(old(incoming), max)
      ensures |old(incoming)| < 4 ==> r == Err(UnexpectedEof) && incoming == []
      ensures r.Err? && r.error.FrameTooLarge? ==> r.error.size > max == r.error.max && incoming == old(incoming)[4..]
      ensures r.Ok? ==> |r.value| <= max && old(incoming)[4..] == r.value + incoming
    {
      hide FromLe;
      var prefix := ReadExact(4);
      if prefix.None? {
        return Err(UnexpectedEof);
      }
      var len := FromLe(prefix.value);
      if len > max {
        return Err(FrameTooLarge(len, max));
      }
      var data := ReadExact(len);
      if data.None? {
        return Err(UnexpectedEof);
      }
      assert old(incoming)[4..][..len] == old(incoming)[4..4 + len];
      assert old(incoming)[4..][len..] == old(incoming)[4 + len..];
      return Ok(data.value);
    }

    method WriteFrame(data: Frame)
      modifies this`outgoing
      ensures outgoing == old(outgoing) + Framed(data)
    {
      outgoing := outgoing + ToLe(|data| % WORD32);
      outgoing := outgoing + data;
    }
  }

  /** Reading frames until an error. */
  function ReadAll(input: seq<Byte>, max: nat): (seq<Frame>, ReadError)
    decreases |input|
  {
    var (r, rest) := TakeFrame(input, max);
    match r
    case Err(e) => ([], e)
    case Ok(data) => var (more, e) := ReadAll(rest, max); ([data] + more, e)
  }

  function WriteAll(frames: seq<Frame>): seq<Byte>
  {
    if frames == [] then [] else Framed(frames[0]) + WriteAll(frames[1..])
  }

  predicate Carried(data: Frame, max: nat) { |data| <= max && |data| < WORD32 }

  lemma TakeFramed(data: Frame, tail: seq<Byte>, max: nat)
    ensures Carried(data, max) ==> TakeFrame(Framed(data) + tail, max) == (Ok(data), tail)
    ensures !Carried(data, max) ==> TakeFrame(Framed(data) + tail, max).0 != Ok(data)
    ensures max < |data| < WORD32 ==> TakeFrame(Framed(data) + tail, max).0 == Err(FrameTooLarge(|data|, max))
  {
    hide ToLe, FromLe;
    var input := Framed(data) + tail;
    var len := |data| % WORD32;
    assert input[..4] == ToLe(len);
    WordRoundTrip(len);
    if Carried(data, max) {
      assert input[4..4 + len] == data && input[4 + len..] == tail;
    }
  }

  /** Frames written one after another are read back exactly, then end-of-file, when and only when each can be carried. */
  lemma {:induction false} FramesRoundTrip(frames: seq<Frame>, max: nat)
    ensures ReadAll(WriteAll(frames), max) == (frames, UnexpectedEof)
       <==> (forall i | 0 <= i < |frames| :: Carried(frames[i], max))
  {
    hide Framed, TakeFrame, Carried;
    if frames == [] {
      EmptyInput(max);
    } else {
      var tail := WriteAll(frames[1..]);
      TakeFramed(frames[0], tail, max);
      FramesRoundTrip(frames[1..], max);
      if Carried(frames[0], max) {
        var (more, e) := ReadAll(tail, max);
        assert ([frames[0]] + more)[1..] == more;
        assert frames == [frames[0]] + frames[1..];
        assert (forall i | 0 <= i < |frames| :: Carried(frames[i], max))
          <==> (forall i | 0 <= i < |frames[1..]| :: Carried(frames[1..][i], max)) by { AllCarried(frames, max); }
      }
    }
  }

  lemma EmptyInput(max: nat)
    ensures TakeFrame([], max).0 == Err(UnexpectedEof)
  {
  }

  lemma AllCarried(frames: seq<Frame>, max: nat)
    requires frames != [] && Carried(frames[0], max)
    ensures (forall i | 0 <= i < |frames| :: Carried(frames[i], max))
       <==> (forall i | 0 <= i < |frames[1..]| :: Carried(frames[1..][i], max))
  {
    hide Carried;
    if forall i | 0 <= i < |frames[1..]| :: Carried(frames[1..][i], max) {
      forall i | 0 <= i < |frames|
        ensures Carried(frames[i], max)
      {
        assert i > 0 ==> frames[i] == frames[1..][i - 1];
      }
    }
  }

  /** How many whole frames the first `n` bytes of the written stream hold. */
  function Whole(frames: seq<Frame>, n: nat): nat
  {
    if frames == [] || n < |Framed(frames[0])| then 0 else 1 + Whole(frames[1..], n - |Framed(frames[0])|)
  }

  /** Cut anywhere, the stream still gives the frames that are whole, and then end-of-file. */
  lemma {:induction false} Truncated(frames: seq<Frame>, n: nat, max: nat)
    requires n <= |WriteAll(frames)| && forall i | 0 <= i < |frames| :: Carried(frames[i], max)
    ensures Whole(frames, n) <= |frames|
    ensures ReadAll(WriteAll(frames)[..n], max) == (frames[..Whole(frames, n)], UnexpectedEof)
    decreases |frames|
  {
    hide TakeFrame, ToLe, FromLe;
    var input := WriteAll(frames)[..n];
    if frames == [] {
      EmptyInput(max);
      assert input == [];
    } else {
      var first := Framed(frames[0]);
      if n < |first| {
        assert input == first[..n];
        PartFrame(frames[0], n, max);
      } else {
        var tail := WriteAll(frames[1..])[..n - |first|];
        assert input == first + tail;
        TakeFramed(frames[0], tail, max);
        Truncated(frames[1..], n - |first|, max);
        assert [frames[0]] + frames[1..][..Whole(frames[1..], n - |first|)] == frames[..Whole(frames, n)];
      }
    }
  }

  lemma PartFrame(data: Frame, n: nat, max: nat)
    requires Carried(data, max) && n < |Framed(data)|
    ensures TakeFrame(Framed(data)[..n], max).0 == Err(UnexpectedEof)
  {
    hide ToLe, FromLe;
    if n >= 4 {
      assert Framed(data)[..n][..4] == ToLe(|data|);
      WordRoundTrip(|data|);
    }
  }
}
