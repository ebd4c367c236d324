/**
 * src/wt_security.c: the buffered SHA-256 behind token hashes, proved against the definition in
 * FIPS 180-4.
 */
module Sha256 {
  const BLOCK_SIZE: nat := 64
  const TWO_TO_THE_64: nat := 0x1_0000_0000_0000_0000

  // Section 4.2.2 of FIPS 180-4.
  function Constant(t: nat): bv32
    requires t < 64
  {
    match t
    case 0 => 0x428a2f98 case 1 => 0x71374491 case 2 => 0xb5c0fbcf case 3 => 0xe9b5dba5
    case 4 => 0x3956c25b case 5 => 0x59f111f1 case 6 => 0x923f82a4 case 7 => 0xab1c5ed5
    case 8 => 0xd807aa98 case 9 => 0x12835b01 case 10 => 0x243185be case 11 => 0x550c7dc3
    case 12 => 0x72be5d74 case 13 => 0x80deb1fe case 14 => 0x9bdc06a7 case 15 => 0xc19bf174
    case 16 => 0xe49b69c1 case 17 => 0xefbe4786 case 18 => 0x0fc19dc6 case 19 => 0x240ca1cc
    case 20 => 0x2de92c6f case 21 => 0x4a7484aa case 22 => 0x5cb0a9dc case 23 => 0x76f988da
    case 24 => 0x983e5152 case 25 => 0xa831c66d case 26 => 0xb00327c8 case 27 => 0xbf597fc7
    case 28 => 0xc6e00bf3 case 29 => 0xd5a79147 case 30 => 0x06ca6351 case 31 => 0x14292967
    case 32 => 0x27b70a85 case 33 => 0x2e1b2138 case 34 => 0x4d2c6dfc case 35 => 0x53380d13
    case 36 => 0x650a7354 case 37 => 0x766a0abb case 38 => 0x81c2c92e case 39 => 0x92722c85
    case 40 => 0xa2bfe8a1 case 41 => 0xa81a664b case 42 => 0xc24b8b70 case 43 => 0xc76c51a3
    case 44 => 0xd192e819 case 45 => 0xd6990624 case 46 => 0xf40e3585 case 47 => 0x106aa070
    case 48 => 0x19a4c116 case 49 => 0x1e376c08 case 50 => 0x2748774c case 51 => 0x34b0bcb5
    case 52 => 0x391c0cb3 case 53 => 0x4ed8aa4a case 54 => 0x5b9cca4f case 55 => 0x682e6ff3
    case 56 => 0x748f82ee case 57 => 0x78a5636f case 58 => 0x84c87814 case 59 => 0x8cc70208
    case 60 => 0x90befffa case 61 => 0xa4506ceb case 62 => 0xbef9a3f7 case _ => 0xc67178f2
  }

  datatype State = State(a: bv32, b: bv32, c: bv32, d: bv32, e: bv32, f: bv32, g: bv32, h: bv32)

  // Section 5.3.3.
  const INITIAL: State := State(0x6a09e667, 0xbb67ae85, 0x3c6ef372, 0xa54ff53a, 0x510e527f, 0x9b05688c, 0x1f83d9ab, 0x5be0cd19)

  // ----- The functions of section 4.1.2; RotateRight(n) is its ROTR -----

  // Addition of uint32_t wraps.
  function Add(x: bv32, y: bv32): bv32 { x + y }

  function Ch(x: bv32, y: bv32, z: bv32): bv32 { (x & y) ^ (!x & z) }
  function Maj(x: bv32, y: bv32, z: bv32): bv32 { (x & y) ^ (x & z) ^ (y & z) }
  function BigSigma0(x: bv32): bv32 { x.RotateRight(2) ^ x.RotateRight(13) ^ x.RotateRight(22) }
  function BigSigma1(x: bv32): bv32 { x.RotateRight(6) ^ x.RotateRight(11) ^ x.RotateRight(25) }
  function SmallSigma0(x: bv32): bv32 { x.RotateRight(7) ^ x.RotateRight(18) ^ (x >> 3) }
  function SmallSigma1(x: bv32): bv32 { x.RotateRight(17) ^ x.RotateRight(19) ^ (x >> 10) }

  // ----- Section 6.2.2 -----

  function BigEndianWord(b0: bv8, b1: bv8, b2: bv8, b3: bv8): bv32 {
    ((b0 as bv32) << 24) | ((b1 as bv32) << 16) | ((b2 as bv32) << 8) | (b3 as bv32)
  }

  // The body of the second schedule loop, on w[i - 16], w[i - 15], w[i - 7] and w[i - 2].
  function NextWord(w16: bv32, w15: bv32, w7: bv32, w2: bv32): bv32 {
    Add(Add(Add(w16, SmallSigma0(w15)), w7), SmallSigma1(w2))
  }

  // Step 1: the first n words of the message schedule.
  function Schedule(block: seq<bv8>, n: nat): (w: seq<bv32>)
    requires |block| == BLOCK_SIZE && n <= 64
    ensures |w| == n
  {
    if n == 0 then []
    else
      var w, t := Schedule(block, n - 1), n - 1;
      w + [if t < 16 then BigEndianWord(block[4 * t], block[4 * t + 1], block[4 * t + 2], block[4 * t + 3])
           else NextWord(w[t - 16], w[t - 15], w[t - 7], w[t - 2])]
  }

  // Step 3: one round.
  function T1(v: State, k: bv32, w: bv32): bv32 {
    Add(Add(Add(Add(v.h, BigSigma1(v.e)), Ch(v.e, v.f, v.g)), k), w)
  }
  function T2(v: State): bv32 { Add(BigSigma0(v.a), Maj(v.a, v.b, v.c)) }

  function Round(v: State, t1: bv32, t2: bv32): State {
    State(Add(t1, t2), v.a, v.b, v.c, Add(v.d, t1), v.e, v.f, v.g)
  }

  // Steps 2 and 3: the working variables after t rounds.
  function Rounds(start: State, w: seq<bv32>, t: nat): State
    requires |w| == 64 && t <= 64
  {
    if t == 0 then start
    else
      var v := Rounds(start, w, t - 1);
      Round(v, T1(v, Constant(t - 1), w[t - 1]), T2(v))
  }

  // Step 4: the next intermediate hash value.
  function Compress(v: State, block: seq<bv8>): State
    requires |block| == BLOCK_SIZE
  {
    var r := Rounds(v, Schedule(block, 64), 64);
    State(Add(v.a, r.a), Add(v.b, r.b), Add(v.c, r.c), Add(v.d, r.d), Add(v.e, r.e), Add(v.f, r.f), Add(v.g, r.g), Add(v.h, r.h))
  }

  // The intermediate hash value after all blocks of `data`.
  function CompressAll(data: seq<bv8>): State
    requires |data| % BLOCK_SIZE == 0
    decreases |data|
  {
    if data == [] then INITIAL
    else
      var n := |data| - BLOCK_SIZE;
      Compress(CompressAll(data[..n]), data[n..])
  }

  // ----- Section 5.1.1: padding -----

  function Zeros(n: nat): (z: seq<bv8>)
    ensures |z| == n && forall i :: 0 <= i < n ==> z[i] == 0
  {
    seq(n, i => 0)
  }

  function BigEndian(n: nat, width: nat): (bytes: seq<bv8>)
    ensures |bytes| == width
  {
    if width == 0 then [] else BigEndian(n / 256, width - 1) + [(n % 256) as bv8]
  }

  // The number of zero bytes k with |message| + 1 + k + 8 a multiple of 64, the smallest one.
  function PaddingZeros(length: nat): (k: nat)
    ensures k < BLOCK_SIZE && (length + 1 + k + 8) % BLOCK_SIZE == 0
  {
    (55 - length) % 64
  }

  function Padded(message: seq<bv8>): (p: seq<bv8>)
    ensures |p| % BLOCK_SIZE == 0
  {
    message + [0x80] + Zeros(PaddingZeros(|message|)) + BigEndian(8 * |message| % TWO_TO_THE_64, 8)
  }

  // ----- The digest -----

  function WordBytes(w: bv32): seq<bv8> {
    [((w >> 24) & 0xff) as bv8, ((w >> 16) & 0xff) as bv8, ((w >> 8) & 0xff) as bv8, (w & 0xff) as bv8]
  }

  function Words(v: State): (ws: seq<bv32>)
    ensures |ws| == 8
  {
    [v.a, v.b, v.c, v.d, v.e, v.f, v.g, v.h]
  }

  function WordsBytes(ws: seq<bv32>): (bytes: seq<bv8>)
    ensures |bytes| == 4 * |ws|
  {
    if ws == [] then [] else WordsBytes(ws[..|ws| - 1]) + WordBytes(ws[|ws| - 1])
  }

  // SHA-256 of a message, as FIPS 180-4 defines it.
  function Digest(message: seq<bv8>): seq<bv8> { WordsBytes(Words(CompressAll(Padded(message)))) }

  lemma {:induction false} CompressAllAppend(data: seq<bv8>, block: seq<bv8>)
    requires |data| % BLOCK_SIZE == 0 && |block| == BLOCK_SIZE
    ensures CompressAll(data + block) == Compress(CompressAll(data), block)
  {
    hide Compress;
    assert (data + block)[..|data|] == data;
    assert (data + block)[|data|..] == block;
  }

  // ----- rotr32 is written out as the two shifts it is -----

  method Sigma0Step(x: bv32) returns (s0: bv32)
    ensures s0 == SmallSigma0(x)
  {
    s0 := ((x >> 7) | (x << 25)) ^ ((x >> 18) | (x << 14)) ^ (x >> 3);
  }

  method Sigma1Step(x: bv32) returns (s1: bv32)
    ensures s1 == SmallSigma1(x)
  {
    s1 := ((x >> 17) | (x << 15)) ^ ((x >> 19) | (x << 13)) ^ (x >> 10);
  }

  method ScheduleWord(w16: bv32, w15: bv32, w7: bv32, w2: bv32) returns (w: bv32)
    ensures w == NextWord(w16, w15, w7, w2)
  {
    var s0 := Sigma0Step(w15);
    var s1 := Sigma1Step(w2);
    w := Add(Add(Add(w16, s0), w7), s1);
  }

  method BigSigma0Step(x: bv32) returns (s0: bv32)
    ensures s0 == BigSigma0(x)
  {
    s0 := ((x >> 2) | (x << 30)) ^ ((x >> 13) | (x << 19)) ^ ((x >> 22) | (x << 10));
  }

  method BigSigma1Step(x: bv32) returns (s1: bv32)
    ensures s1 == BigSigma1(x)
  {
    s1 := ((x >> 6) | (x << 26)) ^ ((x >> 11) | (x << 21)) ^ ((x >> 25) | (x << 7));
  }

  method ChStep(e: bv32, f: bv32, g: bv32) returns (ch: bv32)
    ensures ch == Ch(e, f, g)
  {
    ch := (e & f) ^ ((!e) & g);
  }

  method MajStep(a: bv32, b: bv32, c: bv32) returns (maj: bv32)
    ensures maj == Maj(a, b, c)
  {
    maj := (a & b) ^ (a & c) ^ (b & c);
  }

  // temp1 and temp2 of the round loop.
  method RoundSums(a: bv32, b: bv32, c: bv32, d: bv32, e: bv32, f: bv32, g: bv32, h: bv32, k: bv32, w: bv32)
    returns (t1: bv32, t2: bv32)
    ensures var v := State(a, b, c, d, e, f, g, h); t1 == T1(v, k, w) && t2 == T2(v)
  {
    var s1 := BigSigma1Step(e);
    var ch := ChStep(e, f, g);
    t1 := Add(Add(Add(Add(h, s1), ch), k), w);
    var s0 := BigSigma0Step(a);
    var maj := MajStep(a, b, c);
    t2 := Add(s0, maj);
  }

  lemma RoundsUnfold(start: State, w: seq<bv32>, t: nat)
    requires |w| == 64 && t < 64
    ensures var v := Rounds(start, w, t); Rounds(start, w, t + 1) == Round(v, T1(v, Constant(t), w[t]), T2(v))
  {
  }

  // The round loop of sha256Transform.
  method RunRounds(start: State, w: seq<bv32>) returns (v: State)
    requires |w| == 64
    ensures v == Rounds(start, w, 64)
  {
    var a, b, c, d := start.a, start.b, start.c, start.d;
    var e, f, g, h := start.e, start.f, start.g, start.h;
    for i := 0 to 64
      invariant State(a, b, c, d, e, f, g, h) == Rounds(start, w, i)
    {
      RoundsUnfold(start, w, i);
      var t1, t2 := RoundSums(a, b, c, d, e, f, g, h, Constant(i), w[i]);
      h := g;
      g := f;
      f := e;
      e := Add(d, t1);
      d := c;
      c := b;
      b := a;
      a := Add(t1, t2);
    }
    v := State(a, b, c, d, e, f, g, h);
  }

  // ----- The schedule in the words of FIPS 180-4 -----

  lemma {:induction false} ScheduleGrows(block: seq<bv8>, n: nat, m: nat)
    requires |block| == BLOCK_SIZE && n <= m <= 64
    ensures Schedule(block, m)[..n] == Schedule(block, n)
    decreases m
  {
    if n < m {
      ScheduleGrows(block, n, m - 1);
      assert Schedule(block, m)[..n] == Schedule(block, m - 1)[..n];
    }
  }

  // W_t of section 6.2.2, step 1.
  function W(block: seq<bv8>, t: nat): bv32
    requires |block| == BLOCK_SIZE && t < 64
  {
    Schedule(block, 64)[t]
  }

  lemma ScheduleAt(block: seq<bv8>, t: nat)
    requires |block| == BLOCK_SIZE && t < 64
    ensures forall j :: 0 <= j <= t ==> W(block, j) == Schedule(block, t + 1)[j]
  {
    ScheduleGrows(block, t + 1, 64);
    assert forall j :: 0 <= j <= t ==> Schedule(block, 64)[j] == Schedule(block, 64)[..t + 1][j];
  }

  lemma ScheduleLast(block: seq<bv8>, t: nat)
    requires |block| == BLOCK_SIZE && t < 64
    ensures var w, next := Schedule(block, t), Schedule(block, t + 1);
            && (t < 16 ==> next[t] == BigEndianWord(block[4 * t], block[4 * t + 1], block[4 * t + 2], block[4 * t + 3]))
            && (t >= 16 ==> next[t] == NextWord(w[t - 16], w[t - 15], w[t - 7], w[t - 2]))
            && forall j :: 0 <= j < t ==> next[j] == w[j]
  {
    hide BigEndianWord, NextWord;
  }

  /** The schedule satisfies the two equations of section 6.2.2, step 1. */
  lemma ScheduleEquations(block: seq<bv8>, t: nat)
    requires |block| == BLOCK_SIZE && t < 64
    ensures t < 16 ==> W(block, t) == BigEndianWord(block[4 * t], block[4 * t + 1], block[4 * t + 2], block[4 * t + 3])
    ensures t >= 16 ==> W(block, t) == FipsNextWord(W(block, t - 2), W(block, t - 7), W(block, t - 15), W(block, t - 16))
  {
    hide BigEndianWord, NextWord, FipsNextWord, W, Schedule;
    ScheduleAt(block, t);
    ScheduleLast(block, t);
    if t >= 16 {
      NextWordInFipsOrder(W(block, t - 16), W(block, t - 15), W(block, t - 7), W(block, t - 2));
    }
  }

  function FipsNextWord(w2: bv32, w7: bv32, w15: bv32, w16: bv32): bv32 {
    Add(Add(Add(SmallSigma1(w2), w7), SmallSigma0(w15)), w16)
  }

  lemma AddCommutes(x: bv32, y: bv32)
    ensures Add(x, y) == Add(y, x)
  {
  }

  lemma AddAssociates(x: bv32, y: bv32, z: bv32)
    ensures Add(Add(x, y), z) == Add(x, Add(y, z))
  {
    assert Add(Add(x, y), z) == Add(x + y, z);
    assert Add(x, Add(y, z)) == Add(x, y + z);
  }

  lemma AddReversed(a: bv32, b: bv32, c: bv32, d: bv32)
    ensures Add(Add(Add(a, b), c), d) == Add(Add(Add(d, c), b), a)
  {
    AddCommutes(Add(Add(a, b), c), d);
    AddCommutes(Add(a, b), c);
    AddCommutes(a, b);
    AddAssociates(d, c, Add(b, a));
    AddAssociates(Add(d, c), b, a);
  }

  lemma NextWordInFipsOrder(w16: bv32, w15: bv32, w7: bv32, w2: bv32)
    ensures NextWord(w16, w15, w7, w2) == FipsNextWord(w2, w7, w15, w16)
  {
    AddReversed(w16, SmallSigma0(w15), w7, SmallSigma1(w2));
  }

  lemma BitLengthAdds(done: nat, n: nat)
    ensures (8 * done % TWO_TO_THE_64 + n * 8) % TWO_TO_THE_64 == 8 * (done + n) % TWO_TO_THE_64
  {
  }

  // The schedule loops of sha256Transform: w[0..16] from the block, w[16..64] from earlier entries.
  method BuildSchedule(block: array<bv8>) returns (w: array<bv32>)
    requires block.Length == BLOCK_SIZE
    ensures fresh(w) && w[..] == Schedule(block[..], 64)
  {
    w := new bv32[64];
    for i := 0 to 16
      invariant w[..i] == Schedule(block[..], i)
    {
      w[i] := BigEndianWord(block[4 * i], block[4 * i + 1], block[4 * i + 2], block[4 * i + 3]);
      assert w[..i + 1] == w[..i] + [w[i]];
    }
    for i := 16 to 64
      invariant w[..i] == Schedule(block[..], i)
    {
      var word := ScheduleWord(w[i - 16], w[i - 15], w[i - 7], w[i - 2]);
      assert word == NextWord(w[..i][i - 16], w[..i][i - 15], w[..i][i - 7], w[..i][i - 2]);
      w[i] := word;
      assert w[..i + 1] == w[..i] + [word];
    }
    assert w[..] == w[..64];
  }

  // The output loop of sha256Final.
  method Output(state: State) returns (digest: seq<bv8>)
    ensures digest == WordsBytes(Words(state))
  {
    digest := [];
    var words := Words(state);
    for i := 0 to 8
      invariant digest == WordsBytes(words[..i])
    {
      assert words[..i + 1][..i] == words[..i];
      digest := digest + WordBytes(words[i]);
    }
    assert words[..8] == words;
  }

  // ----- The streaming context -----

  // A state and the bytes waiting in the buffer stand for `data`: its full blocks are in the state.
  ghost predicate Stands(state: State, waiting: seq<bv8>, data: seq<bv8>) {
    && |waiting| <= |data|
    && (|data| - |waiting|) % BLOCK_SIZE == 0
    && state == CompressAll(data[..|data| - |waiting|])
    && waiting == data[|data| - |waiting|..]
  }

  lemma StandsLength(state: State, waiting: seq<bv8>, data: seq<bv8>)
    requires Stands(state, waiting, data)
    ensures |waiting| <= |data| && (|data| - |waiting|) % BLOCK_SIZE == 0
  {
  }

  lemma StandsPut(state: State, waiting: seq<bv8>, data: seq<bv8>, x: seq<bv8>)
    requires Stands(state, waiting, data)
    ensures Stands(state, waiting + x, data + x)
  {
    hide Compress, CompressAll;
    var n := |data| - |waiting|;
    assert (data + x)[..n] == data[..n];
    assert (data + x)[n..] == data[n..] + x;
  }

  lemma StandsFlush(state: State, block: seq<bv8>, data: seq<bv8>)
    requires Stands(state, block, data) && |block| == BLOCK_SIZE
    ensures Stands(Compress(state, block), [], data)
  {
    hide Compress, CompressAll;
    var n := |data| - BLOCK_SIZE;
    CompressAllAppend(data[..n], block);
    assert data == data[..n] + block;
    assert data[..|data|] == data;
  }

  class Context {
    var state: State
    const buffer: array<bv8>
    var bufferLen: nat
    var bitLen: nat  // a uint64_t

    // Everything fed in so far.
    ghost var absorbed: seq<bv8>

    ghost predicate Shape()
      reads this
    {
      buffer.Length == BLOCK_SIZE && bufferLen <= BLOCK_SIZE
    }

    ghost predicate Holds(data: seq<bv8>)
      reads this, buffer
    {
      Shape() && Stands(state, buffer[..bufferLen], data)
    }

    ghost predicate Valid()
      reads this, buffer
    {
      && Holds(absorbed)
      && bufferLen < BLOCK_SIZE
      && bitLen == 8 * (|absorbed| - bufferLen) % TWO_TO_THE_64
    }

    // sha256Init
    constructor ()
      ensures Valid() && fresh(buffer) && absorbed == []
    {
      state := INITIAL;
      buffer := new bv8[BLOCK_SIZE];
      bufferLen := 0;
      bitLen := 0;
      absorbed := [];
    }

    // sha256Transform on the buffer.
    method Transform()
      requires buffer.Length == BLOCK_SIZE
      modifies this`state
      ensures state == Compress(old(state), buffer[..])
    {
      hide Rounds, Schedule;
      var w := BuildSchedule(buffer);
      var v := RunRounds(state, w[..]);
      state := State(Add(state.a, v.a), Add(state.b, v.b), Add(state.c, v.c), Add(state.d, v.d),
                     Add(state.e, v.e), Add(state.f, v.f), Add(state.g, v.g), Add(state.h, v.h));
    }

    method Put(x: bv8, ghost data: seq<bv8>)
      requires Holds(data) && bufferLen < BLOCK_SIZE
      modifies this`bufferLen, buffer
      ensures Holds(data + [x]) && bufferLen == old(bufferLen) + 1
    {
      hide Compress, CompressAll;
      ghost var waiting := buffer[..bufferLen];
      StandsPut(state, waiting, data, [x]);
      buffer[bufferLen] := x;
      bufferLen := bufferLen + 1;
      assert buffer[..bufferLen] == waiting + [x];
    }

    // A full buffer is compressed.
    method Flush(ghost data: seq<bv8>)
      requires Holds(data) && bufferLen == BLOCK_SIZE
      modifies this`bufferLen, this`state
      ensures Holds(data) && bufferLen == 0
    {
      hide Compress, CompressAll;
      assert buffer[..] == buffer[..bufferLen];
      StandsFlush(state, buffer[..], data);
      Transform();
      bufferLen := 0;
    }

    // One turn of the loop of sha256Update.
    method AbsorbByte(x: bv8)
      requires Valid()
      modifies this, buffer
      ensures Valid() && absorbed == old(absorbed) + [x]
    {
      hide Compress, CompressAll;
      BitLengthAdds(|absorbed| - bufferLen, BLOCK_SIZE);
      Put(x, absorbed);
      absorbed := absorbed + [x];
      if bufferLen == BLOCK_SIZE {
        Flush(absorbed);
        bitLen := (bitLen + BLOCK_SIZE * 8) % TWO_TO_THE_64;
      }
    }

    // sha256Update
    method Update(data: seq<bv8>)
      requires Valid()
      modifies this, buffer
      ensures Valid() && absorbed == old(absorbed) + data
    {
      hide Compress, CompressAll;
      for i := 0 to |data|
        invariant Valid() && absorbed == old(absorbed) + data[..i]
      {
        AbsorbByte(data[i]);
        assert data[..i + 1] == data[..i] + [data[i]];
      }
      assert data[..|data|] == data;
    }

    // The two zero-filling loops of sha256Final.
    method FillWithZeros(upTo: nat, ghost data: seq<bv8>)
      requires Holds(data) && bufferLen <= upTo <= BLOCK_SIZE
      modifies this`bufferLen, buffer
      ensures bufferLen == upTo
      ensures Holds(data + Zeros(upTo - old(bufferLen)))
    {
      hide Compress, CompressAll;
      ghost var from := bufferLen;
      assert data + Zeros(0) == data;
      while bufferLen < upTo
        invariant from <= bufferLen <= upTo
        invariant Holds(data + Zeros(bufferLen - from))
      {
        ghost var n := bufferLen - from;
        assert data + Zeros(n + 1) == (data + Zeros(n)) + [0];
        Put(0, data + Zeros(n));
      }
    }

    // storeBe64 into the last eight bytes.
    method StoreLength(n: nat)
      requires buffer.Length == BLOCK_SIZE
      modifies buffer
      ensures buffer[..] == old(buffer[..56]) + BigEndian(n, 8)
    {
      var value := n;
      var i := 8;
      while i > 0
        invariant 0 <= i <= 8
        invariant buffer[..56] == old(buffer[..56])
        invariant BigEndian(n, 8) == BigEndian(value, i) + buffer[56 + i..]
      {
        i := i - 1;
        ghost var after := buffer[57 + i..];
        buffer[56 + i] := (value % 256) as bv8;
        assert buffer[56 + i..] == [(value % 256) as bv8] + after;
        assert BigEndian(value, i + 1) + after == BigEndian(value / 256, i) + buffer[56 + i..];
        value := value / 256;
      }
      assert buffer[..] == buffer[..56] + buffer[56..];
    }

    method LastBlock(ghost data: seq<bv8>)
      requires Holds(data) && bufferLen == 56
      modifies this`state, buffer
      ensures (|data| + 8) % BLOCK_SIZE == 0 && state == CompressAll(data + BigEndian(bitLen, 8))
    {
      hide Compress, CompressAll;
      ghost var all := data + BigEndian(bitLen, 8);
      StandsPut(state, buffer[..56], data, BigEndian(bitLen, 8));
      StoreLength(bitLen);
      StandsFlush(state, buffer[..], all);
      Transform();
      assert all[..|all|] == all;
    }

    // sha256Final up to the length: 0x80, and zeros through the end of a block when the length no longer fits.
    method PadToLength()
      requires Holds(absorbed) && bufferLen < BLOCK_SIZE
      modifies this`bufferLen, this`state, buffer
      ensures bufferLen == 56 && Holds(absorbed + [0x80] + Zeros(PaddingZeros(|absorbed|)))
    {
      hide Compress, CompressAll, Zeros, PaddingZeros, Stands;
      ghost var data, k := absorbed + [0x80], PaddingZeros(|absorbed|);
      StandsLength(state, buffer[..bufferLen], absorbed);
      ZeroCount(|absorbed|, bufferLen);
      Put(0x80, absorbed);
      if bufferLen > 56 {
        ghost var z := BLOCK_SIZE - bufferLen;
        FillWithZeros(BLOCK_SIZE, data);
        Flush(data + Zeros(z));
        FillWithZeros(56, data + Zeros(z));
        ZerosAdd(data, z, 56);
      } else {
        FillWithZeros(56, data);
      }
    }

    // sha256Final
    method Final() returns (digest: seq<bv8>)
      requires Valid()
      modifies this, buffer
      ensures digest == Digest(old(absorbed))
    {
      hide Compress, CompressAll, WordsBytes, BigEndian, PaddingZeros, Zeros;
      BitLengthAdds(|absorbed| - bufferLen, bufferLen);
      bitLen := (bitLen + bufferLen * 8) % TWO_TO_THE_64;
      PadToLength();
      LastBlock(absorbed + [0x80] + Zeros(PaddingZeros(|absorbed|)));
      digest := Output(state);
    }
  }

  lemma ZeroCount(length: nat, waiting: nat)
    requires waiting < BLOCK_SIZE && waiting <= length && (length - waiting) % BLOCK_SIZE == 0
    ensures PaddingZeros(length) == if waiting < 56 then 55 - waiting else 119 - waiting
  {
    assert (55 - length) % 64 == (55 - waiting) % 64;
  }

  lemma ZerosAdd(data: seq<bv8>, m: nat, n: nat)
    ensures data + Zeros(m) + Zeros(n) == data + Zeros(m + n)
  {
  }

  function Concat(pieces: seq<seq<bv8>>): seq<bv8> {
    if pieces == [] then [] else Concat(pieces[..|pieces| - 1]) + pieces[|pieces| - 1]
  }

  /** For every way of cutting a message into update calls, the buffered hash is the hash of the whole message. */
  method HashPieces(pieces: seq<seq<bv8>>) returns (digest: seq<bv8>)
    ensures digest == Digest(Concat(pieces))
  {
    hide Digest;
    var ctx := new Context();
    for i := 0 to |pieces|
      invariant ctx.Valid() && ctx.absorbed == Concat(pieces[..i])
      invariant fresh(ctx) && fresh(ctx.buffer)
    {
      ctx.Update(pieces[i]);
      assert pieces[..i + 1][..i] == pieces[..i];
    }
    assert pieces[..|pieces|] == pieces;
    digest := ctx.Final();
  }
}
