/**
 The streaming digest of src/Hash.cpp: updates of any size are cut into blocks of 64 bytes, and the final padding ends
 on a block boundary. The block function and the digest extraction are parameters; bytes are natural numbers.
 */
module HashStreams {
  import opened Arithmetic

  type Bytes = seq<nat>

  const BLOCK_SIZE: nat := 64
  const COUNT_SIZE: nat := 8
  const TWO_TO_61: nat := 0x2000_0000_0000_0000
  const TWO_TO_64: nat := 0x1_0000_0000_0000_0000

  // The state after whole blocks.
  function Absorb<S>(block: (S, Bytes) -> S, start: S, data: Bytes): S
    requires |data| % BLOCK_SIZE == 0
    decreases |data|
  {
    if data == [] then start
    else
      var n := |data| - BLOCK_SIZE;
      block(Absorb(block, start, data[..n]), data[n..])
  }

  lemma {:induction false} AbsorbBlock<S>(block: (S, Bytes) -> S, start: S, data: Bytes, last: Bytes)
    requires |data| % BLOCK_SIZE == 0 && |last| == BLOCK_SIZE
    ensures |data + last| % BLOCK_SIZE == 0
    ensures Absorb(block, start, data + last) == block(Absorb(block, start, data), last)
  {
    var all := data + last;
    assert all[..|all| - BLOCK_SIZE] == data && all[|all| - BLOCK_SIZE..] == last;
  }

  /* ---- Padding ---- */

  function Zeros(n: nat): (r: Bytes)
    ensures |r| == n && forall i :: 0 <= i < n ==> r[i] == 0
  {
    seq(n, _ => 0)
  }

  function EncodeWord(v: nat): (r: Bytes)
    requires v < TWO_TO_32
    ensures |r| == 4 && AreBytes(r)
  {
    [v / 0x100_0000, v / 0x1_0000 % 256, v / 0x100 % 256, v % 256]
  }

  function DecodeWord(b: Bytes): nat
    requires |b| == 4
  {
    0x100_0000 * b[0] + 0x1_0000 * b[1] + 0x100 * b[2] + b[3]
  }

  lemma {:induction false} WordRoundTrip(v: nat)
    requires v < TWO_TO_32
    ensures DecodeWord(EncodeWord(v)) == v
  {
    assert v == 256 * (v / 0x100) + v % 256;
    assert v / 0x100 == 256 * (v / 0x1_0000) + v / 0x100 % 256;
    assert v / 0x1_0000 == 256 * (v / 0x100_0000) + v / 0x1_0000 % 256;
  }

  // The message size in bits, most significant byte first.
  function Encode64(v: nat): (r: Bytes)
    requires v < TWO_TO_64
    ensures |r| == COUNT_SIZE && AreBytes(r)
  {
    EncodeWord(v / TWO_TO_32) + EncodeWord(v % TWO_TO_32)
  }

  function Decode64(b: Bytes): nat
    requires |b| == COUNT_SIZE
  {
    TWO_TO_32 * DecodeWord(b[..4]) + DecodeWord(b[4..])
  }

  lemma {:induction false} Encode64RoundTrip(v: nat)
    requires v < TWO_TO_64
    ensures Decode64(Encode64(v)) == v
  {
    var high, low := v / TWO_TO_32, v % TWO_TO_32;
    WordRoundTrip(high);
    WordRoundTrip(low);
    assert Encode64(v)[..4] == EncodeWord(high) && Encode64(v)[4..] == EncodeWord(low);
  }

  // The zero bytes that HashFinalize adds when the buffer holds `used` bytes after the 0x80 byte.
  function ZeroCount(used: nat): nat
    requires used < BLOCK_SIZE
  {
    if used < BLOCK_SIZE - COUNT_SIZE then BLOCK_SIZE - COUNT_SIZE - used
    else BLOCK_SIZE - (used - (BLOCK_SIZE - COUNT_SIZE))
  }

  function PaddingWith(zeros: nat, length: nat): (r: Bytes)
    ensures AreBytes(r)
  {
    [0x80] + Zeros(zeros) + Encode64(8 * length % TWO_TO_64)
  }

  // What HashFinalize appends to a message of this length.
  function Padding(length: nat): (r: Bytes)
    ensures AreBytes(r)
  {
    PaddingWith(ZeroCount((length + 1) % BLOCK_SIZE), length)
  }

  predicate LeavesRoom(length: nat, zeros: nat)
  {
    (length + 1 + zeros) % BLOCK_SIZE == BLOCK_SIZE - COUNT_SIZE
  }

  // Section 5.1.1 of FIPS 180-4, in bytes: the least number of zeros that leaves room for the count.
  ghost predicate StandardZeros(length: nat, zeros: nat)
  {
    LeavesRoom(length, zeros) && forall k: nat :: k < zeros ==> !LeavesRoom(length, k)
  }

  lemma {:induction false} PaddingEndsBlock(length: nat)
    ensures |Padding(length)| == 1 + ZeroCount((length + 1) % BLOCK_SIZE) + COUNT_SIZE
    ensures (length + |Padding(length)|) % BLOCK_SIZE == 0
  {
    var q, used := (length + 1) / BLOCK_SIZE, (length + 1) % BLOCK_SIZE;
    var more := if used < BLOCK_SIZE - COUNT_SIZE then 1 else 2;
    assert used + ZeroCount(used) + COUNT_SIZE == more * BLOCK_SIZE;
    assert length + 1 == q * BLOCK_SIZE + used;
    assert length + |Padding(length)| == (q + more) * BLOCK_SIZE;
    assert (q + more) * BLOCK_SIZE % BLOCK_SIZE == 0;
  }

  // The source adds the standard number of zeros, except that it adds 64 more when the length is 55 modulo 64.
  lemma {:induction false} PaddingIsStandard(length: nat, zeros: nat)
    requires StandardZeros(length, zeros)
    ensures ZeroCount((length + 1) % BLOCK_SIZE) == if length % BLOCK_SIZE == 55 then zeros + 64 else zeros
  {
    var used := (length + 1) % BLOCK_SIZE;
    var least := if used <= BLOCK_SIZE - COUNT_SIZE then BLOCK_SIZE - COUNT_SIZE - used else ZeroCount(used);
    RoomFor(length, least);
    RoomFor(length, zeros);
    assert zeros <= least;
  }

  lemma {:induction false} RoomFor(length: nat, zeros: nat)
    ensures LeavesRoom(length, zeros) <==> ((length + 1) % BLOCK_SIZE + zeros) % BLOCK_SIZE == BLOCK_SIZE - COUNT_SIZE
  {
    var q, used := (length + 1) / BLOCK_SIZE, (length + 1) % BLOCK_SIZE;
    assert length + 1 + zeros == q * BLOCK_SIZE + (used + zeros);
  }

  lemma {:induction false} PaddingIsStandardExactly(length: nat, zeros: nat)
    requires StandardZeros(length, zeros)
    ensures Padding(length) == PaddingWith(zeros, length) <==> length % BLOCK_SIZE != 55
  {
    PaddingIsStandard(length, zeros);
    assert |Padding(length)| == 1 + ZeroCount((length + 1) % BLOCK_SIZE) + COUNT_SIZE;
    assert |PaddingWith(zeros, length)| == 1 + zeros + COUNT_SIZE;
  }

  // The padded message determines the message, as long as its size in bits fits 64 bits.
  lemma {:induction false} PaddingInjective(m: Bytes, m': Bytes)
    requires |m| < TWO_TO_61 && |m'| < TWO_TO_61
    requires m + Padding(|m|) == m' + Padding(|m'|)
    ensures m == m'
  {
    CountAtEnd(m);
    CountAtEnd(m');
    Encode64RoundTrip(8 * |m|);
    Encode64RoundTrip(8 * |m'|);
    assert m == (m + Padding(|m|))[..|m|];
    assert m' == (m' + Padding(|m'|))[..|m'|];
  }

  lemma {:induction false} CountAtEnd(m: Bytes)
    requires |m| < TWO_TO_61
    ensures var padded := m + Padding(|m|); |padded| >= COUNT_SIZE && padded[|padded| - COUNT_SIZE..] == Encode64(8 * |m|)
  {
    var n := ZeroCount((|m| + 1) % BLOCK_SIZE);
    var padded := m + Padding(|m|);
    assert 8 * |m| % TWO_TO_64 == 8 * |m|;
    assert padded == (m + ([0x80] + Zeros(n))) + Encode64(8 * |m|);
  }

  /* ---- The stream ---- */

  // A state of the stream: everything but the last `used` bytes has been absorbed, and those are in the buffer.
  ghost predicate Streamed<S>(
    block: (S, Bytes) -> S, start: S, state: S, buffer: Bytes, used: nat, message: Bytes)
  {
    && used < BLOCK_SIZE == |buffer| && used == |message| % BLOCK_SIZE
    && buffer[..used] == message[|message| - used..]
    && state == Absorb(block, start, message[..|message| - used])
  }

  // The buffer takes in `part`, without filling up.
  lemma {:induction false} Buffered<S>(
    block: (S, Bytes) -> S, start: S, state: S, buffer: Bytes, used: nat, message: Bytes, part: Bytes, buffer': Bytes)
    requires Streamed(block, start, state, buffer, used, message)
    requires used + |part| < BLOCK_SIZE == |buffer'| && buffer'[..used + |part|] == buffer[..used] + part
    ensures Streamed(block, start, state, buffer', used + |part|, message + part)
  {
    var n := |message| - used;
    assert (message + part)[..n] == message[..n];
    assert (message + part)[n..] == message[n..] + part;
  }

  // The buffer, or the input itself when the buffer is empty, completes a block.
  lemma {:induction false} Completed<S>(
    block: (S, Bytes) -> S, start: S, state: S, buffer: Bytes, used: nat, message: Bytes, part: Bytes, buffer': Bytes)
    requires Streamed(block, start, state, buffer, used, message)
    requires used + |part| == BLOCK_SIZE == |buffer'|
    ensures Streamed(block, start, block(state, buffer[..used] + part), buffer', 0, message + part)
  {
    var n := |message| - used;
    var last := message[n..] + part;
    assert message + part == message[..n] + last;
    AbsorbBlock(block, start, message[..n], last);
    assert (message + part)[..|message + part|] == message + part;
    assert (message + part)[|message + part|..] == [];
  }

  lemma {:induction false} TakenMore(message: Bytes, data: Bytes, at: nat, n: nat)
    requires at + n <= |data|
    ensures (message + data[..at]) + data[at..][..n] == message + data[..at + n]
  {
  }

  lemma {:induction false} BitsAdd(a: nat, b: nat)
    ensures (8 * a % TWO_TO_64 + 8 * b) % TWO_TO_64 == 8 * (a + b) % TWO_TO_64
  {
    var q, r := 8 * a / TWO_TO_64, 8 * a % TWO_TO_64;
    assert 8 * (a + b) == q * TWO_TO_64 + (r + 8 * b);
  }

  lemma {:induction false} PaddedForm(m: Bytes)
    ensures ((m + [0x80]) + Zeros(ZeroCount((|m| + 1) % BLOCK_SIZE))) + Encode64(8 * |m| % TWO_TO_64) == m + Padding(|m|)
  {
  }

  // A message of whole blocks is absorbed entirely.
  lemma {:induction false} WholeBlocks<S>(
    block: (S, Bytes) -> S, start: S, state: S, buffer: Bytes, used: nat, message: Bytes)
    requires Streamed(block, start, state, buffer, used, message) && |message| % BLOCK_SIZE == 0
    ensures state == Absorb(block, start, message)
  {
    assert message[..|message|] == message;
  }

  class HashState<S> {
    const block: (S, Bytes) -> S
    const start: S
    var state: S
    const buffer: array<nat>
    var used: nat
    var bits: nat                    // m_MsgSize, modulo 2^64
    ghost var message: Bytes         // everything added so far

    ghost predicate Valid()
      reads this, buffer
    {
      Streamed(block, start, state, buffer[..], used, message) && bits == 8 * |message| % TWO_TO_64
    }

    // HashInit
    constructor (block: (S, Bytes) -> S, start: S)
      ensures Valid() && message == [] && this.block == block && this.start == start && fresh(buffer)
    {
      this.block, this.start := block, start;
      state, used, bits, message := start, 0, 0, [];
      buffer := new nat[BLOCK_SIZE](_ => 0);
    }

    // memcpy into the buffer.
    method Fill(part: Bytes)
      requires used + |part| <= buffer.Length
      modifies buffer
      ensures buffer[..used + |part|] == old(buffer[..used]) + part
    {
      for i := 0 to |part|
        invariant buffer[..used + i] == old(buffer[..used]) + part[..i]
      {
        ghost var before := buffer[..used + i];
        buffer[used + i] := part[i];
        assert buffer[..used + i + 1] == before + [part[i]];
        assert part[..i + 1] == part[..i] + [part[i]];
      }
      assert part[..|part|] == part;
    }

    // One turn of the loop of HashUpdate: take what fits.
    method Take(data: Bytes) returns (n: nat)
      requires data != [] && Streamed(block, start, state, buffer[..], used, message)
      modifies this`state, this`used, this`message, buffer
      ensures 0 < n <= |data| && message == old(message) + data[..n]
      ensures Streamed(block, start, state, buffer[..], used, message)
    {
      ghost var before := buffer[..];
      if used != 0 || |data| < BLOCK_SIZE {
        n := if |data| < BLOCK_SIZE - used then |data| else BLOCK_SIZE - used;
        var part := data[..n];
        Fill(part);
        assert buffer[..][..used + n] == buffer[..used + n] && before[..used] == old(buffer[..used]);
        if used + n == BLOCK_SIZE {
          Completed(block, start, state, before, used, message, part, buffer[..]);
          assert buffer[..] == buffer[..used + n];
          state := block(state, buffer[..]);
          used := 0;
        } else {
          Buffered(block, start, state, before, used, message, part, buffer[..]);
          used := used + n;
        }
      } else {
        n := BLOCK_SIZE;
        Completed(block, start, state, before, 0, message, data[..n], before);
        assert before[..0] + data[..n] == data[..n];
        state := block(state, data[..n]);
      }
      message := message + data[..n];
    }

    method TakeAll(data: Bytes)
      requires Streamed(block, start, state, buffer[..], used, message)
      modifies this`state, this`used, this`message, buffer
      ensures Streamed(block, start, state, buffer[..], used, message) && message == old(message) + data
    {
      var at := 0;
      while at < |data|
        invariant 0 <= at <= |data| && message == old(message) + data[..at]
        invariant Streamed(block, start, state, buffer[..], used, message)
        decreases |data| - at
      {
        var n := Take(data[at..]);
        TakenMore(old(message), data, at, n);
        at := at + n;
      }
      assert data[..at] == data;
    }

    // HashUpdate: the state depends on the concatenation of all data only.
    method Update(data: Bytes)
      requires Valid()
      modifies this`state, this`used, this`bits, this`message, buffer
      ensures Valid() && message == old(message) + data
    {
      BitsAdd(|message|, |data|);
      TakeAll(data);
      bits := (bits + 8 * |data|) % TWO_TO_64;
    }

    method UpdateAll(chunks: seq<Bytes>)
      requires Valid()
      modifies this`state, this`used, this`bits, this`message, buffer
      ensures Valid() && message == old(message) + Flatten(chunks)
    {
      for i := 0 to |chunks|
        invariant Valid() && message == old(message) + Flatten(chunks[..i])
      {
        FlattenNext(old(message), chunks, i);
        Update(chunks[i]);
      }
      assert chunks[..|chunks|] == chunks;
    }

    // The 0x80 byte and the zeros behind it.
    method PadZeros()
      requires Valid()
      modifies this`state, this`used, this`bits, this`message, buffer
      ensures Valid()
      ensures message == (old(message) + [0x80]) + Zeros(ZeroCount((|old(message)| + 1) % BLOCK_SIZE))
    {
      Update([0x80]);
      Update(Zeros(ZeroCount(used)));
    }

    method AddPadding()
      requires Valid()
      modifies this`state, this`used, this`bits, this`message, buffer
      ensures Valid() && message == old(message) + Padding(|old(message)|)
    {
      PaddedForm(message);
      var count := Encode64(bits);
      PadZeros();
      Update(count);
    }

    // HashFinalize: the digest is that of the message and its padding, in whole blocks.
    method Finalize<D>(extract: S -> D) returns (digest: D)
      requires Valid()
      modifies this`state, this`used, this`bits, this`message, buffer
      ensures var m := old(message);
              && (|m + Padding(|m|)| % BLOCK_SIZE == 0)
              && digest == extract(Absorb(block, start, m + Padding(|m|)))
    {
      AddPadding();
      PaddingEndsBlock(|old(message)|);
      WholeBlocks(block, start, state, buffer[..], used, message);
      digest := extract(state);
    }
  }

  function Flatten(chunks: seq<Bytes>): Bytes
  {
    if chunks == [] then [] else Flatten(chunks[..|chunks| - 1]) + chunks[|chunks| - 1]
  }

  lemma {:induction false} FlattenNext(before: Bytes, chunks: seq<Bytes>, i: nat)
    requires i < |chunks|
    ensures before + Flatten(chunks[..i + 1]) == (before + Flatten(chunks[..i])) + chunks[i]
  {
    assert chunks[..i + 1][..i] == chunks[..i];
  }

  // However the bytes are cut into updates, the digest is that of their concatenation.
  method HashChunks<S, D>(block: (S, Bytes) -> S, start: S, extract: S -> D, chunks: seq<Bytes>) returns (digest: D)
    ensures var m := Flatten(chunks);
            |m + Padding(|m|)| % BLOCK_SIZE == 0 && digest == extract(Absorb(block, start, m + Padding(|m|)))
  {
    var h := new HashState(block, start);
    h.UpdateAll(chunks);
    assert [] + Flatten(chunks) == Flatten(chunks);
    digest := h.Finalize(extract);
  }
}
