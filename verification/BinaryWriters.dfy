/**
 The relocatable binary files of src/BinaryWriter.cpp: segments of bytes with pointer slots that are filled in with
 relative offsets once the segments' positions in the file are known, and FrozenPtr::Get of src/BinaryData.hpp, which
 follows them. Integers are stored with the least significant byte first.
 */
module BinaryWriters {
  import opened Options
  import opened Arithmetic

  type Bytes = seq<nat>

  datatype Locator = Locator(seg: nat, offset: nat)
  datatype Fixup = Fixup(at: nat, target: Locator)
  datatype Segment = Segment(bytes: Bytes, fixups: seq<Fixup>)

  const SLOT_SIZE: nat := 4
  const ALIGNMENT: nat := 16

  /* ---- 32-bit integers ---- */

  function Encode32(v: int): (r: Bytes)
    requires Int32(v)
    ensures |r| == SLOT_SIZE && AreBytes(r)
  {
    var u := if v < 0 then v + TWO_TO_32 else v;
    [u % 256, u / 256 % 256, u / 65536 % 256, u / 16777216]
  }

  function Decode32(b: Bytes): int
    requires |b| == SLOT_SIZE
  {
    var u := b[0] + 256 * b[1] + 65536 * b[2] + 16777216 * b[3];
    if u < TWO_TO_31 then u else u - TWO_TO_32
  }

  lemma {:induction false} Encode32RoundTrip(v: int)
    requires Int32(v)
    ensures Decode32(Encode32(v)) == v
  {
    var u := if v < 0 then v + TWO_TO_32 else v;
    assert u == u % 256 + 256 * (u / 256);
    assert u / 256 == u / 256 % 256 + 256 * (u / 256 / 256) && u / 256 / 256 == u / 65536;
    assert u / 65536 == u / 65536 % 256 + 256 * (u / 65536 / 256) && u / 65536 / 256 == u / 16777216;
  }

  // FrozenPtr::Get at a position of the file; None is the null pointer.
  function Get(file: Bytes, at: nat): Option<int>
    requires at + SLOT_SIZE <= |file|
  {
    var offset := Decode32(file[at..at + SLOT_SIZE]);
    if offset == 0 then None else Some(at + offset)
  }

  /* ---- Segments ---- */

  predicate InSlot(fixups: seq<Fixup>, p: int)
  {
    exists k :: 0 <= k < |fixups| && fixups[k].at <= p < fixups[k].at + SLOT_SIZE
  }

  // Slots lie inside the segment, in order and apart from each other; targets are segments of the writer.
  ghost predicate SegmentOk(s: Segment, segmentCount: nat)
  {
    && (forall k :: 0 <= k < |s.fixups| ==>
          s.fixups[k].at + SLOT_SIZE <= |s.bytes| && s.fixups[k].target.seg < segmentCount)
    && (forall k, l :: 0 <= k < l < |s.fixups| ==> s.fixups[k].at + SLOT_SIZE <= s.fixups[l].at)
  }

  function AlignUp(n: nat, alignment: nat): (r: nat)
    requires alignment > 0
    ensures r >= n && r % alignment == 0 && r < n + alignment
  {
    var q := (n + alignment - 1) / alignment;
    AlignFacts(n, alignment);
    q * alignment
  }

  lemma {:induction false} AlignFacts(n: nat, a: nat)
    requires a > 0
    ensures var q := (n + a - 1) / a; n <= q * a < n + a && q * a % a == 0
  {
    var q, m := (n + a - 1) / a, (n + a - 1) % a;
    assert n + a - 1 == q * a + m;
    RemainderIs(q * a, a, q, 0);
  }

  /* ---- Layout ---- */

  function Base(segs: seq<Bytes>, i: nat): (r: nat)
    requires i <= |segs|
  {
    if i == 0 then 0 else Base(segs, i - 1) + |segs[i - 1]|
  }

  function Concat(segs: seq<Bytes>): Bytes
  {
    if segs == [] then [] else Concat(segs[..|segs| - 1]) + segs[|segs| - 1]
  }

  lemma {:induction false} BasePrefix(segs: seq<Bytes>, n: nat, i: nat)
    requires i <= n <= |segs|
    ensures Base(segs[..n], i) == Base(segs, i)
  {
    if i > 0 {
      BasePrefix(segs, n, i - 1);
    }
  }

  lemma {:induction false} BaseOrder(segs: seq<Bytes>, i: nat, j: nat)
    requires i < j <= |segs|
    ensures Base(segs, i) + |segs[i]| <= Base(segs, j)
  {
    if j > i + 1 {
      BaseOrder(segs, i, j - 1);
    }
  }

  lemma {:induction false} ConcatSize(segs: seq<Bytes>)
    ensures |Concat(segs)| == Base(segs, |segs|)
  {
    if segs != [] {
      var n := |segs| - 1;
      ConcatSize(segs[..n]);
      BasePrefix(segs, n, n);
    }
  }

  lemma {:induction false} SliceOfFront(front: Bytes, back: Bytes, from: nat, to: nat)
    requires from <= to <= |front|
    ensures (front + back)[from..to] == front[from..to]
  {
    assert forall k :: 0 <= k < to - from ==> (front + back)[from..to][k] == front[from..to][k];
  }

  // Segment i occupies the file from its base on.
  lemma {:induction false} ConcatSlice(segs: seq<Bytes>, i: nat)
    requires i < |segs|
    ensures Base(segs, i) + |segs[i]| <= |Concat(segs)|
    ensures Concat(segs)[Base(segs, i)..Base(segs, i) + |segs[i]|] == segs[i]
  {
    var n := |segs| - 1;
    ConcatSize(segs);
    ConcatSize(segs[..n]);
    BasePrefix(segs, n, n);
    var front, from, to := Concat(segs[..n]), Base(segs, i), Base(segs, i) + |segs[i]|;
    if i < n {
      ConcatSlice(segs[..n], i);
      BasePrefix(segs, n, i);
      SliceOfFront(front, segs[n], from, to);
    } else {
      assert (front + segs[n])[from..to] == segs[n];
    }
  }

  lemma {:induction false} BaseAligned(segs: seq<Bytes>, i: nat)
    requires i <= |segs| && forall k :: 0 <= k < |segs| ==> |segs[k]| % ALIGNMENT == 0
    ensures Base(segs, i) % ALIGNMENT == 0
  {
    if i > 0 {
      BaseAligned(segs, i - 1);
    }
  }

  lemma {:induction false} BaseBySize(segs: seq<Bytes>, segs': seq<Bytes>, i: nat)
    requires |segs| == |segs'| && i <= |segs|
    requires forall k :: 0 <= k < |segs| ==> |segs[k]| == |segs'[k]|
    ensures Base(segs, i) == Base(segs', i)
  {
    if i > 0 {
      BaseBySize(segs, segs', i - 1);
    }
  }

  /* ---- Fixing up ---- */

  function BytesOf(segs: seq<Segment>): (r: seq<Bytes>)
    ensures |r| == |segs| && forall i :: 0 <= i < |r| ==> r[i] == segs[i].bytes
  {
    seq(|segs|, i requires 0 <= i < |segs| => segs[i].bytes)
  }

  // Where a locator lies in the file.
  function Place(segs: seq<Segment>, l: Locator): nat
    requires l.seg < |segs|
  {
    Base(BytesOf(segs), l.seg) + l.offset
  }

  // What goes into slot k of segment i.
  function Delta(segs: seq<Segment>, i: nat, k: nat): int
    requires i < |segs| && k < |segs[i].fixups| && segs[i].fixups[k].target.seg < |segs|
  {
    Place(segs, segs[i].fixups[k].target) - Place(segs, Locator(i, segs[i].fixups[k].at))
  }

  // memcpy of an encoded offset into a slot.
  function Patch(bytes: Bytes, at: nat, v: int): (r: Bytes)
    requires at + SLOT_SIZE <= |bytes| && Int32(v)
    ensures |r| == |bytes| && r[at..at + SLOT_SIZE] == Encode32(v)
    ensures forall p :: 0 <= p < |bytes| && !(at <= p < at + SLOT_SIZE) ==> r[p] == bytes[p]
  {
    bytes[..at] + Encode32(v) + bytes[at + SLOT_SIZE..]
  }

  // The first n slots of segment i are filled in, the rest of its bytes are untouched.
  ghost predicate Patched(segs: seq<Segment>, i: nat, bytes: Bytes, n: nat)
    requires i < |segs| && SegmentOk(segs[i], |segs|) && n <= |segs[i].fixups|
  {
    var s := segs[i];
    && |bytes| == |s.bytes|
    && (forall k: nat :: k < n ==>
          Int32(Delta(segs, i, k)) && bytes[s.fixups[k].at..s.fixups[k].at + SLOT_SIZE] == Encode32(Delta(segs, i, k)))
    && (forall p :: 0 <= p < |bytes| && !InSlot(s.fixups[..n], p) ==> bytes[p] == s.bytes[p])
  }

  lemma {:induction false} PatchNext(segs: seq<Segment>, i: nat, bytes: Bytes, n: nat)
    requires i < |segs| && SegmentOk(segs[i], |segs|) && n < |segs[i].fixups|
    requires Patched(segs, i, bytes, n) && Int32(Delta(segs, i, n))
    ensures Patched(segs, i, Patch(bytes, segs[i].fixups[n].at, Delta(segs, i, n)), n + 1)
  {
    var s := segs[i];
    var f := s.fixups[n];
    var bytes' := Patch(bytes, f.at, Delta(segs, i, n));
    forall k: nat | k < n
      ensures bytes'[s.fixups[k].at..s.fixups[k].at + SLOT_SIZE] == bytes[s.fixups[k].at..s.fixups[k].at + SLOT_SIZE]
    {
      assert s.fixups[k].at + SLOT_SIZE <= f.at;
    }
    forall p | 0 <= p < |bytes| && !InSlot(s.fixups[..n + 1], p) ensures bytes'[p] == s.bytes[p] {
      SlotNext(s.fixups, n, p);
    }
  }

  lemma {:induction false} SlotNext(fixups: seq<Fixup>, n: nat, p: int)
    requires n < |fixups| && !InSlot(fixups[..n + 1], p)
    ensures !InSlot(fixups[..n], p) && !(fixups[n].at <= p < fixups[n].at + SLOT_SIZE)
  {
    assert fixups[..n + 1][n] == fixups[n];
    assert forall k :: 0 <= k < n ==> fixups[..n][k] == fixups[..n + 1][k];
  }

  // BinarySegmentFixupPointers: fails exactly when some offset does not fit 32 bits.
  method FixupPointers(segs: seq<Segment>, bases: seq<nat>, i: nat) returns (r: Option<Bytes>)
    requires i < |segs| == |bases| && SegmentOk(segs[i], |segs|)
    requires forall j :: 0 <= j < |segs| ==> bases[j] == Base(BytesOf(segs), j)
    ensures r.Some? <==> forall k: nat :: k < |segs[i].fixups| ==> Int32(Delta(segs, i, k))
    ensures r.Some? ==> Patched(segs, i, r.value, |segs[i].fixups|)
  {
    var bytes, fixups := segs[i].bytes, segs[i].fixups;
    for n := 0 to |fixups|
      invariant Patched(segs, i, bytes, n)
    {
      var f := fixups[n];
      var delta := bases[f.target.seg] + f.target.offset - (bases[i] + f.at);
      assert delta == Delta(segs, i, n);
      if !Int32(delta) {
        return None;
      }
      PatchNext(segs, i, bytes, n);
      bytes := Patch(bytes, f.at, delta);
    }
    return Some(bytes);
  }

  /* ---- The finished file ---- */

  ghost predicate SegmentsOk(segs: seq<Segment>)
  {
    forall i :: 0 <= i < |segs| ==> SegmentOk(segs[i], |segs|)
  }

  ghost predicate AllFit(segs: seq<Segment>)
    requires SegmentsOk(segs)
  {
    forall i: nat, k: nat :: i < |segs| && k < |segs[i].fixups| ==> Int32(Delta(segs, i, k))
  }

  // The segments of the file: those of the writer, padded with 0xfe up to the next multiple of 16.
  ghost predicate PaddedFrom(segs: seq<Segment>, padded: seq<Segment>)
  {
    && |padded| == |segs|
    && forall i :: 0 <= i < |segs| ==>
         && padded[i].fixups == segs[i].fixups
         && |padded[i].bytes| == AlignUp(|segs[i].bytes|, ALIGNMENT)
         && padded[i].bytes[..|segs[i].bytes|] == segs[i].bytes
         && forall p :: |segs[i].bytes| <= p < |padded[i].bytes| ==> padded[i].bytes[p] == 0xfe
  }

  // Every segment starts at a multiple of 16; following any slot leads to the file position of its locator (or to
  // null, when that is the slot itself); every byte outside the slots is as it was written.
  ghost predicate Relocated(padded: seq<Segment>, file: Bytes)
  {
    && SegmentsOk(padded)
    && |file| == Base(BytesOf(padded), |padded|)
    && (forall i: nat :: i < |padded| ==>
          && Base(BytesOf(padded), i) % ALIGNMENT == 0
          && Base(BytesOf(padded), i) + |padded[i].bytes| <= |file|)
    && (forall i: nat, k: nat :: i < |padded| && k < |padded[i].fixups| ==> SlotLeadsHome(padded, file, i, k))
    && (forall i: nat, p: nat :: i < |padded| && p < |padded[i].bytes| && !InSlot(padded[i].fixups, p) ==>
          file[Base(BytesOf(padded), i) + p] == padded[i].bytes[p])
  }

  ghost predicate SlotLeadsHome(padded: seq<Segment>, file: Bytes, i: nat, k: nat)
    requires i < |padded| && k < |padded[i].fixups| && SegmentsOk(padded)
  {
    var f := padded[i].fixups[k];
    var from, to := Place(padded, Locator(i, f.at)), Place(padded, f.target);
    from + SLOT_SIZE <= |file| && Get(file, from) == if to == from then None else Some(to)
  }

  lemma {:induction false} SliceOfSlice(file: Bytes, base: nat, segment: Bytes, at: nat)
    requires base + |segment| <= |file| && file[base..base + |segment|] == segment && at + SLOT_SIZE <= |segment|
    ensures file[base + at..base + at + SLOT_SIZE] == segment[at..at + SLOT_SIZE]
  {
    assert forall p :: 0 <= p < |segment| ==> segment[p] == file[base + p];
  }

  lemma {:induction false} EncodedSlot(file: Bytes, from: nat, to: nat)
    requires from + SLOT_SIZE <= |file| && Int32(to - from)
    requires file[from..from + SLOT_SIZE] == Encode32(to - from)
    ensures Get(file, from) == if to == from then None else Some(to)
  {
    Encode32RoundTrip(to - from);
  }

  lemma {:induction false} SlotReads(file: Bytes, base: nat, segment: Bytes, at: nat, to: nat)
    requires base + |segment| <= |file| && file[base..base + |segment|] == segment && at + SLOT_SIZE <= |segment|
    requires Int32(to - (base + at)) && segment[at..at + SLOT_SIZE] == Encode32(to - (base + at))
    ensures Get(file, base + at) == if to == base + at then None else Some(to)
  {
    SliceOfSlice(file, base, segment, at);
    EncodedSlot(file, base + at, to);
  }

  lemma {:induction false} PatchedSlot(segs: seq<Segment>, i: nat, bytes: Bytes, k: nat)
    requires i < |segs| && SegmentOk(segs[i], |segs|) && k < |segs[i].fixups|
    requires Patched(segs, i, bytes, |segs[i].fixups|)
    ensures var at := segs[i].fixups[k].at;
            && at + SLOT_SIZE <= |bytes| && Int32(Delta(segs, i, k))
            && bytes[at..at + SLOT_SIZE] == Encode32(Delta(segs, i, k))
  {
  }

  lemma {:induction false} BaseInFile(padded: seq<Segment>, done: seq<Bytes>, i: nat)
    requires SegmentsOk(padded) && |done| == |padded| && i < |padded|
    requires forall j :: 0 <= j < |done| ==> Patched(padded, j, done[j], |padded[j].fixups|)
    ensures Base(done, i) == Base(BytesOf(padded), i) && Base(done, i) + |done[i]| <= |Concat(done)|
    ensures Concat(done)[Base(done, i)..Base(done, i) + |done[i]|] == done[i]
  {
    BaseBySize(BytesOf(padded), done, i);
    ConcatSlice(done, i);
  }

  lemma {:induction false} SlotInFile(padded: seq<Segment>, done: seq<Bytes>, i: nat, k: nat)
    requires SegmentsOk(padded) && |done| == |padded| && i < |padded| && k < |padded[i].fixups|
    requires forall j :: 0 <= j < |done| ==> Patched(padded, j, done[j], |padded[j].fixups|)
    ensures SlotLeadsHome(padded, Concat(done), i, k)
  {
    var f := padded[i].fixups[k];
    BaseInFile(padded, done, i);
    PatchedSlot(padded, i, done[i], k);
    SlotReads(Concat(done), Base(done, i), done[i], f.at, Place(padded, f.target));
  }

  lemma {:induction false} ByteInFile(padded: seq<Segment>, done: seq<Bytes>, i: nat, p: nat)
    requires SegmentsOk(padded) && |done| == |padded| && i < |padded| && p < |padded[i].bytes|
    requires forall j :: 0 <= j < |done| ==> Patched(padded, j, done[j], |padded[j].fixups|)
    requires !InSlot(padded[i].fixups, p)
    ensures Base(BytesOf(padded), i) + p < |Concat(done)|
    ensures Concat(done)[Base(BytesOf(padded), i) + p] == padded[i].bytes[p]
  {
    var s, file := padded[i], Concat(done);
    BaseBySize(BytesOf(padded), done, i);
    ConcatSlice(done, i);
    assert s.fixups[..|s.fixups|] == s.fixups;
    assert Patched(padded, i, done[i], |s.fixups|);
    assert file[Base(done, i) + p] == file[Base(done, i)..Base(done, i) + |done[i]|][p];
  }

  lemma {:induction false} FileRelocated(padded: seq<Segment>, done: seq<Bytes>)
    requires SegmentsOk(padded) && |done| == |padded|
    requires forall i :: 0 <= i < |padded| ==> |padded[i].bytes| % ALIGNMENT == 0
    requires forall i :: 0 <= i < |done| ==> Patched(padded, i, done[i], |padded[i].fixups|)
    ensures Relocated(padded, Concat(done))
  {
    var file := Concat(done);
    BaseBySize(BytesOf(padded), done, |done|);
    ConcatSize(done);
    forall i: nat | i < |padded|
      ensures Base(BytesOf(padded), i) % ALIGNMENT == 0
      ensures Base(BytesOf(padded), i) + |padded[i].bytes| <= |file|
    {
      BaseAligned(BytesOf(padded), i);
      BaseOrder(BytesOf(padded), i, |padded|);
    }
    forall i: nat, k: nat | i < |padded| && k < |padded[i].fixups| ensures SlotLeadsHome(padded, file, i, k) {
      SlotInFile(padded, done, i, k);
    }
    forall i: nat, p: nat | i < |padded| && p < |padded[i].bytes| && !InSlot(padded[i].fixups, p)
      ensures file[Base(BytesOf(padded), i) + p] == padded[i].bytes[p]
    {
      ByteInFile(padded, done, i, p);
    }
  }

  // No two slots of the file overlap.
  lemma {:induction false} SlotsApart(padded: seq<Segment>, i: nat, k: nat, j: nat, l: nat)
    requires SegmentsOk(padded) && i < |padded| && k < |padded[i].fixups| && j < |padded| && l < |padded[j].fixups|
    requires i < j || (i == j && k < l)
    ensures Place(padded, Locator(i, padded[i].fixups[k].at)) + SLOT_SIZE
            <= Place(padded, Locator(j, padded[j].fixups[l].at))
  {
    assert SegmentOk(padded[i], |padded|);
    if i < j {
      BaseOrder(BytesOf(padded), i, j);
    }
  }

  // The global offsets of the segments.
  method Bases(segs: seq<Segment>) returns (bases: seq<nat>)
    ensures |bases| == |segs| && forall j :: 0 <= j < |segs| ==> bases[j] == Base(BytesOf(segs), j)
  {
    bases := [];
    var offset := 0;
    for i := 0 to |segs|
      invariant |bases| == i && offset == Base(BytesOf(segs), i)
      invariant forall j :: 0 <= j < i ==> bases[j] == Base(BytesOf(segs), j)
    {
      bases := bases + [offset];
      offset := offset + |segs[i].bytes|;
    }
  }

  // The last loop of BinaryWriterFinalize.
  method FixupAll(segs: seq<Segment>, bases: seq<nat>) returns (r: Option<seq<Bytes>>)
    requires |bases| == |segs| && SegmentsOk(segs)
    requires forall j :: 0 <= j < |segs| ==> bases[j] == Base(BytesOf(segs), j)
    ensures r.Some? <==> AllFit(segs)
    ensures r.Some? ==> |r.value| == |segs|
    ensures r.Some? ==> forall j :: 0 <= j < |segs| ==> Patched(segs, j, r.value[j], |segs[j].fixups|)
  {
    var done: seq<Bytes> := [];
    for i := 0 to |segs|
      invariant |done| == i
      invariant forall j :: 0 <= j < i ==> Patched(segs, j, done[j], |segs[j].fixups|)
    {
      var bytes := FixupPointers(segs, bases, i);
      if bytes.None? {
        return None;
      }
      done := done + [bytes.value];
    }
    forall i: nat, k: nat | i < |segs| && k < |segs[i].fixups| ensures Int32(Delta(segs, i, k)) {
      assert Patched(segs, i, done[i], |segs[i].fixups|);
    }
    return Some(done);
  }

  /* ---- The writer ---- */

  class BinaryWriter {
    var segs: seq<Segment>

    ghost predicate Valid()
      reads this
    {
      SegmentsOk(segs)
    }

    constructor ()
      ensures Valid() && segs == []
    {
      segs := [];
    }

    method AddSegment() returns (i: nat)
      requires Valid()
      modifies this
      ensures Valid() && i == |old(segs)| && segs == old(segs) + [Segment([], [])]
    {
      i := |segs|;
      segs := segs + [Segment([], [])];
      assert forall j :: 0 <= j < i ==> SegmentOk(old(segs)[j], i);
    }

    method Position(i: nat) returns (l: Locator)
      requires Valid() && i < |segs|
      ensures l == Locator(i, |segs[i].bytes|)
    {
      l := Locator(i, |segs[i].bytes|);
    }

    method Write(i: nat, data: Bytes)
      requires Valid() && i < |segs|
      modifies this
      ensures Valid() && segs == old(segs)[i := Segment(old(segs)[i].bytes + data, old(segs)[i].fixups)]
    {
      assert SegmentOk(segs[i], |segs|);
      segs := segs[i := segs[i].(bytes := segs[i].bytes + data)];
    }

    // BinarySegmentWritePointer
    method WritePointer(i: nat, target: Locator)
      requires Valid() && i < |segs| && target.seg < |segs|
      modifies this
      ensures Valid()
      ensures var s := old(segs)[i];
              segs == old(segs)[i := Segment(s.bytes + [0xee, 0xee, 0xee, 0x7e], s.fixups + [Fixup(|s.bytes|, target)])]
    {
      assert SegmentOk(segs[i], |segs|);
      segs := segs[i := segs[i].(fixups := segs[i].fixups + [Fixup(|segs[i].bytes|, target)],
                                 bytes := segs[i].bytes + [0xee, 0xee, 0xee, 0x7e])];
    }

    // BinarySegmentAlign
    method Align(i: nat, alignment: nat)
      requires Valid() && i < |segs| && alignment > 0
      modifies this
      ensures Valid() && |segs| == |old(segs)|
      ensures |segs[i].bytes| == AlignUp(|old(segs)[i].bytes|, alignment)
      ensures segs[i].bytes[..|old(segs)[i].bytes|] == old(segs)[i].bytes && segs[i].fixups == old(segs)[i].fixups
      ensures forall p :: |old(segs)[i].bytes| <= p < |segs[i].bytes| ==> segs[i].bytes[p] == 0xfe
      ensures forall j :: 0 <= j < |segs| && j != i ==> segs[j] == old(segs)[j]
    {
      var padding := seq(AlignUp(|segs[i].bytes|, alignment) - |segs[i].bytes|, _ => 0xfe);
      Write(i, padding);
    }

    // BinaryWriterFinalize and the file that BinaryWriterFlush writes.
    method Flush() returns (file: Option<Bytes>)
      requires Valid()
      modifies this
      ensures Valid() && PaddedFrom(old(segs), segs)
      ensures file.Some? <==> AllFit(segs)
      ensures file.Some? ==> Relocated(segs, file.value)
    {
      AlignAll();
      var bases := Bases(segs);
      var done := FixupAll(segs, bases);
      if done.None? {
        return None;
      }
      FileRelocated(segs, done.value);
      return Some(Concat(done.value));
    }

    method AlignAll()
      requires Valid()
      modifies this
      ensures Valid() && PaddedFrom(old(segs), segs)
      ensures forall i :: 0 <= i < |segs| ==> |segs[i].bytes| % ALIGNMENT == 0
    {
      ghost var before := segs;
      for i := 0 to |segs|
        invariant Valid() && |segs| == |before|
        invariant PaddedFrom(before[..i], segs[..i])
        invariant segs[i..] == before[i..]
      {
        Align(i, ALIGNMENT);
      }
      assert before[..|segs|] == before && segs[..|segs|] == segs;
    }
  }
}
