/**
 The structural check of downloaded media. The top-level walk over ISO base media boxes (section 4.2 of
 ISO/IEC 14496-12) runs in wrapping signed 64-bit arithmetic on sizes the file itself declares.
 */
module Integrity {

  type Byte = b: int | 0 <= b < 256
  type Bytes = seq<Byte>

  datatype Reason = StrayBytes | LargesizeCut | BadSize | PastEnd | NoMoov | EmptyFile | ShortRiff | NoEndMarker

  datatype Verdict = Accepted | Rejected(reason: Reason)

  const TWO_63: int := 0x8000_0000_0000_0000
  const TWO_64: int := 0x1_0000_0000_0000_0000

  predicate IsInt64(n: int) {
    -TWO_63 <= n < TWO_63
  }

  /** Go's int64 arithmetic: the exact result modulo 2^64, read as two's complement. */
  function Wrap(n: int): (w: int)
    ensures IsInt64(w) && (IsInt64(n) ==> w == n)
  {
    (n + TWO_63) % TWO_64 - TWO_63
  }

  function BigEndian(b: Bytes): nat {
    if b == [] then 0 else 256 * BigEndian(b[..|b| - 1]) + b[|b| - 1]
  }

  function At(b: Bytes, i: nat): int
    requires i < |b|
  {
    b[i]
  }

  /** The bytes of a 32-bit and of a 64-bit size, most significant first. */
  lemma NetworkOrder(b: Bytes)
    ensures |b| == 4 ==> BigEndian(b) == At(b, 0) * 0x100_0000 + At(b, 1) * 0x1_0000 + At(b, 2) * 0x100 + At(b, 3)
    ensures |b| == 8 ==>
      BigEndian(b) == BigEndian(b[..4]) * 0x1_0000_0000 + BigEndian(b[4..])
  {
    if |b| == 4 {
      FourBytes(b);
    } else if |b| == 8 {
      EightBytes(b);
    }
  }

  lemma FourBytes(b: Bytes)
    requires |b| == 4
    ensures BigEndian(b) == At(b, 0) * 0x100_0000 + At(b, 1) * 0x1_0000 + At(b, 2) * 0x100 + At(b, 3)
  {
    assert b[..3][..2] == b[..2] && b[..2][..1] == b[..1] && b[..1][..0] == [];
    assert BigEndian(b[..1]) == b[0];
    assert BigEndian(b[..2]) == 0x100 * At(b, 0) + At(b, 1);
    assert BigEndian(b[..3]) == 0x1_0000 * At(b, 0) + 0x100 * At(b, 1) + At(b, 2);
  }

  lemma {:induction false} BigEndianOfSum(a: Bytes, b: Bytes)
    ensures BigEndian(a + b) == BigEndian(a) * Pow256(|b|) + BigEndian(b)
  {
    if b == [] {
      assert a + b == a;
    } else {
      var init, last := b[..|b| - 1], b[|b| - 1];
      BigEndianOfSum(a, init);
      assert (a + b)[..|a + b| - 1] == a + init;
      assert 256 * (BigEndian(a) * Pow256(|init|)) == BigEndian(a) * Pow256(|b|);
    }
  }

  lemma EightBytes(b: Bytes)
    requires |b| == 8
    ensures BigEndian(b) == BigEndian(b[..4]) * 0x1_0000_0000 + BigEndian(b[4..])
  {
    BigEndianOfSum(b[..4], b[4..]);
    WordBounds();
    assert b == b[..4] + b[4..];
  }

  const MOOV: Bytes := [0x6d, 0x6f, 0x6f, 0x76]

  // ---------------------------------------------------------------- the walk in unbounded integers

  /** The header at `off` is cut before its 64-bit size. */
  predicate IsCut(file: Bytes, off: nat)
    requires off + 8 <= |file|
  {
    BigEndian(file[off..off + 4]) == 1 && |file| < off + 16
  }

  /** The length the box at `off` declares: 0 runs to the end of the file, 1 defers to a 64-bit size. */
  function BoxSize(file: Bytes, off: nat): nat
    requires off + 8 <= |file| && !IsCut(file, off)
  {
    var size := BigEndian(file[off..off + 4]);
    if size == 0 then |file| - off
    else if size == 1 then BigEndian(file[off + 8..off + 16])
    else size
  }

  predicate IsMoov(file: Bytes, off: nat)
    requires off + 8 <= |file|
  {
    file[off + 4..off + 8] == MOOV
  }

  function Walk(file: Bytes, needMoov: bool, off: nat, hasMoov: bool): Verdict
    requires off <= |file|
    decreases |file| - off
  {
    if off == |file| then if needMoov && !hasMoov then Rejected(NoMoov) else Accepted
    else if |file| - off < 8 then Rejected(StrayBytes)
    else if IsCut(file, off) then Rejected(LargesizeCut)
    else
      var size := BoxSize(file, off);
      if size < 8 then Rejected(BadSize)
      else if off + size > |file| then Rejected(PastEnd)
      else Walk(file, needMoov, off + size, hasMoov || IsMoov(file, off))
  }

  function Pow256(n: nat): nat {
    if n == 0 then 1 else 256 * Pow256(n - 1)
  }

  lemma {:induction false} BigEndianBound(b: Bytes)
    ensures BigEndian(b) < Pow256(|b|)
  {
    if b != [] {
      BigEndianBound(b[..|b| - 1]);
    }
  }

  lemma WordBounds()
    ensures Pow256(4) == 0x1_0000_0000 && Pow256(8) == TWO_64
  {
    assert Pow256(2) == 0x1_0000;
    assert Pow256(4) == 256 * (256 * Pow256(2));
    assert Pow256(6) == 256 * (256 * Pow256(4));
    assert Pow256(8) == 256 * (256 * Pow256(6));
  }

  /** Once the offset has wrapped, the next iteration's distance to the end wraps too and ends the walk. */
  lemma WrappedOffsetIsStray(off: int, size: int, end: int)
    requires 0 <= off < end < TWO_63 && 8 <= size < TWO_63 && off + size >= TWO_63
    ensures Wrap(off + size) == off + size - TWO_64 < 0
    ensures Wrap(end - Wrap(off + size)) < 8
  {
    assert (off + size + TWO_63) % TWO_64 == off + size + TWO_63 - TWO_64;
  }

  /** A box that passes the checks: the walk goes on behind it, or the offset has wrapped and the walk is lost. */
  lemma WalkMoves(file: Bytes, needMoov: bool, off: nat, hasMoov: bool, size: int)
    requires |file| < TWO_63 && off + 8 <= |file| && !IsCut(file, off) && size == Wrap(BoxSize(file, off)) >= 8
    requires BoxSize(file, off) < TWO_64 && Wrap(off + size) <= |file|
    ensures
      var next := Wrap(off + size);
      if next >= 0 then
        && off < next
        && Walk(file, needMoov, off, hasMoov) == Walk(file, needMoov, next, hasMoov || IsMoov(file, off))
      else Wrap(|file| - next) < 8 && Walk(file, needMoov, off, hasMoov).Rejected?
  {
    if off + size >= TWO_63 {
      WrappedOffsetIsStray(off, size, |file|);
    }
  }

  /**
   checkISOBMFF as it runs. Its verdict is the unbounded walk's on every file, whatever sizes the file declares;
   only the reason of a rejection can differ. The loop always ends.
   */
  method CheckIsobmff(file: Bytes, needMoov: bool) returns (verdict: Verdict)
    requires |file| < TWO_63
    ensures verdict.Accepted? <==> Walk(file, needMoov, 0, false).Accepted?
  {
    var end := |file|;
    var off := 0;
    var hasMoov := false;
    WordBounds();
    while off < end
      invariant off <= end && IsInt64(off)
      invariant off >= 0 ==>
        (Walk(file, needMoov, off, hasMoov).Accepted? <==> Walk(file, needMoov, 0, false).Accepted?)
      invariant off < 0 ==> Wrap(end - off) < 8 && Walk(file, needMoov, 0, false).Rejected?
      decreases if off < 0 then 0 else end - off + 1
    {
      if Wrap(end - off) < 8 {
        return Rejected(StrayBytes);
      }
      var boxSize := BigEndian(file[off..off + 4]);
      BigEndianBound(file[off..off + 4]);
      var boxType := file[off + 4..off + 8];
      if boxSize == 0 {
        boxSize := Wrap(end - off);
      } else if boxSize == 1 {
        if end < off + 16 {
          return Rejected(LargesizeCut);
        }
        BigEndianBound(file[off + 8..off + 16]);
        boxSize := Wrap(BigEndian(file[off + 8..off + 16]));
      }
      if boxSize < 8 {
        return Rejected(BadSize);
      }
      if Wrap(off + boxSize) > end {
        return Rejected(PastEnd);
      }
      WalkMoves(file, needMoov, off, hasMoov, boxSize);
      if boxType == MOOV {
        hasMoov := true;
      }
      off := Wrap(off + boxSize);
    }
    if needMoov && !hasMoov {
      return Rejected(NoMoov);
    }
    return Accepted;
  }

  // ---------------------------------------------------------------- truncation

  /** Every box up to `off` has an explicit size, with room for its own header when that size is a 64-bit one. */
  predicate IsExplicit(file: Bytes, off: nat)
    requires off <= |file|
    decreases |file| - off
  {
    off == |file|
    || (&& off + 8 <= |file| && !IsCut(file, off)
        && BigEndian(file[off..off + 4]) != 0
        && (BigEndian(file[off..off + 4]) == 1 ==> BoxSize(file, off) >= 16)
        && 8 <= BoxSize(file, off) <= |file| - off
        && IsExplicit(file, off + BoxSize(file, off)))
  }

  /** `n` is where a top-level box of the file, walked from `off`, starts or ends. */
  predicate IsBoundary(file: Bytes, off: nat, n: nat)
    requires off <= |file|
    decreases |file| - off
  {
    n == off
    || (&& off + 8 <= |file| && !IsCut(file, off)
        && 8 <= BoxSize(file, off) <= |file| - off
        && IsBoundary(file, off + BoxSize(file, off), n))
  }

  /** A moov box lies between the boundaries `off` and `n`. */
  predicate HasMoov(file: Bytes, off: nat, n: nat)
    requires off <= |file|
    decreases |file| - off
  {
    && n != off && off + 8 <= |file| && !IsCut(file, off)
    && 8 <= BoxSize(file, off) <= |file| - off
    && (IsMoov(file, off) || HasMoov(file, off + BoxSize(file, off), n))
  }

  lemma {:induction false} BoundaryIsAhead(file: Bytes, off: nat, n: nat)
    requires off <= |file| && IsBoundary(file, off, n)
    ensures off <= n <= |file|
    decreases |file| - off
  {
    if n != off {
      BoundaryIsAhead(file, off + BoxSize(file, off), n);
    }
  }

  /** The header of a box that starts in a prefix reads the same there, as far as the prefix reaches. */
  lemma HeaderOfPrefix(file: Bytes, n: nat, off: nat)
    requires off + 8 <= n <= |file| && !IsCut(file, off)
    ensures file[..n][off..off + 4] == file[off..off + 4]
    ensures file[..n][off + 4..off + 8] == file[off + 4..off + 8]
    ensures IsCut(file[..n], off) <==> BigEndian(file[off..off + 4]) == 1 && n < off + 16
    ensures BigEndian(file[off..off + 4]) != 0 && !IsCut(file[..n], off) ==>
              BoxSize(file[..n], off) == BoxSize(file, off)
  {
    var prefix := file[..n];
    assert prefix[off..off + 4] == file[off..off + 4];
    assert prefix[off + 4..off + 8] == file[off + 4..off + 8];
    if off + 16 <= n {
      assert prefix[off + 8..off + 16] == file[off + 8..off + 16];
    }
  }

  /** The walk over a prefix, from a boundary of the file inside it. */
  lemma {:induction false} WalkOfPrefix(file: Bytes, needMoov: bool, n: nat, off: nat, hasMoov: bool)
    requires off <= n <= |file| && IsExplicit(file, off)
    ensures Walk(file[..n], needMoov, off, hasMoov).Accepted? <==>
      IsBoundary(file, off, n) && (needMoov ==> hasMoov || HasMoov(file, off, n))
    decreases |file| - off
  {
    if off < n {
      if n - off < 8 {
        if IsBoundary(file, off, n) {
          BoundaryIsAhead(file, off + BoxSize(file, off), n);
        }
      } else {
        HeaderOfPrefix(file, n, off);
        var next := off + BoxSize(file, off);
        if next <= n {
          WalkOfPrefix(file, needMoov, n, next, hasMoov || IsMoov(file, off));
        } else if IsBoundary(file, off, n) {
          BoundaryIsAhead(file, next, n);
        }
      }
    }
  }

  /**
   Truncation: when every box of an accepted file has an explicit size, a proper prefix is accepted exactly when it
   ends where a top-level box ends and, for video, after a moov box.
   */
  lemma TruncationIsCaught(file: Bytes, needMoov: bool, n: nat)
    requires n < |file| && IsExplicit(file, 0)
    ensures Walk(file[..n], needMoov, 0, false).Accepted? <==>
      IsBoundary(file, 0, n) && (needMoov ==> HasMoov(file, 0, n))
  {
    WalkOfPrefix(file, needMoov, n, 0, false);
  }

  /** A prefix that reaches past the boundary `b` is walked up to `b` like the file itself. */
  lemma {:induction false} WalkReaches(file: Bytes, needMoov: bool, n: nat, off: nat, hasMoov: bool, b: nat)
    requires off <= b && b + 8 <= n <= |file| && IsBoundary(file, off, b)
    ensures Walk(file[..n], needMoov, off, hasMoov) ==
      Walk(file[..n], needMoov, b, hasMoov || HasMoov(file, off, b))
    decreases |file| - off
  {
    if off < b {
      BoundaryIsAhead(file, off + BoxSize(file, off), b);
      HeaderOfPrefix(file, n, off);
      WalkReaches(file, needMoov, n, off + BoxSize(file, off), hasMoov || IsMoov(file, off), b);
    }
  }

  /** The condition on sizes is needed: past a box that runs to the end of the file, every truncation is accepted. */
  lemma OpenBoxHidesTruncation(file: Bytes, needMoov: bool, off: nat, n: nat)
    requires off + 8 <= n <= |file| && IsBoundary(file, 0, off)
    requires BigEndian(file[off..off + 4]) == 0
    ensures Walk(file[..n], needMoov, 0, false).Accepted? <==>
      (needMoov ==> HasMoov(file, 0, off) || IsMoov(file, off))
  {
    var prefix := file[..n];
    WalkReaches(file, needMoov, n, 0, false, off);
    assert prefix[off..off + 4] == file[off..off + 4];
    assert prefix[off + 4..off + 8] == file[off + 4..off + 8];
    assert !IsCut(prefix, off) && BoxSize(prefix, off) == n - off;
  }

  /** An explicit file is what the walk accepts, apart from boxes open to the end and undersized 64-bit sizes. */
  lemma {:induction false} ExplicitIsAccepted(file: Bytes, needMoov: bool, off: nat, hasMoov: bool)
    requires off <= |file| && IsExplicit(file, off)
    ensures Walk(file, needMoov, off, hasMoov).Accepted? <==> needMoov ==> hasMoov || HasMoov(file, off, |file|)
    decreases |file| - off
  {
    if off < |file| {
      ExplicitIsAccepted(file, needMoov, off + BoxSize(file, off), hasMoov || IsMoov(file, off));
    }
  }

  // ---------------------------------------------------------------- files as their writers make them

  /** A number in network order: byte i of four is the one above the lowest 8 * (3 - i) bits. */
  function Word(n: nat): (b: Bytes)
    requires n < 0x1_0000_0000
    ensures |b| == 4
  {
    [n / 0x100_0000, n / 0x1_0000 % 0x100, n / 0x100 % 0x100, n % 0x100]
  }

  lemma WordIsRead(n: nat)
    requires n < 0x1_0000_0000
    ensures BigEndian(Word(n)) == n
  {
    var a, b, c := n / 0x100, n / 0x1_0000, n / 0x100_0000;
    assert n == 0x100 * a + n % 0x100 && a == 0x100 * b + a % 0x100 && b == 0x100 * c + b % 0x100;
    FourBytes(Word(n));
  }

  /** A box with its size in 32 bits, or in 64 behind the number 1. */
  datatype Box = Box(kind: Bytes, payload: Bytes, large: bool)

  function BoxLength(x: Box): nat {
    |x.payload| + if x.large then 16 else 8
  }

  predicate IsWritable(x: Box) {
    |x.kind| == 4 && BoxLength(x) < if x.large then TWO_64 else 0x1_0000_0000
  }

  function Written(x: Box): (b: Bytes)
    requires IsWritable(x)
    ensures |b| == BoxLength(x)
  {
    var n := BoxLength(x);
    if x.large then Word(1) + x.kind + Word(n / 0x1_0000_0000) + Word(n % 0x1_0000_0000) + x.payload
    else Word(n) + x.kind + x.payload
  }

  function AllWritten(boxes: seq<Box>): Bytes
    requires forall x | x in boxes :: IsWritable(x)
  {
    if boxes == [] then [] else Written(boxes[0]) + AllWritten(boxes[1..])
  }

  /** At a written box the walk finds its length and kind. */
  lemma WrittenIsRead(before: Bytes, x: Box, after: Bytes)
    requires IsWritable(x)
    ensures
      var file, off := before + Written(x) + after, |before|;
      && off + 8 <= |file| && !IsCut(file, off) && BoxSize(file, off) == BoxLength(x)
      && (IsMoov(file, off) <==> x.kind == MOOV)
  {
    var file, off, b := before + Written(x) + after, |before|, Written(x);
    HeaderAt(before, b, after);
    if x.large {
      var n := BoxLength(x);
      assert b[..4] == Word(1) && b[4..8] == x.kind;
      assert b[8..16] == Word(n / 0x1_0000_0000) + Word(n % 0x1_0000_0000);
      WordIsRead(1);
      LargeIsRead(n);
    } else {
      assert b[..4] == Word(BoxLength(x)) && b[4..8] == x.kind;
      WordIsRead(BoxLength(x));
    }
  }

  lemma HeaderAt(before: Bytes, b: Bytes, after: Bytes)
    requires |b| >= 8
    ensures
      var file, off := before + b + after, |before|;
      && file[off..off + 4] == b[..4] && file[off + 4..off + 8] == b[4..8]
      && (|b| >= 16 ==> file[off + 8..off + 16] == b[8..16])
  {
  }

  lemma LargeIsRead(n: nat)
    requires n < TWO_64
    ensures BigEndian(Word(n / 0x1_0000_0000) + Word(n % 0x1_0000_0000)) == n
  {
    var high, low := Word(n / 0x1_0000_0000), Word(n % 0x1_0000_0000);
    WordIsRead(n / 0x1_0000_0000);
    WordIsRead(n % 0x1_0000_0000);
    EightBytes(high + low);
    assert (high + low)[..4] == high && (high + low)[4..] == low;
  }

  predicate AnyMoov(boxes: seq<Box>) {
    exists x | x in boxes :: x.kind == MOOV
  }

  lemma MoovAmong(boxes: seq<Box>)
    requires boxes != []
    ensures AnyMoov(boxes) <==> boxes[0].kind == MOOV || AnyMoov(boxes[1..])
  {
    assert forall y :: y in boxes <==> y == boxes[0] || y in boxes[1..];
  }

  lemma {:induction false} WalkOfWritten(file: Bytes, before: Bytes, boxes: seq<Box>, needMoov: bool, hasMoov: bool)
    requires (forall x | x in boxes :: IsWritable(x)) && file == before + AllWritten(boxes)
    ensures Walk(file, needMoov, |before|, hasMoov) == Walk(file, needMoov, |file|, hasMoov || AnyMoov(boxes))
    decreases |boxes|
  {
    if boxes != [] {
      MoovAmong(boxes);
      FirstIsWritten(file, before, boxes);
      WalkOfOne(file, before, boxes[0], AllWritten(boxes[1..]), needMoov, hasMoov);
      WalkOfWritten(file, before + Written(boxes[0]), boxes[1..], needMoov, hasMoov || boxes[0].kind == MOOV);
    }
  }

  lemma FirstIsWritten(file: Bytes, before: Bytes, boxes: seq<Box>)
    requires (forall x | x in boxes :: IsWritable(x)) && file == before + AllWritten(boxes) && boxes != []
    ensures file == before + Written(boxes[0]) + AllWritten(boxes[1..])
  {
  }

  lemma WalkOfOne(file: Bytes, before: Bytes, x: Box, after: Bytes, needMoov: bool, hasMoov: bool)
    requires IsWritable(x) && file == before + Written(x) + after
    ensures Walk(file, needMoov, |before|, hasMoov) ==
            Walk(file, needMoov, |before + Written(x)|, hasMoov || x.kind == MOOV)
  {
    WrittenIsRead(before, x, after);
  }

  /** A file written box by box, sizes in network order, is complete; as a video exactly if one of the boxes is moov. */
  lemma WrittenIsAccepted(boxes: seq<Box>, needMoov: bool)
    requires forall x | x in boxes :: IsWritable(x)
    ensures Walk(AllWritten(boxes), needMoov, 0, false).Accepted? <==>
      needMoov ==> exists x | x in boxes :: x.kind == MOOV
  {
    WalkOfWritten(AllWritten(boxes), [], boxes, needMoov, false);
    assert AnyMoov(boxes) <==> exists x | x in boxes :: x.kind == MOOV;
  }

  /** The same of checkISOBMFF itself. */
  method CheckWritten(boxes: seq<Box>, needMoov: bool) returns (verdict: Verdict)
    requires (forall x | x in boxes :: IsWritable(x)) && |AllWritten(boxes)| < TWO_63
    ensures verdict.Accepted? <==> needMoov ==> exists x | x in boxes :: x.kind == MOOV
  {
    WrittenIsAccepted(boxes, needMoov);
    verdict := CheckIsobmff(AllWritten(boxes), needMoov);
  }

  // ---------------------------------------------------------------- dispatch on the magic bytes

  const FTYP: Bytes := [0x66, 0x74, 0x79, 0x70]
  const RIFF: Bytes := [0x52, 0x49, 0x46, 0x46]
  const WEBP: Bytes := [0x57, 0x45, 0x42, 0x50]
  const PNG: Bytes := [0x89, 0x50, 0x4e, 0x47, 0x0d, 0x0a, 0x1a, 0x0a]
  const JPEG: Bytes := [0xff, 0xd8]
  const JPEG_END: Bytes := [0xff, 0xd9]
  const PNG_END: Bytes := [0x49, 0x45, 0x4e, 0x44]

  /** heic, heix, mif1, msf1, avif, avis: still images, which carry no moov. */
  const IMAGE_BRANDS: set<Bytes> := {
    [0x68, 0x65, 0x69, 0x63], [0x68, 0x65, 0x69, 0x78], [0x6d, 0x69, 0x66, 0x31],
    [0x6d, 0x73, 0x66, 0x31], [0x61, 0x76, 0x69, 0x66], [0x61, 0x76, 0x69, 0x73]}

  predicate StartsWith(file: Bytes, magic: Bytes) {
    |magic| <= |file| && file[..|magic|] == magic
  }

  predicate OccursAt(file: Bytes, i: nat, marker: Bytes) {
    i + |marker| <= |file| && file[i..i + |marker|] == marker
  }

  /** checkTail: the marker occurs in the last `window` bytes. */
  predicate HasEndMarker(file: Bytes, marker: Bytes, window: nat) {
    exists i: nat | |file| - window <= i <= |file| :: OccursAt(file, i, marker)
  }

  function LittleEndian(b: Bytes): nat {
    if b == [] then 0 else b[0] + 256 * LittleEndian(b[1..])
  }

  /** The first bytes of the file in a 12-byte buffer; the rest of the buffer is zero. */
  function Head(file: Bytes): (head: Bytes)
    ensures |head| == 12
  {
    if |file| >= 12 then file[..12] else file + seq(12 - |file|, _ => 0)
  }

  /** CheckComplete on the content of a readable file. */
  function CheckComplete(file: Bytes): Verdict {
    if StartsWith(file, JPEG) then if HasEndMarker(file, JPEG_END, 4096) then Accepted else Rejected(NoEndMarker)
    else if StartsWith(file, PNG) then if HasEndMarker(file, PNG_END, 64) then Accepted else Rejected(NoEndMarker)
    else if |file| >= 12 && file[..4] == RIFF && file[8..12] == WEBP then
      if |file| < LittleEndian(file[4..8]) + 8 then Rejected(ShortRiff) else Accepted
    else if |file| >= 8 && file[4..8] == FTYP then Walk(file, Head(file)[8..12] !in IMAGE_BRANDS, 0, false)
    else if file == [] then Rejected(EmptyFile)
    else Accepted
  }

  /** The bytes of a RIFF size, least significant first. */
  lemma IntelOrder(b: Bytes)
    requires |b| == 4
    ensures LittleEndian(b) == At(b, 0) + At(b, 1) * 0x100 + At(b, 2) * 0x1_0000 + At(b, 3) * 0x100_0000
  {
    assert b[1..][1..] == b[2..] && b[2..][1..] == b[3..] && b[3..][1..] == [];
    assert LittleEndian(b[3..]) == b[3];
    assert LittleEndian(b[2..]) == At(b, 2) + 0x100 * At(b, 3);
    assert LittleEndian(b[1..]) == At(b, 1) + 0x100 * At(b, 2) + 0x1_0000 * At(b, 3);
  }

  /** A JPEG is complete exactly if its end marker FF D9 lies in its last 4096 bytes. */
  lemma JpegVerdict(file: Bytes)
    requires |file| >= 2 && file[0] == 0xff && file[1] == 0xd8
    ensures CheckComplete(file).Accepted? <==>
      exists i: nat | |file| - 4096 <= i && i + 1 < |file| :: file[i] == 0xff && file[i + 1] == 0xd9
  {
    assert file[..2] == JPEG;
    forall i: nat ensures OccursAt(file, i, JPEG_END) <==> i + 1 < |file| && file[i] == 0xff && file[i + 1] == 0xd9 {
      if i + 1 < |file| { assert file[i..i + 2] == [file[i], file[i + 1]]; }
    }
    if i: nat :| |file| - 4096 <= i && i + 1 < |file| && file[i] == 0xff && file[i + 1] == 0xd9 {
      assert OccursAt(file, i, JPEG_END);
    }
  }

  /** The letters of `s` stand in the file from `i` on. */
  predicate Spells(file: Bytes, i: nat, s: string) {
    i + |s| <= |file| && forall j | 0 <= j < |s| :: file[i + j] == s[j] as int
  }

  lemma OccursIsSpelled(file: Bytes, i: nat, marker: Bytes, s: string)
    requires |marker| == |s| && Spells(marker, 0, s)
    ensures OccursAt(file, i, marker) <==> Spells(file, i, s)
  {
    if OccursAt(file, i, marker) {
      forall j | 0 <= j < |s| ensures file[i + j] == s[j] as int { assert file[i..i + |s|][j] == marker[j]; }
    }
    if Spells(file, i, s) {
      forall j | 0 <= j < |s| ensures file[i..i + |s|][j] == marker[j] { assert marker[0 + j] == s[j] as int; }
      assert file[i..i + |s|] == marker;
    }
  }

  /** The magic bytes, as letters. */
  lemma MagicSpells()
    ensures Spells(FTYP, 0, "ftyp") && Spells(MOOV, 0, "moov") && Spells(RIFF, 0, "RIFF") && Spells(WEBP, 0, "WEBP")
    ensures Spells(PNG, 1, "PNG") && Spells(PNG_END, 0, "IEND")
  {
  }

  /** The brands that need no moov. */
  lemma BrandsSpell(b: Bytes)
    requires |b| == 4
    ensures b in IMAGE_BRANDS <==>
      || Spells(b, 0, "heic") || Spells(b, 0, "heix") || Spells(b, 0, "mif1")
      || Spells(b, 0, "msf1") || Spells(b, 0, "avif") || Spells(b, 0, "avis")
  {
    BrandSpells(b, [0x68, 0x65, 0x69, 0x63], "heic");
    BrandSpells(b, [0x68, 0x65, 0x69, 0x78], "heix");
    BrandSpells(b, [0x6d, 0x69, 0x66, 0x31], "mif1");
    BrandSpells(b, [0x6d, 0x73, 0x66, 0x31], "msf1");
    BrandSpells(b, [0x61, 0x76, 0x69, 0x66], "avif");
    BrandSpells(b, [0x61, 0x76, 0x69, 0x73], "avis");
  }

  lemma BrandSpells(b: Bytes, brand: Bytes, s: string)
    requires |b| == |brand| == |s| && Spells(brand, 0, s)
    ensures b == brand <==> Spells(b, 0, s)
  {
    OccursIsSpelled(b, 0, brand, s);
    assert b[0..|b|] == b;
  }

  /** A PNG is complete exactly if the letters IEND stand in its last 64 bytes. */
  lemma PngVerdict(file: Bytes)
    requires StartsWith(file, PNG)
    ensures CheckComplete(file).Accepted? <==>
      exists i: nat | |file| - 64 <= i <= |file| :: Spells(file, i, "IEND")
  {
    assert file[0] == file[..8][0] == 0x89 && file[..2][0] == file[0];
    MagicSpells();
    forall i: nat ensures OccursAt(file, i, PNG_END) <==> Spells(file, i, "IEND") {
      OccursIsSpelled(file, i, PNG_END, "IEND");
    }
  }

  /** A WebP is complete exactly if it has the bytes its header declares behind the first eight. */
  lemma WebpVerdict(file: Bytes)
    requires |file| >= 12 && file[..4] == RIFF && file[8..12] == WEBP
    ensures CheckComplete(file).Accepted? <==>
      |file| >= At(file, 4) + At(file, 5) * 0x100 + At(file, 6) * 0x1_0000 + At(file, 7) * 0x100_0000 + 8
  {
    RiffIsNotEarlier(file);
    IntelOrder(file[4..8]);
  }

  predicate IsIsobmff(file: Bytes) {
    && !StartsWith(file, JPEG) && !StartsWith(file, PNG)
    && |file| >= 12 && file[4..8] == FTYP && !(file[..4] == RIFF && file[8..12] == WEBP)
  }

  /** A prefix has the magic bytes of the file, if it is long enough to have any. */
  lemma PrefixKeepsMagic(file: Bytes, n: nat)
    requires n <= |file| && !StartsWith(file, JPEG) && !StartsWith(file, PNG)
    ensures !StartsWith(file[..n], JPEG) && !StartsWith(file[..n], PNG)
    ensures n >= 8 ==> file[..n][4..8] == file[4..8]
    ensures n >= 12 ==> file[..n][..4] == file[..4] && file[..n][8..12] == file[8..12]
  {
    var prefix := file[..n];
    assert n >= 2 ==> prefix[..2] == file[..2];
    assert n >= 8 ==> prefix[..8] == file[..8];
  }

  /** A box that is no moov has none before its end. */
  lemma NoMoovInStub(file: Bytes, n: nat)
    requires 8 <= n < 12 <= |file| && file[4..8] == FTYP
    ensures !HasMoov(file, 0, n) || !IsBoundary(file, 0, n)
  {
    assert FTYP[0] != MOOV[0];
    assert !IsMoov(file, 0);
    if IsBoundary(file, 0, n) {
      BoundaryIsAhead(file, BoxSize(file, 0), n);
      if BoxSize(file, 0) < n {
        BoundaryIsAhead(file, BoxSize(file, 0) + BoxSize(file, BoxSize(file, 0)), n);
      }
    }
  }

  /** Before its last byte is there, the brand is read with zeros and is that of no still image. */
  lemma StubHasNoBrand(file: Bytes)
    requires |file| < 12
    ensures Head(file)[8..12] !in IMAGE_BRANDS
  {
    assert Head(file)[8..12][3] == Head(file)[11] == 0;
    assert forall brand | brand in IMAGE_BRANDS :: |brand| == 4 && brand[3] != 0;
  }

  /**
   The verdict on every truncation of an explicit video or still image: none of it is rejected, one to seven bytes
   pass as a file of unknown format, eight to eleven are rejected, and from twelve on a prefix passes exactly when it
   ends on a box boundary and, for video, after moov.
   */
  lemma TruncatedDownloadIsCaught(file: Bytes, n: nat)
    requires IsIsobmff(file) && IsExplicit(file, 0) && n < |file|
    ensures CheckComplete(file[..n]).Accepted? <==>
      || 1 <= n < 8
      || (12 <= n && IsBoundary(file, 0, n) && (file[8..12] in IMAGE_BRANDS || HasMoov(file, 0, n)))
  {
    var prefix := file[..n];
    PrefixKeepsMagic(file, n);
    if n >= 12 {
      assert Head(prefix)[8..12] == file[8..12];
      TruncationIsCaught(file, file[8..12] !in IMAGE_BRANDS, n);
    } else if n >= 8 {
      StubHasNoBrand(prefix);
      TruncationIsCaught(file, true, n);
      NoMoovInStub(file, n);
    }
  }

  /** A RIFF file is neither of the formats looked for before it. */
  lemma RiffIsNotEarlier(file: Bytes)
    requires |file| >= 4 && file[..4] == RIFF
    ensures !StartsWith(file, JPEG) && !StartsWith(file, PNG)
  {
    assert file[0] == file[..4][0] == 0x52;
    assert JPEG[0] == 0xff && PNG[0] == 0x89;
    assert |file| >= 2 ==> file[..2][0] == file[0];
    assert |file| >= 8 ==> file[..8][0] == file[0];
  }

  lemma RiffAsBox(file: Bytes)
    requires 8 <= |file| < 12 && file[..4] == RIFF
    ensures Walk(file, true, 0, false).Rejected?
  {
    var b := file[0..4];
    assert b == RIFF;
    assert b[..3] == [0x52, 0x49, 0x46] && b[..3][..2] == [0x52, 0x49] && b[..3][..2][..1] == [0x52];
    assert BigEndian(b[..3]) >= 0x52;
    assert BigEndian(b) > 12;
  }

  /**
   The verdict on every truncation of a WebP file of exactly the declared size: the header tells the truncated ones
   from twelve bytes on; a stub of one to eleven passes, unless its size field spells a box type and it has eight.
   */
  lemma TruncatedWebpIsCaught(file: Bytes, n: nat)
    requires |file| >= 12 && file[..4] == RIFF && file[8..12] == WEBP
    requires |file| == LittleEndian(file[4..8]) + 8 && n < |file|
    ensures CheckComplete(file).Accepted?
    ensures CheckComplete(file[..n]).Accepted? <==> 1 <= n < 12 && (n < 8 || file[4..8] != FTYP)
  {
    var prefix := file[..n];
    RiffIsNotEarlier(file);
    PrefixKeepsMagic(file, n);
    if 8 <= n < 12 {
      assert prefix[..4] == file[..4];
      StubHasNoBrand(prefix);
      RiffAsBox(prefix);
    }
  }
}
