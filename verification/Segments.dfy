/** How a file is cut into segments, what the segment-size tables say, and which bytes of a
    segment a CLNT_SEG_REP really carries. */
module Segments {
  import opened Basics
  import opened Wire

  function NumSegments(size: nat): (n: nat)
    ensures n >= 1
  {
    size / SEGMENT_SIZE + 1
  }

  /** The number of file bytes in segment s. */
  function SegmentLength(size: nat, s: nat): (len: nat)
    requires s < NumSegments(size)
    ensures len <= SEGMENT_SIZE
    ensures s * SEGMENT_SIZE + len <= size
  {
    if s + 1 < NumSegments(size) then SEGMENT_SIZE else size - SEGMENT_SIZE * s
  }

  function Slice(file: seq<byte>, s: nat): seq<byte>
    requires s < NumSegments(|file|)
  {
    file[s * SEGMENT_SIZE..s * SEGMENT_SIZE + SegmentLength(|file|, s)]
  }

  function Join(file: seq<byte>, k: nat): seq<byte>
    requires k <= NumSegments(|file|)
  {
    if k == 0 then [] else Join(file, k - 1) + Slice(file, k - 1)
  }

  /** The segments put end to end are the file. */
  lemma {:induction false} SegmentsJoinToFile(file: seq<byte>)
    ensures Join(file, NumSegments(|file|)) == file
  {
    JoinPrefix(file, NumSegments(|file|));
    assert file[..|file|] == file;
  }

  /** Each byte of a file lies in exactly one of its segments. */
  lemma {:induction false} SegmentOfByte(size: nat, p: nat, s: nat)
    requires p < size && s < NumSegments(size)
    ensures p / SEGMENT_SIZE < NumSegments(size)
    ensures s * SEGMENT_SIZE <= p < s * SEGMENT_SIZE + SegmentLength(size, s) <==> s == p / SEGMENT_SIZE
  {
  }

  lemma {:induction false} JoinPrefix(file: seq<byte>, k: nat)
    requires k <= NumSegments(|file|)
    ensures Join(file, k) == file[..Min(k * SEGMENT_SIZE, |file|)]
  {
    if k > 0 {
      JoinPrefix(file, k - 1);
      var from, len := (k - 1) * SEGMENT_SIZE, SegmentLength(|file|, k - 1);
      assert from + len == Min(k * SEGMENT_SIZE, |file|);
      assert file[..from] + file[from..from + len] == file[..from + len];
    }
  }

  // ---------- the tables of struct FileInfo ----------

  /** The size stored for the last segment of a file that was loaded from disk. */
  function LastSize(build: Build, size: nat): int {
    if build.Mended? then size - SEGMENT_SIZE * (NumSegments(size) - 1)
    else
      var gap := size - SEGMENT_SIZE * NumSegments(size);
      Int16(if gap < 0 then -gap else gap)
  }

  /** The size stored for the last segment of a file that was downloaded. */
  function DoneLastSize(build: Build, size: nat): int {
    if build.Mended? then LastSize(Mended, size) else Int16(size - (SEGMENT_SIZE - NumSegments(size)))
  }

  function SeedSizes(build: Build, size: nat): (sizes: seq<int>)
    ensures |sizes| == MAX_SEGMENTS
  {
    var sizes := Repeat(MAX_SEGMENTS, SEGMENT_SIZE);
    if NumSegments(size) <= MAX_SEGMENTS then sizes[NumSegments(size) - 1 := LastSize(build, size)] else sizes
  }

  /** The table that is filled in when a download of n segments is finished. */
  function FinishedSizes(build: Build, size: nat, n: nat): (sizes: seq<int>)
    ensures |sizes| == MAX_SEGMENTS
  {
    var sizes := Repeat(MAX_SEGMENTS, if build.Mended? then SEGMENT_SIZE else MAX_SEGMENTS);
    var last := if build.Mended? then size - SEGMENT_SIZE * (n - 1) else Int16(size - (SEGMENT_SIZE - n));
    if 1 <= n <= MAX_SEGMENTS then sizes[n - 1 := last] else sizes
  }

  function DoneSizes(build: Build, size: nat): (sizes: seq<int>)
    ensures |sizes| == MAX_SEGMENTS
  {
    FinishedSizes(build, size, NumSegments(size))
  }

  /** The mended tables give every segment its length. */
  lemma {:induction false} MendedSizesAreLengths(size: nat, s: nat)
    requires s < NumSegments(size) <= MAX_SEGMENTS
    ensures SeedSizes(Mended, size)[s] == SegmentLength(size, s) == DoneSizes(Mended, size)[s]
  {
  }

  /** The shipped last size is the gap to the next multiple of 32: right for one size in 32. */
  lemma {:induction false} ShippedLastSize(size: nat)
    requires NumSegments(size) <= MAX_SEGMENTS
    ensures LastSize(Shipped, size) == SEGMENT_SIZE - size % SEGMENT_SIZE
    ensures LastSize(Shipped, size) == SegmentLength(size, NumSegments(size) - 1) <==> size % SEGMENT_SIZE == 16
  {
  }

  // ---------- what a reply carries ----------

  /** What htons leaves of a file size. */
  function WireSize(size: nat): (t: nat)
    ensures t < 65536 && t <= size
  {
    size % 65536
  }

  /** How many payload bytes of a reply that announces `size` reach the wire. */
  function Delivered(build: Build, size: nat): nat {
    if build.Mended? then size else if size < 4 then 0 else size - 4
  }

  /** The smallest size any owner of a file of `size` bytes can announce for segment s. Owners
      that downloaded the file know it by the size that went over the wire. */
  function LeastServed(build: Build, size: nat, s: nat): nat
    requires NumSegments(size) <= MAX_SEGMENTS && s < NumSegments(WireSize(size))
  {
    NumSegmentsMonotone(WireSize(size), size);
    var seeded, done := SeedSizes(build, size)[s], DoneSizes(build, WireSize(size))[s];
    if 0 <= done < seeded then done else seeded
  }

  lemma {:induction false} NumSegmentsMonotone(a: nat, b: nat)
    requires a <= b
    ensures NumSegments(a) <= NumSegments(b)
  {
  }

  /** Position p of the file is among the payload bytes of every reply for its segment. */
  predicate Carried(build: Build, size: nat, p: nat)
    requires NumSegments(size) <= MAX_SEGMENTS && p < WireSize(size)
  {
    p % SEGMENT_SIZE < Delivered(build, LeastServed(build, size, p / SEGMENT_SIZE))
  }

  lemma {:induction false} MendedCarriesAll(size: nat, p: nat)
    requires NumSegments(size) <= MAX_SEGMENTS && p < WireSize(size)
    ensures Carried(Mended, size, p)
  {
    var t, s := WireSize(size), p / SEGMENT_SIZE;
    NumSegmentsMonotone(t, size);
    MendedSizesAreLengths(size, s);
    MendedSizesAreLengths(t, s);
    assert p % SEGMENT_SIZE == p - s * SEGMENT_SIZE;
  }

  /** The last four bytes of every full segment are never carried by the shipped code. */
  lemma {:induction false} ShippedFullSegment(size: nat, p: nat)
    requires NumSegments(size) <= MAX_SEGMENTS && p < WireSize(size)
    requires p / SEGMENT_SIZE + 1 < NumSegments(WireSize(size))
    ensures Carried(Shipped, size, p) <==> p % SEGMENT_SIZE < SEGMENT_SIZE - 4
  {
    NumSegmentsMonotone(WireSize(size), size);
  }

  /** The shipped code carries the whole of a file only when it has at most fourteen bytes. */
  lemma {:induction false} ShippedCarriesAll(size: nat)
    requires size < 65536
    ensures (forall p :: 0 <= p < size ==> Carried(Shipped, size, p)) <==> size <= 14
  {
    assert NumSegments(size) <= MAX_SEGMENTS;
    if size <= 14 {
      forall p | 0 <= p < size
        ensures Carried(Shipped, size, p)
      {
        assert LeastServed(Shipped, size, 0) == 32 - size;
      }
    } else if size >= 32 {
      ShippedFullSegment(size, 31);
      assert !Carried(Shipped, size, 31);
    } else {
      assert LeastServed(Shipped, size, 0) <= 32 - size;
      assert !Carried(Shipped, size, size - 1);
    }
  }
}
