/** Applying segments is idempotent and does not depend on their order. */
module OrderFree {
  import opened Basics
  import opened Wire
  import opened Segments
  import Client

  datatype Reply = Reply(seg: nat, data: seq<byte>)

  /** A reply that brings a segment of the file, whole and unharmed. */
  ghost predicate Genuine(file: seq<byte>, r: Reply) {
    NumSegments(|file|) <= MAX_SEGMENTS && r.seg < NumSegments(|file|) && r.data == Slice(file, r.seg)
  }

  ghost predicate AllGenuine(file: seq<byte>, rs: seq<Reply>) {
    forall r <- rs :: Genuine(file, r)
  }

  function ApplyAll(d: Client.Download, rs: seq<Reply>): Client.Download
    requires forall r <- rs :: r.seg < MAX_SEGMENTS
  {
    if rs == [] then d
    else Client.ApplyReply(ApplyAll(d, rs[..|rs| - 1]), rs[|rs| - 1].seg, rs[|rs| - 1].data)
  }

  function SegmentsOf(rs: seq<Reply>): set<nat> {
    set r <- rs :: r.seg
  }

  /** A download whose buffer has been allocated for the file. */
  ghost predicate Allocated(d: Client.Download, file: seq<byte>) {
    d.rawInit && |d.raw| == |file| && |d.have| == MAX_SEGMENTS
  }

  lemma {:induction false} OneReply(d: Client.Download, file: seq<byte>, r: Reply)
    requires Allocated(d, file) && Genuine(file, r)
    ensures var d' := Client.ApplyReply(d, r.seg, r.data);
      && d' == d.(raw := d'.raw, have := d.have[r.seg := true])
      && |d'.raw| == |file|
      && forall p :: 0 <= p < |file| ==> d'.raw[p] == if p / SEGMENT_SIZE == r.seg then file[p] else d.raw[p]
  {
    var d' := Client.ApplyReply(d, r.seg, r.data);
    forall p | 0 <= p < |file|
      ensures d'.raw[p] == if p / SEGMENT_SIZE == r.seg then file[p] else d.raw[p]
    {
      SegmentOfByte(|file|, p, r.seg);
      if p / SEGMENT_SIZE == r.seg {
        assert r.data[p - SEGMENT_SIZE * r.seg] == file[p];
      }
    }
  }

  /** What a set of replies leaves, whichever way they came in. */
  ghost predicate Result(d: Client.Download, file: seq<byte>, segs: set<nat>, d': Client.Download) {
    && d' == d.(raw := d'.raw, have := d'.have)
    && |d'.raw| == |file| && |d'.have| == MAX_SEGMENTS == |d.have|
    && (forall s :: 0 <= s < MAX_SEGMENTS ==> (d'.have[s] <==> d.have[s] || s in segs))
    && |d.raw| == |file|
    && (forall p :: 0 <= p < |file| ==> d'.raw[p] == if p / SEGMENT_SIZE in segs then file[p] else d.raw[p])
  }

  lemma {:induction false} RepliesAddUp(d: Client.Download, file: seq<byte>, rs: seq<Reply>)
    requires Allocated(d, file) && AllGenuine(file, rs)
    ensures Result(d, file, SegmentsOf(rs), ApplyAll(d, rs))
    decreases rs
  {
    if rs != [] {
      var front, r := rs[..|rs| - 1], rs[|rs| - 1];
      assert Genuine(file, r) by { assert r in rs; }
      RepliesAddUp(d, file, front);
      OneReply(ApplyAll(d, front), file, r);
      SegmentsOfLast(rs);
    }
  }

  lemma {:induction false} SegmentsOfLast(rs: seq<Reply>)
    requires rs != []
    ensures SegmentsOf(rs) == SegmentsOf(rs[..|rs| - 1]) + {rs[|rs| - 1].seg}
  {
    assert rs[|rs| - 1] in rs;
    assert forall r :: r in rs ==> r in rs[..|rs| - 1] || r == rs[|rs| - 1];
  }

  /** Two runs of replies that cover the same segments end in the same download. */
  lemma {:induction false} OrderDoesNotMatter(d: Client.Download, file: seq<byte>, rs1: seq<Reply>, rs2: seq<Reply>)
    requires Allocated(d, file) && AllGenuine(file, rs1) && AllGenuine(file, rs2)
    requires SegmentsOf(rs1) == SegmentsOf(rs2)
    ensures ApplyAll(d, rs1) == ApplyAll(d, rs2)
  {
    RepliesAddUp(d, file, rs1);
    RepliesAddUp(d, file, rs2);
    assert ApplyAll(d, rs1).raw == ApplyAll(d, rs2).raw;
    assert ApplyAll(d, rs1).have == ApplyAll(d, rs2).have;
  }

  /** Replies for every segment restore the file. */
  lemma {:induction false} AllSegmentsRestoreFile(d: Client.Download, file: seq<byte>, rs: seq<Reply>)
    requires Allocated(d, file) && AllGenuine(file, rs)
    requires forall s :: 0 <= s < NumSegments(|file|) ==> s in SegmentsOf(rs)
    ensures ApplyAll(d, rs).raw == file
  {
    RepliesAddUp(d, file, rs);
    forall p | 0 <= p < |file|
      ensures ApplyAll(d, rs).raw[p] == file[p]
    {
      SegmentOfByte(|file|, p, 0);
    }
  }

  /** A late duplicate does not change a finished buffer, nor the owned file that shares it. */
  lemma {:induction false} LateDuplicateIsHarmless(st: Client.State, fi: Client.FileInfo, k: nat, file: seq<byte>, r: Reply, cid: int, from: int)
    requires k < |st.downloads| && fi.fp == Client.RawOf(k) && Genuine(file, r)
    requires Allocated(st.downloads[k], file) && st.downloads[k].raw == file && st.downloads[k].have[r.seg]
    ensures var st' := Client.OnSegRep(st, cid, st.downloads[k].name, r.seg, |r.data|, r.data, from);
      st'.downloads[k] == st.downloads[k] && Client.Bytes(st', fi.fp) == Client.Bytes(st, fi.fp) == file
  {
    OneReply(st.downloads[k], file, r);
    assert Client.ApplyReply(st.downloads[k], r.seg, r.data).raw == file;
  }
}
