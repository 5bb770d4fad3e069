/** Packets as they are laid out: into a malloc'd buffer, field by field, at an advancing
    offset. */
module PacketWriters {
  import opened Basics
  import opened Wire
  import Client

  /** memcpy into the packet. */
  method Put(pkt: array<byte>, at: nat, b: seq<byte>)
    requires at + |b| <= pkt.Length
    modifies pkt
    ensures pkt[..] == old(pkt[..at]) + b + old(pkt[at + |b|..])
  {
    for i := 0 to |b|
      invariant forall k :: 0 <= k < pkt.Length ==> pkt[k] == if at <= k < at + i then b[k - at] else old(pkt[k])
    {
      pkt[at + i] := b[i];
    }
  }

  /** memcpy and advance. */
  method Append(pkt: array<byte>, at: nat, b: seq<byte>) returns (next: nat)
    requires at + |b| <= pkt.Length
    modifies pkt
    ensures next == at + |b| && pkt[..next] == old(pkt[..at]) + b
  {
    Put(pkt, at, b);
    next := at + |b|;
    assert pkt[..next] == pkt[..][..next];
  }

  /** The same where the buffer may be too short for what is written: the bytes behind its end
      are lost. `laid` is all that was written before. */
  method AppendClipped(pkt: array<byte>, at: nat, b: seq<byte>, ghost laid: seq<byte>) returns (next: nat)
    requires |laid| == at && pkt[..Min(at, pkt.Length)] == laid[..Min(at, pkt.Length)]
    modifies pkt
    ensures next == at + |b| && pkt[..Min(next, pkt.Length)] == (laid + b)[..Min(next, pkt.Length)]
  {
    ghost var was := pkt[..];
    for i := 0 to |b|
      invariant forall k :: 0 <= k < pkt.Length ==> pkt[k] == if at <= k < at + i then b[k - at] else was[k]
    {
      if at + i < pkt.Length { pkt[at + i] := b[i]; }
    }
    next := at + |b|;
    forall k | 0 <= k < Min(next, pkt.Length)
      ensures pkt[k] == (laid + b)[k]
    {
      if k < at { assert pkt[k] == was[..Min(at, pkt.Length)][k] == laid[k]; }
    }
  }

  /** The fields every message between clients starts with. */
  method WriteHeader(pkt: array<byte>, size: int, kind: int, cid: int, name: Name) returns (at: nat)
    requires pkt.Length >= 39
    modifies pkt
    ensures at == 39 && pkt[..at] == Short(size) + Short(kind) + Short(cid) + Pad(name)
  {
    hide Short, Pad;
    at := Append(pkt, 0, Short(size));
    at := Append(pkt, at, Short(kind));
    at := Append(pkt, at, Short(cid));
    at := Append(pkt, at, Pad(name));
  }

  method WriteInfoReq(cid: int, name: Name) returns (pkt: array<byte>)
    ensures fresh(pkt) && pkt[..] == Image(InfoReq(cid, name))
  {
    hide Short, Pad;
    pkt := new byte[39];
    var at := WriteHeader(pkt, 39, 0, cid, name);
    assert pkt[..] == pkt[..at];
  }

  method WriteSegReq(cid: int, name: Name, seg: int) returns (pkt: array<byte>)
    ensures fresh(pkt) && pkt[..] == Image(SegReq(cid, name, seg))
  {
    hide Short, Pad;
    pkt := new byte[41];
    var at := WriteHeader(pkt, 41, 2, cid, name);
    at := Append(pkt, at, Short(seg));
    assert pkt[..] == pkt[..at];
  }

  /** The buffer is one short longer than what is written to it. */
  method WriteInfoRep(cid: int, name: Name, n: nat) returns (pkt: array<byte>)
    ensures fresh(pkt) && pkt.Length == 43 + 2 * n && pkt[..41 + 2 * n] == Image(InfoRep(cid, name, Client.UpTo(n)))
  {
    hide Short, Pad, Shorts, Client.UpTo;
    pkt := new byte[43 + 2 * n];
    var at := WriteHeader(pkt, 43 + 2 * n, 1, cid, name);
    at := Append(pkt, at, Short(n));
    ghost var head := Short(43 + 2 * n) + Short(1) + Short(cid) + Pad(name) + Short(n);
    NoShorts();
    for i := 0 to n
      invariant at == 41 + 2 * i && pkt[..at] == head + Shorts(Client.UpTo(i))
    {
      NextShort(i);
      at := Append(pkt, at, Short(i));
    }
  }

  lemma {:induction false} NoShorts()
    ensures Shorts(Client.UpTo(0)) == []
  {
  }

  lemma {:induction false} NextShort(i: nat)
    ensures Shorts(Client.UpTo(i + 1)) == Shorts(Client.UpTo(i)) + Short(i)
  {
    ShortsAppend(Client.UpTo(i), i);
  }

  lemma {:induction false} ShortsAppend(segs: seq<int>, s: int)
    ensures Shorts(segs + [s]) == Shorts(segs) + Short(s)
  {
    hide Short;
    if segs == [] {
      assert segs + [s] == [s];
      assert [s][1..] == [];
    } else {
      assert (segs + [s])[1..] == segs[1..] + [s];
      ShortsAppend(segs[1..], s);
    }
  }

  /** The shipped buffer is four bytes too short for its five shorts. */
  method WriteSegRep(build: Build, cid: int, name: Name, seg: int, data: seq<byte>) returns (pkt: array<byte>)
    ensures fresh(pkt) && pkt[..] == Sent(build, SegRep(cid, name, seg, |data|, data))
  {
    hide Short, Pad;
    var size := |data|;
    pkt := new byte[(if build.Shipped? then 39 else 43) + size];
    var at := WriteHeader(pkt, 39 + size, 3, cid, name);
    ghost var laid := pkt[..at];
    at := AppendClipped(pkt, at, Short(seg), laid);
    laid := laid + Short(seg);
    at := AppendClipped(pkt, at, Short(size), laid);
    laid := laid + Short(size);
    at := AppendClipped(pkt, at, data, laid);
    laid := laid + data;
    assert pkt[..] == pkt[..Min(at, pkt.Length)];
  }
}
