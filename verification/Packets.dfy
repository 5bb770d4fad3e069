/** Datagrams as bytes, and the messages they carry. */
module Packets {
  import opened Basics
  import opened Wire
  import Client

  datatype Datagram = Datagram(port: int, bytes: seq<byte>)

  /** The datagram goes where the message should, and starts with what should be sent of it.
      Only CLNT_INFO_REP is longer: its buffer counts a short too many. */
  predicate Carries(build: Build, dg: Datagram, o: Client.Out) {
    && dg.port == o.port
    && Sent(build, o.msg) <= dg.bytes
    && |dg.bytes| == |Sent(build, o.msg)| + if o.msg.InfoRep? then 2 else 0
  }

  predicate CarryAll(build: Build, dgs: seq<Datagram>, outs: seq<Client.Out>) {
    |dgs| == |outs| && forall i :: 0 <= i < |dgs| ==> Carries(build, dgs[i], outs[i])
  }

  lemma {:induction false} CarriesImage(build: Build, dg: Datagram, o: Client.Out)
    requires dg.port == o.port && dg.bytes == Sent(build, o.msg) && !o.msg.InfoRep?
    ensures Carries(build, dg, o)
  {
  }

  lemma {:induction false} CarriesInfoRep(build: Build, dg: Datagram, cid: int, name: Name, n: nat)
    requires |dg.bytes| == 43 + 2 * n && dg.bytes[..41 + 2 * n] == Image(InfoRep(cid, name, Client.UpTo(n)))
    ensures Carries(build, dg, Client.Out(dg.port, InfoRep(cid, name, Client.UpTo(n))))
  {
  }

  lemma {:induction false} CarryNone(build: Build)
    ensures CarryAll(build, [], [])
  {
  }

  lemma {:induction false} CarryOne(build: Build, dg: Datagram, o: Client.Out)
    requires dg.port == o.port && dg.bytes == Sent(build, o.msg) && !o.msg.InfoRep?
    ensures CarryAll(build, [dg], [o])
  {
  }

  lemma {:induction false} CarryMore(build: Build, dgs: seq<Datagram>, outs: seq<Client.Out>, more: seq<Datagram>, others: seq<Client.Out>)
    requires CarryAll(build, dgs, outs) && CarryAll(build, more, others)
    ensures CarryAll(build, dgs + more, outs + others)
  {
    hide Carries;
  }
}
