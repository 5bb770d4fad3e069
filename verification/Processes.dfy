/** The processes inside the swarm: in every reachable world a process that is in the state the
    world says ends up in the state of the next world, and sends what that world's network holds. */
module Processes {
  import opened Basics
  import opened Wire
  import opened Swarm
  import opened Invariant
  import opened Tables
  import opened Reachable
  import opened Scenes
  import opened TrackerPacket
  import opened Answers
  import opened TrackerNode
  import opened ClientNode
  import opened Packets
  import Client
  import Tracker

  /** One round of trackerDoWork: the process ends up in the tracker state of the next world. With
      the index mended, or where the tasks make it harmless, what it sends is the image of the
      packet that step puts on the network. */
  method Serve(tracker: TrackerProcess, mem: seq<byte>, port: int, ghost cfg: Config, ghost w: World, ghost p: Packet)
    returns (pkt: array<byte>)
    requires Asked(cfg, w, p, mem) && port == p.from && tracker.build == cfg.build && tracker.State() == w.tracker
    modifies tracker
    ensures tracker.State() == Next(cfg, w, ToTracker(p, mem)).tracker
    ensures cfg.build.Mended? || OneFile(cfg) || NothingToTell(cfg) ==>
      exists reply {:trigger Image(reply)} ::
        pkt[..] == Image(reply) &&
        Next(cfg, w, ToTracker(p, mem)).net == w.net + {Packet(cfg.trackerPort, p.from, reply)}
  {
    hide Reached, Recorded, Files, Image, NamesOf, Tracker.OnInterest, Arrives, AssignBytes, OneFile, NothingToTell, ConfigOk, ReadInterest;
    InterestIsRecorded(cfg, w, p, mem);
    ghost var m := ReadInterest(mem).value;
    FilesAreTheReply(w.tracker, m, port);
    TrackerStepIs(cfg, w, p, mem);
    tracker.HandleGroupUpdateRequest(mem, port);
    pkt := tracker.CreateGroupAssignPkt();
    if cfg.build.Mended? || OneFile(cfg) || NothingToTell(cfg) {
      ghost var t := Tracker.OnInterest(w.tracker, m.cid, m.items, port).0;
      if cfg.build.Shipped? { AlwaysRight(cfg, w, p, mem); }
      RightBytes(cfg.build, t.addrs, t.groups, NamesOf(m.items));
    }
  }

  // ---------- a client ----------

  /** The network holds a message that the datagram carries. */
  ghost predicate OnNet(cfg: Config, net: set<Packet>, from: int, dg: Datagram) {
    exists p {:trigger p in net} :: p in net && p.from == from && Carries(cfg.build, dg, Client.Out(p.to, p.msg))
  }

  lemma {:induction false} SentIsOnNet(cfg: Config, net: set<Packet>, from: int, dgs: seq<Datagram>, outs: seq<Client.Out>)
    requires CarryAll(cfg.build, dgs, outs) && Outgoing(from, outs) <= net
    ensures forall dg <- dgs :: OnNet(cfg, net, from, dg)
  {
    hide Carries;
    forall dg | dg in dgs
      ensures OnNet(cfg, net, from, dg)
    {
      var i :| 0 <= i < |dgs| && dgs[i] == dg;
      assert outs[i] in outs;
      var p := Packet(from, outs[i].port, outs[i].msg);
      assert p in net;
      assert Carries(cfg.build, dg, Client.Out(p.to, p.msg));
    }
  }

  /** A step of client c: something local, or the delivery of a datagram that is under way. */
  ghost predicate StepOf(cfg: Config, w: World, s: Step, c: nat, input: Client.Input)
    requires ConfigOk(cfg)
  {
    c < MAX_CLIENTS && match s
      case Local(j, i) => j == c && i == input && !input.Receive?
      case Deliver(j, p, mem, junk) =>
        j == c && p.to == cfg.ports[c] && Arrives(cfg, w, p, mem) && input == Client.Receive(mem, p.from, junk)
      case _ => false
  }

  lemma {:induction false} DeliveredReads(cfg: Config, w: World, s: Step, c: nat, input: Client.Input)
    requires ConfigOk(cfg) && Reached(cfg, w) && StepOf(cfg, w, s, c, input)
    ensures c < |w.clients| == |cfg.ports|
    ensures input.Receive? ==> ReadClient(input.mem).Some?
    ensures Next(cfg, w, s) == ClientMoves(cfg, w, c, input)
  {
    hide Inv, Reached, ClientMoves, ReadClient, Arrives;
    ReachedOk(cfg, w);
    if s.Deliver? { DeliveryOk(cfg, w, c, s.p, s.mem, s.junk); }
  }

  /** One event at a client. */
  method Handle(client: ClientProcess, input: Client.Input, ghost cfg: Config, ghost w: World, ghost s: Step, ghost c: nat)
    returns (sent: seq<Datagram>)
    requires ConfigOk(cfg) && Reached(cfg, w) && StepOf(cfg, w, s, c, input)
    requires client.build == cfg.build && client.status.Running? && client.State() == w.clients[c]
    modifies client
    ensures SameUnlessCrashed(client.State(), Next(cfg, w, s).clients[c])
    ensures forall dg <- sent :: OnNet(cfg, Next(cfg, w, s).net, cfg.ports[c], dg)
  {
    hide ConfigOk, Reached, StepOf, Next, Client.Step, OnNet, CarryAll;
    DeliveredReads(cfg, w, s, c, input);
    sent := client.Act(input);
    SentIsOnNet(cfg, Next(cfg, w, s).net, cfg.ports[c], sent, Client.Step(cfg.build, w.clients[c], input).1);
  }
}
