/** The tracker process as Tracker.c keeps it: tables updated in place by loops, and packets
    read and written at an advancing offset. */
module TrackerNode {
  import opened Basics
  import opened Wire
  import opened TrackerPacket
  import opened PacketWriters
  import Client
  import Tracker

  /** An item of GROUP_SHOW_INTEREST, where its fields stand. */
  function ItemAt(pkt: seq<byte>, i: nat): Item
    requires 8 + 39 * (i + 1) <= |pkt|
  {
    Item(NameAt(pkt, 8 + 39 * i), SizeAt(pkt, 8 + 39 * i + 33), ShortAt(pkt, 8 + 39 * i + 37))
  }

  lemma {:induction false} ItemsStand(pkt: seq<byte>, i: nat, n: nat)
    requires ReadItems(pkt, 8 + 39 * i, n).Some?
    ensures |ReadItems(pkt, 8 + 39 * i, n).value| == n && (n > 0 ==> 8 + 39 * (i + n) <= |pkt|)
    ensures forall k {:trigger ItemAt(pkt, k)} :: i <= k < i + n ==> ReadItems(pkt, 8 + 39 * i, n).value[k - i] == ItemAt(pkt, k)
    decreases n
  {
    if n > 0 {
      assert 8 + 39 * i + 39 == 8 + 39 * (i + 1);
      ItemsStand(pkt, i + 1, n - 1);
    }
  }

  function NamesOf(items: seq<Item>): (names: seq<Name>)
    ensures |names| == |items| && forall i :: 0 <= i < |items| ==> names[i] == items[i].name
  {
    if items == [] then [] else NamesOf(items[..|items| - 1]) + [items[|items| - 1].name]
  }

  class TrackerProcess {
    const build: Build
    var addrs: seq<Peer>
    var groups: seq<Tracker.Group>
    var requested: seq<Name>

    constructor (build: Build)
      ensures this.build == build && addrs == [] && groups == [] && requested == []
    {
      this.build := build;
      addrs, groups, requested := [], [], [];
    }

    ghost function State(): Tracker.State
      reads this
    {
      Tracker.State(addrs, groups, true)
    }

    /** Appends the sender unless its id is on file. */
    method NoteAddress(id: int, port: int)
      modifies this`addrs
      ensures addrs == Client.LearnPeer(old(addrs), Peer(id, port))
    {
      var i := FindAddress(id);
      if i == |addrs| {
        addrs := addrs + [Peer(id, port)];
      }
    }

    /** Updates the group of the file, or starts tracking it. */
    method NoteInterest(id: int, item: Item)
      modifies this`groups
      ensures groups == Tracker.NoteItem(old(groups), id, item)
    {
      var i := FindTracked(item.name);
      var known := i < |groups|;
      var g := if known then groups[i] else Tracker.Group(item.name, {}, {}, item.size);
      if item.kind == 0 {
        g := g.(down := g.down + {id});
      } else if item.kind == 1 {
        g := g.(down := g.down + {id}, sharing := g.sharing + {id});
      } else if item.kind == 2 {
        g := g.(sharing := g.sharing + {id});
      }
      if g.size == 0 && item.size != 0 {
        g := g.(size := item.size);
      }
      ghost var base := if known then groups[i] else Tracker.Group(item.name, {}, {}, 0);
      assert g == Tracker.Mark(base, id, item) by {
        var m := Tracker.Mark(base, id, item);
        assert g.down == m.down && g.sharing == m.sharing;
      }
      if known {
        groups := groups[i := g];
      } else {
        groups := groups + [g];
      }
    }

    /** A well-formed packet leaves the databases as the history rules say, and the requested
        names in order. */
    method HandleGroupUpdateRequest(pkt: seq<byte>, port: int)
      requires ReadInterest(pkt).Some?
      modifies this`addrs, this`groups, this`requested
      ensures ReadInterest(pkt).value.ShowInterest?
      ensures var m := ReadInterest(pkt).value;
        State() == Tracker.OnInterest(old(State()), m.cid, m.items, port).0 && requested == NamesOf(m.items)
    {
      hide ReadInterest, ItemAt, NamesOf, Tracker.NoteItem, Tracker.NoteItems, Tracker.OnInterest;
      InterestStands(pkt);
      ghost var m, before := ReadInterest(pkt).value, groups;
      requested := [];
      var id, count := ShortAt(pkt, 4), ShortAt(pkt, 6);
      NoteAddress(id, port);
      NoneNoted(groups, id, m.items);
      var at, i := 8, 0;
      while i < count
        invariant 0 <= i <= |m.items| && at == 8 + 39 * i
        invariant addrs == Client.LearnPeer(old(addrs), Peer(id, port))
        invariant groups == Tracker.NoteItems(before, id, m.items[..i])
        invariant requested == NamesOf(m.items[..i])
      {
        NextNoted(before, id, m.items, i);
        var item := ReadItem(pkt, at, i);
        requested := requested + [item.name];
        NoteInterest(id, item);
        at := at + MAX_FILENAME + 4 + 2;
        i := i + 1;
      }
      assert m.items[..i] == m.items;
      Noted(old(State()), m, port);
    }

    /** Takes name, size and kind off the packet. */
    method ReadItem(pkt: seq<byte>, from: nat, ghost i: nat) returns (item: Item)
      requires from == 8 + 39 * i && from + 39 <= |pkt|
      ensures item == ItemAt(pkt, i)
    {
      var at := from;
      var name := NameAt(pkt, at);
      at := at + MAX_FILENAME;
      var size := SizeAt(pkt, at);
      at := at + 4;
      item := Item(name, size, ShortAt(pkt, at));
    }

    /** The first pass of createGroupAssignPkt. */
    method MeasureAssign() returns (size: nat)
      ensures size == HEADER + SizePass(groups, requested, |requested|)
    {
      size := HEADER;
      for i := 0 to |requested|
        invariant size == HEADER + SizePass(groups, requested, i)
      {
        size := size + FIXED;
        var j := FindTracked(requested[i]);
        if j < |groups| {
          for k := 0 to MAX_CLIENTS
            invariant size == HEADER + SizePass(groups, requested, i) + FIXED + RECORD * Count(groups[j].sharing, k)
          {
            if k in groups[j].sharing { size := size + RECORD; }
          }
        }
      }
    }

    /** Both passes. The shipped second pass looks at st_groups[i] whatever its loop variable says;
        what it writes behind the end of the buffer is not sent. */
    method CreateGroupAssignPkt() returns (pkt: array<byte>)
      ensures fresh(pkt)
      ensures pkt[..] == AssignBytes(build, addrs, groups, requested)
    {
      hide FillFrom, SizePass, Short, InBuffer;
      var size := MeasureAssign();
      pkt := new byte[size](_ => 0);
      Blank(pkt[..]);
      var at := Lay(pkt, 0, Short(size), []);
      at := Lay(pkt, at, Short(42), [] + Short(size));
      at := Lay(pkt, at, Short(|requested|), [] + Short(size) + Short(42));
      ghost var head := Short(size) + Short(42) + Short(|requested|);
      assert [] + Short(size) + Short(42) + Short(|requested|) == head;
      FillAll(pkt, at, head);
    }

    method FillAll(pkt: array<byte>, from: nat, ghost head: seq<byte>)
      requires |head| == from && pkt[..] == InBuffer(head, pkt.Length)
      modifies pkt
      ensures pkt[..] == InBuffer(head + FillFrom(build, addrs, groups, requested, 0), pkt.Length)
    {
      hide Chunk, InBuffer;
      ghost var all := FillFrom(build, addrs, groups, requested, 0);
      var at := from;
      ghost var done := [];
      assert head + done == head;
      for i := 0 to |requested|
        invariant at == |head + done| && done + FillFrom(build, addrs, groups, requested, i) == all
        invariant pkt[..] == InBuffer(head + done, pkt.Length)
      {
        ghost var c := Chunk(build, addrs, groups, requested[i], i);
        assert done + (c + FillFrom(build, addrs, groups, requested, i + 1)) == done + c + FillFrom(build, addrs, groups, requested, i + 1);
        assert head + (done + c) == head + done + c;
        at := FillOne(pkt, at, i, head + done);
        done := done + c;
      }
      assert done == all;
    }

    /** One request: its name, size and neighbour count, then the neighbours. */
    method FillOne(pkt: array<byte>, from: nat, i: nat, ghost laid: seq<byte>) returns (at: nat)
      requires i < |requested| && |laid| == from && pkt[..] == InBuffer(laid, pkt.Length)
      modifies pkt
      ensures at == |laid + Chunk(build, addrs, groups, requested[i], i)|
      ensures pkt[..] == InBuffer(laid + Chunk(build, addrs, groups, requested[i], i), pkt.Length)
    {
      hide InBuffer, Head, Tracker.SharersOf, Tracker.GroupFor, Peers, Picked;
      var size, count, sharing := 0, 0, {};
      NobodySharing(addrs);
      if groups != [] {
        var g, matches := PickGroup(requested[i], i);
        sharing := g.sharing;
        if matches {
          size := g.size;
          for k := 0 to MAX_CLIENTS
            invariant count == Count(sharing, k) && pkt[..] == old(pkt[..])
          {
            if k in sharing { count := count + 1; }
          }
        }
      }
      ghost var h, p := Head(requested[i], size, count), Peers(Tracker.SharersOf(addrs, sharing, MAX_CLIENTS));
      assert Chunk(build, addrs, groups, requested[i], i) == h + p;
      at := FillHead(pkt, from, requested[i], size, count, laid);
      at := FillRecords(pkt, at, sharing, laid + h);
      assert laid + h + p == laid + (h + p);
    }

    /** The group the loop over j leaves off with, and whether it is the one looked for. */
    method PickGroup(name: Name, i: nat) returns (g: Tracker.Group, matches: bool)
      requires groups != []
      ensures (g, matches) == Picked(build, groups, name, i)
    {
      matches := false;
      g := groups[0];
      var j := 0;
      while j < |groups|
        invariant j <= |groups| && !matches
        invariant build.Mended? ==> forall k :: 0 <= k < j ==> groups[k].name != name
        invariant j > 0 ==> g == if build.Shipped? then GroupAt(groups, i) else groups[j - 1]
        invariant build.Shipped? && j > 0 ==> GroupAt(groups, i).name != name
      {
        g := if build.Shipped? then GroupAt(groups, i) else groups[j];
        if g.name == name {
          matches := true;
          assert build.Mended? ==> j == Tracker.GroupFor(groups, name);
          return;
        }
        j := j + 1;
      }
    }

    method FindTracked(name: Name) returns (j: nat)
      ensures j == Tracker.GroupFor(groups, name)
    {
      j := 0;
      while j < |groups|
        invariant j <= |groups|
        invariant forall k :: 0 <= k < j ==> groups[k].name != name
      {
        if groups[j].name == name { break; }
        j := j + 1;
      }
    }

    method FindAddress(id: int) returns (k: nat)
      ensures k == Client.IndexOfId(addrs, id)
    {
      k := 0;
      while k < |addrs|
        invariant k <= |addrs|
        invariant forall l :: 0 <= l < k ==> addrs[l].id != id
      {
        if addrs[k].id == id { break; }
        k := k + 1;
      }
    }

    /** The id, address and port of each sharer. */
    method FillRecords(pkt: array<byte>, from: nat, sharing: set<int>, ghost laid: seq<byte>) returns (at: nat)
      requires |laid| == from && pkt[..] == InBuffer(laid, pkt.Length)
      modifies pkt
      ensures at == |laid + Peers(Tracker.SharersOf(addrs, sharing, MAX_CLIENTS))|
      ensures pkt[..] == InBuffer(laid + Peers(Tracker.SharersOf(addrs, sharing, MAX_CLIENTS)), pkt.Length)
    {
      hide InBuffer, Peers, Short, Tracker.SharersOf, Client.IndexOfId;
      at := from;
      NoSharers(addrs, sharing);
      assert laid + [] == laid;
      ghost var records := [];
      for j := 0 to MAX_CLIENTS
        invariant records == Peers(Tracker.SharersOf(addrs, sharing, j)) && at == |laid + records|
        invariant pkt[..] == InBuffer(laid + records, pkt.Length)
      {
        NextSharer(addrs, sharing, j);
        if j in sharing {
          var k := FindAddress(j);
          if k < |addrs| {
            RecordAppended(Tracker.SharersOf(addrs, sharing, j), Peer(j, addrs[k].port));
            ghost var r := Short(j) + IP_FIELD + Short(addrs[k].port);
            assert laid + records + r == laid + (records + r);
            at := FillRecord(pkt, at, j, addrs[k].port, laid + records);
            records := records + r;
          }
        }
      }
    }
  }

  /** memcpy and advance: `laid` is all that was written before, and what does not fit is lost. */
  method Lay(pkt: array<byte>, at: nat, b: seq<byte>, ghost laid: seq<byte>) returns (next: nat)
    requires |laid| == at && pkt[..] == InBuffer(laid, pkt.Length)
    modifies pkt
    ensures next == |laid + b| && pkt[..] == InBuffer(laid + b, pkt.Length)
  {
    ghost var was := pkt[..];
    for i := 0 to |b|
      invariant forall k :: 0 <= k < pkt.Length ==> pkt[k] == if at <= k < at + i then b[k - at] else was[k]
    {
      if at + i < pkt.Length { pkt[at + i] := b[i]; }
    }
    next := at + |b|;
    LaidOn(laid, b, was, pkt[..]);
  }

  lemma {:induction false} LaidOn(laid: seq<byte>, b: seq<byte>, was: seq<byte>, now: seq<byte>)
    requires |was| == |now| && was == InBuffer(laid, |was|)
    requires forall k :: 0 <= k < |now| ==> now[k] == if |laid| <= k < |laid| + |b| then b[k - |laid|] else was[k]
    ensures now == InBuffer(laid + b, |now|)
  {
  }

  lemma {:induction false} Blank(mem: seq<byte>)
    requires forall i :: 0 <= i < |mem| ==> mem[i] == 0
    ensures mem == InBuffer([], |mem|)
  {
  }

  lemma {:induction false} NobodySharing(addrs: seq<Peer>)
    ensures Peers(Tracker.SharersOf(addrs, {}, MAX_CLIENTS)) == []
  {
    SharersAreCounted(addrs, {}, MAX_CLIENTS);
    NobodyCounts(MAX_CLIENTS);
  }

  lemma {:induction false} NobodyCounts(n: nat)
    ensures Count({}, n) == 0
  {
    if n > 0 { NobodyCounts(n - 1); }
  }

  method FillHead(pkt: array<byte>, from: nat, name: Name, size: nat, count: nat, ghost laid: seq<byte>) returns (at: nat)
    requires |laid| == from && pkt[..] == InBuffer(laid, pkt.Length)
    modifies pkt
    ensures at == |laid + Head(name, size, count)| && pkt[..] == InBuffer(laid + Head(name, size, count), pkt.Length)
  {
    hide InBuffer, Pad, Size, Short;
    at := Lay(pkt, from, Pad(name), laid);
    at := Lay(pkt, at, Size(size), laid + Pad(name));
    at := Lay(pkt, at, Short(count), laid + Pad(name) + Size(size));
    assert laid + Pad(name) + Size(size) + Short(count) == laid + Head(name, size, count);
  }

  method FillRecord(pkt: array<byte>, from: nat, id: int, port: int, ghost laid: seq<byte>) returns (at: nat)
    requires |laid| == from && pkt[..] == InBuffer(laid, pkt.Length)
    modifies pkt
    ensures at == |laid + (Short(id) + IP_FIELD + Short(port))|
    ensures pkt[..] == InBuffer(laid + (Short(id) + IP_FIELD + Short(port)), pkt.Length)
  {
    hide InBuffer, Short;
    at := Lay(pkt, from, Short(id), laid);
    at := Lay(pkt, at, IP_FIELD, laid + Short(id));
    at := Lay(pkt, at, Short(port), laid + Short(id) + IP_FIELD);
    assert laid + Short(id) + IP_FIELD + Short(port) == laid + (Short(id) + IP_FIELD + Short(port));
  }

  lemma {:induction false} RecordAppended(peers: seq<Peer>, p: Peer)
    ensures Peers(peers + [p]) == Peers(peers) + (Short(p.id) + IP_FIELD + Short(p.port))
    decreases peers
  {
    if peers == [] {
      assert peers + [p] == [p];
      assert Peers([p]) == Short(p.id) + IP_FIELD + Short(p.port) + Peers([]);
    } else {
      assert (peers + [p])[1..] == peers[1..] + [p];
      RecordAppended(peers[1..], p);
    }
  }

  lemma {:induction false} InterestStands(pkt: seq<byte>)
    requires ReadInterest(pkt).Some?
    ensures var m := ReadInterest(pkt).value;
      && |pkt| >= 8 && m.ShowInterest? && m.cid == ShortAt(pkt, 4) && |m.items| == Max(0, ShortAt(pkt, 6))
      && forall k :: 0 <= k < |m.items| ==> 8 + 39 * k + 39 <= |pkt| && m.items[k] == ItemAt(pkt, k)
  {
    ItemsStand(pkt, 0, Max(0, ShortAt(pkt, 6)));
  }

  lemma {:induction false} NoneNoted(groups: seq<Tracker.Group>, id: int, items: seq<Item>)
    ensures Tracker.NoteItems(groups, id, items[..0]) == groups && NamesOf(items[..0]) == []
  {
  }

  lemma {:induction false} NextNoted(groups: seq<Tracker.Group>, id: int, items: seq<Item>, i: nat)
    requires i < |items|
    ensures Tracker.NoteItems(groups, id, items[..i + 1]) ==
      Tracker.NoteItem(Tracker.NoteItems(groups, id, items[..i]), id, items[i])
    ensures NamesOf(items[..i + 1]) == NamesOf(items[..i]) + [items[i].name]
  {
    assert items[..i + 1][..i] == items[..i];
  }

  lemma {:induction false} Noted(t: Tracker.State, m: Msg, port: int)
    requires m.ShowInterest?
    ensures Tracker.OnInterest(t, m.cid, m.items, port).0 ==
      t.(addrs := Client.LearnPeer(t.addrs, Peer(m.cid, port)), groups := Tracker.NoteItems(t.groups, m.cid, m.items))
  {
  }

  lemma {:induction false} NoSharers(addrs: seq<Peer>, sharing: set<int>)
    ensures Peers(Tracker.SharersOf(addrs, sharing, 0)) == []
  {
  }

  lemma {:induction false} NextSharer(addrs: seq<Peer>, sharing: set<int>, j: nat)
    ensures var i := Client.IndexOfId(addrs, j);
      Tracker.SharersOf(addrs, sharing, j + 1) ==
        if j in sharing && i < |addrs| then Tracker.SharersOf(addrs, sharing, j) + [Peer(j, addrs[i].port)]
        else Tracker.SharersOf(addrs, sharing, j)
  {
  }
}
