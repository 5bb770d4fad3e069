/** The two passes of createGroupAssignPkt: one counts the bytes, the other writes them. */
module TrackerPacket {
  import opened Basics
  import opened Wire
  import Client
  import Tracker

  /** The number of sharing clients below n. */
  function Count(sharing: set<int>, n: nat): (r: nat)
    ensures r <= n
  {
    if n == 0 then 0 else Count(sharing, n - 1) + if n - 1 in sharing then 1 else 0
  }

  // ---------- the size pass ----------

  const HEADER := 6
  const FIXED := 39
  const RECORD := 20

  function SizeOf(groups: seq<Tracker.Group>, name: Name): nat {
    var k := Tracker.GroupFor(groups, name);
    FIXED + if k < |groups| then RECORD * Count(groups[k].sharing, MAX_CLIENTS) else 0
  }

  /** The bytes counted for the first n requests. */
  function SizePass(groups: seq<Tracker.Group>, names: seq<Name>, n: nat): nat
    requires n <= |names|
  {
    if n == 0 then 0 else SizePass(groups, names, n - 1) + SizeOf(groups, names[n - 1])
  }

  /** For every database the C arrays can hold the size fits an int16_t. */
  lemma {:induction false} SizeFitsInt16(groups: seq<Tracker.Group>, names: seq<Name>, n: nat)
    requires n <= |names| <= MAX_FILES
    ensures HEADER + SizePass(groups, names, n) <= HEADER + n * 539 < 32768
  {
    if n > 0 { SizeFitsInt16(groups, names, n - 1); }
  }

  // ---------- the fill pass ----------

  /** st_groups[i]; behind the last group the array is zero. */
  function GroupAt(groups: seq<Tracker.Group>, i: nat): Tracker.Group {
    if i < |groups| then groups[i] else Tracker.Group([], {}, {}, 0)
  }

  /** The group the fill pass ends up with for request i, and whether the names match. The
      shipped loop looks at st_groups[i] whatever its loop variable says. */
  function Picked(build: Build, groups: seq<Tracker.Group>, name: Name, i: nat): (Tracker.Group, bool)
    requires groups != []
  {
    if build.Shipped? then (GroupAt(groups, i), GroupAt(groups, i).name == name)
    else
      var k := Tracker.GroupFor(groups, name);
      if k < |groups| then (groups[k], true) else (groups[|groups| - 1], false)
  }

  /** Name, size and neighbour count. */
  function Head(name: Name, size: nat, count: nat): (b: seq<byte>)
    ensures |b| == FIXED
  {
    Pad(name) + Size(size) + Short(count)
  }

  /** What is written for request i: the neighbours are those of the picked group, matching or
      not. */
  function Chunk(build: Build, addrs: seq<Peer>, groups: seq<Tracker.Group>, name: Name, i: nat): seq<byte> {
    if groups == [] then Head(name, 0, 0) else
      var (g, matches) := Picked(build, groups, name, i);
      Head(name, if matches then g.size else 0, if matches then Count(g.sharing, MAX_CLIENTS) else 0)
        + Peers(Tracker.SharersOf(addrs, g.sharing, MAX_CLIENTS))
  }

  /** What is written for the requests from i on. */
  function FillFrom(build: Build, addrs: seq<Peer>, groups: seq<Tracker.Group>, names: seq<Name>, i: nat): seq<byte>
    requires i <= |names|
    decreases |names| - i
  {
    if i == |names| then []
    else Chunk(build, addrs, groups, names[i], i) + FillFrom(build, addrs, groups, names, i + 1)
  }

  /** What a buffer of n zero bytes shows after b was written to it; what falls behind its end
      is not sent. */
  function InBuffer(b: seq<byte>, n: nat): (r: seq<byte>)
    ensures |r| == n
  {
    if |b| >= n then b[..n] else b + Zeros(n - |b|)
  }

  /** The packet as it is sent. */
  function AssignBytes(build: Build, addrs: seq<Peer>, groups: seq<Tracker.Group>, names: seq<Name>): seq<byte> {
    var size := SizePass(groups, names, |names|);
    InBuffer(Short(HEADER + size) + Short(42) + Short(|names|) + FillFrom(build, addrs, groups, names, 0), HEADER + size)
  }

  // ---------- the two passes agree ----------

  /** Every requested name and every sharer's address is on file. */
  ghost predicate Recorded(addrs: seq<Peer>, groups: seq<Tracker.Group>, names: seq<Name>) {
    && (forall i :: 0 <= i < |names| ==> IsName(names[i]) && Tracker.GroupFor(groups, names[i]) < |groups|)
    && (forall i, j {:trigger j in groups[i].sharing} :: 0 <= i < |groups| && j in groups[i].sharing ==>
         0 <= j < MAX_CLIENTS && Client.IndexOfId(addrs, j) < |addrs|)
  }

  lemma {:induction false} SharersAreCounted(addrs: seq<Peer>, sharing: set<int>, n: nat)
    requires forall j <- sharing :: Client.IndexOfId(addrs, j) < |addrs|
    ensures |Tracker.SharersOf(addrs, sharing, n)| == Count(sharing, n)
  {
    if n > 0 { SharersAreCounted(addrs, sharing, n - 1); }
  }

  lemma {:induction false} ChunkIsEntry(addrs: seq<Peer>, groups: seq<Tracker.Group>, names: seq<Name>, i: nat)
    requires Recorded(addrs, groups, names) && i < |names|
    ensures Chunk(Mended, addrs, groups, names[i], i) == Entry(Tracker.Assignment(addrs, groups, names[i]))
    ensures |Chunk(Mended, addrs, groups, names[i], i)| == SizeOf(groups, names[i])
  {
    var g := groups[Tracker.GroupFor(groups, names[i])];
    SharersAreCounted(addrs, g.sharing, MAX_CLIENTS);
  }

  function Files(addrs: seq<Peer>, groups: seq<Tracker.Group>, names: seq<Name>, i: nat): (files: seq<FileEntry>)
    requires i <= |names|
    decreases |names| - i
  {
    if i == |names| then []
    else [Tracker.Assignment(addrs, groups, names[i])] + Files(addrs, groups, names, i + 1)
  }

  lemma {:induction false} FillIsEntries(addrs: seq<Peer>, groups: seq<Tracker.Group>, names: seq<Name>, i: nat)
    requires Recorded(addrs, groups, names) && i <= |names|
    ensures FillFrom(Mended, addrs, groups, names, i) == Entries(Files(addrs, groups, names, i))
    ensures |FillFrom(Mended, addrs, groups, names, i)| + SizePass(groups, names, i) == SizePass(groups, names, |names|)
    decreases |names| - i
  {
    hide Entry, Chunk, SizeOf, Recorded, Tracker.Assignment;
    if i < |names| {
      ChunkIsEntry(addrs, groups, names, i);
      FillIsEntries(addrs, groups, names, i + 1);
      assert Files(addrs, groups, names, i)[1..] == Files(addrs, groups, names, i + 1);
    }
  }

  lemma {:induction false} FilesFrom(addrs: seq<Peer>, groups: seq<Tracker.Group>, names: seq<Name>, i: nat)
    requires i <= |names|
    ensures |Files(addrs, groups, names, i)| == |names| - i
    decreases |names| - i
  {
    if i < |names| { FilesFrom(addrs, groups, names, i + 1); }
  }

  /** The fill pass writes exactly the bytes the size pass counted, and they are the message. */
  lemma {:induction false} TwoPassesAgree(addrs: seq<Peer>, groups: seq<Tracker.Group>, names: seq<Name>)
    requires Recorded(addrs, groups, names) && |names| <= MAX_FILES
    ensures var fill, size := FillFrom(Mended, addrs, groups, names, 0), SizePass(groups, names, |names|);
      && |fill| == size
      && Short(HEADER + size) + Short(42) + Short(|names|) + fill == Image(GroupAssign(Files(addrs, groups, names, 0)))
      && InShort(HEADER + size)
  {
    hide Entries, FillFrom, SizePass, Files, Short, Recorded;
    FillIsEntries(addrs, groups, names, 0);
    SizeFitsInt16(groups, names, |names|);
    FilesFrom(addrs, groups, names, 0);
    NothingCounted(groups, names);
  }

  lemma {:induction false} NothingCounted(groups: seq<Tracker.Group>, names: seq<Name>)
    ensures SizePass(groups, names, 0) == 0
  {
  }

  /** These are the files the tracker's answer lists. */
  lemma {:induction false} FilesAreAssignments(addrs: seq<Peer>, groups: seq<Tracker.Group>, items: seq<Item>, names: seq<Name>, i: nat)
    requires |names| == |items| && (forall k :: 0 <= k < |items| ==> names[k] == items[k].name) && i <= |names|
    ensures Files(addrs, groups, names, i) == Tracker.Assignments(addrs, groups, items)[i..]
    decreases |names| - i
  {
    hide Tracker.Assignment;
    if i < |names| {
      FilesAreAssignments(addrs, groups, items, names, i + 1);
      var all := Tracker.Assignments(addrs, groups, items);
      assert all[i..] == [all[i]] + all[i + 1..];
    }
  }

  // ---------- the shipped index ----------

  /** Looking at st_groups[i] does no harm to request i: it is the right group, or the right
      group has nothing to tell and no neighbours of the wrong one get in the way. */
  ghost predicate Harmless(addrs: seq<Peer>, groups: seq<Tracker.Group>, names: seq<Name>, i: nat)
    requires i < |names| && Tracker.GroupFor(groups, names[i]) < |groups|
  {
    var right := groups[Tracker.GroupFor(groups, names[i])];
    || GroupAt(groups, i).name == names[i]
    || (&& right.size % 65536 == 0 && Count(right.sharing, MAX_CLIENTS) == 0
        && (i == |names| - 1 || Tracker.SharersOf(addrs, GroupAt(groups, i).sharing, MAX_CLIENTS) == []))
  }

  /** What the client is sent for the requests from i on, next to what it should be sent. */
  ghost predicate SameFrom(addrs: seq<Peer>, groups: seq<Tracker.Group>, names: seq<Name>, i: nat)
    requires i <= |names|
  {
    var right := FillFrom(Mended, addrs, groups, names, i);
    InBuffer(FillFrom(Shipped, addrs, groups, names, i), |right|) == right
  }

  lemma {:induction false} InBufferAppend(a: seq<byte>, b: seq<byte>, n: nat)
    ensures InBuffer(a + b, |a| + n) == a + InBuffer(b, n)
  {
  }

  /** Both fill passes write the same head, then differ at most in what follows. */
  lemma {:induction false} SameHead(h: seq<byte>, a: seq<byte>, b: seq<byte>)
    ensures InBuffer(h + a, |h + b|) == h + b <==> InBuffer(a, |b|) == b
  {
    InBufferAppend(h, a, |b|);
    if InBuffer(h + a, |h + b|) == h + b {
      assert (h + InBuffer(a, |b|))[|h|..] == (h + b)[|h|..];
    }
  }

  lemma {:induction false} DifferentHead(h: seq<byte>, h': seq<byte>, a: seq<byte>, b: seq<byte>)
    requires |h| == |h'| && h != h'
    ensures InBuffer(h + a, |h' + b|) != h' + b
  {
    InBufferAppend(h, a, |b|);
    assert (h + InBuffer(a, |b|))[..|h|] == h && (h' + b)[..|h|] == h';
  }

  lemma {:induction false} HeadsDiffer(name: Name, size: nat, count: nat)
    requires count <= MAX_CLIENTS
    ensures Head(name, 0, 0) == Head(name, size, count) <==> size % 65536 == 0 && count == 0
  {
    var z, h := Head(name, 0, 0), Head(name, size, count);
    assert h[33] == Short(size)[0] && h[34] == Short(size)[1] && h[37] == Short(count)[0] && h[38] == Short(count)[1];
    assert z[33] == z[34] == z[37] == z[38] == 0;
    HighAndLow(size);
    HighAndLow(count);
    if size % 65536 == 0 && count == 0 {
      assert Short(size) == Short(0);
    }
  }

  /** Request i, if st_groups[i] is another group. */
  lemma {:induction false} WrongGroup(addrs: seq<Peer>, groups: seq<Tracker.Group>, names: seq<Name>, i: nat)
    requires Recorded(addrs, groups, names) && i < |names| && GroupAt(groups, i).name != names[i]
    ensures var right := groups[Tracker.GroupFor(groups, names[i])];
      var count := Count(right.sharing, MAX_CLIENTS);
      && Chunk(Shipped, addrs, groups, names[i], i) ==
           Head(names[i], 0, 0) + Peers(Tracker.SharersOf(addrs, GroupAt(groups, i).sharing, MAX_CLIENTS))
      && Chunk(Mended, addrs, groups, names[i], i) ==
           Head(names[i], right.size, count) + Peers(Tracker.SharersOf(addrs, right.sharing, MAX_CLIENTS))
      && |Tracker.SharersOf(addrs, right.sharing, MAX_CLIENTS)| == count
  {
    SharersAreCounted(addrs, groups[Tracker.GroupFor(groups, names[i])].sharing, MAX_CLIENTS);
  }

  lemma {:induction false} RightGroup(addrs: seq<Peer>, groups: seq<Tracker.Group>, names: seq<Name>, i: nat)
    requires Recorded(addrs, groups, names) && Tracker.Distinct(groups) && i < |names| && GroupAt(groups, i).name == names[i]
    ensures Chunk(Shipped, addrs, groups, names[i], i) == Chunk(Mended, addrs, groups, names[i], i)
  {
    assert i < |groups|;
    assert Tracker.GroupFor(groups, names[i]) == i;
  }

  /** A neighbour record starts with the zero high byte of an id, a file entry with the first
      letter of a name. */
  lemma {:induction false} RecordIsNoEntry(addrs: seq<Peer>, groups: seq<Tracker.Group>, names: seq<Name>, i: nat, peers: seq<Peer>, a: seq<byte>)
    requires Recorded(addrs, groups, names) && i < |names|
    requires peers != [] && 0 <= peers[0].id < MAX_CLIENTS
    ensures InBuffer(Peers(peers) + a, |FillFrom(Mended, addrs, groups, names, i)|) != FillFrom(Mended, addrs, groups, names, i)
  {
    var right := FillFrom(Mended, addrs, groups, names, i);
    ChunkIsEntry(addrs, groups, names, i);
    assert right[0] == Pad(names[i])[0] == names[i][0] != 0;
    assert (Peers(peers) + a)[0] == Short(peers[0].id)[0] == 0;
    assert InBuffer(Peers(peers) + a, |right|)[0] == 0;
  }

  lemma {:induction false} SharersHaveIds(addrs: seq<Peer>, sharing: set<int>, n: nat)
    ensures forall p <- Tracker.SharersOf(addrs, sharing, n) :: 0 <= p.id < n
  {
    if n > 0 { SharersHaveIds(addrs, sharing, n - 1); }
  }

  lemma {:induction false} SplitSame(h: seq<byte>, h': seq<byte>, w: seq<byte>, p: seq<byte>, a: seq<byte>, b: seq<byte>)
    requires |h| == |h'|
    ensures InBuffer(h + w + a, |h' + p + b|) == h' + p + b <==> h == h' && InBuffer(w + a, |p + b|) == p + b
  {
    hide InBuffer;
    assert h + w + a == h + (w + a) && h' + p + b == h' + (p + b);
    if h == h' { SameHead(h, w + a, p + b); } else { DifferentHead(h, h', w + a, p + b); }
  }

  /** Neighbours of the wrong group fit only if there are none, or nothing follows. */
  lemma {:induction false} WrongNeighbors(addrs: seq<Peer>, groups: seq<Tracker.Group>, names: seq<Name>, i: nat)
    requires Recorded(addrs, groups, names) && i < |names|
    ensures var wrong := Tracker.SharersOf(addrs, GroupAt(groups, i).sharing, MAX_CLIENTS);
      var a, b := FillFrom(Shipped, addrs, groups, names, i + 1), FillFrom(Mended, addrs, groups, names, i + 1);
      InBuffer(Peers(wrong) + a, |b|) == b <==>
        (wrong == [] || i == |names| - 1) && SameFrom(addrs, groups, names, i + 1)
  {
    hide InBuffer, Tracker.SharersOf;
    var wrong := Tracker.SharersOf(addrs, GroupAt(groups, i).sharing, MAX_CLIENTS);
    var a := FillFrom(Shipped, addrs, groups, names, i + 1);
    if wrong == [] {
      assert Peers(wrong) + a == a;
    } else if i + 1 < |names| {
      SharersHaveIds(addrs, GroupAt(groups, i).sharing, MAX_CLIENTS);
      RecordIsNoEntry(addrs, groups, names, i + 1, wrong, a);
    }
  }

  lemma {:induction false} WrongGroupSame(addrs: seq<Peer>, groups: seq<Tracker.Group>, names: seq<Name>, i: nat)
    requires Recorded(addrs, groups, names) && i < |names| && GroupAt(groups, i).name != names[i]
    ensures SameFrom(addrs, groups, names, i) <==> Harmless(addrs, groups, names, i) && SameFrom(addrs, groups, names, i + 1)
  {
    hide Chunk, Head, InBuffer, Tracker.SharersOf, Count, Peers;
    var right := groups[Tracker.GroupFor(groups, names[i])];
    var count := Count(right.sharing, MAX_CLIENTS);
    var wrong := Tracker.SharersOf(addrs, GroupAt(groups, i).sharing, MAX_CLIENTS);
    var h, h' := Head(names[i], 0, 0), Head(names[i], right.size, count);
    var p := Peers(Tracker.SharersOf(addrs, right.sharing, MAX_CLIENTS));
    var a, b := FillFrom(Shipped, addrs, groups, names, i + 1), FillFrom(Mended, addrs, groups, names, i + 1);
    WrongGroup(addrs, groups, names, i);
    assert FillFrom(Shipped, addrs, groups, names, i) == h + Peers(wrong) + a;
    assert FillFrom(Mended, addrs, groups, names, i) == h' + p + b;
    SplitSame(h, h', Peers(wrong), p, a, b);
    HeadsDiffer(names[i], right.size, count);
    if h == h' {
      assert p + b == b;
      WrongNeighbors(addrs, groups, names, i);
    }
  }

  lemma {:induction false} SameIffHarmless(addrs: seq<Peer>, groups: seq<Tracker.Group>, names: seq<Name>, i: nat)
    requires Recorded(addrs, groups, names) && Tracker.Distinct(groups) && i <= |names|
    ensures SameFrom(addrs, groups, names, i) <==> forall k :: i <= k < |names| ==> Harmless(addrs, groups, names, k)
    decreases |names| - i
  {
    hide SameFrom, Harmless;
    if i == |names| {
      NothingLeft(addrs, groups, names);
    } else {
      SameIffHarmless(addrs, groups, names, i + 1);
      if GroupAt(groups, i).name == names[i] {
        RightGroupSame(addrs, groups, names, i);
      } else {
        WrongGroupSame(addrs, groups, names, i);
      }
    }
  }

  lemma {:induction false} NothingLeft(addrs: seq<Peer>, groups: seq<Tracker.Group>, names: seq<Name>)
    ensures SameFrom(addrs, groups, names, |names|)
  {
  }

  lemma {:induction false} RightGroupSame(addrs: seq<Peer>, groups: seq<Tracker.Group>, names: seq<Name>, i: nat)
    requires Recorded(addrs, groups, names) && Tracker.Distinct(groups) && i < |names| && GroupAt(groups, i).name == names[i]
    ensures Harmless(addrs, groups, names, i) && (SameFrom(addrs, groups, names, i) <==> SameFrom(addrs, groups, names, i + 1))
  {
    RightGroup(addrs, groups, names, i);
    SameHead(Chunk(Mended, addrs, groups, names[i], i),
             FillFrom(Shipped, addrs, groups, names, i + 1), FillFrom(Mended, addrs, groups, names, i + 1));
  }

  /** The GROUP_ASSIGN the shipped tracker sends is the one it should send exactly when no
      request meets a wrong group that matters. */
  lemma {:induction false} ShippedPacketIsRightIff(addrs: seq<Peer>, groups: seq<Tracker.Group>, names: seq<Name>)
    requires Recorded(addrs, groups, names) && Tracker.Distinct(groups)
    ensures InBuffer(FillFrom(Shipped, addrs, groups, names, 0), SizePass(groups, names, |names|)) ==
              Entries(Files(addrs, groups, names, 0)) <==>
            forall k :: 0 <= k < |names| ==> Harmless(addrs, groups, names, k)
  {
    FillIsEntries(addrs, groups, names, 0);
    SameIffHarmless(addrs, groups, names, 0);
  }

  /** If what is written behind the header is right, the packet is the message's image. */
  lemma {:induction false} RightBytes(build: Build, addrs: seq<Peer>, groups: seq<Tracker.Group>, names: seq<Name>)
    requires Recorded(addrs, groups, names) && |names| <= MAX_FILES
    requires build.Shipped? ==>
      InBuffer(FillFrom(Shipped, addrs, groups, names, 0), SizePass(groups, names, |names|)) == Entries(Files(addrs, groups, names, 0))
    ensures AssignBytes(build, addrs, groups, names) == Image(GroupAssign(Files(addrs, groups, names, 0)))
  {
    hide Recorded, SizePass, Files, Short, Entries, FillFrom;
    TwoPassesAgree(addrs, groups, names);
    FillIsEntries(addrs, groups, names, 0);
    FilesFrom(addrs, groups, names, 0);
    NothingCounted(groups, names);
    var size := SizePass(groups, names, |names|);
    InBufferAppend(Short(HEADER + size) + Short(42) + Short(|names|), FillFrom(build, addrs, groups, names, 0), size);
  }
}
