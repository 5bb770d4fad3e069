/** The packet formats: what the writers of Client.c and Tracker.c put on the wire and what
    the readers at the other end take off it, field by field and at the same offsets. */
module Wire {
  import opened Basics

  /** As the sources stand, or with the evident meaning of five defects: the last segment's size,
      the sizes of a re-registered download and its name without a terminating zero, the length of
      a CLNT_SEG_REP, and the interest type that is never initialised; and of the index in
      createGroupAssignPkt. */
  datatype Build = Shipped | Mended

  datatype Item = Item(name: Name, size: nat, kind: int)
  datatype Peer = Peer(id: int, port: int)
  datatype FileEntry = FileEntry(name: Name, size: nat, peers: seq<Peer>)

  datatype Msg =
    | ShowInterest(cid: int, items: seq<Item>)
    | GroupAssign(files: seq<FileEntry>)
    | InfoReq(cid: int, name: Name)
    | InfoRep(cid: int, name: Name, segs: seq<int>)
    | SegReq(cid: int, name: Name, seg: int)
    | SegRep(cid: int, name: Name, seg: int, size: int, data: seq<byte>)

  // ---------- fields ----------

  function Short(v: int): (b: seq<byte>)
    ensures |b| == 2
  {
    [(v % 65536) / 256, v % 256]
  }

  /** A file size: a 32-bit slot that htons fills, so only sixteen bits of it carry the value. */
  function Size(v: nat): (b: seq<byte>)
    ensures |b| == 4
  {
    Short(v) + [0, 0]
  }

  /** A file name field: always MAX_FILENAME bytes, zero filled. */
  function Pad(n: Name): (b: seq<byte>)
    ensures |b| == MAX_FILENAME
  {
    if |n| <= MAX_FILENAME then n + Zeros(MAX_FILENAME - |n|) else n[..MAX_FILENAME]
  }

  const IP_FIELD: seq<byte> := Zeros(MAX_IP)

  function UShortAt(m: seq<byte>, at: nat): (v: int)
    requires at + 2 <= |m|
    ensures 0 <= v < 65536
  {
    m[at] as int * 256 + m[at + 1]
  }

  function ShortAt(m: seq<byte>, at: nat): (v: int)
    requires at + 2 <= |m|
    ensures -32768 <= v < 32768
  {
    Int16(UShortAt(m, at))
  }

  function SizeAt(m: seq<byte>, at: nat): (v: nat)
    requires at + 4 <= |m|
  {
    UShortAt(m, at)
  }

  /** The bytes before the first zero. */
  function CString(b: seq<byte>): (n: Name)
    ensures |n| <= |b| && 0 !in n
  {
    if b == [] || b[0] == 0 then [] else [b[0]] + CString(b[1..])
  }

  lemma {:induction false} CStringReads(n: Name, b: seq<byte>)
    requires 0 !in n && |n| < |b| && n <= b && b[|n|] == 0
    ensures CString(b) == n
  {
    if n != [] {
      assert n[1..] <= b[1..];
      CStringReads(n[1..], b[1..]);
      assert b[0] == n[0];
    }
  }

  /** A MAX_FILENAME field, read as the C string it starts with. */
  function NameAt(m: seq<byte>, at: nat): (n: Name)
    requires at + MAX_FILENAME <= |m|
    ensures |n| <= MAX_FILENAME && 0 !in n
  {
    CString(m[at..at + MAX_FILENAME])
  }

  /** The bytes b stand in m at offset at. */
  predicate Holds(m: seq<byte>, at: nat, b: seq<byte>) {
    at + |b| <= |m| && m[at..at + |b|] == b
  }

  lemma {:induction false} HoldsSplit(m: seq<byte>, at: nat, a: seq<byte>, b: seq<byte>)
    requires Holds(m, at, a + b)
    ensures Holds(m, at, a) && Holds(m, at + |a|, b)
  {
    var ab := a + b;
    assert ab == m[at..at + |ab|];
    assert a == ab[..|a|] == m[at..at + |a|];
    assert b == ab[|a|..] == m[at + |a|..at + |ab|];
  }

  lemma {:induction false} ShortReads(m: seq<byte>, at: nat, v: int)
    requires Holds(m, at, Short(v))
    ensures UShortAt(m, at) == v % 65536
    ensures -32768 <= v < 32768 ==> ShortAt(m, at) == v
  {
    var b := m[at..at + 2];
    assert b[0] == m[at] && b[1] == m[at + 1];
    HighAndLow(v);
  }

  lemma {:induction false} HighAndLow(v: int)
    ensures (v % 65536) / 256 * 256 + v % 256 == v % 65536
  {
    var u, q := v % 65536, v / 65536;
    assert v == 256 * (256 * q) + u;
    assert v % 256 == u % 256;
    assert u == u / 256 * 256 + u % 256;
  }

  lemma {:induction false} SizeReads(m: seq<byte>, at: nat, v: nat)
    requires Holds(m, at, Size(v))
    ensures SizeAt(m, at) == v % 65536
  {
    HoldsSplit(m, at, Short(v), [0, 0]);
    ShortReads(m, at, v);
  }

  lemma {:induction false} NameReads(m: seq<byte>, at: nat, n: Name)
    requires IsName(n) && Holds(m, at, Pad(n))
    ensures NameAt(m, at) == n
  {
    CStringReads(n, Pad(n));
  }

  // ---------- writers ----------

  function Items(items: seq<Item>): (b: seq<byte>)
    ensures |b| == 39 * |items|
  {
    if items == [] then [] else
      Pad(items[0].name) + Size(items[0].size) + Short(items[0].kind) + Items(items[1..])
  }

  function Peers(peers: seq<Peer>): (b: seq<byte>)
    ensures |b| == 20 * |peers|
  {
    if peers == [] then [] else
      Short(peers[0].id) + IP_FIELD + Short(peers[0].port) + Peers(peers[1..])
  }

  function Entry(f: FileEntry): seq<byte>
  {
    Pad(f.name) + Size(f.size) + Short(|f.peers|) + Peers(f.peers)
  }

  function Entries(files: seq<FileEntry>): seq<byte>
  {
    if files == [] then [] else Entry(files[0]) + Entries(files[1..])
  }

  function Shorts(segs: seq<int>): (b: seq<byte>)
    ensures |b| == 2 * |segs|
  {
    if segs == [] then [] else Short(segs[0]) + Shorts(segs[1..])
  }

  /** The whole packet a writer lays out in its buffer. */
  function Image(m: Msg): (b: seq<byte>)
    ensures m.SegRep? ==> |b| == 43 + |m.data|
  {
    match m
    case ShowInterest(cid, items) =>
      Short(8 + 39 * |items|) + Short(0) + Short(cid) + Short(|items|) + Items(items)
    case GroupAssign(files) =>
      Short(6 + |Entries(files)|) + Short(42) + Short(|files|) + Entries(files)
    case InfoReq(cid, name) =>
      Short(39) + Short(0) + Short(cid) + Pad(name)
    case InfoRep(cid, name, segs) =>
      Short(43 + 2 * |segs|) + Short(1) + Short(cid) + Pad(name) + Short(|segs|) + Shorts(segs)
    case SegReq(cid, name, seg) =>
      Short(41) + Short(2) + Short(cid) + Pad(name) + Short(seg)
    case SegRep(cid, name, seg, size, data) =>
      Short(39 + size) + Short(3) + Short(cid) + Pad(name) + Short(seg) + Short(size) + data
  }

  /** What sendto puts on the wire. The shipped CLNT_SEG_REP counts three of its five shorts. */
  function Sent(build: Build, m: Msg): (b: seq<byte>)
    ensures b <= Image(m)
  {
    if m.SegRep? && build.Shipped? && 0 <= 39 + m.size <= |Image(m)| then Image(m)[..39 + m.size] else Image(m)
  }

  // ---------- readers ----------

  function ReadItems(m: seq<byte>, at: nat, n: nat): Option<seq<Item>>
    decreases n
  {
    if n == 0 then Some([])
    else if at + 39 > |m| then None
    else match ReadItems(m, at + 39, n - 1)
      case None => None
      case Some(rest) => Some([Item(NameAt(m, at), SizeAt(m, at + 33), ShortAt(m, at + 37))] + rest)
  }

  function ReadPeers(m: seq<byte>, at: nat, n: nat): Option<seq<Peer>>
    decreases n
  {
    if n == 0 then Some([])
    else if at + 20 > |m| then None
    else match ReadPeers(m, at + 20, n - 1)
      case None => None
      case Some(rest) => Some([Peer(ShortAt(m, at), UShortAt(m, at + 18))] + rest)
  }

  function ReadEntry(m: seq<byte>, at: nat): Option<FileEntry> {
    if at + 39 > |m| then None
    else match ReadPeers(m, at + 39, Max(0, ShortAt(m, at + 37)))
      case None => None
      case Some(peers) => Some(FileEntry(NameAt(m, at), SizeAt(m, at + 33), peers))
  }

  function ReadEntries(m: seq<byte>, at: nat, n: nat): Option<seq<FileEntry>>
    decreases n
  {
    if n == 0 then Some([])
    else match ReadEntry(m, at)
      case None => None
      case Some(f) =>
        match ReadEntries(m, at + 39 + 20 * |f.peers|, n - 1)
        case None => None
        case Some(rest) => Some([f] + rest)
  }

  function ReadShorts(m: seq<byte>, at: nat, n: nat): Option<seq<int>>
    decreases n
  {
    if n == 0 then Some([])
    else if at + 2 > |m| then None
    else match ReadShorts(m, at + 2, n - 1)
      case None => None
      case Some(rest) => Some([ShortAt(m, at)] + rest)
  }

  /** handleGroupUpdateRequest's reading of a packet. */
  function ReadInterest(m: seq<byte>): Option<Msg> {
    if |m| < 8 then None
    else match ReadItems(m, 8, Max(0, ShortAt(m, 6)))
      case None => None
      case Some(items) => Some(ShowInterest(ShortAt(m, 4), items))
  }

  /** The client's dispatch on the message type, and its five readers. Memory behind the
      packet is readable, with arbitrary contents. */
  function ReadClient(m: seq<byte>): Option<Msg> {
    if |m| < 43 + 32768 then None
    else match ShortAt(m, 2)
      case 42 =>
        (match ReadEntries(m, 6, Max(0, ShortAt(m, 4)))
         case None => None
         case Some(files) => Some(GroupAssign(files)))
      case 0 => Some(InfoReq(ShortAt(m, 4), NameAt(m, 6)))
      case 1 =>
        (match ReadShorts(m, 41, Max(0, ShortAt(m, 39)))
         case None => None
         case Some(segs) => Some(InfoRep(ShortAt(m, 4), NameAt(m, 6), segs)))
      case 2 => Some(SegReq(ShortAt(m, 4), NameAt(m, 6), ShortAt(m, 39)))
      case 3 =>
        var size := ShortAt(m, 41);
        Some(SegRep(ShortAt(m, 4), NameAt(m, 6), ShortAt(m, 39), size, m[43..43 + Max(0, size)]))
      case _ => None
  }

  // ---------- round trips ----------

  predicate InShort(v: int) { -32768 <= v < 32768 }

  /** The values the fields of a message can hold. */
  predicate Fits(m: Msg) {
    && (!m.GroupAssign? ==> InShort(m.cid))
    && (!m.ShowInterest? && !m.GroupAssign? ==> IsName(m.name))
    && (m.ShowInterest? ==> |m.items| <= MAX_FILES && forall x <- m.items :: IsName(x.name) && InShort(x.kind))
    && (m.GroupAssign? ==> |m.files| <= MAX_FILES && forall f <- m.files :: EntryFits(f))
    && (m.InfoRep? ==> |m.segs| <= MAX_SEGMENTS && forall s <- m.segs :: InShort(s))
    && (m.SegReq? || m.SegRep? ==> InShort(m.seg))
    && (m.SegRep? ==> |m.data| == m.size <= SEGMENT_SIZE)
  }

  predicate EntryFits(f: FileEntry) {
    IsName(f.name) && |f.peers| <= MAX_CLIENTS && forall p <- f.peers :: PeerFits(p)
  }

  predicate PeerFits(p: Peer) {
    InShort(p.id) && 0 <= p.port < 65536
  }

  function LowItems(items: seq<Item>): (r: seq<Item>)
    ensures |r| == |items| && forall i :: 0 <= i < |r| ==> r[i] == items[i].(size := items[i].size % 65536)
  {
    if items == [] then [] else [items[0].(size := items[0].size % 65536)] + LowItems(items[1..])
  }

  function LowFiles(files: seq<FileEntry>): (r: seq<FileEntry>)
    ensures |r| == |files| && forall i :: 0 <= i < |r| ==> r[i] == files[i].(size := files[i].size % 65536)
  {
    if files == [] then [] else [files[0].(size := files[0].size % 65536)] + LowFiles(files[1..])
  }

  /** A message as its reader sees it: sizes survive modulo 65536, all else unchanged. */
  function Received(m: Msg): Msg {
    match m
    case ShowInterest(cid, items) => ShowInterest(cid, LowItems(items))
    case GroupAssign(files) => GroupAssign(LowFiles(files))
    case _ => m
  }

  lemma {:induction false} ItemsRead(m: seq<byte>, at: nat, items: seq<Item>)
    requires forall x <- items :: IsName(x.name) && InShort(x.kind)
    requires Holds(m, at, Items(items))
    ensures ReadItems(m, at, |items|) == Some(LowItems(items))
    decreases items
  {
    if items != [] {
      var x := items[0];
      HoldsSplit(m, at, Pad(x.name) + Size(x.size) + Short(x.kind), Items(items[1..]));
      HoldsSplit(m, at, Pad(x.name) + Size(x.size), Short(x.kind));
      HoldsSplit(m, at, Pad(x.name), Size(x.size));
      NameReads(m, at, x.name);
      SizeReads(m, at + 33, x.size);
      ShortReads(m, at + 37, x.kind);
      ItemsRead(m, at + 39, items[1..]);
    }
  }

  lemma {:induction false} PeersRead(m: seq<byte>, at: nat, peers: seq<Peer>)
    requires forall p <- peers :: PeerFits(p)
    requires Holds(m, at, Peers(peers))
    ensures ReadPeers(m, at, |peers|) == Some(peers)
    decreases peers
  {
    if peers == [] {
      assert [] == peers;
    } else {
      var p := peers[0];
      assert PeerFits(p) by { assert p in peers; }
      HoldsSplit(m, at, Short(p.id) + IP_FIELD + Short(p.port), Peers(peers[1..]));
      HoldsSplit(m, at, Short(p.id) + IP_FIELD, Short(p.port));
      HoldsSplit(m, at, Short(p.id), IP_FIELD);
      ShortReads(m, at, p.id);
      ShortReads(m, at + 18, p.port);
      PeersRead(m, at + 20, peers[1..]);
      assert peers == [p] + peers[1..];
    }
  }

  lemma {:induction false} EntryReads(m: seq<byte>, at: nat, f: FileEntry)
    requires EntryFits(f) && Holds(m, at, Entry(f))
    ensures ReadEntry(m, at) == Some(f.(size := f.size % 65536))
    ensures |Entry(f)| == 39 + 20 * |f.peers|
  {
    HoldsSplit(m, at, Pad(f.name) + Size(f.size) + Short(|f.peers|), Peers(f.peers));
    HoldsSplit(m, at, Pad(f.name) + Size(f.size), Short(|f.peers|));
    HoldsSplit(m, at, Pad(f.name), Size(f.size));
    NameReads(m, at, f.name);
    SizeReads(m, at + 33, f.size);
    ShortReads(m, at + 37, |f.peers|);
    PeersRead(m, at + 39, f.peers);
  }

  lemma {:induction false} ReadEntriesStep(m: seq<byte>, at: nat, n: nat, f: FileEntry, rest: seq<FileEntry>)
    requires ReadEntry(m, at) == Some(f)
    requires ReadEntries(m, at + 39 + 20 * |f.peers|, n) == Some(rest)
    ensures ReadEntries(m, at, n + 1) == Some([f] + rest)
  {
  }

  lemma {:induction false} EntriesSplit(m: seq<byte>, at: nat, files: seq<FileEntry>)
    requires files != [] && EntryFits(files[0])
    requires Holds(m, at, Entries(files))
    ensures ReadEntry(m, at) == Some(files[0].(size := files[0].size % 65536))
    ensures Holds(m, at + 39 + 20 * |files[0].peers|, Entries(files[1..]))
  {
    HoldsSplit(m, at, Entry(files[0]), Entries(files[1..]));
    EntryReads(m, at, files[0]);
  }

  lemma {:induction false} EntriesRead(m: seq<byte>, at: nat, files: seq<FileEntry>)
    requires forall f <- files :: EntryFits(f)
    requires Holds(m, at, Entries(files))
    ensures ReadEntries(m, at, |files|) == Some(LowFiles(files))
    decreases files
  {
    hide Entry, ReadEntry, EntryFits;
    if files != [] {
      assert EntryFits(files[0]) by { assert files[0] in files; }
      EntriesSplit(m, at, files);
      EntriesRead(m, at + 39 + 20 * |files[0].peers|, files[1..]);
      ReadEntriesStep(m, at, |files| - 1, files[0].(size := files[0].size % 65536), LowFiles(files[1..]));
    }
  }

  lemma {:induction false} ShortsRead(m: seq<byte>, at: nat, segs: seq<int>)
    requires forall s <- segs :: InShort(s)
    requires Holds(m, at, Shorts(segs))
    ensures ReadShorts(m, at, |segs|) == Some(segs)
    decreases segs
  {
    if segs == [] {
      assert [] == segs;
    } else {
      HoldsSplit(m, at, Short(segs[0]), Shorts(segs[1..]));
      assert InShort(segs[0]) by { assert segs[0] in segs; }
      ShortReads(m, at, segs[0]);
      ShortsRead(m, at + 2, segs[1..]);
      assert segs == [segs[0]] + segs[1..];
    }
  }

  lemma {:induction false} InterestRoundTrip(m: Msg, mem: seq<byte>)
    requires m.ShowInterest? && Fits(m) && Image(m) <= mem
    ensures ReadInterest(mem) == Some(Received(m))
  {
    var h0 := Short(8 + 39 * |m.items|);
    HoldsSplit(mem, 0, h0 + Short(0) + Short(m.cid) + Short(|m.items|), Items(m.items));
    HoldsSplit(mem, 0, h0 + Short(0) + Short(m.cid), Short(|m.items|));
    HoldsSplit(mem, 0, h0 + Short(0), Short(m.cid));
    ShortReads(mem, 4, m.cid);
    ShortReads(mem, 6, |m.items|);
    ItemsRead(mem, 8, m.items);
  }

  lemma {:induction false} AssignRoundTrip(files: seq<FileEntry>, mem: seq<byte>)
    requires Fits(GroupAssign(files)) && Image(GroupAssign(files)) <= mem && |mem| >= 43 + 32768
    ensures ReadClient(mem) == Some(GroupAssign(LowFiles(files)))
  {
    var h0 := Short(6 + |Entries(files)|);
    HoldsSplit(mem, 0, h0 + Short(42) + Short(|files|), Entries(files));
    HoldsSplit(mem, 0, h0 + Short(42), Short(|files|));
    HoldsSplit(mem, 0, h0, Short(42));
    ShortReads(mem, 2, 42);
    ShortReads(mem, 4, |files|);
    EntriesRead(mem, 6, files);
  }

  lemma {:induction false} HeaderReads(mem: seq<byte>, size: int, kind: int, cid: int)
    requires Holds(mem, 0, Short(size) + Short(kind) + Short(cid)) && InShort(cid) && InShort(kind)
    ensures ShortAt(mem, 2) == kind && ShortAt(mem, 4) == cid
  {
    HoldsSplit(mem, 0, Short(size) + Short(kind), Short(cid));
    HoldsSplit(mem, 0, Short(size), Short(kind));
    ShortReads(mem, 2, kind);
    ShortReads(mem, 4, cid);
  }

  lemma {:induction false} NamedHeaderReads(mem: seq<byte>, size: int, kind: int, cid: int, name: Name)
    requires Holds(mem, 0, Short(size) + Short(kind) + Short(cid) + Pad(name))
    requires InShort(cid) && InShort(kind) && IsName(name)
    ensures ShortAt(mem, 2) == kind && ShortAt(mem, 4) == cid && NameAt(mem, 6) == name
  {
    HoldsSplit(mem, 0, Short(size) + Short(kind) + Short(cid), Pad(name));
    HeaderReads(mem, size, kind, cid);
    NameReads(mem, 6, name);
  }

  lemma {:induction false} InfoReqRoundTrip(cid: int, name: Name, mem: seq<byte>)
    requires Fits(InfoReq(cid, name)) && Image(InfoReq(cid, name)) <= mem && |mem| >= 43 + 32768
    ensures ReadClient(mem) == Some(InfoReq(cid, name))
  {
    NamedHeaderReads(mem, 39, 0, cid, name);
  }

  lemma {:induction false} InfoRepRoundTrip(cid: int, name: Name, segs: seq<int>, mem: seq<byte>)
    requires Fits(InfoRep(cid, name, segs)) && Image(InfoRep(cid, name, segs)) <= mem && |mem| >= 43 + 32768
    ensures ReadClient(mem) == Some(InfoRep(cid, name, segs))
  {
    var h := Short(43 + 2 * |segs|) + Short(1) + Short(cid) + Pad(name);
    assert Holds(mem, 0, h + Short(|segs|) + Shorts(segs));
    HoldsSplit(mem, 0, h + Short(|segs|), Shorts(segs));
    HoldsSplit(mem, 0, h, Short(|segs|));
    NamedHeaderReads(mem, 43 + 2 * |segs|, 1, cid, name);
    ShortReads(mem, 39, |segs|);
    ShortsRead(mem, 41, segs);
  }

  lemma {:induction false} SegReqRoundTrip(cid: int, name: Name, seg: int, mem: seq<byte>)
    requires Fits(SegReq(cid, name, seg)) && Image(SegReq(cid, name, seg)) <= mem && |mem| >= 43 + 32768
    ensures ReadClient(mem) == Some(SegReq(cid, name, seg))
  {
    HoldsSplit(mem, 0, Short(41) + Short(2) + Short(cid) + Pad(name), Short(seg));
    NamedHeaderReads(mem, 41, 2, cid, name);
    ShortReads(mem, 39, seg);
  }

  lemma {:induction false} SegRepRoundTrip(m: Msg, mem: seq<byte>)
    requires m.SegRep? && Fits(m) && Image(m) <= mem && |mem| >= 43 + 32768
    ensures ReadClient(mem) == Some(m)
  {
    var img := Image(m);
    assert img[..|img|] == img;
    SegRepHeader(m, mem, |img|);
    assert mem[43..43 + m.size] == m.data;
  }

  /** Every message between clients, and the tracker's GROUP_ASSIGN, reads back as written
      from any memory that starts with its full image. */
  lemma {:induction false} ClientRoundTrip(m: Msg, mem: seq<byte>)
    requires !m.ShowInterest? && Fits(m) && Image(m) <= mem && |mem| >= 43 + 32768
    ensures ReadClient(mem) == Some(Received(m))
  {
    match m
    case GroupAssign(files) => AssignRoundTrip(files, mem);
    case InfoReq(cid, name) => InfoReqRoundTrip(cid, name, mem);
    case InfoRep(cid, name, segs) => InfoRepRoundTrip(cid, name, segs, mem);
    case SegReq(cid, name, seg) => SegReqRoundTrip(cid, name, seg, mem);
    case SegRep(_, _, _, _, _) => SegRepRoundTrip(m, mem);
  }

  /** The first byte of a short without the second one. */
  lemma {:induction false} HighByteLeft(m: seq<byte>, at: nat, v: int)
    requires at + 2 <= |m| && 0 <= v < 32768 && m[at] == Short(v)[0]
    ensures ShortAt(m, at) / 256 == v / 256
  {
    assert m[at] as int == v / 256;
    assert UShortAt(m, at) == v / 256 * 256 + m[at + 1];
  }

  /** What survives of a CLNT_SEG_REP of which only the first n bytes were sent. */
  lemma {:induction false} SegRepHeader(m: Msg, mem: seq<byte>, n: nat)
    requires m.SegRep? && Fits(m) && 39 <= n <= |Image(m)| && Image(m)[..n] <= mem
    requires |mem| >= 43 + 32768
    ensures ShortAt(mem, 2) == 3 && ShortAt(mem, 4) == m.cid && NameAt(mem, 6) == m.name
    ensures n == 40 && m.seg >= 0 ==> ShortAt(mem, 39) / 256 == m.seg / 256
    ensures n >= 41 ==> ShortAt(mem, 39) == m.seg
    ensures n >= 43 ==> ShortAt(mem, 41) == m.size
    ensures forall o :: 0 <= o < n - 43 ==> mem[43 + o] == m.data[o]
  {
    hide Short, Pad, IsName, ShortAt, NameAt;
    var img := Image(m);
    var h := Short(39 + m.size) + Short(3) + Short(m.cid) + Pad(m.name);
    SegRepImage(m, h);
    assert forall i :: 0 <= i < n ==> mem[i] == img[..n][i] == img[i];
    assert Holds(mem, 0, h) by { assert mem[..39] == img[..39]; }
    NamedHeaderReads(mem, 39 + m.size, 3, m.cid, m.name);
    if n == 40 && m.seg >= 0 {
      HighByteLeft(mem, 39, m.seg);
    }
    if n >= 41 {
      assert mem[39..41] == Short(m.seg);
      ShortReads(mem, 39, m.seg);
    }
    if n >= 43 {
      assert mem[41..43] == Short(m.size);
      ShortReads(mem, 41, m.size);
    }
  }

  /** Where the parts of a CLNT_SEG_REP stand. */
  lemma {:induction false} SegRepImage(m: Msg, h: seq<byte>)
    requires m.SegRep? && h == Short(39 + m.size) + Short(3) + Short(m.cid) + Pad(m.name)
    ensures var img := Image(m);
      && |img| == 43 + |m.data| && img[..39] == h
      && img[39] == Short(m.seg)[0] && img[40] == Short(m.seg)[1]
      && img[41] == Short(m.size)[0] && img[42] == Short(m.size)[1]
      && (forall o :: 0 <= o < |m.data| ==> img[43 + o] == m.data[o])
  {
    hide Short, Pad;
    assert Image(m) == h + Short(m.seg) + Short(m.size) + m.data;
  }

  /** The shipped reply stops four bytes before the end of its image. */
  lemma {:induction false} ShippedReplyDropsFourBytes(m: Msg)
    requires m.SegRep? && Fits(m)
    ensures |Sent(Shipped, m)| + 4 == |Sent(Mended, m)|
    ensures m.size >= 4 ==> Sent(Shipped, m) + m.data[m.size - 4..] == Sent(Mended, m)
  {
    hide Short, Pad;
    var img := Image(m);
    SegRepImage(m, Short(39 + m.size) + Short(3) + Short(m.cid) + Pad(m.name));
    if m.size >= 4 {
      assert img[39 + m.size..] == m.data[m.size - 4..];
      assert img == img[..39 + m.size] + img[39 + m.size..];
    }
  }
}
