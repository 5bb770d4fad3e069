/** Which byte of a packet says what: module Wire against offsets, byte orders and type numbers as
    Client.c and Tracker.c have them. */
module Layout {
  import opened Basics
  import opened Wire

  // ---------- fields ----------

  /** Two bytes, the high one first. */
  ghost predicate ShortIs(b: seq<byte>, at: nat, v: int) {
    at + 2 <= |b| && b[at] as int * 256 + b[at + 1] as int == v % 65536
  }

  /** The low sixteen bits, high byte first, and two zero bytes. */
  ghost predicate SizeIs(b: seq<byte>, at: nat, v: nat) {
    at + 4 <= |b| && ShortIs(b, at, v) && b[at + 2] == 0 == b[at + 3]
  }

  /** 33 bytes: the name, and zeros. */
  ghost predicate NameIs(b: seq<byte>, at: nat, name: Name) {
    at + 33 <= |b| && forall i :: 0 <= i < 33 ==> b[at + i] == if i < |name| then name[i] else 0
  }

  ghost predicate DataAre(b: seq<byte>, at: nat, data: seq<byte>) {
    at + |data| <= |b| && forall i :: 0 <= i < |data| ==> b[at + i] == data[i]
  }

  lemma {:induction false} ShortHeld(b: seq<byte>, at: nat, v: int)
    requires Holds(b, at, Short(v))
    ensures ShortIs(b, at, v)
  {
    var field := b[at..at + 2];
    assert field[0] == b[at] && field[1] == b[at + 1];
    HighAndLow(v);
  }

  lemma {:induction false} SizeHeld(b: seq<byte>, at: nat, v: nat)
    requires Holds(b, at, Size(v))
    ensures SizeIs(b, at, v)
  {
    HoldsSplit(b, at, Short(v), [0, 0]);
    ShortHeld(b, at, v);
    var field := b[at + 2..at + 4];
    assert field[0] == b[at + 2] && field[1] == b[at + 3];
  }

  lemma {:induction false} NameHeld(b: seq<byte>, at: nat, name: Name)
    requires Holds(b, at, Pad(name))
    ensures NameIs(b, at, name)
  {
    var field := b[at..at + 33];
    assert forall i :: 0 <= i < 33 ==> field[i] == b[at + i];
  }

  lemma {:induction false} DataHeld(b: seq<byte>, at: nat, data: seq<byte>)
    requires Holds(b, at, data)
    ensures DataAre(b, at, data)
  {
    var field := b[at..at + |data|];
    assert forall i :: 0 <= i < |data| ==> field[i] == b[at + i];
  }

  // ---------- GROUP_SHOW_INTEREST ----------

  /** A file asked for, 39 bytes: name, size, type. */
  ghost predicate ItemIs(b: seq<byte>, at: nat, x: Item) {
    NameIs(b, at, x.name) && SizeIs(b, at + 33, x.size) && ShortIs(b, at + 37, x.kind)
  }

  lemma {:induction false} ItemsHeld(b: seq<byte>, at: nat, items: seq<Item>)
    requires Holds(b, at, Items(items))
    ensures forall k :: 0 <= k < |items| ==> ItemIs(b, at + 39 * k, items[k])
    decreases items
  {
    hide ItemIs, Pad, Size, Short;
    if items != [] {
      var x := items[0];
      HoldsSplit(b, at, Pad(x.name) + Size(x.size) + Short(x.kind), Items(items[1..]));
      ItemHeld(b, at, x);
      ItemsHeld(b, at + 39, items[1..]);
      forall k | 0 <= k < |items|
        ensures ItemIs(b, at + 39 * k, items[k])
      {
        if k > 0 { assert ItemIs(b, at + 39 + 39 * (k - 1), items[1..][k - 1]); }
      }
    }
  }

  lemma {:induction false} ItemHeld(b: seq<byte>, at: nat, x: Item)
    requires Holds(b, at, Pad(x.name) + Size(x.size) + Short(x.kind))
    ensures ItemIs(b, at, x)
  {
    hide Pad, Size, Short, NameIs, SizeIs, ShortIs;
    HoldsSplit(b, at, Pad(x.name) + Size(x.size), Short(x.kind));
    HoldsSplit(b, at, Pad(x.name), Size(x.size));
    NameHeld(b, at, x.name);
    SizeHeld(b, at + 33, x.size);
    ShortHeld(b, at + 37, x.kind);
  }

  /** Length, type, sender. */
  ghost predicate HeaderIs(b: seq<byte>, size: int, kind: int, cid: int) {
    ShortIs(b, 0, size) && ShortIs(b, 2, kind) && ShortIs(b, 4, cid)
  }

  lemma {:induction false} HeaderHeld(b: seq<byte>, size: int, kind: int, cid: int)
    requires Holds(b, 0, Short(size) + Short(kind) + Short(cid))
    ensures HeaderIs(b, size, kind, cid)
  {
    hide Short, ShortIs;
    HoldsSplit(b, 0, Short(size) + Short(kind), Short(cid));
    HoldsSplit(b, 0, Short(size), Short(kind));
    ShortHeld(b, 0, size);
    ShortHeld(b, 2, kind);
    ShortHeld(b, 4, cid);
  }

  /** The length field holds the length; type 0; then the sender, the number of files, and 39 bytes
      for each of them. */
  lemma {:induction false} InterestLayout(cid: int, items: seq<Item>)
    ensures var b := Image(ShowInterest(cid, items));
      && |b| == 8 + 39 * |items| && HeaderIs(b, |b|, 0, cid) && ShortIs(b, 6, |items|)
      && forall k :: 0 <= k < |items| ==> ItemIs(b, 8 + 39 * k, items[k])
  {
    hide Short, HeaderIs, ShortIs, ItemIs;
    var b := Image(ShowInterest(cid, items));
    var h := Short(8 + 39 * |items|) + Short(0) + Short(cid);
    assert Holds(b, 0, h + Short(|items|) + Items(items));
    HoldsSplit(b, 0, h + Short(|items|), Items(items));
    HoldsSplit(b, 0, h, Short(|items|));
    HeaderHeld(b, 8 + 39 * |items|, 0, cid);
    ShortHeld(b, 6, |items|);
    ItemsHeld(b, 8, items);
  }

  // ---------- GROUP_ASSIGN ----------

  /** A neighbour, 20 bytes: id, 16 bytes of zeros for the address, port. */
  ghost predicate PeerIs(b: seq<byte>, at: nat, p: Peer) {
    ShortIs(b, at, p.id) && ShortIs(b, at + 18, p.port) && forall i :: at + 2 <= i < at + 18 ==> b[i] == 0
  }

  /** A file: name, size, number of neighbours, and 20 bytes for each of them. */
  ghost predicate EntryIs(b: seq<byte>, at: nat, f: FileEntry) {
    && NameIs(b, at, f.name) && SizeIs(b, at + 33, f.size) && ShortIs(b, at + 37, |f.peers|)
    && PeersAre(b, at + 39, f.peers)
  }

  ghost predicate PeersAre(b: seq<byte>, at: nat, peers: seq<Peer>) {
    forall q :: 0 <= q < |peers| ==> PeerIs(b, at + 20 * q, peers[q])
  }

  lemma {:induction false} PeerHeld(b: seq<byte>, at: nat, p: Peer)
    requires Holds(b, at, Short(p.id) + IP_FIELD + Short(p.port))
    ensures PeerIs(b, at, p)
  {
    hide Short, ShortIs;
    HoldsSplit(b, at, Short(p.id) + IP_FIELD, Short(p.port));
    HoldsSplit(b, at, Short(p.id), IP_FIELD);
    ShortHeld(b, at, p.id);
    ShortHeld(b, at + 18, p.port);
    var field := b[at + 2..at + 18];
    assert forall i :: at + 2 <= i < at + 18 ==> b[i] == field[i - at - 2];
  }

  lemma {:induction false} PeersHeld(b: seq<byte>, at: nat, peers: seq<Peer>)
    requires Holds(b, at, Peers(peers))
    ensures PeersAre(b, at, peers)
    decreases peers
  {
    hide PeerIs, Short;
    if peers != [] {
      var p := peers[0];
      HoldsSplit(b, at, Short(p.id) + IP_FIELD + Short(p.port), Peers(peers[1..]));
      PeerHeld(b, at, p);
      PeersHeld(b, at + 20, peers[1..]);
      forall q | 0 <= q < |peers|
        ensures PeerIs(b, at + 20 * q, peers[q])
      {
        if q > 0 { assert PeerIs(b, at + 20 + 20 * (q - 1), peers[1..][q - 1]); }
      }
    }
  }

  lemma {:induction false} EntryHeld(b: seq<byte>, at: nat, f: FileEntry)
    requires Holds(b, at, Entry(f))
    ensures EntryIs(b, at, f) && |Entry(f)| == 39 + 20 * |f.peers|
  {
    hide Pad, Size, Short, NameIs, SizeIs, ShortIs, PeersAre;
    HoldsSplit(b, at, Pad(f.name) + Size(f.size) + Short(|f.peers|), Peers(f.peers));
    HoldsSplit(b, at, Pad(f.name) + Size(f.size), Short(|f.peers|));
    HoldsSplit(b, at, Pad(f.name), Size(f.size));
    NameHeld(b, at, f.name);
    SizeHeld(b, at + 33, f.size);
    ShortHeld(b, at + 37, |f.peers|);
    PeersHeld(b, at + 39, f.peers);
  }

  /** Where entry k starts, if the first one does at `at`. */
  function EntryOffset(at: nat, files: seq<FileEntry>, k: nat): nat
    requires k <= |files|
  {
    if k == 0 then at else EntryOffset(at, files, k - 1) + 39 + 20 * |files[k - 1].peers|
  }

  ghost predicate EntriesAre(b: seq<byte>, files: seq<FileEntry>, n: nat)
    requires n <= |files|
  {
    forall k :: 0 <= k < n ==> EntryIs(b, EntryOffset(6, files, k), files[k])
  }

  lemma {:induction false} NextEntryHeld(b: seq<byte>, at: nat, files: seq<FileEntry>, k: nat)
    requires k < |files| && Holds(b, at, Entries(files[k..]))
    ensures EntryIs(b, at, files[k]) && Holds(b, at + 39 + 20 * |files[k].peers|, Entries(files[k + 1..]))
    ensures |Entries(files[k..])| == 39 + 20 * |files[k].peers| + |Entries(files[k + 1..])|
  {
    hide Entry, EntryIs;
    assert files[k..][0] == files[k] && files[k..][1..] == files[k + 1..];
    HoldsSplit(b, at, Entry(files[k]), Entries(files[k + 1..]));
    EntryHeld(b, at, files[k]);
  }

  lemma {:induction false} NextOffset(at: nat, files: seq<FileEntry>, k: nat)
    requires k < |files|
    ensures EntryOffset(at, files, k + 1) == EntryOffset(at, files, k) + 39 + 20 * |files[k].peers|
  {
  }

  lemma {:induction false} EntriesHeld(b: seq<byte>, files: seq<FileEntry>, k: nat)
    requires k <= |files| && Holds(b, EntryOffset(6, files, k), Entries(files[k..])) && EntriesAre(b, files, k)
    ensures EntriesAre(b, files, |files|) && EntryOffset(6, files, k) + |Entries(files[k..])| == EntryOffset(6, files, |files|)
    decreases |files| - k
  {
    if k < |files| {
      hide Holds, EntryIs, EntryOffset, Entries;
      NextEntryHeld(b, EntryOffset(6, files, k), files, k);
      NextOffset(6, files, k);
      EntriesHeld(b, files, k + 1);
    }
  }

  /** The length field holds the length; type 42; then the number of files, and the files. */
  lemma {:induction false} AssignLayout(files: seq<FileEntry>)
    ensures var b := Image(GroupAssign(files));
      && |b| == EntryOffset(6, files, |files|) && HeaderIs(b, |b|, 42, |files|)
      && forall k :: 0 <= k < |files| ==> EntryIs(b, EntryOffset(6, files, k), files[k])
  {
    hide Short, HeaderIs, EntryIs;
    var b := Image(GroupAssign(files));
    var h := Short(6 + |Entries(files)|) + Short(42) + Short(|files|);
    assert Holds(b, 0, h + Entries(files));
    HoldsSplit(b, 0, h, Entries(files));
    HeaderHeld(b, 6 + |Entries(files)|, 42, |files|);
    assert files[0..] == files;
    EntriesHeld(b, files, 0);
  }

  // ---------- the messages between clients ----------

  lemma {:induction false} NamedHeld(b: seq<byte>, size: int, kind: int, cid: int, name: Name)
    requires Holds(b, 0, Short(size) + Short(kind) + Short(cid) + Pad(name))
    ensures HeaderIs(b, size, kind, cid) && NameIs(b, 6, name)
  {
    hide Short, Pad, HeaderIs, NameIs;
    HoldsSplit(b, 0, Short(size) + Short(kind) + Short(cid), Pad(name));
    HeaderHeld(b, size, kind, cid);
    NameHeld(b, 6, name);
  }

  /** 39 bytes, as the length field says; type 0. */
  lemma {:induction false} InfoRequestLayout(cid: int, name: Name)
    ensures var b := Image(InfoReq(cid, name)); |b| == 39 && HeaderIs(b, 39, 0, cid) && NameIs(b, 6, name)
  {
    hide Short, Pad, HeaderIs, NameIs;
    var b := Image(InfoReq(cid, name));
    assert Holds(b, 0, Short(39) + Short(0) + Short(cid) + Pad(name));
    NamedHeld(b, 39, 0, cid, name);
  }

  /** 41 bytes, as the length field says; type 2; the segment last. */
  lemma {:induction false} SegmentRequestLayout(cid: int, name: Name, seg: int)
    ensures var b := Image(SegReq(cid, name, seg)); |b| == 41 && HeaderIs(b, 41, 2, cid) && NameIs(b, 6, name) && ShortIs(b, 39, seg)
  {
    hide Short, Pad, HeaderIs, NameIs, ShortIs;
    var b := Image(SegReq(cid, name, seg));
    var h := Short(41) + Short(2) + Short(cid) + Pad(name);
    assert Holds(b, 0, h + Short(seg));
    HoldsSplit(b, 0, h, Short(seg));
    NamedHeld(b, 41, 2, cid, name);
    ShortHeld(b, 39, seg);
  }

  lemma {:induction false} ShortsHeld(b: seq<byte>, at: nat, segs: seq<int>)
    requires Holds(b, at, Shorts(segs))
    ensures forall k :: 0 <= k < |segs| ==> ShortIs(b, at + 2 * k, segs[k])
    decreases segs
  {
    hide Short, ShortIs;
    if segs != [] {
      HoldsSplit(b, at, Short(segs[0]), Shorts(segs[1..]));
      ShortHeld(b, at, segs[0]);
      ShortsHeld(b, at + 2, segs[1..]);
      forall k | 0 <= k < |segs|
        ensures ShortIs(b, at + 2 * k, segs[k])
      {
        if k > 0 { assert ShortIs(b, at + 2 + 2 * (k - 1), segs[1..][k - 1]); }
      }
    }
  }

  /** The length field says two more than the fields take; type 1; the number of segments, and the
      segments. */
  lemma {:induction false} InfoReplyLayout(cid: int, name: Name, segs: seq<int>)
    ensures var b := Image(InfoRep(cid, name, segs));
      && |b| == 41 + 2 * |segs| && HeaderIs(b, |b| + 2, 1, cid) && NameIs(b, 6, name) && ShortIs(b, 39, |segs|)
      && forall k :: 0 <= k < |segs| ==> ShortIs(b, 41 + 2 * k, segs[k])
  {
    hide Short, Pad, HeaderIs, NameIs, ShortIs;
    var b := Image(InfoRep(cid, name, segs));
    var h := Short(43 + 2 * |segs|) + Short(1) + Short(cid) + Pad(name);
    assert Holds(b, 0, h + Short(|segs|) + Shorts(segs));
    HoldsSplit(b, 0, h + Short(|segs|), Shorts(segs));
    HoldsSplit(b, 0, h, Short(|segs|));
    NamedHeld(b, 43 + 2 * |segs|, 1, cid, name);
    ShortHeld(b, 39, |segs|);
    ShortsHeld(b, 41, segs);
  }

  /** The length field, like the number of bytes sent as it stands, is four short; type 3; segment,
      size, and the data from byte 43 on. */
  lemma {:induction false} SegmentReplyLayout(cid: int, name: Name, seg: int, data: seq<byte>)
    ensures var m := SegRep(cid, name, seg, |data|, data);
      var b := Image(m);
      && |b| == 43 + |data| && HeaderIs(b, |b| - 4, 3, cid) && NameIs(b, 6, name)
      && ShortIs(b, 39, seg) && ShortIs(b, 41, |data|) && DataAre(b, 43, data)
      && Sent(Mended, m) == b && Sent(Shipped, m) == b[..|b| - 4]
  {
    hide Short, Pad, HeaderIs, NameIs, ShortIs, DataAre;
    var b := Image(SegRep(cid, name, seg, |data|, data));
    var h := Short(39 + |data|) + Short(3) + Short(cid) + Pad(name);
    assert Holds(b, 0, h + Short(seg) + Short(|data|) + data);
    HoldsSplit(b, 0, h + Short(seg) + Short(|data|), data);
    HoldsSplit(b, 0, h + Short(seg), Short(|data|));
    HoldsSplit(b, 0, h, Short(seg));
    NamedHeld(b, 39 + |data|, 3, cid, name);
    ShortHeld(b, 39, seg);
    ShortHeld(b, 41, |data|);
    DataHeld(b, 43, data);
  }

  /** Every other message is sent whole. */
  lemma {:induction false} OthersSentWhole(build: Build, m: Msg)
    requires !m.SegRep?
    ensures Sent(build, m) == Image(m)
  {
  }

  // ---------- reading ----------

  /** Two bytes read as a signed number. */
  ghost predicate ReadsShort(m: seq<byte>, at: nat, v: int) {
    ShortIs(m, at, v) && -32768 <= v < 32768
  }

  ghost predicate ReadsUShort(m: seq<byte>, at: nat, v: int) {
    ShortIs(m, at, v) && 0 <= v < 65536
  }

  /** The bytes of a 33 byte field before its first zero, all of them if there is none. */
  ghost predicate ReadsName(m: seq<byte>, at: nat, name: Name) {
    && at + 33 <= |m| && |name| <= 33 && DataAre(m, at, name)
    && 0 !in name && (|name| < 33 ==> m[at + |name|] == 0)
  }

  lemma {:induction false} ShortReadsIff(m: seq<byte>, at: nat, v: int)
    requires at + 2 <= |m|
    ensures ReadsShort(m, at, v) <==> v == ShortAt(m, at)
    ensures ReadsUShort(m, at, v) <==> v == UShortAt(m, at)
  {
    var u := m[at] as int * 256 + m[at + 1] as int;
    assert 0 <= u < 65536 && (u - u % 65536 == 0);
    assert Int16(u) % 65536 == u;
    if v % 65536 == u && -32768 <= v < 32768 { assert v == u || v == u - 65536; }
  }

  lemma {:induction false} OnlyShort(m: seq<byte>, at: nat)
    requires at + 2 <= |m|
    ensures forall v :: ReadsShort(m, at, v) <==> v == ShortAt(m, at)
  {
    hide ReadsShort, ShortAt;
    forall v
      ensures ReadsShort(m, at, v) <==> v == ShortAt(m, at)
    {
      ShortReadsIff(m, at, v);
    }
  }

  lemma {:induction false} CStringIff(b: seq<byte>, name: Name)
    ensures CString(b) == name <==> name <= b && 0 !in name && (|name| < |b| ==> b[|name|] == 0)
  {
    if b != [] && b[0] != 0 && name != [] {
      CStringIff(b[1..], name[1..]);
      assert name == [name[0]] + name[1..];
      assert b == [b[0]] + b[1..];
    }
  }

  lemma {:induction false} NameReadsIff(m: seq<byte>, at: nat, name: Name)
    requires at + 33 <= |m|
    ensures ReadsName(m, at, name) <==> name == NameAt(m, at)
  {
    var field := m[at..at + 33];
    assert forall i :: 0 <= i < 33 ==> field[i] == m[at + i];
    CStringIff(field, name);
    assert DataAre(m, at, name) && |name| <= 33 ==> name <= field;
  }

  ghost predicate ReadsShorts(m: seq<byte>, at: nat, n: nat, segs: seq<int>) {
    |segs| == n && at + 2 * n <= |m| && forall k :: 0 <= k < n ==> ReadsShort(m, at + 2 * k, segs[k])
  }

  lemma {:induction false} MoreShorts(m: seq<byte>, at: nat, n: nat, segs: seq<int>)
    requires n > 0 && segs != []
    ensures ReadsShorts(m, at, n, segs) <==> ReadsShort(m, at, segs[0]) && ReadsShorts(m, at + 2, n - 1, segs[1..])
  {
    hide ReadsShort;
    var rest := segs[1..];
    if ReadsShorts(m, at, n, segs) {
      forall k | 0 <= k < n - 1
        ensures ReadsShort(m, at + 2 + 2 * k, rest[k])
      {
        assert ReadsShort(m, at + 2 * (k + 1), segs[k + 1]);
      }
    }
    if ReadsShort(m, at, segs[0]) && ReadsShorts(m, at + 2, n - 1, rest) {
      forall k | 0 <= k < n
        ensures ReadsShort(m, at + 2 * k, segs[k])
      {
        if k > 0 { assert ReadsShort(m, at + 2 + 2 * (k - 1), rest[k - 1]); }
      }
    }
  }

  lemma {:induction false} ShortsReadIff(m: seq<byte>, at: nat, n: nat, segs: seq<int>)
    requires at <= |m|
    ensures ReadShorts(m, at, n) == Some(segs) <==> ReadsShorts(m, at, n, segs)
    decreases n
  {
    if n > 0 && segs != [] && at + 2 <= |m| {
      hide ReadsShort, ReadsShorts, ShortAt;
      assert segs == [segs[0]] + segs[1..];
      ShortReadsIff(m, at, segs[0]);
      ShortsReadIff(m, at + 2, n - 1, segs[1..]);
      MoreShorts(m, at, n, segs);
    }
  }

  ghost predicate ReadsItem(m: seq<byte>, at: nat, x: Item) {
    at + 39 <= |m| && ReadsName(m, at, x.name) && ReadsUShort(m, at + 33, x.size) && ReadsShort(m, at + 37, x.kind)
  }

  ghost predicate ReadsItems(m: seq<byte>, at: nat, n: nat, items: seq<Item>) {
    |items| == n && at + 39 * n <= |m| && forall k :: 0 <= k < n ==> ReadsItem(m, at + 39 * k, items[k])
  }

  lemma {:induction false} ItemReadsIff(m: seq<byte>, at: nat, x: Item)
    requires at + 39 <= |m|
    ensures ReadsItem(m, at, x) <==> x == Item(NameAt(m, at), SizeAt(m, at + 33), ShortAt(m, at + 37))
  {
    hide ReadsShort, ReadsUShort, ReadsName, NameAt, ShortAt, UShortAt;
    NameReadsIff(m, at, x.name);
    ShortReadsIff(m, at + 33, x.size);
    ShortReadsIff(m, at + 37, x.kind);
  }

  lemma {:induction false} MoreItems(m: seq<byte>, at: nat, n: nat, items: seq<Item>)
    requires n > 0 && items != []
    ensures ReadsItems(m, at, n, items) <==> ReadsItem(m, at, items[0]) && ReadsItems(m, at + 39, n - 1, items[1..])
  {
    hide ReadsItem;
    var rest := items[1..];
    if ReadsItems(m, at, n, items) {
      forall k | 0 <= k < n - 1
        ensures ReadsItem(m, at + 39 + 39 * k, rest[k])
      {
        assert ReadsItem(m, at + 39 * (k + 1), items[k + 1]);
      }
    }
    if ReadsItem(m, at, items[0]) && ReadsItems(m, at + 39, n - 1, rest) {
      forall k | 0 <= k < n
        ensures ReadsItem(m, at + 39 * k, items[k])
      {
        if k > 0 { assert ReadsItem(m, at + 39 + 39 * (k - 1), rest[k - 1]); }
      }
    }
  }

  lemma {:induction false} ItemsReadIff(m: seq<byte>, at: nat, n: nat, items: seq<Item>)
    requires at <= |m|
    ensures ReadItems(m, at, n) == Some(items) <==> ReadsItems(m, at, n, items)
    decreases n
  {
    if n > 0 && items != [] && at + 39 <= |m| {
      hide ReadsItem, ReadsItems, ShortAt, SizeAt, NameAt;
      assert items == [items[0]] + items[1..];
      ItemReadsIff(m, at, items[0]);
      ItemsReadIff(m, at + 39, n - 1, items[1..]);
      MoreItems(m, at, n, items);
    }
  }

  ghost predicate ReadsPeer(m: seq<byte>, at: nat, p: Peer) {
    at + 20 <= |m| && ReadsShort(m, at, p.id) && ReadsUShort(m, at + 18, p.port)
  }

  ghost predicate ReadsPeers(m: seq<byte>, at: nat, n: nat, peers: seq<Peer>) {
    |peers| == n && at + 20 * n <= |m| && forall k :: 0 <= k < n ==> ReadsPeer(m, at + 20 * k, peers[k])
  }

  lemma {:induction false} MorePeers(m: seq<byte>, at: nat, n: nat, peers: seq<Peer>)
    requires n > 0 && peers != []
    ensures ReadsPeers(m, at, n, peers) <==> ReadsPeer(m, at, peers[0]) && ReadsPeers(m, at + 20, n - 1, peers[1..])
  {
    hide ReadsPeer;
    var rest := peers[1..];
    if ReadsPeers(m, at, n, peers) {
      forall k | 0 <= k < n - 1
        ensures ReadsPeer(m, at + 20 + 20 * k, rest[k])
      {
        assert ReadsPeer(m, at + 20 * (k + 1), peers[k + 1]);
      }
    }
    if ReadsPeer(m, at, peers[0]) && ReadsPeers(m, at + 20, n - 1, rest) {
      forall k | 0 <= k < n
        ensures ReadsPeer(m, at + 20 * k, peers[k])
      {
        if k > 0 { assert ReadsPeer(m, at + 20 + 20 * (k - 1), rest[k - 1]); }
      }
    }
  }

  lemma {:induction false} PeerReadsIff(m: seq<byte>, at: nat, p: Peer)
    requires at + 20 <= |m|
    ensures ReadsPeer(m, at, p) <==> p == Peer(ShortAt(m, at), UShortAt(m, at + 18))
  {
    hide ReadsShort, ReadsUShort, ShortAt, UShortAt;
    ShortReadsIff(m, at, p.id);
    ShortReadsIff(m, at + 18, p.port);
  }

  lemma {:induction false} PeersReadIff(m: seq<byte>, at: nat, n: nat, peers: seq<Peer>)
    requires at <= |m|
    ensures ReadPeers(m, at, n) == Some(peers) <==> ReadsPeers(m, at, n, peers)
    decreases n
  {
    if n > 0 && peers != [] && at + 20 <= |m| {
      hide ReadsPeer, ReadsPeers, ShortAt, UShortAt;
      assert peers == [peers[0]] + peers[1..];
      PeerReadsIff(m, at, peers[0]);
      PeersReadIff(m, at + 20, n - 1, peers[1..]);
      MorePeers(m, at, n, peers);
    }
  }

  /** A count as the loops take it: a negative one is no turn at all. */
  function Turns(v: int): nat {
    if v < 0 then 0 else v
  }

  ghost predicate ReadsEntry(m: seq<byte>, at: nat, f: FileEntry) {
    && at + 39 <= |m| && ReadsName(m, at, f.name) && ReadsUShort(m, at + 33, f.size)
    && exists count :: ReadsShort(m, at + 37, count) && ReadsPeers(m, at + 39, Turns(count), f.peers)
  }

  lemma {:induction false} EntryReadsIff(m: seq<byte>, at: nat, f: FileEntry)
    ensures ReadEntry(m, at) == Some(f) <==> ReadsEntry(m, at, f)
  {
    hide ReadsShort, ReadsUShort, ReadsName, NameAt, ShortAt, UShortAt, ReadsPeers;
    if at + 39 <= |m| {
      NameReadsIff(m, at, f.name);
      ShortReadsIff(m, at + 33, f.size);
      OnlyShort(m, at + 37);
      PeersReadIff(m, at + 39, Turns(ShortAt(m, at + 37)), f.peers);
    }
  }

  ghost predicate ReadsEntries(m: seq<byte>, at: nat, n: nat, files: seq<FileEntry>) {
    |files| == n && forall k :: 0 <= k < n ==> ReadsEntry(m, EntryOffset(at, files, k), files[k])
  }

  /** Without the first entry, which ends at `next`, all others stay where they are. */
  ghost predicate Shifted(at: nat, next: nat, files: seq<FileEntry>, rest: seq<FileEntry>) {
    |files| == |rest| + 1 && forall k :: 0 <= k < |rest| ==> EntryOffset(next, rest, k) == EntryOffset(at, files, k + 1)
  }

  lemma {:induction false} OffsetFromNext(at: nat, files: seq<FileEntry>, k: nat)
    requires k < |files|
    ensures EntryOffset(at, files, k + 1) == EntryOffset(at + 39 + 20 * |files[0].peers|, files[1..], k)
  {
    if k > 0 { OffsetFromNext(at, files, k - 1); }
  }

  lemma {:induction false} EntriesReadIff(m: seq<byte>, at: nat, n: nat, files: seq<FileEntry>)
    ensures ReadEntries(m, at, n) == Some(files) <==> ReadsEntries(m, at, n, files)
    decreases n
  {
    if n > 0 && files != [] {
      hide ReadEntry, ReadsEntry, ReadsEntries, EntryOffset;
      var f, rest := files[0], files[1..];
      assert files == [f] + rest;
      EntryReadsIff(m, at, f);
      var next := at + 39 + 20 * |f.peers|;
      EntriesReadIff(m, next, n - 1, rest);
      forall k | 0 <= k < |rest|
        ensures EntryOffset(next, rest, k) == EntryOffset(at, files, k + 1)
      {
        OffsetFromNext(at, files, k);
      }
      MoreEntries(m, at, next, n, files, rest);
    }
  }

  lemma {:induction false} MoreEntries(m: seq<byte>, at: nat, next: nat, n: nat, files: seq<FileEntry>, rest: seq<FileEntry>)
    requires n > 0 && files != [] && rest == files[1..] && Shifted(at, next, files, rest)
    ensures ReadsEntries(m, at, n, files) <==> ReadsEntry(m, at, files[0]) && ReadsEntries(m, next, n - 1, rest)
  {
    hide ReadsEntry, EntryOffset;
    StartsAt(at, files);
    if ReadsEntries(m, at, n, files) {
      forall k | 0 <= k < n - 1
        ensures ReadsEntry(m, EntryOffset(next, rest, k), rest[k])
      {
        assert ReadsEntry(m, EntryOffset(at, files, k + 1), files[k + 1]);
      }
    }
    if ReadsEntry(m, at, files[0]) && ReadsEntries(m, next, n - 1, rest) {
      forall k | 0 <= k < n
        ensures ReadsEntry(m, EntryOffset(at, files, k), files[k])
      {
        if k > 0 { assert ReadsEntry(m, EntryOffset(next, rest, k - 1), rest[k - 1]); }
      }
    }
  }

  lemma {:induction false} StartsAt(at: nat, files: seq<FileEntry>)
    ensures EntryOffset(at, files, 0) == at
  {
  }

  /** What a client takes a packet for: type, and fields at their offsets. */
  ghost predicate StandsFor(mem: seq<byte>, m: Msg) {
    match m
    case ShowInterest(_, _) => false
    case GroupAssign(files) =>
      ReadsShort(mem, 2, 42) && exists count :: ReadsShort(mem, 4, count) && ReadsEntries(mem, 6, Turns(count), files)
    case InfoReq(cid, name) => ReadsShort(mem, 2, 0) && ReadsShort(mem, 4, cid) && ReadsName(mem, 6, name)
    case InfoRep(cid, name, segs) =>
      && ReadsShort(mem, 2, 1) && ReadsShort(mem, 4, cid) && ReadsName(mem, 6, name)
      && exists count :: ReadsShort(mem, 39, count) && ReadsShorts(mem, 41, Turns(count), segs)
    case SegReq(cid, name, seg) =>
      ReadsShort(mem, 2, 2) && ReadsShort(mem, 4, cid) && ReadsName(mem, 6, name) && ReadsShort(mem, 39, seg)
    case SegRep(cid, name, seg, size, data) =>
      && ReadsShort(mem, 2, 3) && ReadsShort(mem, 4, cid) && ReadsName(mem, 6, name)
      && ReadsShort(mem, 39, seg) && ReadsShort(mem, 41, size) && |data| == Turns(size) && DataAre(mem, 43, data)
  }

  lemma {:induction false} OnlyName(m: seq<byte>, at: nat)
    requires at + 33 <= |m|
    ensures forall n :: ReadsName(m, at, n) <==> n == NameAt(m, at)
  {
    hide ReadsName, NameAt;
    forall n
      ensures ReadsName(m, at, n) <==> n == NameAt(m, at)
    {
      NameReadsIff(m, at, n);
    }
  }

  /** Whatever stands in memory: a client reads it as a message if and only if it stands for it. */
  lemma {:induction false} ClientReadsIff(mem: seq<byte>, m: Msg)
    requires |mem| >= 43 + 32768
    ensures ReadClient(mem) == Some(m) <==> StandsFor(mem, m)
  {
    hide ReadsShort, ShortAt, ReadsName, NameAt, ReadEntries, ReadsEntries, ReadShorts, ReadsShorts, DataAre;
    OnlyShort(mem, 2);
    OnlyShort(mem, 4);
    OnlyShort(mem, 39);
    OnlyShort(mem, 41);
    OnlyName(mem, 6);
    match m
    case ShowInterest(_, _) =>
    case GroupAssign(files) => EntriesReadIff(mem, 6, Turns(ShortAt(mem, 4)), files);
    case InfoReq(_, _) =>
    case InfoRep(_, _, segs) => ShortsReadIff(mem, 41, Turns(ShortAt(mem, 39)), segs);
    case SegReq(_, _, _) =>
    case SegRep(_, _, _, size, data) =>
      if |data| == Turns(size) && size < 32768 { DataIff(mem, 43, data); }
  }

  lemma {:induction false} DataIff(m: seq<byte>, at: nat, data: seq<byte>)
    requires at + |data| <= |m|
    ensures DataAre(m, at, data) <==> data == m[at..at + |data|]
  {
  }

  /** The tracker takes whatever it gets for a GROUP_SHOW_INTEREST: the sender, and as many files as
      the count says; a packet too short for them is none. */
  lemma {:induction false} TrackerReadsIff(mem: seq<byte>, m: Msg)
    ensures ReadInterest(mem) == Some(m) <==>
      && |mem| >= 8 && m.ShowInterest? && ReadsShort(mem, 4, m.cid)
      && exists count :: ReadsShort(mem, 6, count) && ReadsItems(mem, 8, Turns(count), m.items)
  {
    hide ReadsShort, ShortAt, ReadItems, ReadsItems;
    if |mem| >= 8 {
      OnlyShort(mem, 4);
      OnlyShort(mem, 6);
      if m.ShowInterest? { ItemsReadIff(mem, 8, Turns(ShortAt(mem, 6)), m.items); }
    }
  }
}
