/** What the manager hands each client over TCP: struct Client in network byte order. */
module Bootstrap {
  import opened Basics

  datatype TaskRecord = TaskRecord(starttime: int, share: int, file: seq<byte>)

  datatype Record = Record(
    id: int, pktdelay: int, pktprob: int, reqtimeout: int, numfiles: int, numtasks: int,
    files: seq<seq<byte>>, tasks: seq<TaskRecord>)

  predicate Int32(v: int) { -0x8000_0000 <= v < 0x8000_0000 }

  predicate WellFormed(c: Record) {
    && Int32(c.id) && Int32(c.pktdelay) && Int32(c.pktprob) && Int32(c.reqtimeout)
    && |c.files| == |c.tasks| == MAX_FILES
    && Int32(c.numfiles) && c.numfiles <= MAX_FILES
    && Int32(c.numtasks) && c.numtasks <= MAX_FILES
    && (forall f <- c.files :: |f| == MAX_FILENAME)
    && (forall t <- c.tasks :: Int32(t.starttime) && Int32(t.share) && |t.file| == MAX_FILENAME)
  }

  // ---------- byte order ----------

  /** The unsigned number with these bytes, the most significant one first. */
  function Bytes4(a: int, b: int, c: int, d: int): int {
    256 * (256 * (256 * a + b) + c) + d
  }

  /** Four bytes the other way round. */
  function Flip(u: int): (w: int)
    requires 0 <= u < 0x1_0000_0000
    ensures 0 <= w < 0x1_0000_0000
  {
    var x, y := u / 256, u / 256 / 256;
    Bytes4(u % 256, x % 256, y % 256, y / 256)
  }

  /** htonl and ntohl of a little-endian host. */
  function Htonl(v: int): (r: int)
    requires Int32(v)
    ensures Int32(r)
  {
    var w := Flip(if v < 0 then v + 0x1_0000_0000 else v);
    if w < 0x8000_0000 then w else w - 0x1_0000_0000
  }

  lemma {:induction false} LastByte(u: int, x: int, d: int)
    requires 0 <= d < 256 && u == 256 * x + d
    ensures u / 256 == x && u % 256 == d
  {
  }

  /** If u has the bytes a, b, c, d then its leading parts are x, y and a. */
  lemma {:induction false} FlipBytes(u: int, x: int, y: int, a: int, b: int, c: int, d: int)
    requires 0 <= u < 0x1_0000_0000
    requires 0 <= b < 256 && 0 <= c < 256 && 0 <= d < 256
    requires u == 256 * x + d && x == 256 * y + c && y == 256 * a + b
    ensures Flip(u) == Bytes4(d, c, b, a)
  {
    hide Bytes4;
    LastByte(u, x, d);
    LastByte(x, y, c);
    LastByte(y, a, b);
  }

  lemma {:induction false} FlipTwice(u: int)
    requires 0 <= u < 0x1_0000_0000
    ensures Flip(Flip(u)) == u
  {
    hide Flip;
    var x := u / 256;
    var y := x / 256;
    var a, b, c, d := y / 256, y % 256, x % 256, u % 256;
    FlipBytes(u, x, y, a, b, c, d);
    var v := Flip(u);
    var y' := 256 * d + c;
    var x' := 256 * y' + b;
    FlipBytes(v, x', y', d, c, b, a);
  }

  lemma {:induction false} HtonlTwice(v: int)
    requires Int32(v)
    ensures Htonl(Htonl(v)) == v
  {
    hide Flip;
    FlipTwice(if v < 0 then v + 0x1_0000_0000 else v);
  }

  /** In two's complement v has these four bytes, the most significant one first. */
  ghost predicate HasBytes(v: int, a: int, b: int, c: int, d: int) {
    && 0 <= a < 256 && 0 <= b < 256 && 0 <= c < 256 && 0 <= d < 256
    && -0x8000_0000 <= v < 0x8000_0000
    && (v == 0x100_0000 * a + 0x1_0000 * b + 0x100 * c + d || v == 0x100_0000 * a + 0x1_0000 * b + 0x100 * c + d - 0x1_0000_0000)
  }

  /** s holds the bytes of v the other way round: stored by a little-endian host it is v on the
      wire. */
  ghost predicate Reversed(v: int, s: int) {
    forall a, b, c, d :: HasBytes(v, a, b, c, d) ==> HasBytes(s, d, c, b, a)
  }

  lemma {:induction false} HtonlReverses(v: int)
    requires Int32(v)
    ensures Reversed(v, Htonl(v))
  {
    forall a, b, c, d | HasBytes(v, a, b, c, d)
      ensures HasBytes(Htonl(v), d, c, b, a)
    {
      var u := if v < 0 then v + 0x1_0000_0000 else v;
      assert u == Bytes4(a, b, c, d);
      FlipBytes(u, 256 * (256 * a + b) + c, 256 * a + b, a, b, c, d);
      hide Flip;
      assert Flip(u) == 0x100_0000 * d + 0x1_0000 * c + 0x100 * b + a;
    }
  }

  /** Every int has four bytes, so that Reversed says something of each. */
  lemma {:induction false} EveryIntHasBytes(v: int) returns (a: int, b: int, c: int, d: int)
    requires Int32(v)
    ensures HasBytes(v, a, b, c, d)
  {
    var u := if v < 0 then v + 0x1_0000_0000 else v;
    d := u % 256;
    c := u / 256 % 256;
    b := u / 256 / 256 % 256;
    a := u / 256 / 256 / 256;
  }

  // ---------- the two conversions ----------

  const NO_FILE: seq<byte> := Zeros(MAX_FILENAME)

  /** The first n files; what follows is what memset left. */
  function FilesOf(files: seq<seq<byte>>, n: int): (r: seq<seq<byte>>)
    ensures |r| == MAX_FILES
    ensures forall i :: 0 <= i < |r| ==> r[i] == if i < n && i < |files| then files[i] else NO_FILE
  {
    var m := Min(Max(0, n), Min(MAX_FILES, |files|));
    files[..m] + Repeat(MAX_FILES - m, NO_FILE)
  }

  function Swapped(t: TaskRecord): TaskRecord
    requires Int32(t.starttime) && Int32(t.share)
  {
    TaskRecord(Htonl(t.starttime), Htonl(t.share), t.file)
  }

  const NO_TASK := TaskRecord(0, 0, NO_FILE)

  function SwappedUpTo(tasks: seq<TaskRecord>, n: int): (r: seq<TaskRecord>)
    requires |tasks| == MAX_FILES && n <= MAX_FILES && forall t <- tasks :: Int32(t.starttime) && Int32(t.share)
    ensures |r| == Max(0, n)
    ensures forall i :: 0 <= i < |r| ==> r[i] == Swapped(tasks[i])
  {
    if n <= 0 then [] else SwappedUpTo(tasks, n - 1) + [Swapped(tasks[n - 1])]
  }

  /** The first n tasks in the other byte order, and nothing behind them. */
  function TasksOf(tasks: seq<TaskRecord>, n: int): (r: seq<TaskRecord>)
    requires |tasks| == MAX_FILES && n <= MAX_FILES && forall t <- tasks :: Int32(t.starttime) && Int32(t.share)
    ensures |r| == MAX_FILES
    ensures forall i :: 0 <= i < MAX_FILES ==> r[i] == if i < n then Swapped(tasks[i]) else NO_TASK
  {
    SwappedUpTo(tasks, n) + Repeat(MAX_FILES - Max(0, n), NO_TASK)
  }

  function Converted(c: Record, numfiles: int, numtasks: int): Record
    requires WellFormed(c.(numfiles := numfiles, numtasks := numtasks)) && Int32(c.numfiles) && Int32(c.numtasks)
  {
    Record(Htonl(c.id), Htonl(c.pktdelay), Htonl(c.pktprob), Htonl(c.reqtimeout), Htonl(c.numfiles), Htonl(c.numtasks),
           FilesOf(c.files, numfiles), TasksOf(c.tasks, numtasks))
  }

  /** All numbers of s are those of c in the other byte order; so are the first numtasks tasks, the
      first numfiles files are the same, and behind them is nothing. */
  ghost predicate InOtherOrder(c: Record, s: Record, numfiles: int, numtasks: int) {
    && Reversed(c.id, s.id) && Reversed(c.pktdelay, s.pktdelay) && Reversed(c.pktprob, s.pktprob)
    && Reversed(c.reqtimeout, s.reqtimeout) && Reversed(c.numfiles, s.numfiles) && Reversed(c.numtasks, s.numtasks)
    && |s.files| == |s.tasks| == 25
    && (forall i :: 0 <= i < 25 && i < numfiles ==> i < |c.files| && s.files[i] == c.files[i])
    && (forall i :: 0 <= i < 25 && i >= numfiles ==> Blank(s.files[i]))
    && (forall i :: 0 <= i < 25 && i < numtasks ==> i < |c.tasks| && TaskInOtherOrder(c.tasks[i], s.tasks[i]))
    && (forall i :: 0 <= i < 25 && i >= numtasks ==> s.tasks[i].starttime == s.tasks[i].share == 0 && Blank(s.tasks[i].file))
  }

  /** 33 zeros. */
  ghost predicate Blank(field: seq<byte>) {
    |field| == 33 && forall k :: 0 <= k < 33 ==> field[k] == 0
  }

  ghost predicate TaskInOtherOrder(t: TaskRecord, s: TaskRecord) {
    Reversed(t.starttime, s.starttime) && Reversed(t.share, s.share) && s.file == t.file
  }

  lemma {:induction false} ConvertedIsReversed(c: Record, numfiles: int, numtasks: int)
    requires WellFormed(c.(numfiles := numfiles, numtasks := numtasks)) && Int32(c.numfiles) && Int32(c.numtasks)
    ensures InOtherOrder(c, Converted(c, numfiles, numtasks), numfiles, numtasks)
  {
    hide Htonl, Reversed;
    HtonlReverses(c.id);
    HtonlReverses(c.pktdelay);
    HtonlReverses(c.pktprob);
    HtonlReverses(c.reqtimeout);
    HtonlReverses(c.numfiles);
    HtonlReverses(c.numtasks);
    var s := Converted(c, numfiles, numtasks);
    forall i | 0 <= i < 25 && i < numtasks
      ensures TaskInOtherOrder(c.tasks[i], s.tasks[i])
    {
      assert c.tasks[i] in c.tasks;
      HtonlReverses(c.tasks[i].starttime);
      HtonlReverses(c.tasks[i].share);
    }
  }

  /** The counts rule the loops as they are in the host's byte order: before the conversion when
      sending ... */
  method SerializeClient(client: Record) returns (s: Record)
    requires WellFormed(client)
    ensures s == Converted(client, client.numfiles, client.numtasks)
    ensures InOtherOrder(client, s, client.numfiles, client.numtasks)
  {
    ConvertedIsReversed(client, client.numfiles, client.numtasks);
    hide Converted, InOtherOrder;
    s := Convert(client, client.numfiles, client.numtasks);
  }

  /** ... and after it when receiving. */
  method DeserializeClient(client: Record) returns (s: Record)
    requires Int32(client.numfiles) && Int32(client.numtasks)
    requires WellFormed(client.(numfiles := Htonl(client.numfiles), numtasks := Htonl(client.numtasks)))
    ensures s == Converted(client, Htonl(client.numfiles), Htonl(client.numtasks))
    ensures InOtherOrder(client, s, s.numfiles, s.numtasks)
  {
    ConvertedIsReversed(client, Htonl(client.numfiles), Htonl(client.numtasks));
    hide InOtherOrder;
    s := Convert(client, Htonl(client.numfiles), Htonl(client.numtasks));
  }

  method Convert(c: Record, numfiles: int, numtasks: int) returns (s: Record)
    requires WellFormed(c.(numfiles := numfiles, numtasks := numtasks)) && Int32(c.numfiles) && Int32(c.numtasks)
    ensures s == Converted(c, numfiles, numtasks)
  {
    hide Htonl, FilesOf, TasksOf;
    var files := CopyFiles(c.files, numfiles);
    var tasks := ConvertTasks(c.tasks, numtasks);
    s := Record(Htonl(c.id), Htonl(c.pktdelay), Htonl(c.pktprob), Htonl(c.reqtimeout), Htonl(c.numfiles), Htonl(c.numtasks),
                files, tasks);
  }

  method CopyFiles(from: seq<seq<byte>>, n: int) returns (r: seq<seq<byte>>)
    requires |from| == MAX_FILES && n <= MAX_FILES
    ensures r == FilesOf(from, n)
  {
    hide Zeros, FilesOf;
    var files := new seq<byte>[MAX_FILES](_ => NO_FILE);
    var i := 0;
    while i < n
      invariant 0 <= i <= Max(0, n)
      invariant forall j :: 0 <= j < MAX_FILES ==> files[j] == if j < i then from[j] else NO_FILE
    {
      files[i] := from[i];
      i := i + 1;
    }
    r := files[..];
    assert r == FilesOf(from, n);
  }

  method ConvertTasks(from: seq<TaskRecord>, n: int) returns (r: seq<TaskRecord>)
    requires |from| == MAX_FILES && n <= MAX_FILES && forall t <- from :: Int32(t.starttime) && Int32(t.share)
    ensures r == TasksOf(from, n)
  {
    hide Htonl, Zeros, TasksOf;
    var tasks := new TaskRecord[MAX_FILES](_ => NO_TASK);
    var i := 0;
    while i < n
      invariant 0 <= i <= Max(0, n)
      invariant forall j :: 0 <= j < MAX_FILES ==> tasks[j] == if j < i then Swapped(from[j]) else NO_TASK
    {
      assert from[i] in from;
      tasks[i] := TaskRecord(Htonl(from[i].starttime), Htonl(from[i].share), from[i].file);
      i := i + 1;
    }
    r := tasks[..];
    assert r == TasksOf(from, n);
  }

  // ---------- the round trip ----------

  /** The record without the entries behind its counts. */
  function Live(c: Record): Record {
    c.(files := FilesOf(c.files, c.numfiles),
       tasks := seq(MAX_FILES, i => if i < c.numtasks && 0 <= i < |c.tasks| then c.tasks[i] else NO_TASK))
  }

  /** What is sent can be received. */
  lemma {:induction false} SentIsWellFormed(c: Record)
    requires WellFormed(c)
    ensures var s := Converted(c, c.numfiles, c.numtasks);
      WellFormed(s.(numfiles := Htonl(s.numfiles), numtasks := Htonl(s.numtasks)))
  {
    hide Htonl;
    HtonlTwice(c.numfiles);
    HtonlTwice(c.numtasks);
    var s := Converted(c, c.numfiles, c.numtasks);
    forall f | f in s.files
      ensures |f| == MAX_FILENAME
    {
      var i :| 0 <= i < |s.files| && s.files[i] == f;
      if i < c.numfiles { assert c.files[i] in c.files; }
    }
    forall t | t in s.tasks
      ensures Int32(t.starttime) && Int32(t.share) && |t.file| == MAX_FILENAME
    {
      var i :| 0 <= i < |s.tasks| && s.tasks[i] == t;
      if i < c.numtasks { assert c.tasks[i] in c.tasks; }
    }
  }

  /** The client receives the manager's record: every number, and every file and task that
      counts. */
  lemma {:induction false} RecordRoundTrip(c: Record)
    requires WellFormed(c)
    ensures var s := Converted(c, c.numfiles, c.numtasks);
      && WellFormed(s.(numfiles := Htonl(s.numfiles), numtasks := Htonl(s.numtasks)))
      && Converted(s, Htonl(s.numfiles), Htonl(s.numtasks)) == Live(c)
  {
    hide Htonl;
    SentIsWellFormed(c);
    var s := Converted(c, c.numfiles, c.numtasks);
    HtonlTwice(c.id);
    HtonlTwice(c.pktdelay);
    HtonlTwice(c.pktprob);
    HtonlTwice(c.reqtimeout);
    HtonlTwice(c.numfiles);
    HtonlTwice(c.numtasks);
    var tasks := TasksOf(s.tasks, c.numtasks);
    forall i | 0 <= i < MAX_FILES
      ensures tasks[i] == Live(c).tasks[i]
    {
      if i < c.numtasks {
        assert c.tasks[i] in c.tasks;
        HtonlTwice(c.tasks[i].starttime);
        HtonlTwice(c.tasks[i].share);
      }
    }
    assert tasks == Live(c).tasks;
    assert FilesOf(s.files, c.numfiles) == Live(c).files;
  }
}
