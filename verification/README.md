# A model of a small BitTorrent-like swarm

The program is a tracker, up to 25 clients that share files over UDP, and the timer queue both run
on. The model has three layers, and proofs that tie them together.

**Values.** `Client.dfy` and `Tracker.dfy` say what each message handler and timer callback makes
of a process's tables. `Wire.dfy` lays the six message types out byte by byte and reads them back
at the offsets the C readers use. `Segments.dfy` cuts files into segments. `Swarm.dfy` puts a
tracker, 25 clients and a network together into a transition system: the network holds every
datagram ever sent, so a datagram may be lost, duplicated, delayed and reordered, and what lies in
memory behind a received datagram is arbitrary. `Invariant.dfy` is the inductive invariant;
`Tables.dfy`, `Handlers.dfy`, `Replies.dfy`, `Ticks.dfy`, `Planning.dfy` and `Reachable.dfy` prove
that every step keeps it. `Operations.dfy`, `TrackerOperations.dfy` and `Layout.dfy` say of each
handler, tick and packet what it does field by field, with the program's own numbers and without the
functions that model it; `Layout.dfy` also says of any memory what a reader takes it for. What follows
from the invariant is in `Safety.dfy`, `Knowledge.dfy`, `Progress.dfy`,
`OrderFree.dfy` and `Termination.dfy`.

The converse is in `Witness.dfy` and `Answers.dfy`: what the invariant does not exclude does happen
in some run, so that the conditions are exact, whatever the configuration. `Scenes.dfy`, `Runs.dfy`
and `Fetching.dfy` build those runs.

**Processes.** `ClientNode.dfy` and `TrackerNode.dfy` are the two programs in the form of the C
code: tables and counters that methods update in place, loops, packets filled and read at an
advancing offset (`PacketWriters.dfy`). Each callback is proved to do what the value layer says and
to put the bytes of its messages on the wire. `Processes.dfy` closes the circle: a process in a
reachable world, given one event, ends in the state of the next world, and what it sends is in that
world's network. `Bootstrap.dfy` is the record with which a client is started.

**Timers.** `EventQueue.dfy` is the singly linked list with real `next` pointers and a ghost
sequence; `Timers.dfy` the class on top of it, with callbacks that add and remove timers while they
run; `TimerTheorems.dfy` proves it to be a set of live timers of which a soonest one runs next.
`Timeval.dfy` is the second/microsecond arithmetic, `TrackerLoop.dfy` the tracker's loop.

## Two builds

README:69-75 of the program says that downloaded files have the right size but are corrupted. The
model explains it. It has two builds, and what a row says holds for both unless it names one.
`Shipped` is the code as it stands; `Mended` has the evident meaning of five places:

- the size of a file's last segment, `abs(size - 32 * n)` (Client.c:1462);
- the segment sizes of a finished download, 10240 each and a wrong last one (Client.c:584-590);
- the length of CLNT_SEG_REP, which counts three of its five shorts, so that the last four payload
  bytes are not sent (Client.c:396 against 405-424);
- the interest type that no branch assigns for a file held but not shared (Client.c:1166-1177);
- the name of a finished download, copied without its terminating zero (Client.c:582).

In the mended build a written file is the original up to the size that fits the wire
(`Safety.WrittenFilesAreTrue`). In the shipped build it has the right size, and it is certain to be
the original exactly if the file has at most 14 bytes (`Witness.ShippedIsFaithfulIff`). The first 28
bytes of every full segment are certain exactly if no reply can be mistaken for one of another
segment (`Witness.HeadsKeptIff`). A reply of at most one byte is cut inside its segment number; a
seeder sends one for the last segment if `size % 32 == 31`, which spoils another segment unless
`size / 32` is a multiple of 256, and a client that has downloaded the file sends one if the size is
63581 or 63582 modulo 65536. A shipped client that has downloaded a file goes down when it is asked
for any segment but the last, and mostly for that one too (`Witness.ServingCrashesIff`).

A sixth place, `group = &st_groups[i]` inside the loop over `j` (Tracker.c:190), is part of the
shipped `TrackerNode`, but the tracker of the swarm always answers with the group that matches.
`Answers.IndexIsRightIff` says for which configurations that makes no difference in any run: all
tasks are for one file and no client has two, or nobody has a task for a file it starts with or
offers to share. Rows about the shipped build, the tracker's answers included, are about the code as
it stands in these configurations, and about the code with that one index mended in the others.

In both builds a file size goes through `htons` and survives modulo 65536. The program's own limit
is 10240 segments, about 320 kB; between 64 kB and that limit even the mended build delivers the
first `size % 65536` bytes, and `Safety.WrittenFilesAreTrue` states that the file is right exactly
if it has fewer than 65536.

## What is assumed of a configuration

`Swarm.ConfigOk`: each client has one fixed port, all distinct and none of them the tracker's; there
are at most 25 file names, and none begins another one (the lookups compare `strlen` bytes of one of
the names); all owners of a name hold the same content, of at most 10240 segments; files and tasks
name known files; no client is given a file twice; a client has at most 25 tasks. Datagrams are those
the modelled writers produce.

A client *may come to share* a file (`Invariant.MayShare`) in the mended build if one of its tasks
for the file has share flag 1; in the shipped build if one has a share flag other than 0, or it has
any task for it and starts with it or can download it. `Witness.ListedIff` proves these to be exactly
the clients the tracker can ever list.

## Model

| member | source | states |
|---|---|---|
| `Safety.WrittenFilesAreTrueWhereCarried` | Client.c:509-596 | In every world reachable under loss, duplication, delay and reordering, a file a client wrote has the size the network knows and, unless its size is one of those a cut reply spoils (`Invariant.TameSizes`; none in the mended build), the original's byte at every position that replies carry |
| `Safety.WrittenIsFetched` | Client.c:543-549 | Only a client with a task for a file it did not start with writes it, and only if another one starts with it and has a task for it |
| `Safety.WrittenFilesAreTrue` | Client.c:531-596 | Mended: a written file is the original up to the size that fits the wire, and is the whole original if and only if that is below 65536 bytes |
| `Safety.ShippedFilesKeepSizeAndHeads` | README:69-75 | Shipped: the size is right, and so are the first 28 bytes of every full segment unless the size is one of those a cut reply spoils |
| `Safety.DoneMeansHeld` | Client.c:560-596 | Mended: a download marked done has its file in the owned-files table, and the memory behind that entry is the original content, also when it is the download's own buffer |
| `Safety.WrittenOnce` | Client.c:560-594 | No client writes a file twice in any run |
| `Safety.OwnedOnce` | Client.c:578-593 | No file is found at two entries of a client's owned-files table: each finished download is entered once, with a buffer of its own |
| `Safety.TablesFit` | Tracker.c:345 | In every reachable world the tables of owned files and of groups, of clients and tracker, stay within their 25 slots |
| `Safety.RequestsReachOwners` | Client.c:370-394 | Every CLNT_SEG_REQ in flight finds its file owned by its addressee, for a segment the file has: the size-0 reply is unreachable |
| `Safety.SourcesAreOwners` | Client.c:614-624 | Every entry of segmentToClient other than 25 names a client that owns the file, and the port a request goes to is that client's |
| `Safety.LeechersNeverServe` | Client.c:936-1020 | A client that may not come to share a file is never asked for it and never sends segment lists or segments of it |
| `Safety.LeechersAreNotListed` | Client.c:1711-1769 | Nor does the tracker, any other client's group table or any segmentToClient name it |
| `Safety.AddressTablesAreBijections` | Client.c:181-201 | In every reachable world the address tables hold at most 25 entries, ports are the right ones, and the two lookups are each other's inverse although one path adds by port and the other by id |
| `Safety.MendedNeverCrashes` | Client.c:382-394 | Mended: no run ever copies a segment outside its buffer |
| `Witness.ServingCrashesIff` | Client.c:382-394 | Shipped: asked for a segment, a running client goes down if and only if it has the segment, did not start with the file, and the size it stored for the segment is 10240 or outside 0..32 |
| `Witness.CrashHappensIff` | Client.c:584-590 | Shipped: some run has a client go down over a file if and only if a client with a task starts with it, two others are to download it, and its size as the network knows it is neither 0 nor 31 |
| `Knowledge.KnowledgeIsContained` | Client.c:1748-1769 | In every reachable world whoever a client lists as another sharer, or an in-flight GROUP_ASSIGN names, is in the tracker's sharing set for that file, and that holds only clients that may come to share it |
| `Knowledge.TrackerTellsRun` | Tracker.c:297-371 | After every run the tracker's groups are exactly what the announcements delivered to it say: distinct names, sharing the clients that announced type 1 or 2, downloading those that announced type 0 or 1, and the first nonzero size |
| `Witness.ListedIff` | Client.c:1166-1177 | A run exists in which the tracker lists a client as sharing a file if and only if it may come to share it |
| `Reachable.RunKeepsInv` | Client.c:1561-1655 | Every run from the start keeps the invariant over all clients, the tracker and all six message types in flight |
| `Reachable.DeliveryOk` | Client.c:1620-1650 | Every datagram that arrives is readable, and handling it, whatever lies behind it in memory, is a move the invariant allows |
| `Reachable.OnInterestOk` | Tracker.c:235-371 | Handling an interest keeps the tracker's databases true to the configuration, and so is the answer |
| `Reachable.StartOk` | Client.c:1424-1528 | The tables set up at start satisfy the invariant |
| `Replies.OnSegReqOk` | Client.c:313-437 | Serving a request is a move the invariant allows: unless a cut reply spoils files of this size the answer has the file's own bytes at every carried position |
| `Replies.OnSegRepOk` | Client.c:855-934 | Applying a reply keeps every set have-bit true, with the same reservation: its segment of the buffer is the file's wherever it is carried |
| `Replies.ReplyArrives` | Client.c:861-883 | A reply that was sent, cut short or not, is read with fields the invariant allows |
| `Handlers.OnInfoReqOk` | Client.c:204-311 | Answering CLNT_INFO_REQ is a move the invariant allows: only owners advertise segments |
| `Handlers.OnInfoRepOk` | Client.c:773-831 | Noting advertised segments leaves only owners as sources |
| `Ticks.OnAssignOk` | Client.c:1658-1769 | GROUP_ASSIGN keeps the invariant: sizes, buffers, addresses and sharers learned are the configured ones |
| `Ticks.OnInterestTickOk` | Client.c:1078-1187 | Announcing keeps the invariant: only tasks are announced, sizes are the known ones, and types 1 and 2 come only from clients that may come to share the file |
| `Ticks.AskInfoOk` | Client.c:936-1020 | Segment lists are asked only of other clients that may come to share the file, at their own ports |
| `Ticks.AskInfoIff` | Client.c:945-1017 | A CLNT_INFO_REQ goes out if and only if it is for a download of known size and to another client that a group of that name lists as sharing |
| `Ticks.LearnSizeSparesOwnedBuffers` | Client.c:1690-1703 | The buffer newly allocated for a learned size never replaces one that an owned file shares |
| `Planning.PlanAllOk` | Client.c:531-664 | A planning tick keeps the invariant: what it registers as owned is complete, and what it requests is owned by the addressee |
| `Planning.MissingIsExact` | Client.c:598-604 | The compaction loop lists exactly the missing segments, ascending |
| `Planning.RequestsAreMissing` | Client.c:606-661 | For any outcomes of rand() and any number of draws at most that many requests go out, each for a missing segment and to the client that advertised it; that there are min(8, missing) draws is `Operations.PlanIsTurn` |
| `Planning.EveryDrawCounts` | Client.c:611-621 | Conversely every draw that hits an advertised segment leads to its request |
| `Progress.NothingIsLost` | Client.c:539-596 | Along every run no have-bit of a sized download is cleared, no done flag undone, no owned or written file, address or listed sharer lost, and no known size of a group changed |
| `Progress.FreshReplyHelps` | Client.c:891-903 | A reply for a missing segment makes the number of missing segments strictly smaller |
| `Progress.MissingShrinks` | Client.c:552-558 | Setting have-bits never increases the number of missing segments, and a new bit decreases it |
| `Progress.CompleteIsFinished` | Client.c:560-594 | The next planning tick marks a complete download done, writes its buffer out under its name and enters it among the owned files |
| `Operations.InfoRequestIs` | Client.c:204-311 | CLNT_INFO_REQ: the idle count is 0, the sender on file by its port; one answer, naming segments 0 to n - 1 of the first owned file whose name the wanted one begins with, if there is one with n other than 0; nothing else changes |
| `Operations.InfoReplyIs` | Client.c:773-831 | CLNT_INFO_REP: exactly the segments named get the sender as their source, in the first download of the name only; the progress and idle counts stay |
| `Operations.SegmentRequestIs` | Client.c:313-437 | CLNT_SEG_REQ: no answer for a segment the first download of the name does not have; otherwise as many bytes as the table says from offset 32 * segment, size 0 if the file is not owned, and the end of the process above 32 |
| `Operations.SegmentReplyIs` | Client.c:855-918 | CLNT_SEG_REP: the progress count is 0; in every download of the name the bytes from 32 * segment on are the payload's, all others as before, and that bit alone is set; a missing buffer is made of zeros |
| `Operations.EntryIs` | Client.c:1658-1769 | A file of a GROUP_ASSIGN: the first download of the name, if its size is 0 and the file's is not, gets the size, size / 32 + 1 segments, no bits and a buffer of zeros; the addresses of new ids are appended in order; the first group of the name keeps its sharers and gains the neighbours, or one is made |
| `Operations.AssignmentIsFold` | Client.c:1672-1746 | A GROUP_ASSIGN of many files is so many of one file, in order |
| `Operations.AssignmentLists` | Client.c:1748-1769 | On names of which none begins another: after a GROUP_ASSIGN a client is listed as sharing a file if and only if it was before or an entry for the file names it |
| `Progress.AssignmentListsExactly` | Client.c:1748-1769 | In every reachable world, when a GROUP_ASSIGN arrives, the clients listed as sharing a file are then those listed before and those the message names for it, and no others |
| `Progress.SenderIsOnFile` | Client.c:220-238 | In every reachable world whoever asks a running client for a file's segments or for one of them is then on file there, with its own port |
| `Operations.InterestTickIs` | Client.c:1078-1205 | The interest tick: exit if all downloads are done and the idle count is at least 2, or the progress count at least 4; else both go up by 1 and one packet goes to the tracker, with an item for each enabled download in order: its size, and type 0 or 1 by the share flag if it is not held, 2 if it is held and shared, unset otherwise. An enabled download that is held takes over the size and is done |
| `Operations.InfoTickIs` | Client.c:936-1020 | The info tick changes nothing and asks, download after download, if the size is not 0, once each other client below 25 that a group of the name lists, in order of ids, at the port on file or at 65535 |
| `Operations.PlanIsTurn` | Client.c:539-661 | The turn of a download: nothing if it is done, owned or without segments; finished if no segment is missing; else min(8, missing) draws, one request for each of an advertised segment: at most 8, at most as many as are missing, and exactly min(8, missing) if all that is missing is advertised |
| `Operations.SegmentTickIs` | Client.c:531-664 | A planning tick is these turns, one after the other, each in the state the last has left |
| `Operations.FinishFinishes` | Client.c:560-594 | Finishing changes the done flag of that download, appends its name and buffer to what is written, and one owned file with that buffer, 10240 for each segment but the last as it stands, 32 as it should |
| `Operations.StartIs` | Client.c:1421-1533 | At start: each file with its size, size / 32 + 1 segments and the build's table; each task's download, done with all segments if the file is held, else of no size; nobody a source; each file's group listing the client itself if the last task for it says so; no tasks, no process |
| `Operations.ReceiptIs` | Client.c:1620-1650 | A datagram that reads as no message changes nothing, any other is handled |
| `TrackerOperations.InterestIs` | Tracker.c:235-371 | GROUP_SHOW_INTEREST: the sender's address is kept if its id is new; each file in turn marks the first group of exactly its name, or a new one: downloading for types 0 and 1, sharing for 1 and 2, the first size that is not 0; the answer has, for each file asked for, its group's size and all sharers on file, ascending |
| `TrackerOperations.PacketIs` | Tracker.c:139-233 | The packet of either build: its length field is its length, 6 and for each request 39 and 20 a sharer; type 42; then what is written for each request, as it stands from st_groups[i] whatever its name, cut off or filled up with zeros |
| `Layout.InterestLayout` | Client.c:1111-1187 | GROUP_SHOW_INTEREST: 8 + 39 n bytes as the length field says, type 0, all numbers high byte first |
| `Layout.AssignLayout` | Tracker.c:166-231 | GROUP_ASSIGN: as long as the length field says, type 42, files of 39 bytes and neighbours of 20 at their offsets |
| `Layout.InfoRequestLayout` | Client.c:967-975 | CLNT_INFO_REQ: 39 bytes as the length field says, type 0 |
| `Layout.InfoReplyLayout` | Client.c:271-298 | CLNT_INFO_REP: type 1, the length field two more than the 41 + 2 n bytes of the fields |
| `Layout.SegmentRequestLayout` | Client.c:628-649 | CLNT_SEG_REQ: 41 bytes as the length field says, type 2 |
| `Layout.SegmentReplyLayout` | Client.c:396-424 | CLNT_SEG_REP: type 3, 43 bytes and the payload; the length field, and as it stands what is sent, is four bytes short |
| `Layout.ClientReadsIff` | Client.c:1620-1650 | Whatever stands in memory, a client takes it for a message if and only if type, numbers, names and counted records stand at that message's offsets; negative counts read as none |
| `Layout.TrackerReadsIff` | Tracker.c:243-314 | The tracker takes a packet for an interest of n files if and only if sender, count and n records of 39 bytes stand at their offsets |
| `OrderFree.OrderDoesNotMatter` | Client.c:891-903 | Two sequences of genuine replies that cover the same segments, in any order and multiplicity, leave the same download |
| `OrderFree.AllSegmentsRestoreFile` | Client.c:891-903 | Replies for all segments restore the file |
| `OrderFree.LateDuplicateIsHarmless` | Client.c:578-593 | A late duplicate leaves a finished buffer, and the owned file that shares it, unchanged |
| `Termination.CountersCountTicks` | Client.c:1106-1107 | The two counters are the numbers of interest ticks since the last request from another client and since the last segment |
| `Termination.ExitsExactlyWhen` | Client.c:1083-1100 | A running client exits at an input if and only if it is an interest tick and the done flag of every download is set with the first count at least 2, or the second is at least 4 |
| `Termination.GoneByTheFifthTick` | Client.c:1097-1100 | A client that never receives a segment is gone with its fifth tick |
| `Witness.DownloadHappens` | Client.c:1561-1655 | In every configuration, for every file a client announces as shared from the start and every client that is to download it, and every byte lying behind packets, a run exists that writes the file, each byte being the original's as far as replies carry it and that byte as far as they announce |
| `Witness.MendedDownloadHappens` | Client.c:1561-1655 | Mended: in every such case a run exists that delivers the file as far as it fits the wire |
| `Witness.EveryFileCanBeShared` | README:69-75 | Every content of 1 to 65535 bytes has a configuration and a run of the mended build that ends with it written, whole, by a client that did not have it |
| `Witness.ShippedIsFaithfulIff` | README:69-75 | Shipped, in every configuration: all copies that any client ever writes of a file are faithful, in all reachable worlds, if and only if it has at most 14 bytes or cannot be had by anybody |
| `Witness.HeadsKeptIff` | Client.c:396-424 | Shipped, in every configuration: all copies keep the first 28 bytes of every full segment, in all reachable worlds, if and only if the file cannot be had, or neither a seeder's last reply can be taken for that of another segment nor, where several clients download it, a downloader's |
| `Fetching.CutMemoryReads` | Client.c:861-883 | Shipped: a reply of at most one byte can be read, from memory that starts with what was sent of it, as 32 arbitrary bytes for any segment whose number begins like what is left of its own |
| `Fetching.SpoilsLast` | Client.c:891-903 | Shipped: where the last segment's reply is cut like that, a run goes on to write the file with any such segment overwritten |
| `Invariant.TameSizes` | Client.c:1462 | The sizes for which a cut reply cannot spoil a segment, in closed form: not (size < 65536, size % 32 == 31 and size / 32 no multiple of 256), and where several clients download the file not 63581 or 63582 modulo 65536 |
| `Tables.MatchesIsEquality` | Client.c:174 | On prefix-free names comparing strlen of one name is equality, whichever name it is |
| `Tables.AddrsFit` | Client.c:230-238 | A table of distinct ids below 25 has at most 25 entries |
| `Tables.PortIsId` | Client.c:181-201 | Looking up a client's port and looking up its id find the same entry |
| `Segments.SegmentsJoinToFile` | Client.c:1452-1463 | For every size the segments put end to end are the file |
| `Segments.SegmentOfByte` | Client.c:1454 | Each byte lies in exactly one segment, that of its offset divided by 32 |
| `Segments.MendedSizesAreLengths` | Client.c:1457-1463 | The mended tables, of a seeder and of a finished download alike, give every segment its length |
| `Segments.ShippedLastSize` | Client.c:1462 | The shipped last size is 32 - size % 32, right if and only if size % 32 is 16 |
| `Segments.MendedCarriesAll` | Client.c:396-424 | Mended replies carry every byte |
| `Segments.ShippedFullSegment` | Client.c:396-424 | Of a full segment the shipped reply carries exactly all but the last four bytes |
| `Segments.ShippedCarriesAll` | Client.c:396-424 | The shipped replies carry a whole file if and only if it has at most 14 bytes |
| `Wire.ClientRoundTrip` | Client.c:1620-1650 | Every message a client can receive is read back as it was written, from any memory that starts with its bytes; sizes modulo 65536 |
| `Wire.InterestRoundTrip` | Tracker.c:243-314 | The tracker reads every GROUP_SHOW_INTEREST back as it was written; sizes modulo 65536 |
| `Wire.AssignRoundTrip` | Client.c:1658-1746 | The client recovers name, size, sharers and ports of every file of a GROUP_ASSIGN |
| `Wire.ShippedReplyDropsFourBytes` | Client.c:396-424 | The shipped CLNT_SEG_REP is its full image without exactly the last four bytes |
| `Tracker.DatabaseTellsHistory` | Tracker.c:297-371 | After any sequence of announcements there is one group for each file announced and no other, and each group's sharing clients, downloading clients and size are exactly those that announced types 1 or 2, types 0 or 1, and the first nonzero size |
| `Tracker.MessageIsReplayed` | Tracker.c:293-371 | Handling a message of many files is replaying its announcements one by one |
| `Tracker.OrderAndDuplicationDoNotMatter` | Tracker.c:324-370 | Histories with the same announcements in any order and multiplicity give the same two sets |
| `TrackerPacket.TwoPassesAgree` | Tracker.c:139-233 | When all requested names and sharers' addresses are on file the fill pass writes exactly the counted bytes, they are the message's image, and the length fits an int16_t |
| `TrackerPacket.SizeFitsInt16` | Tracker.c:145-164 | For every database of 25 clients and request of 25 files the size fits an int16_t |
| `TrackerPacket.FilesAreAssignments` | Tracker.c:180-231 | The files of the packet are those of the swarm's answer |
| `TrackerPacket.ShippedPacketIsRightIff` | Tracker.c:189-191 | With the index as it stands the packet is the right one if and only if each request meets its own group at that index, or its group has nothing to tell and no neighbours of the wrong one get in the way |
| `Answers.IndexIsRightIff` | Tracker.c:189-191 | The shipped packet is the right one in all runs if and only if all tasks are for one file and no client has two, or no task is for a file its client starts with or offers to share |
| `Answers.InterestIsRecorded` | Tracker.c:286-304 | In every reachable world, when the answer to an interest is built, every requested name and sharer's address is on file, so the two passes agree in every run |
| `Processes.Serve` | Tracker.c:447-552 | One round of the tracker in a reachable world: its tables become those of the next world; and in the mended build, or where the shipped index is right in all runs, what it sends is the image of the packet that world gains |
| `Processes.Handle` | Client.c:1561-1655 | One event at a client in a reachable world: its tables become those of the next world, unless it crashes, and every datagram it sends is in that world's network |
| `Processes.DeliveredReads` | Client.c:1620-1650 | In a reachable world whatever is delivered to a client is one of the five messages it knows |
| `ClientNode.ClientProcess.constructor` | Client.c:1421-1533 | Loading files and preparing tasks by loops gives the start state |
| `ClientNode.ClientProcess.Act` | Client.c:1561-1655 | Whatever happens to a running client, its tables and the bytes of its datagrams are those of the model's step |
| `ClientNode.ClientProcess.Receive` | Client.c:1620-1650 | The dispatch on the message type does what the model's handler of the message read does |
| `ClientNode.ClientProcess.HandleTrackerGroupUpdate` | Client.c:1658-1769 | Reading files and neighbours at an advancing offset updates downloads, addresses and groups as the message says |
| `ClientNode.ClientProcess.HandleClientInfoRequest` | Client.c:204-311 | Resets the idle count, learns the sender and answers an owner's segment list, in bytes |
| `ClientNode.ClientProcess.HandleClientInfoReply` | Client.c:773-831 | Sets the source of each advertised segment in the first matching download, and learns the sender |
| `ClientNode.ClientProcess.HandleClientSegmentRequest` | Client.c:313-437 | Answers a segment it has, through the 32-byte buffer, in the bytes the build sends |
| `ClientNode.ClientProcess.HandleClientSegmentReply` | Client.c:855-918 | Copies the payload into the buffer of every matching download and sets its have-bit |
| `ClientNode.ClientProcess.SendClientSegmentRequests` | Client.c:531-664 | Finishes complete downloads and sends the drawn requests, download after download |
| `ClientNode.ClientProcess.SendClientInfoRequests` | Client.c:936-1020 | Asks each neighbour of each sized download, in bytes |
| `ClientNode.ClientProcess.SendInterestToTracker` | Client.c:1078-1205 | Exits or announces every enabled download in one packet, marking the files found among the owned ones |
| `ClientNode.ClientProcess.FinishDownload` | Client.c:560-594 | Marks, writes out and registers a complete download, sharing its buffer |
| `ClientNode.ClientProcess.GetClientPort` | Client.c:181-190 | The port of the id as an int16_t, or -1 |
| `ClientNode.ClientProcess.GetClientId` | Client.c:192-201 | The id at the port, or -1 |
| `ClientNode.CollectMissing` | Client.c:598-604 | The compaction into an array of the counted length yields the missing segments |
| `PacketWriters.WriteSegRep` | Client.c:396-424 | Fields and payload written into the buffer that was allocated leave exactly the bytes sent, also where the shipped buffer is too short |
| `PacketWriters.WriteInfoRep` | Client.c:271-298 | The packet, two bytes longer than its content, starts with the message's image |
| `PacketWriters.WriteSegReq` | Client.c:628-649 | The packet is the message's image |
| `PacketWriters.WriteInfoReq` | Client.c:967-975 | The packet is the message's image |
| `TrackerNode.TrackerProcess.HandleGroupUpdateRequest` | Tracker.c:235-371 | Reading an interest at an advancing offset updates addresses and groups as the history rules say and leaves the requested names in order |
| `TrackerNode.TrackerProcess.MeasureAssign` | Tracker.c:145-164 | The first pass counts the size-pass sum |
| `TrackerNode.TrackerProcess.CreateGroupAssignPkt` | Tracker.c:139-233 | Both passes leave the counted number of bytes: the header and what the build's second pass writes, cut off at the end of the buffer, zeros behind |
| `TrackerPacket.RightBytes` | Tracker.c:139-233 | These bytes are the image of the answer whenever what is written behind the header is right, as it always is with the index mended |
| `Bootstrap.RecordRoundTrip` | Client.c:1803-1853 | Deserialising what was serialised gives back every number and every file and task that counts |
| `Bootstrap.HtonlTwice` | Client.c:1807-1812 | Changing the byte order twice changes nothing, for every int |
| `Bootstrap.HtonlReverses` | Client.c:1807-1812 | If an int has the two's complement bytes a, b, c, d then htonl of it has d, c, b, a |
| `Bootstrap.EveryIntHasBytes` | Client.c:1807-1812 | Every int has four such bytes |
| `Bootstrap.SerializeClient` | Client.c:1803-1825 | Every number sent has the bytes of the host's the other way round; as many files and tasks as the unconverted counts say, and zeros behind them |
| `Bootstrap.DeserializeClient` | Client.c:1831-1853 | Every number read has the bytes of the one received the other way round; as many files and tasks as the converted counts say, and zeros behind them |
| `TimerTheorems.RunsArrangeLiveTimers` | timers.cc:325-401 | After any interleaving of adding, removing and running timers, callbacks included, the queue is sorted and holds each live timer once under its own handle below next_handle_, and a set of timers of which a soonest always runs allows these live timers |
| `TimerTheorems.ExpireArranges` | timers.cc:382-401 | The timer that runs is a soonest one, and keeps its handle if and only if its callback returns at least 0, whatever the callback adds or removes |
| `TimerTheorems.RemoveArranges` | timers.cc:341-373 | Removing a handle takes off exactly the timer with it, and finds it if and only if it is live |
| `TimerTheorems.InsertSplits` | timers.cc:167-183 | An event goes behind all earlier ones and before all not earlier, so ties run newest first, and nothing else moves |
| `TimerTheorems.RunsAreSortedByTime` | timers.cc:167-193 | With a normalised clock, and delays and callback results of at most 2147483 ms, for which the product with 1000 fits an int, every queue is sorted by real time, loose carry or not |
| `TimerTheorems.RunningTimerCannotBeRemoved` | timers.cc:382-401 | Removing its own handle from within a callback has no effect |
| `TimerLib.Timers.AddTimer` | timers.cc:325-334 | Returns a new handle and leaves the queue with the timer in its place |
| `TimerLib.Timers.RemoveTimer` | timers.cc:341-373 | Unlinks the timer with the handle, and returns whether there was one |
| `TimerLib.Timers.ExecuteNextTimer` | timers.cc:382-401 | Pops the head, lets its callback call back into the class, and queues the timer anew unless the result is negative |
| `EventQueues.EventQueue.EqAdd` | timers.cc:167-183 | Relinks the heap list so that it stays one chain without repetition with the event in its place |
| `EventQueues.EventQueue.EqPop` | timers.cc:185-193 | Unlinks and returns the head |
| `EventQueues.EventQueue.EqRemove` | timers.cc:264-290 | Unlinks exactly the event given, and tells whether it was queued |
| `EventQueues.EventQueue.EqFindNextEvent` | timers.cc:200-211 | The first event of the type from a node on |
| `EventQueues.NextTimerIsTimeLeft` | timers.cc:230-243 | The waiting time is what is left until the head is due, 0 if it is overdue, and 0x7ffffff seconds without a timer |
| `EventQueues.ZeroMeansDue` | timers.cc:230-254 | With a normalised clock the waiting time is zero if and only if there is a timer and it is due |
| `EventQueues.EventQueue.EqTopInPast` | timers.cc:246-254 | Whether the head is due; by a normalised clock that is when Eq_NextTimer answers zero |
| `Timevals.AddUsecsIsExact` | timers.cc:129-136 | Adding is exact, and seconds are carried if and only if there are more than 1000000 microseconds; exactly a million may be left uncarried, and when |
| `Timevals.DeadlineIsExact` | timers.cc:223-227 | A deadline is off by a multiple of 2^32 microseconds, and exact if and only if the product with 1000 fits an int |
| `Timevals.CmpRespectsTime` | timers.cc:98-105 | Also on uncarried values the order implies the weak order of real time; against a normalised one it is that order |
| `Timevals.SubIsTruncated` | timers.cc:108-126 | Subtraction is that of the totals, cut off at zero |
| `Timevals.DueEitherWay` | timers.cc:230-254 | Against a normalised clock comparing and subtracting agree on what is due |
| `Timevals.DueDisagreesOnLooseClock` | timers.cc:98-126 | They would not for a clock showing a million microseconds |
| `TrackerLoop.TicksAreApart` | Tracker.c:447-460 | With a monotone clock the tracker's timer never runs early: ticks are at least 30 s apart |
| `TrackerLoop.ExitsExactlyAfterSilence` | Tracker.c:42-51 | The tracker exits in a turn if and only if 30 s have passed since its last tick, there was one, and no packet came since |
| `TrackerLoop.LoopProcess.TakeTurn` | Tracker.c:455-495 | A turn of the loop over the timer class does what the loop model says |

## Left out

- Sockets, `select`, `fork`, the TCP bootstrap and logging: library and system calls. Delivery is "some datagram sent earlier is handled whole", so the 512-byte reassembly loops (Client.c:1592-1618, Tracker.c:497-520) do not appear.
- Reading and writing files: a file is a byte sequence, and a client's disk the list of the files it has written.
- `readMgrCfg` in Manager.h: tokenising; its result is the configuration.
- When callbacks run: a client's ticks and the enabling of its downloads may happen at any moment, since its loop runs the head timer whenever `select` times out, due or not (Client.c:1577-1579). The delay of replies and requests is part of the network's delay. Timing claims are about the tracker's loop.
- The clock and `rand()` are inputs. The timer classes take what a callback does, and what it returns, as a parameter.
- IP addresses are a constant 16-byte field; all hosts are one. The drop probability is stored but never used by the program.
- Memory: a write behind a heap block is lost, a read behind one gives arbitrary bytes, and only overrunning the 32-byte stack buffer, or a segment number out of range, ends a process (`Crashed`). After that nothing is claimed about its tables. The CLNT_INFO_REQ buffer, allocated two bytes short (Client.c:969), is written and sent as if it were long enough. Memory is never freed.
- `int` overflow of `next_handle_` is not modelled.
- Names echoed from a packet are written as the C string they start with, zero filled, as all writers pad them.
- A seeder's group arrays, cleared only up to its number of segments (Client.c:1471-1474), count as cleared.
- Aliasing of a finished download's buffer by its owned-file entry is kept as an index (`Client.Pointer`), and a client's tables are sequences in the fields of its process, not arrays of structs.
- Packets nobody of the modelled processes sends, and names of which one begins another.
- The shipped index of createGroupAssignPkt in the swarm: where `Answers.IndexIsRightIff` says it can go wrong, what clients make of the bytes that are then sent is not modelled; the bytes are (`TrackerPacket.AssignBytes`).
- Processes.Handle: says of a client that crashes only that it does.
- Safety.ShippedFilesKeepSizeAndHeads: leaves out the sizes a cut reply spoils, for which `Witness.HeadsKeptIff` shows it false.
