/** When a client gives up: its two counters against the history of what happened to it. */
module Termination {
  import opened Basics
  import opened Wire
  import Client

  function History(build: Build, st: Client.State, inputs: seq<Client.Input>): Client.State {
    if inputs == [] then st
    else Client.Step(build, History(build, st, inputs[..|inputs| - 1]), inputs[|inputs| - 1]).0
  }

  /** A CLNT_INFO_REQ or CLNT_SEG_REQ comes in. */
  predicate IsRequest(input: Client.Input) {
    input.Receive? && match ReadClient(input.mem)
      case None => false
      case Some(m) => m.InfoReq? || m.SegReq?
  }

  /** A CLNT_SEG_REP comes in. */
  predicate IsReply(input: Client.Input) {
    input.Receive? && match ReadClient(input.mem)
      case None => false
      case Some(m) => m.SegRep?
  }

  /** The number of interest ticks after the last input of the given sort. */
  function TicksSince(inputs: seq<Client.Input>, requests: bool): nat {
    if inputs == [] then 0 else
      var last := inputs[|inputs| - 1];
      if (if requests then IsRequest(last) else IsReply(last)) then 0
      else TicksSince(inputs[..|inputs| - 1], requests) + if last.InterestTick? then 1 else 0
  }

  function Ticks(inputs: seq<Client.Input>): nat {
    if inputs == [] then 0
    else Ticks(inputs[..|inputs| - 1]) + if inputs[|inputs| - 1].InterestTick? then 1 else 0
  }

  lemma {:induction false} AssignKeepsCounters(st: Client.State, files: seq<FileEntry>)
    ensures var st' := Client.OnAssign(st, files);
      st'.updates == st.updates && st'.progress == st.progress && st'.status == st.status
    decreases files
  {
    if files != [] { AssignKeepsCounters(st, files[..|files| - 1]); }
  }

  lemma {:induction false} PlanKeepsCounters(build: Build, st: Client.State, n: nat, rands: seq<nat>, tail: Name)
    requires n <= |st.downloads|
    ensures var st' := Client.PlanAll(build, st, n, rands, tail).0;
      st'.updates == st.updates && st'.progress == st.progress && st'.status == st.status
  {
    if n > 0 { PlanKeepsCounters(build, st, n - 1, rands, tail); }
  }

  /** What one input does to the counters of a client that stays up. */
  lemma {:induction false} StepCounts(build: Build, st: Client.State, input: Client.Input)
    requires st.status.Running? && Client.Step(build, st, input).0.status.Running?
    ensures var st' := Client.Step(build, st, input).0;
      && st'.updates == (if IsRequest(input) then 0 else st.updates + if input.InterestTick? then 1 else 0)
      && st'.progress == (if IsReply(input) then 0 else st.progress + if input.InterestTick? then 1 else 0)
  {
    match input
    case SegmentTick(rands, tail) => PlanKeepsCounters(build, st, |st.downloads|, rands, tail);
    case Receive(mem, from, junk) =>
      if ReadClient(mem).Some? {
        HandleCounts(st, ReadClient(mem).value, from, junk);
      }
    case _ =>
  }

  lemma {:induction false} HandleCounts(st: Client.State, m: Msg, from: int, junk: seq<byte>)
    requires Client.Handle(st, m, from, junk).0.status.Running?
    ensures var st' := Client.Handle(st, m, from, junk).0;
      && st'.updates == (if m.InfoReq? || m.SegReq? then 0 else st.updates)
      && st'.progress == (if m.SegRep? then 0 else st.progress)
  {
    if m.GroupAssign? { AssignKeepsCounters(st, m.files); }
  }

  /** sc_numGroupUpdates counts the interest ticks since the last request from another client,
      sc_numDownloadProgress those since the last segment. */
  lemma {:induction false} CountersCountTicks(build: Build, st: Client.State, inputs: seq<Client.Input>)
    requires st.updates == st.progress == 0 && History(build, st, inputs).status.Running?
    ensures History(build, st, inputs).updates == TicksSince(inputs, true)
    ensures History(build, st, inputs).progress == TicksSince(inputs, false)
    decreases inputs
  {
    if inputs != [] {
      CountersCountTicks(build, st, inputs[..|inputs| - 1]);
      StepCounts(build, History(build, st, inputs[..|inputs| - 1]), inputs[|inputs| - 1]);
    }
  }

  /** A running client exits at a tick exactly when all its downloads are done and nobody asked
      it for two ticks, or no segment came for four; and at no other input. */
  lemma {:induction false} ExitsExactlyWhen(build: Build, st: Client.State, inputs: seq<Client.Input>, input: Client.Input)
    requires st.updates == st.progress == 0 && History(build, st, inputs).status.Running?
    ensures var now := History(build, st, inputs);
      Client.Step(build, now, input).0.status.Exited? <==>
        input.InterestTick? &&
        ((TicksSince(inputs, true) >= 2 && forall k :: 0 <= k < |now.downloads| ==> now.downloads[k].done) || TicksSince(inputs, false) >= 4)
  {
    CountersCountTicks(build, st, inputs);
    OnlyTicksExit(build, History(build, st, inputs), input);
  }

  lemma {:induction false} OnlyTicksExit(build: Build, st: Client.State, input: Client.Input)
    requires st.status.Running?
    ensures Client.Step(build, st, input).0.status.Exited? <==>
      input.InterestTick? && ((st.updates >= 2 && forall k :: 0 <= k < |st.downloads| ==> st.downloads[k].done) || st.progress >= 4)
  {
    assert Client.AllDone(st.downloads) <==> forall k :: 0 <= k < |st.downloads| ==> st.downloads[k].done by {
      assert forall k :: 0 <= k < |st.downloads| ==> st.downloads[k] in st.downloads;
    }
    match input
    case SegmentTick(rands, tail) => PlanKeepsCounters(build, st, |st.downloads|, rands, tail);
    case Receive(mem, from, junk) =>
      if ReadClient(mem).Some? { HandlingNeverExits(st, ReadClient(mem).value, from, junk); }
    case _ =>
  }

  lemma {:induction false} HandlingNeverExits(st: Client.State, m: Msg, from: int, junk: seq<byte>)
    requires st.status.Running?
    ensures !Client.Handle(st, m, from, junk).0.status.Exited?
  {
    if m.GroupAssign? { AssignKeepsCounters(st, m.files); }
  }

  lemma {:induction false} WithoutReplies(inputs: seq<Client.Input>)
    requires forall input <- inputs :: !IsReply(input)
    ensures TicksSince(inputs, false) == Ticks(inputs)
    decreases inputs
  {
    if inputs != [] {
      assert inputs[|inputs| - 1] in inputs;
      WithoutReplies(inputs[..|inputs| - 1]);
    }
  }

  /** A client that never receives a segment is gone with its fifth tick. */
  lemma {:induction false} GoneByTheFifthTick(build: Build, st: Client.State, inputs: seq<Client.Input>)
    requires st.updates == st.progress == 0
    requires (forall input <- inputs :: !IsReply(input)) && Ticks(inputs) >= 5
    ensures !History(build, st, inputs).status.Running?
    decreases inputs
  {
    var front, last := inputs[..|inputs| - 1], inputs[|inputs| - 1];
    if History(build, st, front).status.Running? {
      if Ticks(front) >= 5 {
        GoneByTheFifthTick(build, st, front);
      } else {
        WithoutReplies(front);
        ExitsExactlyWhen(build, st, front, last);
      }
    }
  }
}
