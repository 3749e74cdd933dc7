/**
  Reading one turn's answer off a WebSocket: which frames carry the response id and the output items,
  which one ends the turn, and what the client keeps of them as the baseline of its next delta.
 */
module Receiving {
  import opened Prelude
  import opened Json

  /** An output item that a replayed assistant turn would contain again. */
  predicate Replayable(item: Value)
  {
    GetStr(item, "type") in {Some("message"), Some("reasoning"), Some("function_call")}
  }

  function ResponseId(frame: Value): Option<string>
  {
    match Get(frame, "response")
    case Some(response) => GetStr(response, "id")
    case None => None
  }

  /** An in-band error event, in either of the shapes the backend uses. */
  predicate ErrorFrame(frame: Value)
  {
    || GetStr(frame, "type") == Some("error")
    || (Get(frame, "error").Some? && Get(frame, "error").value.Obj?)
  }

  predicate Terminal(frame: Value)
  {
    GetStr(frame, "type") in
    {Some("response.completed"), Some("response.incomplete"), Some("response.done"), Some("response.failed")}
  }

  predicate FailedEnd(frame: Value)
  {
    || GetStr(frame, "type") == Some("response.failed")
    || (Get(frame, "response").Some?
        && GetStr(Get(frame, "response").value, "status") in {Some("failed"), Some("cancelled")})
  }

  /** The frame on which the decoder finishes without an error. */
  predicate CleanEnd(frame: Value)
  {
    !ErrorFrame(frame) && Terminal(frame) && !FailedEnd(frame)
  }

  function OutputItem(frame: Value): Option<Value>
  {
    if GetStr(frame, "type") == Some("response.output_item.done") then Get(frame, "item") else None
  }

  /** Every output item the frames deliver, in order. */
  function Outputs(frames: seq<Value>): seq<Value>
  {
    if frames == [] then []
    else
      var last := |frames| - 1;
      Outputs(frames[..last]) + (match OutputItem(frames[last]) case Some(item) => [item] case None => [])
  }

  /** The items worth keeping as replay context. */
  function Harvest(items: seq<Value>): seq<Value>
  {
    if items == [] then []
    else
      var last := |items| - 1;
      Harvest(items[..last]) + (if Replayable(items[last]) then [items[last]] else [])
  }

  /** The last response id the frames name. */
  function LastId(frames: seq<Value>): Option<string>
  {
    if frames == [] then None
    else if ResponseId(frames[|frames| - 1]).Some? then ResponseId(frames[|frames| - 1])
    else LastId(frames[..|frames| - 1])
  }

  /** What a turn has learnt from the frames read so far. */
  datatype Progress = Progress(responseId: Option<string>, harvested: seq<Value>)

  const NOTHING_READ := Progress(None, [])

  /** One frame's effect, in the order the receive loop applies it. */
  function Absorb(p: Progress, frame: Value): Progress
  {
    var id := if ResponseId(frame).Some? then ResponseId(frame) else p.responseId;
    match OutputItem(frame)
    case Some(item) => Progress(id, if Replayable(item) then p.harvested + [item] else p.harvested)
    case None => Progress(id, p.harvested)
  }

  function AbsorbAll(frames: seq<Value>): Progress
  {
    if frames == [] then NOTHING_READ
    else Absorb(AbsorbAll(frames[..|frames| - 1]), frames[|frames| - 1])
  }

  lemma OutputsSnoc(frames: seq<Value>, frame: Value)
    ensures Outputs(frames + [frame])
            == Outputs(frames) + (if OutputItem(frame).Some? then [OutputItem(frame).value] else [])
  {
    assert (frames + [frame])[..|frames|] == frames;
  }

  lemma HarvestSnoc(items: seq<Value>, item: Value)
    ensures Harvest(items + [item]) == Harvest(items) + (if Replayable(item) then [item] else [])
  {
    assert (items + [item])[..|items|] == items;
  }

  lemma LastIdSnoc(frames: seq<Value>, frame: Value)
    ensures LastId(frames + [frame]) == if ResponseId(frame).Some? then ResponseId(frame) else LastId(frames)
  {
    assert (frames + [frame])[..|frames|] == frames;
  }

  lemma HarvestOfSnoc(frames: seq<Value>, frame: Value)
    ensures Harvest(Outputs(frames + [frame])) == Absorb(Progress(None, Harvest(Outputs(frames))), frame).harvested
  {
    OutputsSnoc(frames, frame);
    if OutputItem(frame).Some? {
      HarvestSnoc(Outputs(frames), OutputItem(frame).value);
    } else {
      assert Outputs(frames) + [] == Outputs(frames);
    }
  }

  /** Frame by frame, the client keeps exactly the replayable outputs, in order, and the last id named. */
  lemma {:induction false} ProgressIsHarvest(frames: seq<Value>)
    ensures AbsorbAll(frames) == Progress(LastId(frames), Harvest(Outputs(frames)))
  {
    if frames != [] {
      var front, frame := frames[..|frames| - 1], frames[|frames| - 1];
      assert frames == front + [frame];
      ProgressIsHarvest(front);
      LastIdSnoc(front, frame);
      HarvestOfSnoc(front, frame);
    }
  }

  // ---- The receive loop ----

  /** What the next socket read brings. `Text` frames also say whether the decoder makes events of them;
      its first frame always does. Running out of arrivals stands for the idle timeout. */
  datatype Arrival =
    | Text(frame: Value, decodes: bool)
    | Garbage
    | Control
    | Closed
    | Broken

  datatype Outcome = Events | Done | Failure(protocol: bool)

  /** The receiver after reading `arrivals` up to the first thing worth reporting. */
  datatype Reading = Reading(outcome: Outcome, used: nat, progress: Progress, finished: bool, started: bool)

  function ReadFrom(arrivals: seq<Arrival>, at: nat, started: bool, p: Progress): (r: Reading)
    requires at <= |arrivals|
    ensures at <= r.used <= |arrivals|
    decreases |arrivals| - at
  {
    if at == |arrivals| then Reading(Failure(false), at, p, false, started)
    else
      match arrivals[at]
      case Closed => Reading(Failure(false), at + 1, p, false, started)
      case Broken => Reading(Failure(false), at + 1, p, false, started)
      case Garbage => Reading(Failure(true), at + 1, p, false, started)
      case Control => ReadFrom(arrivals, at + 1, started, p)
      case Text(frame, decodes) =>
        if ErrorFrame(frame) then Reading(Failure(true), at + 1, p, false, started)
        else if Terminal(frame) then
          Reading(if FailedEnd(frame) then Failure(true) else Events, at + 1, Absorb(p, frame), true, true)
        else if !started || decodes then Reading(Events, at + 1, Absorb(p, frame), false, true)
        else ReadFrom(arrivals, at + 1, true, Absorb(p, frame))
  }

  /** The JSON frames among the arrivals. */
  function FramesOf(arrivals: seq<Arrival>): seq<Value>
  {
    if arrivals == [] then []
    else
      var last := |arrivals| - 1;
      FramesOf(arrivals[..last]) + (if arrivals[last].Text? then [arrivals[last].frame] else [])
  }

  lemma AbsorbNext(before: seq<Value>, frame: Value)
    ensures AbsorbAll(before + [frame]) == Absorb(AbsorbAll(before), frame)
  {
    assert (before + [frame])[..|before|] == before;
  }

  /** The frame at `at` in front of those read after it. */
  lemma FramesFrom(arrivals: seq<Arrival>, at: nat, end: nat)
    requires at < end <= |arrivals|
    ensures FramesOf(arrivals[at..end])
            == (if arrivals[at].Text? then [arrivals[at].frame] else []) + FramesOf(arrivals[at + 1..end])
  {
    assert arrivals[at..end] == [arrivals[at]] + arrivals[at + 1..end];
    FramesAppend([arrivals[at]], arrivals[at + 1..end]);
    assert [arrivals[at]][..0] == [];
  }

  /** A report of events says what was read: the receiver holds the harvest of the frames it consumed on
      top of what it held before, and it is finished exactly when the last of them ends the turn. */
  ghost predicate Reports(arrivals: seq<Arrival>, at: nat, before: seq<Value>, r: Reading)
  {
    r.outcome == Events ==>
      && at < r.used <= |arrivals| && arrivals[r.used - 1].Text?
      && r.progress == AbsorbAll(before + FramesOf(arrivals[at..r.used]))
      && (r.finished <==> CleanEnd(arrivals[r.used - 1].frame))
  }

  /** A frame that is reported at once. */
  lemma ReportsOne(arrivals: seq<Arrival>, at: nat, before: seq<Value>, r: Reading)
    requires at < |arrivals| && arrivals[at].Text? && r.used == at + 1
    requires r.progress == Absorb(AbsorbAll(before), arrivals[at].frame)
    requires r.outcome == Events ==> (r.finished <==> CleanEnd(arrivals[at].frame))
    ensures Reports(arrivals, at, before, r)
  {
    var frame := arrivals[at].frame;
    FramesFrom(arrivals, at, at + 1);
    assert arrivals[at + 1..at + 1] == [];
    assert [frame] + FramesOf([]) == [frame];
    AbsorbNext(before, frame);
  }

  /** A frame absorbed on the way to what is reported. */
  lemma ReportsOn(arrivals: seq<Arrival>, at: nat, before: seq<Value>, r: Reading)
    requires at < |arrivals|
    requires Reports(arrivals, at + 1, before + (if arrivals[at].Text? then [arrivals[at].frame] else []), r)
    ensures Reports(arrivals, at, before, r)
  {
    if r.outcome == Events {
      var here, rest := if arrivals[at].Text? then [arrivals[at].frame] else [], FramesOf(arrivals[at + 1..r.used]);
      FramesFrom(arrivals, at, r.used);
      assert before + here + rest == before + (here + rest);
    }
  }

  lemma {:induction false} ReadingKeepsHarvest(arrivals: seq<Arrival>, at: nat, started: bool, before: seq<Value>)
    requires at <= |arrivals|
    ensures Reports(arrivals, at, before, ReadFrom(arrivals, at, started, AbsorbAll(before)))
    decreases |arrivals| - at
  {
    var r := ReadFrom(arrivals, at, started, AbsorbAll(before));
    if at < |arrivals| {
      match arrivals[at]
      case Control =>
        ReadingKeepsHarvest(arrivals, at + 1, started, before);
        assert before + [] == before;
        ReportsOn(arrivals, at, before, r);
      case Text(frame, decodes) =>
        if !ErrorFrame(frame) {
          if Terminal(frame) || !started || decodes {
            ReportsOne(arrivals, at, before, r);
          } else {
            AbsorbNext(before, frame);
            ReadingKeepsHarvest(arrivals, at + 1, true, before + [frame]);
            ReportsOn(arrivals, at, before, r);
          }
        }
      case _ =>
    }
  }

  lemma {:induction false} FramesAppend(xs: seq<Arrival>, ys: seq<Arrival>)
    ensures FramesOf(xs + ys) == FramesOf(xs) + FramesOf(ys)
  {
    if ys == [] {
      assert xs + ys == xs;
    } else {
      var last := |ys| - 1;
      assert (xs + ys)[..|xs + ys| - 1] == xs + ys[..last];
      FramesAppend(xs, ys[..last]);
    }
  }

  class Receiver {
    var progress: Progress
    var started: bool
    var finished: bool

    constructor ()
      ensures progress == NOTHING_READ && !started && !finished
    {
      progress := NOTHING_READ;
      started := false;
      finished := false;
    }

    /** Read arrivals until there is something to report; once finished, report `Done` and touch nothing. */
    method NextEvents(arrivals: seq<Arrival>) returns (outcome: Outcome, used: nat)
      modifies this
      ensures old(finished) ==> outcome == Done && used == 0 && unchanged(this)
      ensures !old(finished) ==>
                var r := ReadFrom(arrivals, 0, old(started), old(progress));
                && outcome == r.outcome && used == r.used
                && progress == r.progress && finished == r.finished && started == r.started
    {
      if finished {
        return Done, 0;
      }
      used := 0;
      while used < |arrivals|
        invariant used <= |arrivals| && !finished
        invariant ReadFrom(arrivals, used, started, progress) == ReadFrom(arrivals, 0, old(started), old(progress))
      {
        var arrival := arrivals[used];
        used := used + 1;
        match arrival {
          case Closed => return Failure(false), used;
          case Broken => return Failure(false), used;
          case Garbage => return Failure(true), used;
          case Control =>
          case Text(frame, decodes) =>
            if ErrorFrame(frame) {
              return Failure(true), used;
            }
            var events := !started || decodes;
            started := true;
            progress := Absorb(progress, frame);
            if Terminal(frame) {
              finished := true;
              return if FailedEnd(frame) then Failure(true) else Events, used;
            }
            if events {
              return Events, used;
            }
        }
      }
      outcome := Failure(false);
    }
  }
}
