/** What the receive loop reports and keeps, said of the frames as they look on the wire. */
module ReceivingProofs {
  import opened Prelude
  import opened Json
  import opened FrameShapes
  import opened Receiving

  lemma ShapesAreRead(frame: Value)
    ensures ErrorFrame(frame) <==> IsError(frame)
    ensures Terminal(frame) <==> IsEnd(frame)
    ensures Terminal(frame) && FailedEnd(frame) <==> IsFailedEnd(frame)
    ensures Replayable(frame) <==> IsTurnItem(frame)
    ensures forall id :: ResponseId(frame) == Some(id) <==> ResponseSays(frame, "id", id)
    ensures forall item :: OutputItem(frame) == Some(item) <==> Delivers(frame, item)
  {
  }

  // ---- What a read reports ----

  predicate SomeFrame(arrivals: seq<Arrival>, from: nat, i: nat)
    requires i <= |arrivals|
  {
    exists j :: from <= j < i && arrivals[j].Text?
  }

  /** Nothing to report: a control frame, or a frame after the turn's first that neither ends it, nor is an error,
      nor decodes to anything. */
  predicate SaysNothing(arrivals: seq<Arrival>, from: nat, i: nat, started: bool)
    requires i < |arrivals|
  {
    || arrivals[i].Control?
    || (&& arrivals[i].Text? && !arrivals[i].decodes && (started || SomeFrame(arrivals, from, i))
        && !IsError(arrivals[i].frame) && !IsEnd(arrivals[i].frame))
  }

  /** Arrival `n` is the first from `from` on with something to report; none is, if `n` is past the end. */
  predicate IsFirstToSay(arrivals: seq<Arrival>, from: nat, n: nat, started: bool)
  {
    && from <= n <= |arrivals|
    && (forall i :: from <= i < n ==> SaysNothing(arrivals, from, i, started))
    && (n < |arrivals| ==> !SaysNothing(arrivals, from, n, started))
  }

  /** What that arrival comes to: the connection failing, the protocol failing, or events. */
  predicate IsReportOf(arrivals: seq<Arrival>, n: nat, r: Reading)
    requires n <= |arrivals|
  {
    && (r.outcome == Failure(false) <==> n == |arrivals| || arrivals[n].Closed? || arrivals[n].Broken?)
    && (r.outcome == Failure(true) <==>
          n < |arrivals| && (|| arrivals[n].Garbage?
                             || (arrivals[n].Text? && (IsError(arrivals[n].frame) || IsFailedEnd(arrivals[n].frame)))))
    && (r.outcome == Events <==>
          n < |arrivals| && arrivals[n].Text? && !IsError(arrivals[n].frame) && !IsFailedEnd(arrivals[n].frame))
    && (r.finished <==> n < |arrivals| && arrivals[n].Text? && !IsError(arrivals[n].frame) && IsEnd(arrivals[n].frame))
    && r.used == if n < |arrivals| then n + 1 else n
  }

  lemma SameToSay(arrivals: seq<Arrival>, at: nat, i: nat, started: bool)
    requires at < i < |arrivals|
    ensures SaysNothing(arrivals, at + 1, i, started || arrivals[at].Text?) <==> SaysNothing(arrivals, at, i, started)
  {
    assert SomeFrame(arrivals, at, i) <==> arrivals[at].Text? || SomeFrame(arrivals, at + 1, i);
  }

  lemma LaterToSay(arrivals: seq<Arrival>, at: nat, n: nat, started: bool)
    requires at < n && IsFirstToSay(arrivals, at, n, started)
    ensures IsFirstToSay(arrivals, at + 1, n, started || arrivals[at].Text?)
  {
    var next, later := at + 1, started || arrivals[at].Text?;
    forall i | next <= i < n ensures SaysNothing(arrivals, next, i, later) {
      SameToSay(arrivals, at, i, started);
    }
    if n < |arrivals| {
      SameToSay(arrivals, at, n, started);
    }
  }

  /** Whatever arrives: the first arrival with something to report decides the outcome, whether the turn is
      finished, and how much is read. */
  lemma {:induction false} FirstToSayDecides(arrivals: seq<Arrival>, at: nat, n: nat, started: bool, p: Progress)
    requires IsFirstToSay(arrivals, at, n, started)
    ensures IsReportOf(arrivals, n, ReadFrom(arrivals, at, started, p))
    decreases |arrivals| - at
  {
    if at < |arrivals| && arrivals[at].Text? {
      ShapesAreRead(arrivals[at].frame);
    }
    if at < n {
      assert SaysNothing(arrivals, at, at, started);
      assert !SomeFrame(arrivals, at, at);
      LaterToSay(arrivals, at, n, started);
      if arrivals[at].Text? {
        FirstToSayDecides(arrivals, at + 1, n, true, Absorb(p, arrivals[at].frame));
      } else {
        FirstToSayDecides(arrivals, at + 1, n, started, p);
      }
    } else if n < |arrivals| {
      assert !SomeFrame(arrivals, at, at);
    }
  }

  // ---- What is kept ----

  /** The items the frames deliver that a replayed turn contains again, in order. */
  function TurnItems(frames: seq<Value>): seq<Value>
  {
    if frames == [] then []
    else
      var last := frames[|frames| - 1];
      TurnItems(frames[..|frames| - 1])
      + (if TypeIs(last, "response.output_item.done") && "item" in last.fields && IsTurnItem(last.fields["item"])
         then [last.fields["item"]] else [])
  }

  ghost predicate NamesNone(frame: Value)
  {
    forall id :: !ResponseSays(frame, "id", id)
  }

  /** The id is the last any of the frames names. */
  ghost predicate NamedLast(frames: seq<Value>, id: Option<string>)
  {
    if id.None? then forall i :: 0 <= i < |frames| ==> NamesNone(frames[i])
    else exists i :: 0 <= i < |frames| && ResponseSays(frames[i], "id", id.value)
                     && forall j :: i < j < |frames| ==> NamesNone(frames[j])
  }

  lemma ItemOfFrame(frame: Value)
    ensures OutputItem(frame).Some? && Replayable(OutputItem(frame).value) <==>
            TypeIs(frame, "response.output_item.done") && "item" in frame.fields && IsTurnItem(frame.fields["item"])
    ensures OutputItem(frame).Some? ==>
              frame.Obj? && "item" in frame.fields && OutputItem(frame).value == frame.fields["item"]
  {
    ShapesAreRead(frame);
    if OutputItem(frame).Some? {
      ShapesAreRead(OutputItem(frame).value);
    }
  }

  lemma NoNameOn(frames: seq<Value>, frame: Value, id: Option<string>)
    requires NamedLast(frames, id) && NamesNone(frame)
    ensures NamedLast(frames + [frame], id)
  {
    var all := frames + [frame];
    assert forall i :: 0 <= i < |frames| ==> all[i] == frames[i];
    if id.Some? {
      var i :| 0 <= i < |frames| && ResponseSays(frames[i], "id", id.value)
               && forall j :: i < j < |frames| ==> NamesNone(frames[j]);
      assert ResponseSays(all[i], "id", id.value);
    }
  }

  lemma NamedLastOn(frames: seq<Value>, frame: Value, id: Option<string>)
    requires NamedLast(frames, id)
    ensures NamedLast(frames + [frame], if ResponseId(frame).Some? then ResponseId(frame) else id)
  {
    ShapesAreRead(frame);
    if ResponseId(frame).Some? {
      assert ResponseSays((frames + [frame])[|frames|], "id", ResponseId(frame).value);
    } else {
      NoNameOn(frames, frame, id);
    }
  }

  /** After any frames: the id kept is the last one named, and the items kept are exactly those delivered whose
      type is a message's, a reasoning's or a function call's, in order. */
  lemma {:induction false} KeptAre(frames: seq<Value>)
    ensures NamedLast(frames, AbsorbAll(frames).responseId)
    ensures AbsorbAll(frames).harvested == TurnItems(frames)
  {
    if frames != [] {
      var front, frame := frames[..|frames| - 1], frames[|frames| - 1];
      assert frames == front + [frame];
      KeptAre(front);
      ItemOfFrame(frame);
      NamedLastOn(front, frame, AbsorbAll(front).responseId);
    }
  }
}
