/**
  The methods that drive one turn, as runs of the transport's steps: whatever the sockets do to a call, the steps
  of its turn alone can do the same to the pool, the markers and the wire.
 */
module Driving {
  import opened Prelude
  import opened Json
  import opened DeltaBody
  import opened FrameShapes
  import opened Receiving
  import opened ReceivingProofs
  import opened SocketCache
  import opened Transport
  import Loop = TryStream

  // ---- A turn's own steps, and what they put on the wire ----

  /** A step the turn's own call takes, waiting for its answer to begin. */
  predicate Own(step: Step, t: TurnId)
  {
    match step
    case Attempt(u) => u == t
    case ConnectOk(u) => u == t
    case ConnectLimit(u, _) => u == t
    case ConnectFail(u, _) => u == t
    case SendOk(u) => u == t
    case SendFail(u, _, _) => u == t
    case ReadFail(u, _, _) => u == t
    case _ => false
  }

  /** The attempts made, and the frames handed to sockets. */
  datatype Tally = Tally(attempts: nat, frames: seq<Value>)

  const NOTHING_YET := Tally(0, [])

  function Framed(tally: Tally, frame: Value): Tally
  {
    tally.(frames := tally.frames + [frame])
  }

  function Counted(st: State, step: Step, tally: Tally): Tally
    requires Enabled(st, step)
  {
    match step
    case Attempt(_) => tally.(attempts := tally.attempts + 1)
    case SendOk(t) => Framed(tally, FrameOf(st.turns[t]))
    case SendFail(t, _, _) => Framed(tally, FrameOf(st.turns[t]))
    case _ => tally
  }

  /** The steps, all of them the turn's own, lead from `from` to `st` and come to `tally`. */
  ghost predicate Drives(from: State, steps: seq<Step>, t: TurnId, st: State, tally: Tally)
  {
    if steps == [] then st == from && tally == NOTHING_YET
    else
      var last := |steps| - 1;
      exists mid, before ::
        && Drives(from, steps[..last], t, mid, before) && Enabled(mid, steps[last]) && Own(steps[last], t)
        && st == Apply(mid, steps[last]) && tally == Counted(mid, steps[last], before)
  }

  ghost predicate Driven(from: State, t: TurnId, st: State, tally: Tally)
  {
    exists steps :: Drives(from, steps, t, st, tally)
  }

  // The proofs below know of being driven only that the turn's own steps keep it.

  type Reach = (State, Tally) -> bool

  predicate Kept(reach: Reach, t: TurnId, st: State, tally: Tally, step: Step)
  {
    reach(st, tally) && Enabled(st, step) && Own(step, t) ==> reach(Apply(st, step), Counted(st, step, tally))
  }

  ghost predicate Closed(reach: Reach, t: TurnId)
  {
    forall st, tally, step :: Kept(reach, t, st, tally, step)
  }

  lemma DriveOn(reach: Reach, t: TurnId, st: State, tally: Tally, step: Step)
    requires Closed(reach, t) && reach(st, tally) && Enabled(st, step) && Own(step, t)
    ensures reach(Apply(st, step), Counted(st, step, tally))
  {
    assert Kept(reach, t, st, tally, step);
  }

  lemma OneStepMore(from: State, t: TurnId, st: State, tally: Tally, step: Step)
    requires Driven(from, t, st, tally) && Enabled(st, step) && Own(step, t)
    ensures Driven(from, t, Apply(st, step), Counted(st, step, tally))
  {
    var steps :| Drives(from, steps, t, st, tally);
    assert (steps + [step])[..|steps|] == steps;
    assert Drives(from, steps + [step], t, Apply(st, step), Counted(st, step, tally));
  }

  lemma DrivenIsClosed(from: State, t: TurnId) returns (reach: Reach)
    ensures Closed(reach, t) && reach(from, NOTHING_YET)
    ensures forall st, tally :: reach(st, tally) ==> Driven(from, t, st, tally)
  {
    reach := (st, tally) => Driven(from, t, st, tally);
    assert Drives(from, [], t, from, NOTHING_YET);
    forall st, tally, step ensures Kept(reach, t, st, tally, step) {
      if Driven(from, t, st, tally) && Enabled(st, step) && Own(step, t) {
        OneStepMore(from, t, st, tally, step);
      }
    }
  }

  /** So driven, it is a run. */
  lemma {:induction false} DrivesLeads(from: State, steps: seq<Step>, t: TurnId, st: State, tally: Tally)
    requires Drives(from, steps, t, st, tally)
    ensures Leads(from, steps, st)
  {
    if steps != [] {
      var last := |steps| - 1;
      var mid, before :|
        && Drives(from, steps[..last], t, mid, before) && Enabled(mid, steps[last]) && Own(steps[last], t)
        && st == Apply(mid, steps[last]) && tally == Counted(mid, steps[last], before);
      DrivesLeads(from, steps[..last], t, mid, before);
    }
  }

  // ---- One pass ----

  /** What stays as it is throughout a call: its key and body, the markers before it, the time, and the marker
      that goes if room is needed. */
  datatype Call = Call(key: Option<Key>, body: Value, markers: map<Key, nat>, now: nat, victim: Key)

  predicate VictimIsOldest(c: Call)
  {
    c.key.Some? && NeedsRoom(c.markers, c.key.value) ==> Oldest(c.markers, c.victim)
  }

  /** The markers once the call has given up on the WebSocket. */
  function MarkersAfter(c: Call): map<Key, nat>
  {
    if c.key.Some? then Marked(c.markers, c.key.value, c.now, c.victim) else c.markers
  }

  /** The call's turn is in `phase`, and nothing is marked yet. */
  predicate Stands(c: Call, st: State, t: TurnId, retriedLimit: bool, phase: Phase)
  {
    && t in st.turns && st.turns[t].key == c.key && st.turns[t].body == c.body
    && st.turns[t].retriedLimit == retriedLimit && st.turns[t].phase == phase
    && st.markers == c.markers && st.now == c.now
  }

  /** The call's turn after a pass with the outcome. */
  predicate After(c: Call, st: State, t: TurnId, retriedLimit: bool, outcome: Loop.PassOutcome)
  {
    match outcome
    case Started => t in st.turns && st.turns[t].phase.Waiting? && Stands(c, st, t, retriedLimit, st.turns[t].phase)
    case RetryConnectionLimit => Stands(c, st, t, true, Attempting(false))
    case RetryStaleReuse => Stands(c, st, t, retriedLimit, Attempting(false))
    case FallBack => t !in st.turns && st.markers == MarkersAfter(c)
    case Fail => t !in st.turns && st.markers == c.markers
  }

  /** The phase an attempt leads to: ready on a cached socket, or out to open one. */
  function Tried(c: Call, idle: map<Key, Cached>, looked: bool): Phase
  {
    if looked && c.key.Some? && c.key.value in Swept(idle, c.now) then
      Ready(idle[c.key.value].socket, idle[c.key.value].continuation, true)
    else Connecting
  }

  lemma AttemptIs(c: Call, t: TurnId, st: State, looked: bool, limit: bool)
    requires Stands(c, st, t, limit, Attempting(looked))
    ensures var st2 := AfterAttempt(st, t);
            && Stands(c, st2, t, limit, Tried(c, st.idle, looked))
            && st2.idle == Loop.IdleAfter(st.idle, c.key, looked, c.now)
  {
    if looked && c.key.Some? && c.key.value !in Swept(st.idle, st.now) {
      assert Swept(st.idle, st.now) - {c.key.value} == Swept(st.idle, st.now);
    }
  }

  lemma Tries(c: Call, reach: Reach, t: TurnId, st: State, tally: Tally, looked: bool, limit: bool)
    returns (st2: State)
    requires Closed(reach, t) && reach(st, tally) && Stands(c, st, t, limit, Attempting(looked))
    ensures reach(st2, tally.(attempts := tally.attempts + 1))
    ensures Stands(c, st2, t, limit, Tried(c, st.idle, looked))
    ensures st2.idle == Loop.IdleAfter(st.idle, c.key, looked, c.now)
  {
    DriveOn(reach, t, st, tally, Step.Attempt(t));
    AttemptIs(c, t, st, looked, limit);
    st2 := AfterAttempt(st, t);
  }

  lemma FellBackIs(st: State, t: TurnId, victim: Key)
    requires t in st.turns
    ensures var done, key := FellBack(st, t, victim), st.turns[t].key;
            && done.idle == st.idle && t !in done.turns
            && done.markers == if key.Some? then Marked(st.markers, key.value, st.now, victim) else st.markers
  {
    var key := st.turns[t].key;
    var marked := if key.Some? then Marked(st.markers, key.value, st.now, victim) else st.markers;
    assert FellBack(st, t, victim) == Ended(st, t).(markers := marked);
  }

  lemma GivesUp(c: Call, st: State, t: TurnId, limit: bool, phase: Phase)
    requires Stands(c, st, t, limit, phase)
    ensures var done := FellBack(st, t, c.victim);
            done.idle == st.idle && done.markers == MarkersAfter(c) && t !in done.turns
  {
    FellBackIs(st, t, c.victim);
  }

  /** Opening a socket, or not getting one. */
  lemma Opens(c: Call, reach: Reach, t: TurnId, st: State, tally: Tally, limit: bool, connect: Loop.Connect)
    returns (st2: State)
    requires Closed(reach, t) && reach(st, tally) && Stands(c, st, t, limit, Connecting) && VictimIsOldest(c)
    ensures reach(st2, tally) && st2.idle == st.idle
    ensures connect == Loop.Connected ==> Stands(c, st2, t, limit, Ready(st.nextSocket, None, false))
    ensures connect == Loop.LimitReached && !limit ==> After(c, st2, t, limit, Loop.RetryConnectionLimit)
    ensures connect == Loop.Unavailable || (connect == Loop.LimitReached && limit) ==>
              After(c, st2, t, limit, Loop.FallBack)
  {
    GivesUp(c, st, t, limit, Connecting);
    match connect
    case Connected =>
      DriveOn(reach, t, st, tally, ConnectOk(t));
      st2 := AfterConnectOk(st, t);
    case LimitReached =>
      DriveOn(reach, t, st, tally, ConnectLimit(t, c.victim));
      st2 := AfterConnectLimit(st, t, c.victim);
    case Unavailable =>
      DriveOn(reach, t, st, tally, ConnectFail(t, c.victim));
      st2 := FellBack(st, t, c.victim);
  }

  /** The frame gets out and the turn waits. */
  lemma Sends(c: Call, reach: Reach, t: TurnId, st: State, tally: Tally, limit: bool, ready: Phase)
    returns (st2: State)
    requires Closed(reach, t) && reach(st, tally) && ready.Ready? && Stands(c, st, t, limit, ready)
    ensures reach(st2, Framed(tally, WireFrame(BuildWireBody(c.body, ready.continuation))))
    ensures st2.idle == st.idle && Stands(c, st2, t, limit, Waiting(ready.socket, ready.reused))
  {
    DriveOn(reach, t, st, tally, SendOk(t));
    st2 := AfterSendOk(st, t);
  }

  /** The frame does not get out, or gets out and is given up on. */
  lemma SendsInVain(c: Call, reach: Reach, t: TurnId, st: State, tally: Tally, limit: bool, ready: Phase, sent: bool)
    returns (st2: State)
    requires Closed(reach, t) && reach(st, tally) && ready.Ready? && Stands(c, st, t, limit, ready) && VictimIsOldest(c)
    ensures reach(st2, Framed(tally, WireFrame(BuildWireBody(c.body, ready.continuation))))
    ensures st2.idle == st.idle && After(c, st2, t, limit, Loop.FallBack)
  {
    DriveOn(reach, t, st, tally, SendFail(t, sent, c.victim));
    GivesUp(c, st, t, limit, ready);
    st2 := AfterSendFail(st, t, sent, c.victim);
  }

  /** The answer fails before it begins. */
  lemma WaitsInVain(c: Call, reach: Reach, t: TurnId, st: State, tally: Tally, limit: bool, waiting: Phase,
                    protocol: bool)
    returns (st2: State)
    requires Closed(reach, t) && reach(st, tally) && VictimIsOldest(c)
    requires waiting.Waiting? && Stands(c, st, t, limit, waiting)
    ensures reach(st2, tally) && st2.idle == st.idle
    ensures After(c, st2, t, limit, if protocol then Loop.Fail
                                    else if waiting.reused then Loop.RetryStaleReuse else Loop.FallBack)
  {
    DriveOn(reach, t, st, tally, ReadFail(t, protocol, c.victim));
    GivesUp(c, st, t, limit, waiting);
    st2 := AfterReadFail(st, t, protocol, c.victim);
  }

  /** What comes of a socket once there is one. */
  function OutcomeOn(reused: bool, world: Loop.World): Loop.PassOutcome
  {
    if !world.sent then Loop.FallBack
    else
      match Loop.First(world)
      case Events => Loop.Started
      case Failure(true) => Loop.Fail
      case Failure(false) => if reused then Loop.RetryStaleReuse else Loop.FallBack
      case Done => Loop.FallBack
  }

  lemma Talks(c: Call, reach: Reach, t: TurnId, st: State, tally: Tally, limit: bool, ready: Phase, world: Loop.World)
    returns (st2: State)
    requires Closed(reach, t) && reach(st, tally) && ready.Ready? && Stands(c, st, t, limit, ready) && VictimIsOldest(c)
    ensures reach(st2, Framed(tally, WireFrame(BuildWireBody(c.body, ready.continuation))))
    ensures st2.idle == st.idle && After(c, st2, t, limit, OutcomeOn(ready.reused, world))
  {
    if !world.sent || Loop.First(world) == Done {
      st2 := SendsInVain(c, reach, t, st, tally, limit, ready, world.sent);
    } else {
      var frame := WireFrame(BuildWireBody(c.body, ready.continuation));
      var mid := Sends(c, reach, t, st, tally, limit, ready);
      if Loop.First(world) == Events {
        st2 := mid;
      } else {
        st2 := WaitsInVain(c, reach, t, mid, Framed(tally, frame), limit,
                           Waiting(ready.socket, ready.reused), Loop.First(world).protocol);
      }
    }
  }

  /** The frames of the passes that got as far as one. */
  function Frames(passes: seq<Loop.Pass>): seq<Value>
  {
    if passes == [] then []
    else
      var last := passes[|passes| - 1];
      Frames(passes[..|passes| - 1]) + (if last.wire.Some? then [WireFrame(last.wire.value)] else [])
  }

  function Add(tally: Tally, pass: Loop.Pass): Tally
  {
    Tally(tally.attempts + 1, tally.frames + (if pass.wire.Some? then [WireFrame(pass.wire.value)] else []))
  }

  /** A pass as the world makes it go, with a socket at hand. */
  lemma GoesOn(c: Call, pass: Loop.Pass, idle: map<Key, Cached>, looked: bool, limit: bool, world: Loop.World)
    requires Loop.Goes(pass, idle, c.key, c.body, looked, limit, world, c.now)
    ensures var tried := Tried(c, idle, looked);
            && (tried.Ready? <==> pass.reused)
            && (tried.Ready? ==> tried.reused && pass.wire == Some(BuildWireBody(c.body, tried.continuation)))
    ensures pass.wire.Some? ==> pass.outcome == OutcomeOn(pass.reused, world)
    ensures pass.wire.None? ==> !pass.reused && world.connect != Loop.Connected
    ensures pass.wire.None? ==>
              pass.outcome == (if world.connect == Loop.LimitReached && !limit then Loop.RetryConnectionLimit
                               else Loop.FallBack)
  {
  }

  lemma Passes(c: Call, reach: Reach, t: TurnId, st: State, tally: Tally, looked: bool, limit: bool, pass: Loop.Pass,
               world: Loop.World)
    returns (st2: State)
    requires Closed(reach, t) && reach(st, tally) && Stands(c, st, t, limit, Attempting(looked)) && VictimIsOldest(c)
    requires Loop.Goes(pass, st.idle, c.key, c.body, looked, limit, world, c.now)
    ensures reach(st2, Add(tally, pass))
    ensures st2.idle == Loop.IdleAfter(st.idle, c.key, looked, c.now) && After(c, st2, t, limit, pass.outcome)
  {
    GoesOn(c, pass, st.idle, looked, limit, world);
    var mid := Tries(c, reach, t, st, tally, looked, limit);
    var tried, tally1 := Tried(c, st.idle, looked), tally.(attempts := tally.attempts + 1);
    if pass.reused {
      st2 := Talks(c, reach, t, mid, tally1, limit, tried, world);
    } else {
      var open := Opens(c, reach, t, mid, tally1, limit, world.connect);
      if pass.wire.Some? {
        st2 := Talks(c, reach, t, open, tally1, limit, Ready(mid.nextSocket, None, false), world);
      } else {
        st2 := open;
        assert tally1.frames + [] == tally1.frames;
      }
    }
  }

  // ---- The whole call ----

  lemma FramesSnoc(passes: seq<Loop.Pass>, pass: Loop.Pass)
    ensures Add(Tally(|passes|, Frames(passes)), pass) == Tally(|passes + [pass]|, Frames(passes + [pass]))
  {
    assert (passes + [pass])[..|passes|] == passes;
  }

  /** Every pass but the last was retried. */
  predicate RetriedSoFar(passes: seq<Loop.Pass>)
  {
    passes == [] || Loop.AllRetry(passes[..|passes| - 1])
  }

  /** The turn after the passes. */
  predicate AfterAll(c: Call, st: State, t: TurnId, passes: seq<Loop.Pass>)
  {
    if passes == [] then Stands(c, st, t, false, Attempting(true))
    else
      var n := |passes| - 1;
      After(c, st, t, Loop.Count(passes[..n], Loop.RetryConnectionLimit) > 0, passes[n].outcome)
  }

  /** Where a retried pass leaves the turn, the next one starts. */
  lemma NextPass(c: Call, st: State, t: TurnId, passes: seq<Loop.Pass>)
    requires AfterAll(c, st, t, passes) && Loop.AllRetry(passes)
    ensures Stands(c, st, t, Loop.Count(passes, Loop.RetryConnectionLimit) > 0, Attempting(passes == []))
  {
    if passes != [] {
      assert Loop.Retries(passes[|passes| - 1].outcome);
    }
  }

  lemma FrontIsRetried(passes: seq<Loop.Pass>)
    requires Loop.AllRetry(passes)
    ensures RetriedSoFar(passes)
  {
  }

  lemma OnePassMore(c: Call, reach: Reach, t: TurnId, mid: State, front: seq<Loop.Pass>, pass: Loop.Pass,
                    world: nat -> Loop.World, idle: map<Key, Cached>)
    returns (st: State)
    requires Closed(reach, t) && reach(mid, Tally(|front|, Frames(front))) && AfterAll(c, mid, t, front)
    requires mid.idle == Loop.IdleAfter(idle, c.key, front != [], c.now)
    requires Loop.AllRetry(front) && VictimIsOldest(c)
    requires Loop.Goes(pass, mid.idle, c.key, c.body, front == [], Loop.Count(front, Loop.RetryConnectionLimit) > 0,
                       world(|front|), c.now)
    ensures reach(st, Tally(|front + [pass]|, Frames(front + [pass]))) && AfterAll(c, st, t, front + [pass])
    ensures st.idle == Loop.IdleAfter(idle, c.key, true, c.now)
  {
    NextPass(c, mid, t, front);
    st := Passes(c, reach, t, mid, Tally(|front|, Frames(front)), front == [],
                 Loop.Count(front, Loop.RetryConnectionLimit) > 0, pass, world(|front|));
    FramesSnoc(front, pass);
    assert (front + [pass])[..|front|] == front;
  }

  lemma {:induction false} CallIsARun(c: Call, reach: Reach, from: State, t: TurnId, passes: seq<Loop.Pass>,
                                      world: nat -> Loop.World)
    returns (st: State)
    requires Closed(reach, t) && reach(from, NOTHING_YET)
    requires Stands(c, from, t, false, Attempting(true)) && VictimIsOldest(c)
    requires Loop.Went(passes, from.idle, c.key, c.body, world, c.now) && RetriedSoFar(passes)
    ensures reach(st, Tally(|passes|, Frames(passes))) && AfterAll(c, st, t, passes)
    ensures st.idle == Loop.IdleAfter(from.idle, c.key, passes != [], c.now)
    decreases |passes|
  {
    if passes == [] {
      st := from;
    } else {
      var n := |passes| - 1;
      var front := passes[..n];
      FrontIsRetried(front);
      var mid := CallIsARun(c, reach, from, t, front, world);
      st := OnePassMore(c, reach, t, mid, front, passes[n], world, from.idle);
      assert passes == front + [passes[n]];
    }
  }

  /** The pool and markers a call leaves, and what it put on the wire. */
  datatype Effect = Effect(idle: map<Key, Cached>, markers: map<Key, nat>, passes: seq<Loop.Pass>)

  /** From `st`, beginning a turn and taking its own steps leads to a state with that pool and those markers, with
      as many attempts and the same frames, and with the turn still there exactly if its answer has begun. */
  ghost predicate IsARun(st: State, key: Option<Key>, body: Value, e: Effect, streaming: bool)
  {
    && Enabled(st, Begin(key, body))
    && exists st2 ::
         && Driven(AfterBegin(st, key, body), st.nextTurn, st2, Tally(|e.passes|, Frames(e.passes)))
         && st2.idle == e.idle && st2.markers == e.markers && (st.nextTurn in st2.turns <==> streaming)
  }

  lemma {:induction false} OldestIn(markers: map<Key, nat>, keys: set<Key>) returns (victim: Key)
    requires keys != {} && keys <= markers.Keys
    ensures victim in keys && forall k :: k in keys ==> markers[victim] <= markers[k]
    decreases |keys|
  {
    victim :| victim in keys;
    var rest := keys - {victim};
    if rest != {} {
      var other := OldestIn(markers, rest);
      if markers[other] < markers[victim] {
        victim := other;
      }
    }
  }

  lemma SomeVictim(markers: map<Key, nat>, key: Option<Key>) returns (victim: Key)
    ensures key.Some? && NeedsRoom(markers, key.value) ==> Oldest(markers, victim)
  {
    victim := "";
    if |markers| > 0 {
      assert markers.Keys != {};
      victim := OldestIn(markers, markers.Keys);
    }
  }

  lemma VictimOf(key: Option<Key>, before: map<Key, nat>, after: map<Key, nat>, now: nat) returns (victim: Key)
    requires if key.Some? then MarksOnly(before, after, key.value, now) else after == before
    ensures key.Some? && NeedsRoom(before, key.value) ==> Oldest(before, victim)
    ensures after == if key.Some? then Marked(before, key.value, now, victim) else before
  {
    if key.Some? {
      victim :|
        (NeedsRoom(before, key.value) ==> Oldest(before, victim)) && after == Marked(before, key.value, now, victim);
    } else {
      victim := "";
    }
  }

  /** A call that went as it did in `world`, and marked as it should, is a run of its turn's own steps. */
  lemma TryStreamIsARun(st: State, key: Option<Key>, body: Value, e: Effect, world: nat -> Loop.World)
    requires RequestBody(body) && st.nextTurn !in st.turns
    requires e.passes == [] <==> key.Some? && key.value in st.markers
    requires e.idle == Loop.IdleAfter(st.idle, key, e.passes != [], st.now)
    requires Loop.Went(e.passes, st.idle, key, body, world, st.now) && Loop.Bounded(e.passes, body)
    requires var gaveUp := e.passes != [] && e.passes[|e.passes| - 1].outcome == Loop.FallBack;
             if gaveUp && key.Some? then MarksOnly(st.markers, e.markers, key.value, st.now)
             else e.markers == st.markers
    ensures IsARun(st, key, body, e, e.passes != [] && e.passes[|e.passes| - 1].outcome == Loop.Started)
  {
    var t, from := st.nextTurn, AfterBegin(st, key, body);
    var reach := DrivenIsClosed(from, t);
    if e.passes == [] {
      assert Driven(from, t, from, Tally(0, Frames([])));
    } else {
      var outcome := e.passes[|e.passes| - 1].outcome;
      var victim := SomeVictim(st.markers, key);
      if outcome == Loop.FallBack {
        victim := VictimOf(key, st.markers, e.markers, st.now);
      }
      var c := Call(key, body, st.markers, st.now, victim);
      var st2 := CallIsARun(c, reach, from, t, e.passes, world);
      assert st2.idle == e.idle && st2.markers == e.markers;
    }
  }

  /** Trying a turn on the cache, beside the step system: whatever the sockets do, the call leaves the pool and the
      markers as some run of the turn's own steps leaves them, with as many attempts and the same frames. */
  method TryOnCache(cache: CodexWebSocketCache, key: Option<Key>, body: Value, world: nat -> Loop.World, now: nat,
                    ghost st: State)
    returns (result: Loop.Attempt, passes: seq<Loop.Pass>)
    requires RequestBody(body) && st.nextTurn !in st.turns
    requires st.idle == cache.idle && st.markers == cache.fallback && st.now == now
    modifies cache
    ensures IsARun(st, key, body, Effect(cache.idle, cache.fallback, passes), result == Loop.Streaming)
  {
    result, passes := Loop.TryStream(cache, key, body, world, now);
    TryStreamIsARun(st, key, body, Effect(cache.idle, cache.fallback, passes), world);
  }

  // ---- The first answer ----

  /** Once a frame is out, the first arrival with something to say decides the pass: a connection lost before it
      is retried on a fresh socket if it was a cached one, and otherwise given up on; a protocol failure fails the
      turn; anything else starts it. */
  lemma FirstAnswerDecides(pass: Loop.Pass, idle: map<Key, Cached>, key: Option<Key>, body: Value, looked: bool,
                           limit: bool, world: Loop.World, now: nat, n: nat)
    requires Loop.Goes(pass, idle, key, body, looked, limit, world, now) && pass.wire.Some? && world.sent
    requires IsFirstToSay(world.arrivals, 0, n, false)
    ensures if n == |world.arrivals| || world.arrivals[n].Closed? || world.arrivals[n].Broken? then
              pass.outcome == if pass.reused then Loop.RetryStaleReuse else Loop.FallBack
            else if world.arrivals[n].Garbage? || IsError(world.arrivals[n].frame)
                    || IsFailedEnd(world.arrivals[n].frame) then
              pass.outcome == Loop.Fail
            else pass.outcome == Loop.Started
  {
    FirstToSayDecides(world.arrivals, 0, n, false, NOTHING_READ);
  }

  // ---- Reading on, and checking in ----

  /** Reading the next frame does to the turn what the receiver makes of it: an end, a completed turn, or more. */
  lemma ReadIsOneFrame(st: State, t: TurnId, decodes: bool, started: bool)
    requires CanRead(st, t)
    ensures var phase := st.turns[t].phase;
            var frame := st.server.exchanges[phase.socket].frames[ReadSoFar(phase)];
            var r := ReadFrom([Text(frame, decodes)], 0, started, ProgressSoFar(phase));
            var st2 := AfterRead(st, t);
            && (r.outcome.Failure? && r.used == 1 && r.outcome.protocol <==> t !in st2.turns)
            && (r.finished && r.outcome == Events ==> st2.turns[t].phase == Complete(phase.socket, r.progress))
            && (t in st2.turns && !r.finished ==>
                  st2.turns[t].phase == Streaming(phase.socket, r.progress, ReadSoFar(phase) + 1))
  {
  }

  /** When the receiver is done: the socket goes back under the key with what the next turn may chain off, if the
      turn has a key and its answer an id. */
  method FinishTurn(cache: CodexWebSocketCache, key: Option<Key>, fingerprint: Value, fullInput: seq<Value>,
                    socket: nat, progress: Progress, now: nat, ghost st: State, ghost t: TurnId)
    requires t in st.turns && st.turns[t].phase == Complete(socket, progress) && st.turns[t].key == key
    requires fingerprint == Fingerprint(st.turns[t].body) && fullInput == InputSlice(st.turns[t].body)
    requires st.idle == cache.idle && st.now == now
    modifies cache`idle
    ensures cache.idle == AfterCheckIn(st, t).idle
  {
    if key.Some? && progress.responseId.Some? {
      var continuation := Continuation(fingerprint, fullInput + progress.harvested, progress.responseId.value);
      cache.Checkin(key.value, Cached(socket, now, Some(continuation)), now);
    }
  }
}
