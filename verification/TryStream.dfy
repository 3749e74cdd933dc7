/**
  One turn's attempt at the WebSocket, as the loop that drives it: up to one retry for a connection
  limit and one for a cached socket that turned out to be dead, then HTTP. What sockets do is the
  caller's `world`, one answer per pass.
 */
module TryStream {
  import opened Prelude
  import opened Json
  import opened DeltaBody
  import opened SocketCache
  import opened Receiving

  datatype Connect = Connected | LimitReached | Unavailable

  /** What a pass meets: the handshake if one is needed, whether the frame gets out, what then arrives. */
  datatype World = World(connect: Connect, sent: bool, arrivals: seq<Arrival>)

  /** What a new receiver first reports of it. */
  function First(world: World): Outcome
  {
    ReadFrom(world.arrivals, 0, false, NOTHING_READ).outcome
  }

  datatype PassOutcome = Started | RetryConnectionLimit | RetryStaleReuse | FallBack | Fail

  /** A pass as it went: whether it took a cached socket, and the wire body it handed to one, if it got that
      far. */
  datatype Pass = Pass(reused: bool, wire: Option<Value>, outcome: PassOutcome)

  datatype Attempt = Streaming | Fallback | Failed

  function Sends(passes: seq<Pass>): nat
  {
    if passes == [] then 0
    else Sends(passes[..|passes| - 1]) + (if passes[|passes| - 1].wire.Some? then 1 else 0)
  }

  function Count(passes: seq<Pass>, outcome: PassOutcome): nat
  {
    if passes == [] then 0
    else Count(passes[..|passes| - 1], outcome) + (if passes[|passes| - 1].outcome == outcome then 1 else 0)
  }

  predicate Retries(outcome: PassOutcome)
  {
    outcome == RetryConnectionLimit || outcome == RetryStaleReuse
  }

  /** Every frame on a fresh socket is the full body, and only the first pass may reuse a socket. */
  predicate FreshAreFull(passes: seq<Pass>, body: Value)
  {
    && (forall i :: 0 <= i < |passes| && !passes[i].reused && passes[i].wire.Some? ==> passes[i].wire == Some(body))
    && (forall i :: 0 <= i < |passes| && passes[i].reused ==> i == 0)
  }

  predicate AllRetry(passes: seq<Pass>)
  {
    forall i :: 0 <= i < |passes| ==> Retries(passes[i].outcome)
  }

  /** Passes that were all retried: each kind at most once, and only a dead cached socket after a frame. */
  predicate Retried(passes: seq<Pass>, body: Value, retriedLimit: bool)
  {
    && AllRetry(passes) && FreshAreFull(passes, body)
    && |passes| == Count(passes, RetryConnectionLimit) + Count(passes, RetryStaleReuse)
    && Count(passes, RetryConnectionLimit) == (if retriedLimit then 1 else 0)
    && Count(passes, RetryStaleReuse) == Sends(passes) <= 1
  }

  /** What a call comes to: at most three passes and two frames, every pass but the last retried, each kind of
      retry at most once, and the full body on every fresh socket. */
  predicate Bounded(passes: seq<Pass>, body: Value)
  {
    && FreshAreFull(passes, body) && |passes| <= 3 && Sends(passes) <= 2
    && Count(passes, RetryConnectionLimit) <= 1 && Count(passes, RetryStaleReuse) <= 1
    && (passes != [] ==> AllRetry(passes[..|passes| - 1]) && !Retries(passes[|passes| - 1].outcome))
  }

  /** What one pass promises the loop. */
  predicate InTurn(pass: Pass, body: Value, first: bool, retriedLimit: bool)
  {
    && (pass.reused ==> first) && (!pass.reused && pass.wire.Some? ==> pass.wire == Some(body))
    && (pass.outcome == RetryStaleReuse ==> pass.reused && pass.wire.Some?)
    && (pass.outcome == RetryConnectionLimit ==> !retriedLimit && pass.wire.None?)
  }

  lemma CountsOfSnoc(passes: seq<Pass>, pass: Pass)
    ensures Sends(passes + [pass]) == Sends(passes) + (if pass.wire.Some? then 1 else 0)
    ensures forall o :: Count(passes + [pass], o) == Count(passes, o) + (if pass.outcome == o then 1 else 0)
  {
    assert (passes + [pass])[..|passes|] == passes;
  }

  lemma AtMostTwoRetries(passes: seq<Pass>, body: Value, retriedLimit: bool)
    requires Retried(passes, body, retriedLimit)
    ensures |passes| <= 2
  {
  }

  lemma OneMorePass(passes: seq<Pass>, pass: Pass, body: Value, retriedLimit: bool)
    requires Retried(passes, body, retriedLimit) && InTurn(pass, body, passes == [], retriedLimit)
    ensures Retries(pass.outcome) ==>
              Retried(passes + [pass], body, retriedLimit || pass.outcome == RetryConnectionLimit)
    ensures !Retries(pass.outcome) ==> Bounded(passes + [pass], body)
  {
    CountsOfSnoc(passes, pass);
    assert (passes + [pass])[..|passes|] == passes;
  }

  /** The pool after a pass: swept and without the key, if the pass looked in it. */
  function IdleAfter(idle: map<Key, Cached>, key: Option<Key>, looked: bool, now: nat): map<Key, Cached>
  {
    if looked && key.Some? then Swept(idle, now) - {key.value} else idle
  }

  /** How a pass goes in a given world: when it reuses a socket, what it hands to it, and each outcome if and only
      if its cause. */
  predicate Goes(pass: Pass, idle: map<Key, Cached>, key: Option<Key>, body: Value, looked: bool,
                 retriedLimit: bool, world: World, now: nat)
  {
    && (pass.reused <==> looked && key.Some? && key.value in Swept(idle, now))
    && (pass.wire.Some? <==> pass.reused || world.connect == Connected)
    && (pass.wire.Some? && pass.reused ==> pass.wire == Some(BuildWireBody(body, idle[key.value].continuation)))
    && (pass.wire.Some? && !pass.reused ==> pass.wire == Some(body))
    && (pass.outcome == Started <==> pass.wire.Some? && world.sent && First(world) == Events)
    && (pass.outcome == Fail <==> pass.wire.Some? && world.sent && First(world) == Failure(true))
    && (pass.outcome == RetryStaleReuse <==> pass.reused && world.sent && First(world) == Failure(false))
    && (pass.outcome == RetryConnectionLimit <==> !pass.reused && world.connect == LimitReached && !retriedLimit)
  }

  /** How a whole call goes: pass `i` in `world(i)`, the pool looked in once, a limit retried once. */
  predicate Went(passes: seq<Pass>, idle: map<Key, Cached>, key: Option<Key>, body: Value, world: nat -> World,
                 now: nat)
  {
    passes == [] ||
    var n := |passes| - 1;
    && Went(passes[..n], idle, key, body, world, now)
    && Goes(passes[n], IdleAfter(idle, key, n > 0, now), key, body, n == 0,
            Count(passes[..n], RetryConnectionLimit) > 0, world(n), now)
  }

  lemma WentOn(passes: seq<Pass>, pass: Pass, idle: map<Key, Cached>, key: Option<Key>, body: Value,
               world: nat -> World, now: nat)
    requires Went(passes, idle, key, body, world, now)
    requires Goes(pass, IdleAfter(idle, key, passes != [], now), key, body, passes == [],
                  Count(passes, RetryConnectionLimit) > 0, world(|passes|), now)
    ensures Went(passes + [pass], idle, key, body, world, now)
  {
    assert (passes + [pass])[..|passes|] == passes;
  }

  /** Connect or reuse, send, and wait for the first event. */
  method AttemptOnce(cache: CodexWebSocketCache, key: Option<Key>, body: Value, preferCache: bool,
                     retriedLimit: bool, world: World, now: nat)
    returns (pass: Pass, retried: bool)
    modifies cache`idle
    ensures cache.idle == IdleAfter(old(cache.idle), key, preferCache, now)
    ensures Goes(pass, old(cache.idle), key, body, preferCache, retriedLimit, world, now)
    ensures retried == (retriedLimit || pass.outcome == RetryConnectionLimit)
  {
    retried := retriedLimit;
    var checkedOut: Option<Cached> := None;
    if preferCache && key.Some? {
      checkedOut := cache.Checkout(key.value, now);
    }
    var reused, continuation := checkedOut.Some?, None;
    if checkedOut.Some? {
      continuation := checkedOut.value.continuation;
    } else {
      match world.connect {
        case Connected =>
        case LimitReached =>
          if !retriedLimit {
            retried := true;
            return Pass(false, None, RetryConnectionLimit), retried;
          }
          return Pass(false, None, FallBack), retried;
        case Unavailable =>
          return Pass(false, None, FallBack), retried;
      }
    }
    var wire := BuildWireBody(body, continuation);
    if !world.sent {
      return Pass(reused, Some(wire), FallBack), retried;
    }
    var receiver := new Receiver();
    var first, _ := receiver.NextEvents(world.arrivals);
    match first {
      case Events => pass := Pass(reused, Some(wire), Started);
      case Failure(true) => pass := Pass(reused, Some(wire), Fail);
      case Failure(false) => pass := Pass(reused, Some(wire), if reused then RetryStaleReuse else FallBack);
      case Done => pass := Pass(reused, Some(wire), FallBack);
    }
  }

  lemma GoesInTurn(pass: Pass, idle: map<Key, Cached>, key: Option<Key>, body: Value, looked: bool,
                   retriedLimit: bool, world: World, now: nat)
    requires Goes(pass, idle, key, body, looked, retriedLimit, world, now)
    ensures InTurn(pass, body, looked, retriedLimit)
  {
  }

  /** Pass after pass until one is not retried; the four there is room for are never used up. */
  method RunPasses(cache: CodexWebSocketCache, key: Option<Key>, body: Value, world: nat -> World, now: nat)
    returns (passes: seq<Pass>)
    modifies cache`idle
    ensures passes != [] && Bounded(passes, body)
    ensures Went(passes, old(cache.idle), key, body, world, now)
    ensures cache.idle == IdleAfter(old(cache.idle), key, true, now)
  {
    passes := [];
    var preferCache, retriedLimit := true, false;
    for n := 0 to 4
      invariant |passes| == n && (preferCache <==> n == 0) && Retried(passes, body, retriedLimit)
      invariant Went(passes, old(cache.idle), key, body, world, now)
      invariant cache.idle == IdleAfter(old(cache.idle), key, n > 0, now)
    {
      ghost var idle := cache.idle;
      var pass, retried := AttemptOnce(cache, key, body, preferCache, retriedLimit, world(n), now);
      GoesInTurn(pass, idle, key, body, preferCache, retriedLimit, world(n), now);
      OneMorePass(passes, pass, body, retriedLimit);
      WentOn(passes, pass, old(cache.idle), key, body, world, now);
      passes := passes + [pass];
      if !Retries(pass.outcome) {
        return;
      }
      preferCache := false;
      retriedLimit := retried;
    }
    // A third retry has nothing left to retry.
    AtMostTwoRetries(passes, body, retriedLimit);
    assert false;
  }

  /** Whatever the sockets do, a call makes at most three passes and sends at most two frames; it retries a
      connection limit and a dead cached socket at most once each; every frame on a fresh socket is the full
      body; and the sticky marker is set exactly when it gives up on the WebSocket. */
  method TryStream(cache: CodexWebSocketCache, key: Option<Key>, body: Value, world: nat -> World, now: nat)
    returns (result: Attempt, passes: seq<Pass>)
    modifies cache
    ensures passes == [] <==> key.Some? && key.value in old(cache.fallback)
    ensures passes == [] ==> result == Fallback
    ensures cache.idle == IdleAfter(old(cache.idle), key, passes != [], now)
    ensures Bounded(passes, body) && Went(passes, old(cache.idle), key, body, world, now)
    ensures passes != [] ==>
              && (result == Streaming <==> passes[|passes| - 1].outcome == Started)
              && (result == Failed <==> passes[|passes| - 1].outcome == Fail)
    ensures passes != [] && result == Fallback && key.Some? ==>
              MarksOnly(old(cache.fallback), cache.fallback, key.value, now)
    ensures passes == [] || result != Fallback || key.None? ==> cache.fallback == old(cache.fallback)
  {
    if key.Some? {
      var active := cache.IsFallbackActive(key.value);
      if active {
        return Fallback, [];
      }
    }
    passes := RunPasses(cache, key, body, world, now);
    match passes[|passes| - 1].outcome {
      case Started => result := Streaming;
      case Fail => result := Failed;
      case FallBack =>
        result := Fallback;
        if key.Some? {
          cache.MarkFallback(key.value, now);
        }
    }
  }
}
