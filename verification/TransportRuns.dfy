/** What whole runs of the transport come to: sockets let go, sockets reused, and how old they get. */
module TransportRuns {
  import opened Prelude
  import opened Json
  import opened DeltaBody
  import opened Receiving
  import opened SocketCache
  import opened Transport
  import opened TransportProofs

  // ---- Steps that leave the pool alone ----

  /** Steps that open, take or cache a socket. */
  predicate Moves(st: State, step: Step)
    requires Enabled(st, step)
  {
    match step
    case Attempt(_) => true
    case ConnectOk(_) => true
    case CheckIn(t) => st.turns[t].key.Some? && st.turns[t].phase.progress.responseId.Some?
    case _ => false
  }

  /** Nothing was opened, cached or stamped, and no socket got an owner. */
  predicate Quiet(st: State, st2: State)
  {
    && st2.idle == st.idle && st2.times == st.times && st2.nextSocket == st.nextSocket && st.now <= st2.now
    && st2.owner.Keys <= st.owner.Keys
  }

  lemma LettingGoIsQuiet(st: State, t: TurnId, victim: Key)
    requires t in st.turns
    ensures Quiet(st, Released(st, t)) && Quiet(st, Ended(st, t)) && Quiet(st, FellBack(st, t, victim))
  {
  }

  lemma TurnsAreQuiet(st: State, step: Step, t: TurnId, victim: Key)
    requires Enabled(st, step) && t in st.turns
    requires step in {ConnectLimit(t, victim), ConnectFail(t, victim), Abandon(t), Read(t),
                      SendFail(t, true, victim), SendFail(t, false, victim),
                      ReadFail(t, true, victim), ReadFail(t, false, victim)}
    ensures Quiet(st, Apply(st, step))
  {
    LettingGoIsQuiet(st, t, victim);
    if step.Read? {
      AfterReadIs(st, t);
    }
  }

  lemma OthersAreQuiet(st: State, step: Step)
    requires Enabled(st, step) && !Moves(st, step)
    ensures Quiet(st, Apply(st, step))
  {
    match step
    case ConnectLimit(t, victim) => TurnsAreQuiet(st, step, t, victim);
    case ConnectFail(t, victim) => TurnsAreQuiet(st, step, t, victim);
    case SendFail(t, _, victim) => TurnsAreQuiet(st, step, t, victim);
    case Read(t) => TurnsAreQuiet(st, step, t, "");
    case ReadFail(t, _, victim) => TurnsAreQuiet(st, step, t, victim);
    case Abandon(t) => TurnsAreQuiet(st, step, t, "");
    case CheckIn(t) => LettingGoIsQuiet(st, t, "");
    case _ =>
  }

  // ---- A socket let go is gone ----

  /** A socket that has lost its owner. */
  predicate Gone(st: State, s: Socket)
  {
    s < st.nextSocket && s !in st.owner
  }

  predicate HasSocket(st: State, t: TurnId, s: Socket)
  {
    t in st.turns && SocketOf(st.turns[t].phase) == Some(s)
  }

  /** A step that fails or drops the turn on `s`, or ends it with nothing to cache it under. */
  predicate LetsGo(st: State, step: Step, s: Socket)
    requires Enabled(st, step)
  {
    match step
    case SendFail(t, _, _) => HasSocket(st, t, s)
    case ReadFail(t, _, _) => HasSocket(st, t, s)
    case Abandon(t) => HasSocket(st, t, s)
    case Read(t) =>
      && HasSocket(st, t, s)
      && (ErrorFrame(NextFrame(st, t)) || (Terminal(NextFrame(st, t)) && FailedEnd(NextFrame(st, t))))
    case CheckIn(t) =>
      HasSocket(st, t, s) && (st.turns[t].key.None? || st.turns[t].phase.progress.responseId.None?)
    case _ => false
  }

  /** A pool entry whose socket a step drops: one past the ceiling when the pool is swept, or one replaced. */
  predicate Evicts(st: State, step: Step, s: Socket)
    requires Enabled(st, step)
  {
    match step
    case Attempt(t) =>
      && st.turns[t].phase.preferCache && st.turns[t].key.Some?
      && exists k :: k in st.idle && st.idle[k].socket == s && st.now - st.idle[k].createdAt >= MAX_CONNECTION_AGE
    case CheckIn(t) =>
      && st.turns[t].key.Some? && st.turns[t].phase.progress.responseId.Some?
      && exists k :: k in st.idle && st.idle[k].socket == s
                     && (k == st.turns[t].key.value || st.now - st.idle[k].createdAt >= MAX_CONNECTION_AGE)
    case _ => false
  }

  lemma TurnLetsGo(st: State, step: Step, s: Socket)
    requires Inv(st) && Enabled(st, step) && LetsGo(st, step, s)
    ensures Gone(Apply(st, step), s)
  {
    match step
    case SendFail(t, _, victim) =>
      TurnOwnsItsSocket(st, t);
      FellBackParts(st, t, victim);
    case ReadFail(t, _, victim) =>
      TurnOwnsItsSocket(st, t);
      FellBackParts(st, t, victim);
    case Abandon(t) => TurnOwnsItsSocket(st, t);
    case Read(t) =>
      TurnOwnsItsSocket(st, t);
      AfterReadIs(st, t);
    case CheckIn(t) => TurnOwnsItsSocket(st, t);
    case _ =>
  }

  lemma SweepEvicts(st: State, t: TurnId, s: Socket, k: Key)
    requires OwnersGood(st.owner, st.idle, st.turns, st.nextSocket) && t in st.turns && st.turns[t].phase.Attempting?
    requires st.turns[t].phase.preferCache && st.turns[t].key.Some?
    requires k in st.idle && st.idle[k].socket == s && st.now - st.idle[k].createdAt >= MAX_CONNECTION_AGE
    ensures Gone(AfterAttempt(st, t), s)
  {
    assert st.owner[s] == InPool(k);
    var swept := Swept(st.idle, st.now);
    assert s !in Pool(st.owner, swept);
    var key := st.turns[t].key.value;
    if key in swept {
      assert st.owner[swept[key].socket] == InPool(key);
    }
  }

  lemma CheckInEvicts(st: State, t: TurnId, s: Socket, k: Key)
    requires OwnersGood(st.owner, st.idle, st.turns, st.nextSocket) && t in st.turns && st.turns[t].phase.Complete?
    requires st.turns[t].key.Some? && st.turns[t].phase.progress.responseId.Some?
    requires k in st.idle && st.idle[k].socket == s
    requires k == st.turns[t].key.value || st.now - st.idle[k].createdAt >= MAX_CONNECTION_AGE
    ensures Gone(AfterCheckIn(st, t), s)
  {
    assert st.owner[s] == InPool(k);
    assert st.owner[st.turns[t].phase.socket] == InTurn(t);
    var idle := AfterCheckIn(st, t).idle;
    assert k in idle ==> idle[k].socket != s;
    assert s !in Pool(st.owner, idle);
  }

  lemma PoolEvicts(st: State, step: Step, s: Socket)
    requires OwnersGood(st.owner, st.idle, st.turns, st.nextSocket) && Enabled(st, step) && Evicts(st, step, s)
    ensures Gone(Apply(st, step), s)
  {
    match step
    case Attempt(t) =>
      var k :| k in st.idle && st.idle[k].socket == s && st.now - st.idle[k].createdAt >= MAX_CONNECTION_AGE;
      SweepEvicts(st, t, s, k);
    case CheckIn(t) =>
      var k :| k in st.idle && st.idle[k].socket == s
               && (k == st.turns[t].key.value || st.now - st.idle[k].createdAt >= MAX_CONNECTION_AGE);
      CheckInEvicts(st, t, s, k);
    case _ =>
  }

  /** A step gives an owner only to a socket it opens or to one that has an owner already. */
  lemma StepKeepsGone(st: State, step: Step, s: Socket)
    requires OwnersGood(st.owner, st.idle, st.turns, st.nextSocket)
    requires Enabled(st, step) && Gone(st, s)
    ensures Gone(Apply(st, step), s)
  {
    if Moves(st, step) {
      match step
      case Attempt(t) =>
        var key := st.turns[t].key;
        assert key.Some? && key.value in st.idle ==> st.idle[key.value].socket in st.owner;
      case ConnectOk(t) =>
      case CheckIn(t) =>
        assert SocketOf(st.turns[t].phase).value in st.owner;
    } else {
      OthersAreQuiet(st, step);
      assert s !in st.owner.Keys;
    }
  }

  lemma {:induction false} GoneForGood(from: State, steps: seq<Step>, st: State, s: Socket)
    requires Inv(from) && Gone(from, s) && Leads(from, steps, st)
    ensures Gone(st, s)
  {
    if steps != [] {
      var last := |steps| - 1;
      var mid :| Leads(from, steps[..last], mid) && Enabled(mid, steps[last]) && st == Apply(mid, steps[last]);
      GoneForGood(from, steps[..last], mid, s);
      RunKeeps(from, steps[..last], mid);
      StepKeepsGone(mid, steps[last], s);
    }
  }

  /** In no later state of any run is a socket held, by a turn or by the pool, once its turn has failed, been
      dropped or ended without being cached, or its pool entry has been swept or replaced. */
  lemma NeverHeldAgain(before: seq<Step>, st: State, step: Step, s: Socket, after: seq<Step>, later: State)
    requires Leads(START, before, st) && Enabled(st, step) && (LetsGo(st, step, s) || Evicts(st, step, s))
    requires Leads(Apply(st, step), after, later)
    ensures (forall t :: t in later.turns ==> SocketOf(later.turns[t].phase) != Some(s))
    ensures (forall k :: k in later.idle ==> later.idle[k].socket != s)
  {
    StartIsGood();
    RunKeeps(START, before, st);
    StepKeeps(st, step);
    if LetsGo(st, step, s) {
      TurnLetsGo(st, step, s);
    } else {
      PoolEvicts(st, step, s);
    }
    GoneForGood(Apply(st, step), after, later, s);
    RunKeeps(Apply(st, step), after, later);
  }

  // ---- The next turn sends the tail ----

  /** Steps that may take or replace the pool entry of `key`. */
  predicate Touches(st: State, step: Step, key: Key)
    requires Enabled(st, step)
  {
    match step
    case Attempt(t) => st.turns[t].key == Some(key)
    case CheckIn(t) => st.turns[t].key == Some(key)
    case _ => false
  }

  /** A run in which no step touches the entry of `key`. */
  ghost predicate LeadsWithout(from: State, steps: seq<Step>, st: State, key: Key)
  {
    if steps == [] then st == from
    else
      var last := |steps| - 1;
      exists mid ::
        && LeadsWithout(from, steps[..last], mid, key) && Enabled(mid, steps[last]) && !Touches(mid, steps[last], key)
        && st == Apply(mid, steps[last])
  }

  /** The entry is there as it was, or it is past the ceiling. */
  predicate StillThere(st: State, key: Key, c: Cached)
  {
    (key in st.idle && st.idle[key] == c) || st.now - c.createdAt >= MAX_CONNECTION_AGE
  }

  lemma StepLeavesEntry(st: State, step: Step, key: Key, c: Cached)
    requires Enabled(st, step) && !Touches(st, step, key) && StillThere(st, key, c)
    ensures StillThere(Apply(st, step), key, c)
  {
    if !Moves(st, step) {
      OthersAreQuiet(st, step);
    }
  }

  lemma {:induction false} EntryStays(from: State, steps: seq<Step>, st: State, key: Key, c: Cached)
    requires LeadsWithout(from, steps, st, key) && StillThere(from, key, c)
    ensures StillThere(st, key, c)
  {
    if steps != [] {
      var last := |steps| - 1;
      var mid :|
        && LeadsWithout(from, steps[..last], mid, key) && Enabled(mid, steps[last]) && !Touches(mid, steps[last], key)
        && st == Apply(mid, steps[last]);
      EntryStays(from, steps[..last], mid, key, c);
      StepLeavesEntry(mid, steps[last], key, c);
    }
  }

  lemma TailFrame(turn: Turn, c: Continuation, tail: seq<Value>)
    requires turn.phase.Ready? && turn.phase.continuation == Some(c)
    requires RequestBody(turn.body) && Fingerprint(turn.body) == c.fingerprint && c.lastId != ""
    requires InputSlice(turn.body) == c.baseline + tail
    ensures InputSlice(FrameOf(turn)) == tail
    ensures GetStr(FrameOf(turn), "previous_response_id") == Some(c.lastId)
  {
    DeltaExactlyWhenChaining(turn.body, c);
    var wire := BuildWireBody(turn.body, Some(c));
    assert InputSlice(FrameOf(turn)) == InputSlice(wire);
  }

  /** An attempt on a key with a young entry takes its socket and continuation. */
  lemma AttemptReuses(st: State, t: TurnId, key: Key, c: Cached)
    requires t in st.turns && st.turns[t].phase == Attempting(true) && st.turns[t].key == Some(key)
    requires key in st.idle && st.idle[key] == c && st.now - c.createdAt < MAX_CONNECTION_AGE
    ensures AfterAttempt(st, t).turns[t].phase == Ready(c.socket, c.continuation, true)
    ensures AfterAttempt(st, t).turns[t].body == st.turns[t].body
  {
  }

  /** The saving is real: after a clean turn is checked in, whatever else happens in between, the next turn on
      its key that starts within the ceiling and goes on from its transcript takes the same socket and sends
      only what is new. */
  lemma NextTurnSendsTheTail(
    st: State, t: TurnId, key: Key, steps: seq<Step>, later: State, next: TurnId, tail: seq<Value>)
    requires t in st.turns && st.turns[t].phase.Complete? && st.turns[t].key == Some(key)
    requires st.turns[t].phase.progress.responseId.Some? && st.turns[t].phase.progress.responseId.value != ""
    requires LeadsWithout(AfterCheckIn(st, t), steps, later, key) && later.now - st.now < MAX_CONNECTION_AGE
    requires next in later.turns && later.turns[next].phase == Attempting(true) && later.turns[next].key == Some(key)
    requires var body := later.turns[next].body;
             && RequestBody(body) && Fingerprint(body) == Fingerprint(st.turns[t].body)
             && InputSlice(body) == InputSlice(st.turns[t].body) + st.turns[t].phase.progress.harvested + tail
    ensures var turn := AfterAttempt(later, next).turns[next];
            && turn.phase.Ready? && turn.phase.socket == st.turns[t].phase.socket
            && InputSlice(FrameOf(turn)) == tail
            && GetStr(FrameOf(turn), "previous_response_id") == st.turns[t].phase.progress.responseId
  {
    var done := AfterCheckIn(st, t);
    var c := done.idle[key];
    EntryStays(done, steps, later, key, c);
    AttemptReuses(later, next, key, c);
    TailFrame(AfterAttempt(later, next).turns[next], c.continuation.value, tail);
  }

  // ---- How old a reused socket is ----

  predicate OpenedGood(owner: map<Socket, Holder>, times: Times, now: nat)
  {
    forall s :: s in owner ==> s in times.openedAt && times.openedAt[s] <= now
  }

  /** A pool entry is stamped when it is checked in, and its socket was opened before. */
  predicate StampedGood(idle: map<Key, Cached>, times: Times, now: nat)
  {
    forall k :: k in idle ==> Stamped(idle[k], times, now)
  }

  predicate Stamped(c: Cached, times: Times, now: nat)
  {
    && c.socket in times.checkedIn && times.checkedIn[c.socket] == c.createdAt <= now
    && c.socket in times.openedAt && times.openedAt[c.socket] <= c.createdAt
  }

  predicate TimesGood(st: State)
  {
    OpenedGood(st.owner, st.times, st.now) && StampedGood(st.idle, st.times, st.now)
  }

  lemma TimesAfterAttempt(st: State, t: TurnId)
    requires OwnersGood(st.owner, st.idle, st.turns, st.nextSocket) && TimesGood(st)
    requires t in st.turns && st.turns[t].phase.Attempting?
    ensures TimesGood(AfterAttempt(st, t))
  {
    var st2 := AfterAttempt(st, t);
    forall k | k in st2.idle ensures Stamped(st2.idle[k], st2.times, st2.now) {
      assert Stamped(st.idle[k], st.times, st.now);
    }
    forall s | s in st2.owner ensures s in st.owner {
    }
  }

  lemma TimesAfterCheckIn(st: State, t: TurnId)
    requires OwnersGood(st.owner, st.idle, st.turns, st.nextSocket) && TimesGood(st)
    requires t in st.turns && st.turns[t].phase.Complete?
    requires st.turns[t].key.Some? && st.turns[t].phase.progress.responseId.Some?
    ensures TimesGood(AfterCheckIn(st, t))
  {
    var st2, s := AfterCheckIn(st, t), st.turns[t].phase.socket;
    assert st.owner[s] == InTurn(t);
    forall k | k in st2.idle ensures Stamped(st2.idle[k], st2.times, st2.now) {
      if k != st.turns[t].key.value {
        assert Stamped(st.idle[k], st.times, st.now) && st.owner[st.idle[k].socket] == InPool(k);
      }
    }
    forall u | u in st2.owner ensures u in st.owner {
    }
  }

  lemma TimesAfterConnect(st: State, t: TurnId)
    requires OwnersGood(st.owner, st.idle, st.turns, st.nextSocket) && TimesGood(st) && t in st.turns
    ensures TimesGood(AfterConnectOk(st, t))
  {
    var st2 := AfterConnectOk(st, t);
    forall k | k in st2.idle ensures Stamped(st2.idle[k], st2.times, st2.now) {
      assert Stamped(st.idle[k], st.times, st.now) && st.idle[k].socket in st.owner;
    }
  }

  /** Nothing else opens, caches or stamps a socket. */
  lemma TimesStay(st: State, st2: State)
    requires TimesGood(st) && Quiet(st, st2)
    ensures TimesGood(st2)
  {
    forall k | k in st2.idle ensures Stamped(st2.idle[k], st2.times, st2.now) {
      assert Stamped(st.idle[k], st.times, st.now);
    }
    forall s | s in st2.owner ensures s in st.owner {
      assert s in st2.owner.Keys;
    }
  }

  lemma StepKeepsTimes(st: State, step: Step)
    requires OwnersGood(st.owner, st.idle, st.turns, st.nextSocket) && TimesGood(st) && Enabled(st, step)
    ensures TimesGood(Apply(st, step))
  {
    if Moves(st, step) {
      match step
      case Attempt(t) => TimesAfterAttempt(st, t);
      case ConnectOk(t) => TimesAfterConnect(st, t);
      case CheckIn(t) => TimesAfterCheckIn(st, t);
    } else {
      OthersAreQuiet(st, step);
      TimesStay(st, Apply(st, step));
    }
  }

  lemma {:induction false} RunKeepsTimes(steps: seq<Step>, st: State)
    requires Leads(START, steps, st)
    ensures Inv(st) && TimesGood(st)
  {
    StartIsGood();
    RunKeeps(START, steps, st);
    if steps != [] {
      var last := |steps| - 1;
      var mid :| Leads(START, steps[..last], mid) && Enabled(mid, steps[last]) && st == Apply(mid, steps[last]);
      RunKeepsTimes(steps[..last], mid);
      StepKeepsTimes(mid, steps[last]);
    }
  }

  predicate Under(now: nat, since: nat)
  {
    now - since < MAX_CONNECTION_AGE
  }

  lemma ReuseIsYoung(st: State, t: TurnId)
    requires TimesGood(st) && t in st.turns && st.turns[t].phase.Attempting?
    requires AfterAttempt(st, t).turns[t].phase.Ready?
    ensures exists c :: Stamped(c, st.times, st.now) && Under(st.now, c.createdAt)
                        && c.socket == AfterAttempt(st, t).turns[t].phase.socket
  {
    var c := st.idle[st.turns[t].key.value];
    assert Stamped(c, st.times, st.now);
  }

  /** In every run, a socket taken from the pool had been idle since its last check-in for less than the
      ceiling, and was opened no later than that. */
  lemma EveryReuseWasIdleUnderTheCeiling(steps: seq<Step>, st: State, t: TurnId)
    requires Leads(START, steps, st) && t in st.turns && st.turns[t].phase.Attempting?
    requires AfterAttempt(st, t).turns[t].phase.Ready?
    ensures var s := AfterAttempt(st, t).turns[t].phase.socket;
            && s in st.times.openedAt && s in st.times.checkedIn
            && st.times.openedAt[s] <= st.times.checkedIn[s] <= st.now
            && st.now - st.times.checkedIn[s] < 55 * 60 * 1_000_000_000
  {
    RunKeepsTimes(steps, st);
    ReuseIsYoung(st, t);
  }

  /** At every time, an entry stamped at `createdAt` is kept exactly as one measured from `openedAt` would be. */
  ghost predicate CeilingIsOnAge(createdAt: nat, openedAt: nat)
  {
    forall now: nat :: Under(now, createdAt) <==> Under(now, openedAt)
  }

  lemma SameCeiling(createdAt: nat, openedAt: nat)
    requires openedAt <= createdAt
    ensures CeilingIsOnAge(createdAt, openedAt) <==> createdAt == openedAt
  {
    if createdAt != openedAt {
      var now := openedAt + MAX_CONNECTION_AGE;
      assert Under(now, createdAt) && !Under(now, openedAt);
    }
  }

  /** In every reachable state, the sweep treats a pooled socket as a ceiling on its total age would, at every
      time, if and only if it was checked in the moment it was opened. */
  lemma CeilingIsOnAgeExactlyWhen(steps: seq<Step>, st: State, k: Key)
    requires Leads(START, steps, st) && k in st.idle
    ensures var c := st.idle[k];
            && c.socket in st.times.openedAt
            && (CeilingIsOnAge(c.createdAt, st.times.openedAt[c.socket])
                <==> c.createdAt == st.times.openedAt[c.socket])
  {
    RunKeepsTimes(steps, st);
    var c := st.idle[k];
    assert Stamped(c, st.times, st.now);
    SameCeiling(c.createdAt, st.times.openedAt[c.socket]);
  }
}
