/** What every run of the transport keeps, and what follows for the requests the server sees. */
module TransportProofs {
  import opened Prelude
  import opened Json
  import opened DeltaBody
  import opened Receiving
  import opened SocketCache
  import opened Transport

  // ---- Contexts ----

  lemma {:induction false} EraseAppend(xs: seq<Item>, ys: seq<Item>)
    ensures Erase(xs + ys) == Erase(xs) + Erase(ys)
  {
    if ys == [] {
      assert xs + ys == xs;
    } else {
      var last := |ys| - 1;
      assert (xs + ys)[..|xs + ys| - 1] == xs + ys[..last];
      EraseAppend(xs, ys[..last]);
    }
  }

  lemma {:induction false} EraseInput(items: seq<Value>)
    ensures Erase(Tagged(items, false)) == items
  {
    if items != [] {
      var last := |items| - 1;
      assert Tagged(items, false)[..last] == Tagged(items[..last], false);
      EraseInput(items[..last]);
      assert items == items[..last] + [items[last]];
    }
  }

  lemma {:induction false} EraseOutputs(items: seq<Value>)
    ensures Erase(Tagged(items, true)) == Harvest(items)
  {
    if items != [] {
      var last := |items| - 1;
      assert Tagged(items, true)[..last] == Tagged(items[..last], true);
      EraseOutputs(items[..last]);
    }
  }

  // ---- The invariant ----

  /** The server holds, under `c`'s response id, exactly what `c` takes it to hold, and that response is
      the last one this socket ended cleanly. */
  ghost predicate Holds(server: Server, s: Socket, c: Continuation)
  {
    && c.lastId in server.contexts && Erase(server.contexts[c.lastId]) == c.baseline
    && s in server.latest && server.latest[s] == c.lastId
  }

  /** A request frame that resolves to its turn's full body. */
  ghost predicate Sound(server: Server, s: Socket, body: Value, frame: Value)
  {
    && RequestBody(body)
    && frame.Obj?
    && frame.fields - {"input", "previous_response_id"} == WireFrame(body).fields - {"input"}
    && match GetStr(frame, "previous_response_id")
       case None => InputSlice(frame) == InputSlice(body)
       case Some(id) =>
         && s in server.latest && server.latest[s] == id
         && id in server.contexts && Erase(server.contexts[id]) + InputSlice(frame) == InputSlice(body)
  }

  /** Only the last frame can end a response, and the status says how it did. */
  ghost predicate EndsRight(frames: seq<Value>, status: Status)
  {
    forall i :: 0 <= i < |frames| && Terminal(frames[i]) ==>
      i == |frames| - 1 && status != Open && (CleanEnd(frames[i]) ==> status == Clean)
  }

  predicate NamesOnly(frames: seq<Value>, id: string)
  {
    forall i :: 0 <= i < |frames| && ResponseId(frames[i]).Some? ==> ResponseId(frames[i]).value == id
  }

  ghost predicate GoodExchange(server: Server, s: Socket, e: Exchange)
  {
    match e
    case Requested(_, body, frame) => Sound(server, s, body, frame)
    case Refused(_) => false
    case Answering(_, body, id, resolved, frames, status) =>
      && id in server.issued && server.issued[id] == s
      && Erase(resolved) == InputSlice(body)
      && NamesOnly(frames, id)
      && EndsRight(frames, status)
      && (status != Clean ==> id !in server.contexts)
      && (status == Clean ==>
            && id in server.contexts && server.contexts[id] == resolved + Tagged(Outputs(frames), true)
            && s in server.latest && server.latest[s] == id)
  }

  ghost predicate ServerGood(server: Server, nextSocket: Socket)
  {
    && (forall s :: s in server.exchanges ==> s < nextSocket && GoodExchange(server, s, server.exchanges[s]))
    && (forall s :: s in server.latest ==> s < nextSocket)
    && (forall id :: id in server.contexts ==> id in server.issued)
  }

  /** A socket at rest with a continuation: its exchange ended cleanly and the server agrees. */
  ghost predicate AtRest(server: Server, s: Socket, continuation: Option<Continuation>)
  {
    && continuation.Some? && Holds(server, s, continuation.value)
    && s in server.exchanges && server.exchanges[s].Answering? && server.exchanges[s].status == Clean
  }

  /** The server is answering this very turn on `s`. */
  predicate Answers(server: Server, s: Socket, t: TurnId, body: Value)
  {
    && s in server.exchanges && server.exchanges[s].Answering?
    && server.exchanges[s].turn == t && server.exchanges[s].body == body
  }

  predicate Asked(server: Server, s: Socket, t: TurnId, body: Value)
  {
    && s in server.exchanges && server.exchanges[s].Requested?
    && server.exchanges[s].turn == t && server.exchanges[s].body == body
  }

  /** What a turn has read is what the server has said to it. */
  ghost predicate GoodPhase(server: Server, t: TurnId, body: Value, phase: Phase)
  {
    match phase
    case Attempting(_) => true
    case Connecting => true
    case Ready(s, continuation, reused) =>
      if reused then AtRest(server, s, continuation)
      else continuation.None? && s !in server.exchanges && s !in server.latest
    case Waiting(s, _) => Asked(server, s, t, body) || Answers(server, s, t, body)
    case Streaming(s, progress, read) =>
      && Answers(server, s, t, body)
      && read <= |server.exchanges[s].frames| && progress == AbsorbAll(server.exchanges[s].frames[..read])
    case Complete(s, progress) =>
      && Answers(server, s, t, body) && server.exchanges[s].status == Clean
      && progress == AbsorbAll(server.exchanges[s].frames)
  }

  function Bit(b: bool): nat { if b then 1 else 0 }

  /** A pass is spent on each kind of retry at most once, and only a stale reuse has already sent. */
  predicate GoodCounts(turn: Turn)
  {
    var retries := Bit(turn.retriedLimit) + Bit(turn.retriedStale);
    && turn.passes == retries + (if turn.phase.Attempting? then 0 else 1)
    && turn.sends == Bit(turn.retriedStale)
                     + Bit(turn.phase.Waiting? || turn.phase.Streaming? || turn.phase.Complete?)
    && (turn.phase.Attempting? && turn.phase.preferCache ==> retries == 0)
    && ((turn.phase.Ready? || turn.phase.Waiting?) && turn.phase.reused ==> retries == 0)
  }

  ghost predicate GoodTurn(server: Server, t: TurnId, turn: Turn)
  {
    RequestBody(turn.body) && GoodCounts(turn) && GoodPhase(server, t, turn.body, turn.phase)
  }

  ghost predicate PoolGood(server: Server, idle: map<Key, Cached>)
  {
    forall k :: k in idle ==> AtRest(server, idle[k].socket, idle[k].continuation)
  }

  ghost predicate TurnsGood(server: Server, turns: map<TurnId, Turn>, nextTurn: TurnId)
  {
    forall t :: t in turns ==> t < nextTurn && GoodTurn(server, t, turns[t])
  }

  /** Each live socket is held by exactly the pool entry or the turn that owns it. */
  ghost predicate OwnersGood(owner: map<Socket, Holder>, idle: map<Key, Cached>, turns: map<TurnId, Turn>, next: Socket)
  {
    && (forall s :: s in owner ==> s < next)
    && (forall s :: s in owner && owner[s].InPool? ==> owner[s].key in idle && idle[owner[s].key].socket == s)
    && (forall s :: s in owner && owner[s].InTurn? ==>
          owner[s].turn in turns && SocketOf(turns[owner[s].turn].phase) == Some(s))
    && (forall k :: k in idle ==> idle[k].socket in owner && owner[idle[k].socket] == InPool(k))
    && (forall t :: t in turns && SocketOf(turns[t].phase).Some? ==>
          SocketOf(turns[t].phase).value in owner && owner[SocketOf(turns[t].phase).value] == InTurn(t))
  }

  /** The server resolved the request to the full body, chaining only off this socket's last response. */
  ghost predicate Faithful(r: Served)
  {
    && RequestBody(r.body) && r.resolved.Some? && Erase(r.resolved.value) == InputSlice(r.body)
    && r.frame.Obj?
    && r.frame.fields - {"input", "previous_response_id"} == WireFrame(r.body).fields - {"input"}
    && (GetStr(r.frame, "previous_response_id").Some? ==> GetStr(r.frame, "previous_response_id") == r.latest)
  }

  ghost predicate ServedGood(served: seq<Served>)
  {
    forall i :: 0 <= i < |served| ==> Faithful(served[i])
  }

  ghost predicate Inv(st: State)
  {
    && ServerGood(st.server, st.nextSocket)
    && PoolGood(st.server, st.idle)
    && TurnsGood(st.server, st.turns, st.nextTurn)
    && OwnersGood(st.owner, st.idle, st.turns, st.nextSocket)
    && ServedGood(st.served)
  }

  // ---- Ownership ----

  /** A turn that loses its socket, whether it ends or starts another attempt. */
  lemma OwnersAfterLetGo(st: State, t: TurnId, turns: map<TurnId, Turn>)
    requires t in st.turns && OwnersGood(st.owner, st.idle, st.turns, st.nextSocket)
    requires turns - {t} == st.turns - {t}
    requires t in turns ==> SocketOf(turns[t].phase).None?
    ensures OwnersGood(Released(st, t).owner, st.idle, turns, st.nextSocket)
  {
    forall u | u in turns && u != t ensures u in st.turns && turns[u] == st.turns[u] {
      assert u in turns - {t} && (turns - {t})[u] == (st.turns - {t})[u];
    }
    forall u | u in st.turns && u != t ensures u in turns && turns[u] == st.turns[u] {
      assert u in st.turns - {t};
    }
  }

  /** A turn that keeps the socket it has. */
  lemma OwnersAfterMove(st: State, t: TurnId, turn: Turn)
    requires t in st.turns && OwnersGood(st.owner, st.idle, st.turns, st.nextSocket)
    requires SocketOf(turn.phase) == SocketOf(st.turns[t].phase)
    ensures OwnersGood(st.owner, st.idle, st.turns[t := turn], st.nextSocket)
  {
  }

  /** Dropping entries from the pool drops their sockets. */
  lemma OwnersAfterSweep(owner: map<Socket, Holder>, idle: map<Key, Cached>, turns: map<TurnId, Turn>, next: Socket,
                         keep: map<Key, Cached>)
    requires OwnersGood(owner, idle, turns, next)
    requires forall k :: k in keep ==> k in idle && keep[k] == idle[k]
    ensures OwnersGood(Pool(owner, keep), keep, turns, next)
  {
  }

  /** A pool entry handed to a turn that held nothing. */
  lemma OwnersAfterCheckout(owner: map<Socket, Holder>, idle: map<Key, Cached>, turns: map<TurnId, Turn>, next: Socket,
                            key: Key, t: TurnId, turn: Turn)
    requires OwnersGood(owner, idle, turns, next)
    requires key in idle && t in turns && SocketOf(turns[t].phase).None?
    requires SocketOf(turn.phase) == Some(idle[key].socket)
    ensures OwnersGood(owner[idle[key].socket := InTurn(t)], idle - {key}, turns[t := turn], next)
  {
  }

  lemma OwnersAfterAttempt(st: State, t: TurnId)
    requires t in st.turns && st.turns[t].phase.Attempting?
    requires OwnersGood(st.owner, st.idle, st.turns, st.nextSocket)
    ensures var st2 := AfterAttempt(st, t);
            OwnersGood(st2.owner, st2.idle, st2.turns, st2.nextSocket)
  {
    var turn := AfterAttempt(st, t).turns[t];
    if st.turns[t].phase.preferCache && turn.key.Some? {
      var swept := Swept(st.idle, st.now);
      var pooled := Pool(st.owner, swept);
      OwnersAfterSweep(st.owner, st.idle, st.turns, st.nextSocket, swept);
      if turn.key.value in swept {
        OwnersAfterCheckout(pooled, swept, st.turns, st.nextSocket, turn.key.value, t, turn);
      } else {
        OwnersAfterMove(st.(owner := pooled, idle := swept), t, turn);
      }
    } else {
      OwnersAfterMove(st, t, turn);
    }
  }

  lemma OwnersAfterConnect(st: State, t: TurnId)
    requires t in st.turns && st.turns[t].phase.Connecting?
    requires OwnersGood(st.owner, st.idle, st.turns, st.nextSocket)
    ensures var st2 := AfterConnectOk(st, t);
            OwnersGood(st2.owner, st2.idle, st2.turns, st2.nextSocket)
  {
  }

  lemma OwnersAfterCheckIn(st: State, t: TurnId)
    requires t in st.turns && st.turns[t].phase.Complete?
    requires OwnersGood(st.owner, st.idle, st.turns, st.nextSocket)
    ensures var st2 := AfterCheckIn(st, t);
            OwnersGood(st2.owner, st2.idle, st2.turns, st2.nextSocket)
  {
    if st.turns[t].key.Some? && st.turns[t].phase.progress.responseId.Some? {
      assert st.owner[st.turns[t].phase.socket] == InTurn(t);
    } else {
      OwnersAfterLetGo(st, t, st.turns - {t});
    }
  }

  // ---- Steps that leave the server alone ----

  /** One turn replaced, or gone, and the rest as they were. */
  lemma TurnsAfterChange(server: Server, turns: map<TurnId, Turn>, next: TurnId, t: TurnId, turn: Turn)
    requires TurnsGood(server, turns, next) && t < next && GoodTurn(server, t, turn)
    ensures TurnsGood(server, turns[t := turn], next)
    ensures TurnsGood(server, turns - {t}, next)
  {
  }

  lemma OwnersAfterBegin(st: State, t: TurnId, turn: Turn)
    requires OwnersGood(st.owner, st.idle, st.turns, st.nextSocket)
    requires t !in st.turns && SocketOf(turn.phase).None?
    ensures OwnersGood(st.owner, st.idle, st.turns[t := turn], st.nextSocket)
  {
  }

  lemma BeginKeeps(st: State, key: Option<Key>, body: Value)
    requires Inv(st) && RequestBody(body)
    ensures Inv(AfterBegin(st, key, body))
  {
    var turn := Turn(key, body, Attempting(true), false, false, 0, 0);
    TurnsAfterChange(st.server, st.turns, st.nextTurn + 1, st.nextTurn, turn);
    OwnersAfterBegin(st, st.nextTurn, turn);
  }

  lemma GoodAfterAttempt(st: State, t: TurnId)
    requires t in st.turns && st.turns[t].phase.Attempting?
    requires GoodTurn(st.server, t, st.turns[t]) && PoolGood(st.server, st.idle)
    ensures GoodTurn(st.server, t, AfterAttempt(st, t).turns[t])
    ensures PoolGood(st.server, AfterAttempt(st, t).idle)
  {
  }

  lemma AttemptKeeps(st: State, t: TurnId)
    requires Inv(st) && t in st.turns && st.turns[t].phase.Attempting?
    ensures Inv(AfterAttempt(st, t))
  {
    OwnersAfterAttempt(st, t);
    GoodAfterAttempt(st, t);
    TurnsAfterChange(st.server, st.turns, st.nextTurn, t, AfterAttempt(st, t).turns[t]);
  }

  lemma ConnectOkKeeps(st: State, t: TurnId)
    requires Inv(st) && t in st.turns && st.turns[t].phase.Connecting?
    ensures Inv(AfterConnectOk(st, t))
  {
    var st2 := AfterConnectOk(st, t);
    OwnersAfterConnect(st, t);
    assert GoodTurn(st.server, t, st.turns[t]);
    assert GoodTurn(st.server, t, st2.turns[t]);
    TurnsAfterChange(st.server, st.turns, st.nextTurn, t, st2.turns[t]);
    assert ServerGood(st.server, st2.nextSocket);
  }

  lemma EndKeeps(st: State, t: TurnId, markers: map<Key, nat>)
    requires Inv(st) && t in st.turns
    ensures Inv(Ended(st, t).(markers := markers))
  {
    OwnersAfterLetGo(st, t, st.turns - {t});
    TurnsAfterChange(st.server, st.turns, st.nextTurn, t, st.turns[t]);
  }

  lemma FallBackKeeps(st: State, t: TurnId, victim: Key)
    requires Inv(st) && t in st.turns
    ensures Inv(FellBack(st, t, victim))
  {
    EndKeeps(st, t, FellBack(st, t, victim).markers);
  }

  /** Another attempt, on a fresh connection. */
  lemma RetryKeeps(st: State, t: TurnId, turn: Turn)
    requires Inv(st) && t in st.turns
    requires turn.phase.Attempting? && RequestBody(turn.body) && GoodCounts(turn)
    ensures Inv(Released(st, t).(turns := st.turns[t := turn]))
  {
    OwnersAfterLetGo(st, t, st.turns[t := turn]);
    TurnsAfterChange(st.server, st.turns, st.nextTurn, t, turn);
  }

  lemma ConnectLimitKeeps(st: State, t: TurnId, victim: Key)
    requires Inv(st) && t in st.turns && st.turns[t].phase.Connecting?
    ensures Inv(AfterConnectLimit(st, t, victim))
  {
    assert GoodTurn(st.server, t, st.turns[t]);
    if st.turns[t].retriedLimit {
      FallBackKeeps(st, t, victim);
    } else {
      RetryKeeps(st, t, st.turns[t].(phase := Attempting(false), retriedLimit := true));
    }
  }

  lemma ReadFailKeeps(st: State, t: TurnId, protocol: bool, victim: Key)
    requires Inv(st) && t in st.turns && (st.turns[t].phase.Waiting? || st.turns[t].phase.Streaming?)
    ensures Inv(AfterReadFail(st, t, protocol, victim))
  {
    var turn := st.turns[t];
    assert GoodTurn(st.server, t, turn);
    if !turn.phase.Waiting? || protocol {
      EndKeeps(st, t, st.markers);
    } else if turn.phase.reused {
      RetryKeeps(st, t, turn.(phase := Attempting(false), retriedStale := true));
    } else {
      FallBackKeeps(st, t, victim);
    }
  }

  /** Reading one more frame keeps the turn's view equal to the server's words. */
  lemma ReadMovesOn(server: Server, s: Socket, t: TurnId, body: Value, phase: Phase)
    requires (phase.Waiting? || phase.Streaming?) && s == phase.socket
    requires GoodPhase(server, t, body, phase)
    requires s in server.exchanges && server.exchanges[s].Answering?
    requires EndsRight(server.exchanges[s].frames, server.exchanges[s].status)
    requires ReadSoFar(phase) < |server.exchanges[s].frames|
    ensures var n := ReadSoFar(phase);
            var frame := server.exchanges[s].frames[n];
            var progress := Absorb(ProgressSoFar(phase), frame);
            && GoodPhase(server, t, body, Streaming(s, progress, n + 1))
            && (CleanEnd(frame) ==> GoodPhase(server, t, body, Complete(s, progress)))
  {
    var n, frames := ReadSoFar(phase), server.exchanges[s].frames;
    AbsorbNext(frames[..n], frames[n]);
    assert frames[..n + 1] == frames[..n] + [frames[n]];
    assert CleanEnd(frames[n]) ==> frames[..n + 1] == frames;
  }

  /** A turn that moves on without letting go of its socket. */
  lemma MoveKeeps(st: State, t: TurnId, turn: Turn)
    requires Inv(st) && t in st.turns && GoodTurn(st.server, t, turn)
    requires SocketOf(turn.phase) == SocketOf(st.turns[t].phase)
    ensures Inv(st.(turns := st.turns[t := turn]))
  {
    OwnersAfterMove(st, t, turn);
    TurnsAfterChange(st.server, st.turns, st.nextTurn, t, turn);
  }

  function NextFrame(st: State, t: TurnId): Value
    requires CanRead(st, t)
  {
    st.server.exchanges[st.turns[t].phase.socket].frames[ReadSoFar(st.turns[t].phase)]
  }

  function NextProgress(st: State, t: TurnId): Progress
    requires CanRead(st, t)
  {
    Absorb(ProgressSoFar(st.turns[t].phase), NextFrame(st, t))
  }

  function Continued(st: State, t: TurnId): Turn
    requires CanRead(st, t)
  {
    var phase := st.turns[t].phase;
    st.turns[t].(phase := Streaming(phase.socket, NextProgress(st, t), ReadSoFar(phase) + 1))
  }

  function Completed(st: State, t: TurnId): Turn
    requires CanRead(st, t)
  {
    st.turns[t].(phase := Complete(st.turns[t].phase.socket, NextProgress(st, t)))
  }

  lemma ReadIsGood(st: State, t: TurnId)
    requires Inv(st) && CanRead(st, t)
    ensures GoodTurn(st.server, t, Continued(st, t))
    ensures CleanEnd(NextFrame(st, t)) ==> GoodTurn(st.server, t, Completed(st, t))
  {
    var turn := st.turns[t];
    var s := turn.phase.socket;
    assert GoodTurn(st.server, t, turn) && GoodExchange(st.server, s, st.server.exchanges[s]);
    ReadMovesOn(st.server, s, t, turn.body, turn.phase);
  }

  lemma AfterReadIs(st: State, t: TurnId)
    requires CanRead(st, t)
    ensures var frame := NextFrame(st, t);
            AfterRead(st, t) ==
            if ErrorFrame(frame) || (Terminal(frame) && FailedEnd(frame)) then Ended(st, t).(markers := st.markers)
            else st.(turns := st.turns[t := if Terminal(frame) then Completed(st, t) else Continued(st, t)])
  {
  }

  lemma ReadKeeps(st: State, t: TurnId)
    requires Inv(st) && CanRead(st, t)
    ensures Inv(AfterRead(st, t))
  {
    var frame := NextFrame(st, t);
    AfterReadIs(st, t);
    if ErrorFrame(frame) || (Terminal(frame) && FailedEnd(frame)) {
      EndKeeps(st, t, st.markers);
    } else {
      ReadIsGood(st, t);
      MoveKeeps(st, t, if Terminal(frame) then Completed(st, t) else Continued(st, t));
    }
  }

  // ---- Check-in: the stored baseline is what the server holds ----

  lemma {:induction false} OnlyIdNamed(frames: seq<Value>, id: string)
    requires NamesOnly(frames, id)
    ensures LastId(frames).Some? ==> LastId(frames).value == id
  {
    if frames != [] && ResponseId(frames[|frames| - 1]).None? {
      OnlyIdNamed(frames[..|frames| - 1], id);
    }
  }

  /** The baseline a clean turn leaves behind is the erased context of its response. */
  lemma BaselineIsContext(server: Server, s: Socket, e: Exchange, p: Progress)
    requires e.Answering? && e.status == Clean && GoodExchange(server, s, e)
    requires p == AbsorbAll(e.frames) && p.responseId.Some?
    ensures Holds(server, s, Continuation(Fingerprint(e.body), InputSlice(e.body) + p.harvested, p.responseId.value))
  {
    ProgressIsHarvest(e.frames);
    OnlyIdNamed(e.frames, e.id);
    EraseAppend(e.resolved, Tagged(Outputs(e.frames), true));
    EraseOutputs(Outputs(e.frames));
  }

  lemma PoolAfterCheckIn(st: State, t: TurnId)
    requires t in st.turns && st.turns[t].phase.Complete?
    requires PoolGood(st.server, st.idle) && GoodTurn(st.server, t, st.turns[t])
    requires ServerGood(st.server, st.nextSocket)
    ensures PoolGood(st.server, AfterCheckIn(st, t).idle)
  {
    var s, progress := st.turns[t].phase.socket, st.turns[t].phase.progress;
    if progress.responseId.Some? {
      BaselineIsContext(st.server, s, st.server.exchanges[s], progress);
    }
  }

  lemma CheckInKeeps(st: State, t: TurnId)
    requires Inv(st) && t in st.turns && st.turns[t].phase.Complete?
    ensures Inv(AfterCheckIn(st, t))
  {
    assert GoodTurn(st.server, t, st.turns[t]);
    PoolAfterCheckIn(st, t);
    OwnersAfterCheckIn(st, t);
    TurnsAfterChange(st.server, st.turns, st.nextTurn, t, st.turns[t]);
  }

  // ---- Steps that move the server ----

  /** Seen from socket `s`, nothing has changed but that more responses may have contexts. */
  ghost predicate Undisturbed(before: Server, after: Server, s: Socket)
  {
    && (s in before.exchanges <==> s in after.exchanges)
    && (s in before.exchanges ==> before.exchanges[s] == after.exchanges[s])
    && (s in before.latest <==> s in after.latest)
    && (s in before.latest ==> before.latest[s] == after.latest[s])
    && (forall id :: id in before.contexts ==> id in after.contexts && after.contexts[id] == before.contexts[id])
  }

  lemma UndisturbedPhase(before: Server, after: Server, t: TurnId, body: Value, phase: Phase)
    requires GoodPhase(before, t, body, phase)
    requires SocketOf(phase).Some? ==> Undisturbed(before, after, SocketOf(phase).value)
    ensures GoodPhase(after, t, body, phase)
  {
  }

  lemma UndisturbedPool(before: Server, after: Server, idle: map<Key, Cached>)
    requires PoolGood(before, idle)
    requires forall k :: k in idle ==> Undisturbed(before, after, idle[k].socket)
    ensures PoolGood(after, idle)
  {
  }

  /** Ids issued on other sockets are not touched by a change to what was issued on `s`. */
  lemma UndisturbedExchange(before: Server, after: Server, s: Socket, u: Socket)
    requires u in before.exchanges && u != s && GoodExchange(before, u, before.exchanges[u])
    requires Undisturbed(before, after, u)
    requires forall id :: id in before.issued ==> id in after.issued && after.issued[id] == before.issued[id]
    requires forall id :: id in after.contexts && id !in before.contexts ==> id in before.issued && before.issued[id] == s
    ensures GoodExchange(after, u, after.exchanges[u])
  {
  }

  /** The frame a turn sends is sound for the socket it sends it on. */
  lemma FrameIsSound(server: Server, t: TurnId, turn: Turn)
    requires turn.phase.Ready? && GoodTurn(server, t, turn)
    ensures Sound(server, turn.phase.socket, turn.body, FrameOf(turn))
  {
    var body := turn.body;
    match turn.phase.continuation
    case None =>
      assert WireFrame(body).fields - {"input", "previous_response_id"} == WireFrame(body).fields - {"input"};
      assert GetStr(WireFrame(body), "previous_response_id").None?;
    case Some(c) =>
      DeltaExactlyWhenChaining(body, c);
      var wire := BuildWireBody(body, Some(c));
      assert InputSlice(WireFrame(wire)) == InputSlice(wire);
      if Chains(body, c) {
        FrameFields(wire, body);
      } else {
        assert WireFrame(body).fields - {"input", "previous_response_id"} == WireFrame(body).fields - {"input"};
      }
  }

  lemma FrameFields(wire: Value, body: Value)
    requires wire.Obj? && body.Obj?
    requires wire.fields - {"input", "previous_response_id"} == body.fields - {"input"}
    ensures WireFrame(wire).fields - {"input", "previous_response_id"} == WireFrame(body).fields - {"input"}
  {
    var a := WireFrame(wire).fields - {"input", "previous_response_id"};
    var b := WireFrame(body).fields - {"input"};
    forall k ensures k in a <==> k in b {
      assert k in wire.fields - {"input", "previous_response_id"} <==> k in body.fields - {"input"};
    }
    forall k | k in a ensures a[k] == b[k] {
      if k != "type" {
        assert (wire.fields - {"input", "previous_response_id"})[k] == (body.fields - {"input"})[k];
      }
    }
  }

  lemma RequestKeepsServer(server: Server, next: Socket, t: TurnId, turn: Turn)
    requires ServerGood(server, next)
    requires turn.phase.Ready? && turn.phase.socket < next && GoodTurn(server, t, turn)
    ensures ServerGood(WithRequest(server, t, turn), next)
  {
    var after := WithRequest(server, t, turn);
    FrameIsSound(server, t, turn);
    assert Sound(after, turn.phase.socket, turn.body, FrameOf(turn));
    forall u | u in after.exchanges && u != turn.phase.socket
      ensures u < next && GoodExchange(after, u, after.exchanges[u])
    {
      UndisturbedExchange(server, after, turn.phase.socket, u);
    }
  }

  /** Everyone but the holder of `s` is undisturbed by a change on `s`. */
  lemma OthersKeepGood(st: State, after: Server, s: Socket, t: TurnId, turns: map<TurnId, Turn>)
    requires PoolGood(st.server, st.idle) && TurnsGood(st.server, st.turns, st.nextTurn)
    requires OwnersGood(st.owner, st.idle, st.turns, st.nextSocket)
    requires s in st.owner && st.owner[s] == InTurn(t)
    requires forall u :: u != s ==> Undisturbed(st.server, after, u)
    requires turns - {t} == st.turns - {t} && t < st.nextTurn
    requires t in turns ==> GoodTurn(after, t, turns[t])
    ensures PoolGood(after, st.idle) && TurnsGood(after, turns, st.nextTurn)
  {
    UndisturbedPool(st.server, after, st.idle);
    forall u | u in turns ensures u < st.nextTurn && GoodTurn(after, u, turns[u]) {
      if u != t {
        assert u in turns - {t} && (turns - {t})[u] == (st.turns - {t})[u];
        UndisturbedPhase(st.server, after, u, turns[u].body, turns[u].phase);
      }
    }
  }

  lemma RequestUndisturbs(server: Server, t: TurnId, turn: Turn)
    requires turn.phase.Ready?
    ensures forall u :: u != turn.phase.socket ==> Undisturbed(server, WithRequest(server, t, turn), u)
  {
  }

  lemma TurnOwnsItsSocket(st: State, t: TurnId)
    requires Inv(st) && t in st.turns && SocketOf(st.turns[t].phase).Some?
    ensures var s := SocketOf(st.turns[t].phase).value; s in st.owner && st.owner[s] == InTurn(t) && s < st.nextSocket
    ensures t < st.nextTurn && GoodTurn(st.server, t, st.turns[t])
  {
  }

  /** Putting a turn's request on its socket disturbs nothing else, whatever becomes of the turn. */
  lemma RequestKeeps(st: State, t: TurnId, turns: map<TurnId, Turn>)
    requires Inv(st) && t in st.turns && st.turns[t].phase.Ready?
    requires turns - {t} == st.turns - {t}
    requires t in turns ==> GoodTurn(WithRequest(st.server, t, st.turns[t]), t, turns[t])
    ensures var after := WithRequest(st.server, t, st.turns[t]);
            ServerGood(after, st.nextSocket) && PoolGood(after, st.idle) && TurnsGood(after, turns, st.nextTurn)
  {
    var turn := st.turns[t];
    TurnOwnsItsSocket(st, t);
    RequestKeepsServer(st.server, st.nextSocket, t, turn);
    RequestUndisturbs(st.server, t, turn);
    OthersKeepGood(st, WithRequest(st.server, t, turn), turn.phase.socket, t, turns);
  }

  lemma SendOkKeeps(st: State, t: TurnId)
    requires Inv(st) && t in st.turns && st.turns[t].phase.Ready?
    ensures Inv(AfterSendOk(st, t))
  {
    var st2 := AfterSendOk(st, t);
    assert GoodTurn(st.server, t, st.turns[t]);
    RequestKeeps(st, t, st2.turns);
    OwnersAfterMove(st, t, st2.turns[t]);
  }

  lemma FellBackParts(st: State, t: TurnId, victim: Key)
    requires t in st.turns
    ensures var done := FellBack(st, t, victim);
            && done.owner == Released(st, t).owner && done.idle == st.idle && done.turns == st.turns - {t}
            && done.nextTurn == st.nextTurn && done.nextSocket == st.nextSocket && done.served == st.served
  {
  }

  lemma OwnersAfterFallBack(st: State, t: TurnId, victim: Key)
    requires t in st.turns && OwnersGood(st.owner, st.idle, st.turns, st.nextSocket)
    ensures var done := FellBack(st, t, victim); OwnersGood(done.owner, done.idle, done.turns, done.nextSocket)
  {
    OwnersAfterLetGo(st, t, st.turns - {t});
    FellBackParts(st, t, victim);
  }

  /** A request that arrives although its turn has given up. */
  lemma LateRequestKeeps(st: State, t: TurnId, done: State)
    requires Inv(st) && t in st.turns && st.turns[t].phase.Ready?
    requires OwnersGood(done.owner, done.idle, done.turns, done.nextSocket)
    requires done.turns == st.turns - {t} && done.idle == st.idle && done.served == st.served
    requires done.nextTurn == st.nextTurn && done.nextSocket == st.nextSocket
    ensures Inv(done.(server := WithRequest(st.server, t, st.turns[t])))
  {
    RequestKeeps(st, t, done.turns);
  }

  lemma SendFailKeeps(st: State, t: TurnId, mayArrive: bool, victim: Key)
    requires Inv(st) && t in st.turns && st.turns[t].phase.Ready?
    ensures Inv(AfterSendFail(st, t, mayArrive, victim))
  {
    if mayArrive {
      OwnersAfterFallBack(st, t, victim);
      FellBackParts(st, t, victim);
      LateRequestKeeps(st, t, FellBack(st, t, victim));
    } else {
      FallBackKeeps(st, t, victim);
    }
  }

  /** A sound request resolves, and to the whole body. */
  lemma SoundResolves(server: Server, s: Socket, body: Value, frame: Value)
    requires Sound(server, s, body, frame)
    ensures var r := Resolve(server.contexts, frame);
            r.Some? && Erase(r.value) == InputSlice(body)
  {
    EraseInput(InputSlice(frame));
    match GetStr(frame, "previous_response_id")
    case None =>
    case Some(id) => EraseAppend(server.contexts[id], Tagged(InputSlice(frame), false));
  }

  lemma DeliverKeepsServer(server: Server, next: Socket, s: Socket, id: string)
    requires ServerGood(server, next)
    requires s in server.exchanges && server.exchanges[s].Requested? && id !in server.issued
    ensures ServerGood(Delivered(server, s, id), next)
  {
    var after, e := Delivered(server, s, id), server.exchanges[s];
    SoundResolves(server, s, e.body, e.frame);
    forall u | u in after.exchanges ensures u < next && GoodExchange(after, u, after.exchanges[u]) {
      if u != s {
        UndisturbedExchange(server, after, s, u);
      }
    }
  }

  /** A turn on a socket whose request has just arrived is still waiting for it. */
  lemma DeliverKeepsTurn(server: Server, s: Socket, id: string, t: TurnId, turn: Turn)
    requires s in server.exchanges && server.exchanges[s].Requested?
    requires Resolve(server.contexts, server.exchanges[s].frame).Some?
    requires GoodTurn(server, t, turn)
    ensures GoodTurn(Delivered(server, s, id), t, turn)
  {
    if SocketOf(turn.phase) != Some(s) {
      UndisturbedPhase(server, Delivered(server, s, id), t, turn.body, turn.phase);
    }
  }

  lemma DeliverKeepsPool(server: Server, s: Socket, id: string, idle: map<Key, Cached>)
    requires s in server.exchanges && server.exchanges[s].Requested?
    requires PoolGood(server, idle)
    ensures PoolGood(Delivered(server, s, id), idle)
  {
    UndisturbedPool(server, Delivered(server, s, id), idle);
  }

  lemma DeliverKeeps(st: State, s: Socket, id: string)
    requires Inv(st)
    requires s in st.server.exchanges && st.server.exchanges[s].Requested? && id !in st.server.issued
    ensures Inv(AfterDeliver(st, s, id))
  {
    var e := st.server.exchanges[s];
    assert Sound(st.server, s, e.body, e.frame);
    SoundResolves(st.server, s, e.body, e.frame);
    DeliverKeepsServer(st.server, st.nextSocket, s, id);
    DeliverKeepsPool(st.server, s, id, st.idle);
    forall t | t in st.turns ensures t < st.nextTurn && GoodTurn(Delivered(st.server, s, id), t, st.turns[t]) {
      DeliverKeepsTurn(st.server, s, id, t, st.turns[t]);
    }
  }

  lemma EmitKeepsExchange(server: Server, s: Socket, frame: Value)
    requires s in server.exchanges && server.exchanges[s].Answering? && server.exchanges[s].status == Open
    requires GoodExchange(server, s, server.exchanges[s])
    requires ResponseId(frame).Some? ==> ResponseId(frame).value == server.exchanges[s].id
    ensures GoodExchange(Emitted(server, s, frame), s, Emitted(server, s, frame).exchanges[s])
  {
    var e := server.exchanges[s];
    var frames := e.frames + [frame];
    assert forall i :: 0 <= i < |e.frames| ==> frames[i] == e.frames[i];
    assert frames[|e.frames|] == frame;
  }

  lemma EmitKeepsServer(server: Server, next: Socket, s: Socket, frame: Value)
    requires ServerGood(server, next)
    requires s in server.exchanges && server.exchanges[s].Answering? && server.exchanges[s].status == Open
    requires ResponseId(frame).Some? ==> ResponseId(frame).value == server.exchanges[s].id
    ensures ServerGood(Emitted(server, s, frame), next)
  {
    var after := Emitted(server, s, frame);
    assert GoodExchange(server, s, server.exchanges[s]);
    EmitKeepsExchange(server, s, frame);
    forall u | u in after.exchanges ensures u < next && GoodExchange(after, u, after.exchanges[u]) {
      if u != s {
        UndisturbedExchange(server, after, s, u);
      }
    }
  }

  lemma EmitKeepsPhase(server: Server, s: Socket, frame: Value, t: TurnId, body: Value, phase: Phase)
    requires s in server.exchanges && server.exchanges[s].Answering? && server.exchanges[s].status == Open
    requires server.exchanges[s].id !in server.contexts
    requires GoodPhase(server, t, body, phase)
    ensures GoodPhase(Emitted(server, s, frame), t, body, phase)
  {
    if SocketOf(phase) != Some(s) {
      UndisturbedPhase(server, Emitted(server, s, frame), t, body, phase);
    } else if phase.Streaming? {
      var frames := server.exchanges[s].frames;
      assert (frames + [frame])[..phase.read] == frames[..phase.read];
    }
  }

  lemma EmitKeepsPool(server: Server, s: Socket, frame: Value, idle: map<Key, Cached>)
    requires s in server.exchanges && server.exchanges[s].Answering? && server.exchanges[s].status == Open
    requires server.exchanges[s].id !in server.contexts
    requires PoolGood(server, idle)
    ensures PoolGood(Emitted(server, s, frame), idle)
  {
    UndisturbedPool(server, Emitted(server, s, frame), idle);
  }

  lemma EmitKeeps(st: State, s: Socket, frame: Value)
    requires Inv(st)
    requires s in st.server.exchanges && st.server.exchanges[s].Answering? && st.server.exchanges[s].status == Open
    requires ResponseId(frame).Some? ==> ResponseId(frame).value == st.server.exchanges[s].id
    ensures Inv(st.(server := Emitted(st.server, s, frame)))
  {
    assert GoodExchange(st.server, s, st.server.exchanges[s]);
    EmitKeepsServer(st.server, st.nextSocket, s, frame);
    EmitKeepsPool(st.server, s, frame, st.idle);
    forall t | t in st.turns ensures t < st.nextTurn && GoodTurn(Emitted(st.server, s, frame), t, st.turns[t]) {
      EmitKeepsPhase(st.server, s, frame, t, st.turns[t].body, st.turns[t].phase);
    }
  }

  // ---- Every run ----

  lemma StepKeeps(st: State, step: Step)
    requires Inv(st) && Enabled(st, step)
    ensures Inv(Apply(st, step))
  {
    match step
    case Tick(_) =>
    case Begin(key, body) => BeginKeeps(st, key, body);
    case Attempt(t) => AttemptKeeps(st, t);
    case ConnectOk(t) => ConnectOkKeeps(st, t);
    case ConnectLimit(t, victim) => ConnectLimitKeeps(st, t, victim);
    case ConnectFail(t, victim) => FallBackKeeps(st, t, victim);
    case SendOk(t) => SendOkKeeps(st, t);
    case SendFail(t, mayArrive, victim) => SendFailKeeps(st, t, mayArrive, victim);
    case Deliver(s, id) => DeliverKeeps(st, s, id);
    case Emit(s, frame) => EmitKeeps(st, s, frame);
    case Read(t) => ReadKeeps(st, t);
    case ReadFail(t, protocol, victim) => ReadFailKeeps(st, t, protocol, victim);
    case Abandon(t) => EndKeeps(st, t, st.markers);
    case CheckIn(t) => CheckInKeeps(st, t);
  }

  lemma {:induction false} RunKeeps(from: State, steps: seq<Step>, st: State)
    requires Inv(from) && Leads(from, steps, st)
    ensures Inv(st)
  {
    if steps != [] {
      var last := |steps| - 1;
      var mid :| Leads(from, steps[..last], mid) && Enabled(mid, steps[last]) && st == Apply(mid, steps[last]);
      RunKeeps(from, steps[..last], mid);
      StepKeeps(mid, steps[last]);
    }
  }

  lemma StartIsGood()
    ensures Inv(START)
  {
  }

  /** Whatever the interleaving of turns, retries, failures, evictions and server moves, every request the
      server has met resolved to exactly the full body of its turn, up to outputs that are never replayed,
      and chained, if at all, off the last response that same socket ended cleanly. */
  lemma EveryRequestIsFaithful(steps: seq<Step>, st: State)
    requires Leads(START, steps, st)
    ensures forall i :: 0 <= i < |st.served| ==> Faithful(st.served[i])
  {
    StartIsGood();
    RunKeeps(START, steps, st);
  }

  /** In every reachable state a live socket has one holder, the pool holds only sockets whose last response
      ended cleanly and whose stored baseline is the server's context for it, and no turn has made more
      than three passes or sent more than two frames. */
  lemma EveryStateIsOrderly(steps: seq<Step>, st: State)
    requires Leads(START, steps, st)
    ensures OwnersGood(st.owner, st.idle, st.turns, st.nextSocket)
    ensures PoolGood(st.server, st.idle)
    ensures forall t :: t in st.turns ==> st.turns[t].passes <= 3 && st.turns[t].sends <= 2
  {
    StartIsGood();
    RunKeeps(START, steps, st);
    forall t | t in st.turns ensures st.turns[t].passes <= 3 && st.turns[t].sends <= 2 {
      assert GoodTurn(st.server, t, st.turns[t]);
    }
  }
}
