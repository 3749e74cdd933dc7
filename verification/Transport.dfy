/**
  The WebSocket delta transport as a system of steps: any number of turns in flight, one cache, and a
  server on the other end of every socket. Each await in the client is a point where the other turns,
  the clock and the server may move, so a run is any sequence of enabled steps.

  What is assumed of the server: a request that names an earlier response resolves to that response's
  context followed by the input sent; a response gets an id no other response has; every frame that
  names a response names that one; each output item arrives once, in order, in an
  `output_item.done` frame; the context of a cleanly ended response is its resolved input followed by
  its outputs; and nothing follows the frame that ends a response.
 */
module Transport {
  import opened Prelude
  import opened Json
  import opened DeltaBody
  import opened Receiving
  import opened SocketCache

  type Socket = nat
  type TurnId = nat

  // ---- The server's side ----

  /** One entry of a server-side context. */
  datatype Item = Item(value: Value, fromServer: bool)

  /** A context as the client can see it: without the server outputs that are never replayed. */
  function Erase(context: seq<Item>): seq<Value>
  {
    if context == [] then []
    else
      var last := context[|context| - 1];
      Erase(context[..|context| - 1])
      + (if last.fromServer && !Replayable(last.value) then [] else [last.value])
  }

  function Tagged(items: seq<Value>, fromServer: bool): seq<Item>
  {
    seq(|items|, i requires 0 <= i < |items| => Item(items[i], fromServer))
  }

  /** The input the server reads out of a request frame; none if it has no such earlier response. */
  function Resolve(contexts: map<string, seq<Item>>, frame: Value): Option<seq<Item>>
  {
    match GetStr(frame, "previous_response_id")
    case None => Some(Tagged(InputSlice(frame), false))
    case Some(id) =>
      if id in contexts then Some(contexts[id] + Tagged(InputSlice(frame), false)) else None
  }

  datatype Status = Open | Clean | Spoilt

  /** The exchange a socket last began. It outlives the client's interest in the socket. */
  datatype Exchange =
    | Requested(turn: TurnId, body: Value, frame: Value)
    | Refused(turn: TurnId)
    | Answering(turn: TurnId, body: Value, id: string, resolved: seq<Item>, frames: seq<Value>, status: Status)

  /** Every socket's exchange, the context of every cleanly ended response, the socket each response id
      was issued on, and (history only) each socket's last cleanly ended response. */
  datatype Server = Server(
    exchanges: map<Socket, Exchange>,
    contexts: map<string, seq<Item>>,
    issued: map<string, Socket>,
    latest: map<Socket, string>)

  /** A request as the server met it, and the socket's last cleanly ended response at that moment. */
  datatype Served = Served(body: Value, frame: Value, resolved: Option<seq<Item>>, latest: Option<string>)

  // ---- The client's side ----

  datatype Phase =
    | Attempting(preferCache: bool)
    | Connecting
    | Ready(socket: Socket, continuation: Option<Continuation>, reused: bool)
    | Waiting(socket: Socket, reused: bool)
    | Streaming(socket: Socket, progress: Progress, read: nat)
    | Complete(socket: Socket, progress: Progress)

  datatype Turn = Turn(
    key: Option<Key>, body: Value, phase: Phase,
    retriedLimit: bool, retriedStale: bool, passes: nat, sends: nat)

  function SocketOf(phase: Phase): Option<Socket>
  {
    match phase
    case Attempting(_) => None
    case Connecting => None
    case Ready(s, _, _) => Some(s)
    case Waiting(s, _) => Some(s)
    case Streaming(s, _, _) => Some(s)
    case Complete(s, _) => Some(s)
  }

  datatype Holder = InPool(key: Key) | InTurn(turn: TurnId)

  /** When each socket was opened, and when it was last checked in. */
  datatype Times = Times(openedAt: map<Socket, nat>, checkedIn: map<Socket, nat>)

  /** `owner`, `served` and `times` record history; no step reads them to decide what to do. A live socket is
      one that has an owner. */
  datatype State = State(
    now: nat,
    idle: map<Key, Cached>,
    markers: map<Key, nat>,
    turns: map<TurnId, Turn>,
    nextTurn: TurnId,
    nextSocket: Socket,
    owner: map<Socket, Holder>,
    server: Server,
    served: seq<Served>,
    times: Times)

  const START :=
    State(0, map[], map[], map[], 0, 0, map[], Server(map[], map[], map[], map[]), [], Times(map[], map[]))

  datatype Step =
    | Tick(later: nat)
    | Begin(key: Option<Key>, body: Value)
    | Attempt(turn: TurnId)
    | ConnectOk(turn: TurnId)
    | ConnectLimit(turn: TurnId, victim: Key)
    | ConnectFail(turn: TurnId, victim: Key)
    | SendOk(turn: TurnId)
    | SendFail(turn: TurnId, mayArrive: bool, victim: Key)
    | Deliver(socket: Socket, id: string)
    | Emit(socket: Socket, frame: Value)
    | Read(turn: TurnId)
    | ReadFail(turn: TurnId, protocol: bool, victim: Key)
    | Abandon(turn: TurnId)
    | CheckIn(turn: TurnId)

  /** Sockets held by the pool entries that `keep` drops lose their owner. */
  function Pool(owner: map<Socket, Holder>, keep: map<Key, Cached>): map<Socket, Holder>
  {
    map s | s in owner && (owner[s].InPool? ==> owner[s].key in keep && keep[owner[s].key].socket == s) :: owner[s]
  }

  function WithPhase(st: State, t: TurnId, phase: Phase): State
    requires t in st.turns
  {
    st.(turns := st.turns[t := st.turns[t].(phase := phase)])
  }

  /** Let go of whatever socket the turn holds. */
  function Released(st: State, t: TurnId): State
    requires t in st.turns
  {
    match SocketOf(st.turns[t].phase)
    case Some(s) => st.(owner := st.owner - {s})
    case None => st
  }

  function Ended(st: State, t: TurnId): State
    requires t in st.turns
  {
    Released(st, t).(turns := st.turns - {t})
  }

  /** End the turn on HTTP and remember not to try its key again. */
  function FellBack(st: State, t: TurnId, victim: Key): State
    requires t in st.turns
  {
    var done := Ended(st, t);
    match st.turns[t].key
    case Some(key) => done.(markers := Marked(st.markers, key, st.now, victim))
    case None => done
  }

  predicate VictimFits(st: State, t: TurnId, victim: Key)
    requires t in st.turns
  {
    st.turns[t].key.Some? && NeedsRoom(st.markers, st.turns[t].key.value) ==> Oldest(st.markers, victim)
  }

  function FrameOf(turn: Turn): Value
    requires turn.phase.Ready?
  {
    WireFrame(BuildWireBody(turn.body, turn.phase.continuation))
  }

  /** The server has said more than the turn has read. */
  predicate CanRead(st: State, t: TurnId)
  {
    && t in st.turns && (st.turns[t].phase.Waiting? || st.turns[t].phase.Streaming?)
    && st.turns[t].phase.socket in st.server.exchanges
    && var e := st.server.exchanges[st.turns[t].phase.socket];
    && e.Answering? && ReadSoFar(st.turns[t].phase) < |e.frames|
  }

  predicate Enabled(st: State, step: Step)
  {
    match step
    case Tick(later) => st.now <= later
    case Begin(key, body) => RequestBody(body)
    case Attempt(t) => t in st.turns && st.turns[t].phase.Attempting?
    case ConnectOk(t) => t in st.turns && st.turns[t].phase.Connecting?
    case ConnectLimit(t, victim) => t in st.turns && st.turns[t].phase.Connecting? && VictimFits(st, t, victim)
    case ConnectFail(t, victim) => t in st.turns && st.turns[t].phase.Connecting? && VictimFits(st, t, victim)
    case SendOk(t) => t in st.turns && st.turns[t].phase.Ready?
    case SendFail(t, _, victim) => t in st.turns && st.turns[t].phase.Ready? && VictimFits(st, t, victim)
    case Deliver(s, id) => s in st.server.exchanges && st.server.exchanges[s].Requested? && id !in st.server.issued
    case Emit(s, frame) =>
      && s in st.server.exchanges && st.server.exchanges[s].Answering? && st.server.exchanges[s].status == Open
      && (ResponseId(frame).Some? ==> ResponseId(frame).value == st.server.exchanges[s].id)
    case Read(t) => CanRead(st, t)
    case ReadFail(t, _, victim) =>
      t in st.turns && (st.turns[t].phase.Waiting? || st.turns[t].phase.Streaming?) && VictimFits(st, t, victim)
    case Abandon(t) => t in st.turns
    case CheckIn(t) => t in st.turns && st.turns[t].phase.Complete?
  }

  function ReadSoFar(phase: Phase): nat
  {
    if phase.Streaming? then phase.read else 0
  }

  function ProgressSoFar(phase: Phase): Progress
  {
    if phase.Streaming? then phase.progress else NOTHING_READ
  }

  function AfterBegin(st: State, key: Option<Key>, body: Value): State
  {
    if key.Some? && key.value in st.markers then
      st.(nextTurn := st.nextTurn + 1)
    else
      st.(nextTurn := st.nextTurn + 1,
          turns := st.turns[st.nextTurn := Turn(key, body, Attempting(true), false, false, 0, 0)])
  }

  /** Check a socket out, or go and open one. */
  function AfterAttempt(st: State, t: TurnId): State
    requires t in st.turns && st.turns[t].phase.Attempting?
  {
    var turn := st.turns[t].(passes := st.turns[t].passes + 1);
    if turn.phase.preferCache && turn.key.Some? then
      var swept := Swept(st.idle, st.now);
      var pooled := Pool(st.owner, swept);
      if turn.key.value in swept then
        var c := swept[turn.key.value];
        st.(idle := swept - {turn.key.value},
            owner := pooled[c.socket := InTurn(t)],
            turns := st.turns[t := turn.(phase := Ready(c.socket, c.continuation, true))])
      else
        st.(idle := swept, owner := pooled, turns := st.turns[t := turn.(phase := Connecting)])
    else
      st.(turns := st.turns[t := turn.(phase := Connecting)])
  }

  function AfterConnectOk(st: State, t: TurnId): State
    requires t in st.turns
  {
    WithPhase(st, t, Ready(st.nextSocket, None, false))
      .(nextSocket := st.nextSocket + 1, owner := st.owner[st.nextSocket := InTurn(t)],
        times := st.times.(openedAt := st.times.openedAt[st.nextSocket := st.now]))
  }

  function AfterConnectLimit(st: State, t: TurnId, victim: Key): State
    requires t in st.turns
  {
    if st.turns[t].retriedLimit then FellBack(st, t, victim)
    else st.(turns := st.turns[t := st.turns[t].(phase := Attempting(false), retriedLimit := true)])
  }

  function WithRequest(server: Server, t: TurnId, turn: Turn): Server
    requires turn.phase.Ready?
  {
    server.(exchanges := server.exchanges[turn.phase.socket := Requested(t, turn.body, FrameOf(turn))])
  }

  function AfterSendOk(st: State, t: TurnId): State
    requires t in st.turns && st.turns[t].phase.Ready?
  {
    var turn := st.turns[t];
    st.(turns := st.turns[t := turn.(phase := Waiting(turn.phase.socket, turn.phase.reused), sends := turn.sends + 1)],
        server := WithRequest(st.server, t, turn))
  }

  /** A send that failed or timed out may still reach the server. */
  function AfterSendFail(st: State, t: TurnId, mayArrive: bool, victim: Key): State
    requires t in st.turns && st.turns[t].phase.Ready?
  {
    var turn := st.turns[t];
    var done := FellBack(st, t, victim);
    if mayArrive then
      done.(server := WithRequest(st.server, t, turn))
    else
      done
  }

  function Delivered(server: Server, s: Socket, id: string): Server
    requires s in server.exchanges && server.exchanges[s].Requested?
  {
    var e := server.exchanges[s];
    match Resolve(server.contexts, e.frame)
    case None => server.(exchanges := server.exchanges[s := Refused(e.turn)])
    case Some(input) =>
      server.(exchanges := server.exchanges[s := Answering(e.turn, e.body, id, input, [], Open)],
              issued := server.issued[id := s])
  }

  function AfterDeliver(st: State, s: Socket, id: string): State
    requires s in st.server.exchanges && st.server.exchanges[s].Requested?
  {
    var e := st.server.exchanges[s];
    var latest := if s in st.server.latest then Some(st.server.latest[s]) else None;
    st.(server := Delivered(st.server, s, id),
        served := st.served + [Served(e.body, e.frame, Resolve(st.server.contexts, e.frame), latest)])
  }

  function Emitted(server: Server, s: Socket, frame: Value): Server
    requires s in server.exchanges && server.exchanges[s].Answering?
  {
    var e := server.exchanges[s];
    var frames := e.frames + [frame];
    if CleanEnd(frame) then
      server.(exchanges := server.exchanges[s := e.(frames := frames, status := Clean)],
              contexts := server.contexts[e.id := e.resolved + Tagged(Outputs(frames), true)],
              latest := server.latest[s := e.id])
    else
      server.(exchanges :=
                server.exchanges[s := e.(frames := frames, status := if Terminal(frame) then Spoilt else Open)])
  }

  function AfterRead(st: State, t: TurnId): State
    requires CanRead(st, t)
  {
    var phase := st.turns[t].phase;
    var frame := st.server.exchanges[phase.socket].frames[ReadSoFar(phase)];
    var progress := Absorb(ProgressSoFar(phase), frame);
    if ErrorFrame(frame) then Ended(st, t)
    else if Terminal(frame) then
      if FailedEnd(frame) then Ended(st, t) else WithPhase(st, t, Complete(phase.socket, progress))
    else WithPhase(st, t, Streaming(phase.socket, progress, ReadSoFar(phase) + 1))
  }

  /** Only a connectivity failure before the first event is retried or taken to HTTP. */
  function AfterReadFail(st: State, t: TurnId, protocol: bool, victim: Key): State
    requires t in st.turns
  {
    var turn := st.turns[t];
    if !turn.phase.Waiting? || protocol then Ended(st, t)
    else if turn.phase.reused then
      Released(st, t).(turns := st.turns[t := turn.(phase := Attempting(false), retriedStale := true)])
    else FellBack(st, t, victim)
  }

  function AfterCheckIn(st: State, t: TurnId): State
    requires t in st.turns && st.turns[t].phase.Complete?
  {
    var turn := st.turns[t];
    if turn.key.Some? && turn.phase.progress.responseId.Some? then
      var c := Cached(turn.phase.socket, st.now, Some(Continuation(
        Fingerprint(turn.body),
        InputSlice(turn.body) + turn.phase.progress.harvested,
        turn.phase.progress.responseId.value)));
      var idle := Swept(st.idle, st.now)[turn.key.value := c];
      st.(idle := idle,
          owner := Pool(st.owner, idle)[turn.phase.socket := InPool(turn.key.value)],
          turns := st.turns - {t},
          times := st.times.(checkedIn := st.times.checkedIn[turn.phase.socket := st.now]))
    else
      Ended(st, t)
  }

  function Apply(st: State, step: Step): State
    requires Enabled(st, step)
  {
    match step
    case Tick(later) => st.(now := later)
    case Begin(key, body) => AfterBegin(st, key, body)
    case Attempt(t) => AfterAttempt(st, t)
    case ConnectOk(t) => AfterConnectOk(st, t)
    case ConnectLimit(t, victim) => AfterConnectLimit(st, t, victim)
    case ConnectFail(t, victim) => FellBack(st, t, victim)
    case SendOk(t) => AfterSendOk(st, t)
    case SendFail(t, mayArrive, victim) => AfterSendFail(st, t, mayArrive, victim)
    case Deliver(s, id) => AfterDeliver(st, s, id)
    case Emit(s, frame) => st.(server := Emitted(st.server, s, frame))
    case Read(t) => AfterRead(st, t)
    case ReadFail(t, protocol, victim) => AfterReadFail(st, t, protocol, victim)
    case Abandon(t) => Ended(st, t)
    case CheckIn(t) => AfterCheckIn(st, t)
  }

  /** `st` is what the steps lead to from `from`, each of them enabled where it was taken. */
  ghost predicate Leads(from: State, steps: seq<Step>, st: State)
  {
    if steps == [] then st == from
    else
      var last := |steps| - 1;
      exists mid :: Leads(from, steps[..last], mid) && Enabled(mid, steps[last]) && st == Apply(mid, steps[last])
  }
}
