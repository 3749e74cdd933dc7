/** The ceiling bounds idle time and nothing else: a socket used often enough is reused at any age. */
module TransportAge {
  import opened Prelude
  import opened Json
  import opened Receiving
  import opened SocketCache
  import opened Transport
  import opened TransportProofs
  import opened TransportRuns

  ghost predicate Reached(st: State)
  {
    exists steps :: Leads(START, steps, st)
  }

  lemma ReachOn(st: State, step: Step)
    requires Reached(st) && Enabled(st, step)
    ensures Reached(Apply(st, step))
  {
    var steps :| Leads(START, steps, st);
    assert (steps + [step])[..|steps|] == steps;
    assert Leads(START, steps + [step], Apply(st, step));
  }

  lemma ReachedIsGood(st: State)
    requires Reached(st)
    ensures Inv(st)
  {
    var steps :| Leads(START, steps, st);
    StartIsGood();
    RunKeeps(START, steps, st);
  }

  /** A frame that ends the response `id` cleanly. */
  function EndOf(id: string): Value
  {
    Obj(map["type" := Str("response.completed"), "response" := Obj(map["id" := Str(id)])])
  }

  lemma EndIsClean(id: string)
    ensures CleanEnd(EndOf(id)) && ResponseId(EndOf(id)) == Some(id) && OutputItem(EndOf(id)).None?
  {
    var frame := EndOf(id);
    assert GetStr(frame, "type") == Some("response.completed");
    assert Get(frame, "error").None?;
    assert Get(frame, "response") == Some(Obj(map["id" := Str(id)]));
    assert GetStr(Obj(map["id" := Str(id)]), "status").None?;
  }

  lemma {:induction false} UnusedId(ids: set<string>) returns (id: string)
    ensures forall x :: x in ids ==> |x| < |id|
    decreases |ids|
  {
    if ids == {} {
      id := "";
    } else {
      var x :| x in ids;
      var rest := UnusedId(ids - {x});
      id := rest + x + "r";
    }
  }

  /** The turn `t` on `key` has taken socket `s` and not yet sent. */
  predicate Poised(st: State, t: TurnId, key: Key, s: Socket)
  {
    && t in st.turns && st.turns[t].phase.Ready? && st.turns[t].phase.socket == s && st.turns[t].key == Some(key)
    && key !in st.markers && s in st.times.openedAt
  }

  /** What a round on one socket leaves alone. */
  predicate SameAround(a: State, b: State)
  {
    a.now == b.now && a.markers == b.markers && a.times.openedAt == b.times.openedAt && a.nextTurn == b.nextTurn
  }

  lemma Sent(st: State, t: TurnId, key: Key, s: Socket) returns (st2: State)
    requires Reached(st) && Poised(st, t, key, s)
    ensures Reached(st2) && SameAround(st, st2) && st2.server.issued == st.server.issued
    ensures t in st2.turns && st2.turns[t].phase.Waiting? && st2.turns[t].phase.socket == s && st2.turns[t].key == Some(key)
    ensures s in st2.server.exchanges && st2.server.exchanges[s].Requested?
  {
    ReachOn(st, SendOk(t));
    st2 := AfterSendOk(st, t);
  }

  lemma TakenIn(st: State, t: TurnId, key: Key, s: Socket, id: string) returns (st2: State)
    requires Reached(st) && id !in st.server.issued
    requires t in st.turns && st.turns[t].phase.Waiting? && st.turns[t].phase.socket == s && st.turns[t].key == Some(key)
    requires s in st.server.exchanges && st.server.exchanges[s].Requested?
    ensures Reached(st2) && SameAround(st, st2) && st2.turns == st.turns
    ensures s in st2.server.exchanges && st2.server.exchanges[s].Answering? && st2.server.exchanges[s].id == id
    ensures st2.server.exchanges[s].frames == [] && st2.server.exchanges[s].status == Open
  {
    ReachOn(st, Deliver(s, id));
    ReachedIsGood(st);
    var e := st.server.exchanges[s];
    assert GoodExchange(st.server, s, e);
    SoundResolves(st.server, s, e.body, e.frame);
    st2 := AfterDeliver(st, s, id);
  }

  lemma Answered(st: State, s: Socket, id: string) returns (st2: State)
    requires Reached(st) && s in st.server.exchanges && st.server.exchanges[s].Answering?
    requires st.server.exchanges[s].id == id && st.server.exchanges[s].frames == []
    requires st.server.exchanges[s].status == Open
    ensures Reached(st2) && SameAround(st, st2) && st2.turns == st.turns
    ensures s in st2.server.exchanges && st2.server.exchanges[s].Answering?
    ensures st2.server.exchanges[s].frames == [EndOf(id)]
  {
    EndIsClean(id);
    ReachOn(st, Emit(s, EndOf(id)));
    st2 := st.(server := Emitted(st.server, s, EndOf(id)));
  }

  lemma Finished(st: State, t: TurnId, key: Key, s: Socket, id: string) returns (st2: State)
    requires Reached(st) && s in st.server.exchanges && st.server.exchanges[s].Answering?
    requires st.server.exchanges[s].frames == [EndOf(id)]
    requires t in st.turns && st.turns[t].phase.Waiting? && st.turns[t].phase.socket == s && st.turns[t].key == Some(key)
    ensures Reached(st2) && SameAround(st, st2)
    ensures t in st2.turns && st2.turns[t].key == Some(key)
    ensures st2.turns[t].phase == Complete(s, Progress(Some(id), []))
  {
    EndIsClean(id);
    assert CanRead(st, t);
    ReachOn(st, Read(t));
    AfterReadIs(st, t);
    st2 := AfterRead(st, t);
  }

  lemma Pooled(st: State, t: TurnId, key: Key, s: Socket, id: string) returns (st2: State)
    requires Reached(st) && t in st.turns && st.turns[t].key == Some(key)
    requires st.turns[t].phase == Complete(s, Progress(Some(id), []))
    ensures Reached(st2) && SameAround(st, st2)
    ensures key in st2.idle && st2.idle[key].socket == s && st2.idle[key].createdAt == st.now
  {
    ReachOn(st, CheckIn(t));
    st2 := AfterCheckIn(st, t);
  }

  /** A turn that has its socket can be answered, end cleanly and put the socket back. */
  lemma Round(st: State, t: TurnId, key: Key, s: Socket) returns (st2: State)
    requires Reached(st) && Poised(st, t, key, s)
    ensures Reached(st2) && SameAround(st, st2)
    ensures key in st2.idle && st2.idle[key].socket == s && st2.idle[key].createdAt == st.now
  {
    var id := UnusedId(st.server.issued.Keys);
    var sent := Sent(st, t, key, s);
    var asked := TakenIn(sent, t, key, s, id);
    var answered := Answered(asked, s, id);
    var finished := Finished(answered, t, key, s, id);
    st2 := Pooled(finished, t, key, s, id);
  }

  const BODY := Obj(map["input" := Arr([])])

  /** A pooled socket is taken again by a turn that starts within the ceiling. */
  lemma TakenAgain(st: State, key: Key, s: Socket, wait: nat) returns (st2: State, t: TurnId)
    requires Reached(st) && key in st.idle && st.idle[key].socket == s && st.idle[key].createdAt == st.now
    requires wait < MAX_CONNECTION_AGE && key !in st.markers && s in st.times.openedAt
    ensures Reached(st2) && Poised(st2, t, key, s) && st2.turns[t].phase.reused
    ensures st2.now == st.now + wait && st2.times.openedAt == st.times.openedAt
  {
    var ticked := st.(now := st.now + wait);
    ReachOn(st, Tick(st.now + wait));
    ReachOn(ticked, Begin(Some(key), BODY));
    var begun := AfterBegin(ticked, Some(key), BODY);
    t := ticked.nextTurn;
    ReachOn(begun, Attempt(t));
    AttemptReuses(begun, t, key, st.idle[key]);
    st2 := AfterAttempt(begun, t);
  }

  lemma OpenedOnce(key: Key) returns (st: State, t: TurnId, s: Socket)
    ensures Reached(st) && Poised(st, t, key, s) && st.times.openedAt[s] == st.now
  {
    assert Leads(START, [], START);
    ReachOn(START, Begin(Some(key), BODY));
    var begun := AfterBegin(START, Some(key), BODY);
    t := START.nextTurn;
    ReachOn(begun, Attempt(t));
    var attempted := AfterAttempt(begun, t);
    assert Swept(begun.idle, begun.now) == map[];
    ReachOn(attempted, ConnectOk(t));
    st, s := AfterConnectOk(attempted, t), attempted.nextSocket;
  }

  lemma {:induction false} UsedFor(key: Key, rounds: nat) returns (st: State, t: TurnId, s: Socket)
    ensures Reached(st) && Poised(st, t, key, s) && (rounds > 0 ==> st.turns[t].phase.reused)
    ensures st.now - st.times.openedAt[s] >= rounds
  {
    if rounds == 0 {
      st, t, s := OpenedOnce(key);
    } else {
      st, t, s := UsedFor(key, rounds - 1);
      var pooled := Round(st, t, key, s);
      st, t := TakenAgain(pooled, key, s, MAX_CONNECTION_AGE - 1);
    }
  }

  /** A cached socket handed to a turn at a total age of at least `age`. */
  ghost predicate ReusedAt(st: State, age: nat)
  {
    exists t :: && t in st.turns && st.turns[t].phase.Ready? && st.turns[t].phase.reused
                && st.turns[t].phase.socket in st.times.openedAt
                && st.now - st.times.openedAt[st.turns[t].phase.socket] >= age
  }

  /** For every age, the ceiling's own among them, some run reuses a socket that old. */
  lemma AnyAgeIsReused(age: nat)
    ensures exists steps, st :: Leads(START, steps, st) && ReusedAt(st, age)
  {
    var st, t, s := UsedFor("k", age + 1);
    assert ReusedAt(st, age);
    var steps :| Leads(START, steps, st);
  }
}
