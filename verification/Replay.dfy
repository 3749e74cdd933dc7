/** What the server ends up with, item by item: nothing of a transcript is lost on the wire, and nothing said twice. */
module Replay {
  import opened Prelude
  import opened Json
  import opened FrameShapes
  import opened DeltaBody
  import opened ReceivingProofs
  import opened SocketCache
  import opened Transport
  import opened TransportProofs

  function Values(context: seq<Item>): seq<Value>
  {
    seq(|context|, i requires 0 <= i < |context| => context[i].value)
  }

  /** Everything the server itself put into the context is a message, a reasoning or a function call. */
  predicate OnlyTurnItems(context: seq<Item>)
  {
    forall i :: 0 <= i < |context| && context[i].fromServer ==> IsTurnItem(context[i].value)
  }

  /** The context without what the server put into it that is none of the three. */
  function WithoutOthers(context: seq<Item>): seq<Value>
  {
    if context == [] then []
    else
      var last := context[|context| - 1];
      WithoutOthers(context[..|context| - 1])
      + (if last.fromServer && !IsTurnItem(last.value) then [] else [last.value])
  }

  lemma {:induction false} ErasedIs(context: seq<Item>)
    ensures Erase(context) == WithoutOthers(context)
  {
    if context != [] {
      ErasedIs(context[..|context| - 1]);
      ShapesAreRead(context[|context| - 1].value);
    }
  }

  lemma {:induction false} NothingIsLeftOut(context: seq<Item>)
    requires OnlyTurnItems(context)
    ensures WithoutOthers(context) == Values(context)
  {
    if context != [] {
      var front, last := context[..|context| - 1], context[|context| - 1];
      assert forall i :: 0 <= i < |front| ==> front[i] == context[i];
      NothingIsLeftOut(front);
      assert Values(context) == Values(front) + [last.value];
    }
  }

  /** The frame is the body as it would be sent whole, but for its input and the response it continues. */
  predicate IsCreate(frame: Value, body: Value)
  {
    && frame.Obj? && body.Obj?
    && Get(frame, "type") == Some(Str("response.create"))
    && forall name :: name in frame.fields.Keys + body.fields.Keys ==>
         name == "input" || name == "previous_response_id" || name == "type" || SameUnder(frame, body, name)
  }

  lemma FaithfulIsCreate(r: Served)
    requires Faithful(r)
    ensures IsCreate(r.frame, r.body)
  {
    var kept, whole := r.frame.fields - {"input", "previous_response_id"}, WireFrame(r.body).fields - {"input"};
    assert "type" in whole && "type" in kept;
    forall name | name in r.frame.fields.Keys + r.body.fields.Keys
      ensures name == "input" || name == "previous_response_id" || name == "type" || SameUnder(r.frame, r.body, name)
    {
      assert name in kept <==> name in whole;
    }
  }

  /** In every run, each request the server met is a `response.create` with the body's own fields; and if all that
      the server had put into its context are messages, reasonings and function calls, what it resolved is the
      body's input array, item for item. */
  lemma EveryRequestIsTheTranscript(steps: seq<Step>, st: State, i: nat)
    requires Leads(START, steps, st) && i < |st.served|
    ensures var r := st.served[i];
            && IsCreate(r.frame, r.body) && r.resolved.Some?
            && Get(r.body, "input") == Some(Arr(WithoutOthers(r.resolved.value)))
            && (OnlyTurnItems(r.resolved.value) ==> Get(r.body, "input") == Some(Arr(Values(r.resolved.value))))
  {
    EveryRequestIsFaithful(steps, st);
    var r := st.served[i];
    assert Faithful(r);
    FaithfulIsCreate(r);
    ErasedIs(r.resolved.value);
    if OnlyTurnItems(r.resolved.value) {
      NothingIsLeftOut(r.resolved.value);
    }
  }

  /** In every reachable state, what a pooled socket's baseline leaves out of the server's context is exactly what
      the server put into it that is none of the three. */
  lemma StoredBaselineIs(steps: seq<Step>, st: State, key: Key)
    requires Leads(START, steps, st) && key in st.idle
    ensures var c := st.idle[key].continuation;
            && c.Some? && c.value.lastId in st.server.contexts
            && c.value.baseline == WithoutOthers(st.server.contexts[c.value.lastId])
  {
    EveryStateIsOrderly(steps, st);
    assert AtRest(st.server, st.idle[key].socket, st.idle[key].continuation);
    ErasedIs(st.server.contexts[st.idle[key].continuation.value.lastId]);
  }
}
