/**
  Which body a turn puts on the wire: the whole transcript, or only its new tail plus the id of the
  response that already holds the rest. The shipped form (`Fingerprint`, `BuildWireBody`) copies just
  what it keeps; the earlier form, kept beside it in the benchmark, copies everything and then edits
  the copy in place.
 */
module DeltaBody {
  import opened Prelude
  import opened Json

  /** Fields that may differ between two turns without making them different kinds of request. */
  const EXCLUDED: seq<string> := ["input", "previous_response_id", "max_output_tokens"]

  function Fingerprint(body: Value): Value
  {
    if body.Obj? then
      Obj(map k | k in body.fields && k !in EXCLUDED :: body.fields[k])
    else
      body
  }

  function InputSlice(body: Value): seq<Value>
  {
    match Get(body, "input")
    case Some(Arr(items)) => items
    case _ => []
  }

  datatype Continuation = Continuation(fingerprint: Value, baseline: seq<Value>, lastId: string)

  /** The guards that let a turn chain off `c` instead of resending everything. */
  predicate Chains(body: Value, c: Continuation)
  {
    && c.lastId != ""
    && Fingerprint(body) == c.fingerprint
    && c.baseline <= InputSlice(body)
  }

  function BuildWireBody(body: Value, continuation: Option<Continuation>): Value
  {
    match continuation
    case None => body
    case Some(c) =>
      if c.lastId == "" then body
      else if Fingerprint(body) != c.fingerprint then body
      else
        var input := InputSlice(body);
        if |input| < |c.baseline| then body
        else if input[..|c.baseline|] != c.baseline then body
        else
          var kept := if body.Obj? then (map k | k in body.fields && k != "input" :: body.fields[k]) else map[];
          Obj(kept["input" := Arr(input[|c.baseline|..])]["previous_response_id" := Str(c.lastId)])
  }

  /** The text frame's object: the body with the protocol's `type` on it. */
  function WireFrame(body: Value): Value
  {
    Obj((if body.Obj? then body.fields else map[])["type" := Str("response.create")])
  }

  /** What a caller can rely on a request body to be: an object whose `input` is an array and that
      names no earlier response of its own. */
  predicate RequestBody(body: Value)
  {
    && body.Obj?
    && "previous_response_id" !in body.fields
    && "input" in body.fields && body.fields["input"].Arr?
  }

  function Fields(body: Value): map<string, Value>
  {
    if body.Obj? then body.fields else map[]
  }

  /** Whatever the body: when all three guards hold it goes out as an object that names the earlier response,
      carries the tail after the baseline and keeps every other field; when one fails it goes out as it is. */
  lemma DeltaExactlyWhenChaining(body: Value, c: Continuation)
    ensures var wire := BuildWireBody(body, Some(c));
            && Get(wire, "previous_response_id") ==
               (if Chains(body, c) then Some(Str(c.lastId)) else Get(body, "previous_response_id"))
            && (!Chains(body, c) ==> wire == body)
            && (Chains(body, c) ==>
                  && wire.Obj?
                  && Get(wire, "input") == Some(Arr(InputSlice(wire)))
                  && c.baseline + InputSlice(wire) == InputSlice(body)
                  && wire.fields - {"input", "previous_response_id"}
                     == Fields(body) - {"input", "previous_response_id"})
  {
    var wire := BuildWireBody(body, Some(c));
    if Chains(body, c) {
      assert InputSlice(body) == c.baseline + InputSlice(body)[|c.baseline|..];
      assert wire.fields - {"input", "previous_response_id"} == Fields(body) - {"input", "previous_response_id"};
    }
  }

  /** A request body names an earlier response on the wire exactly when it chains. */
  lemma RequestNamesOnlyWhenChaining(body: Value, c: Continuation)
    requires RequestBody(body)
    ensures Get(BuildWireBody(body, Some(c)), "previous_response_id").Some? <==> Chains(body, c)
  {
    DeltaExactlyWhenChaining(body, c);
  }

  /** The two bodies have the same value, or none, under `name`. */
  predicate SameUnder(a: Value, b: Value, name: string)
  {
    Get(a, name) == Get(b, name)
  }

  /** Two objects are the same kind of request if and only if they agree on every field but the three that may
      differ from turn to turn. */
  lemma SameFingerprintExactlyWhen(a: Value, b: Value)
    requires a.Obj? && b.Obj?
    ensures Fingerprint(a) == Fingerprint(b) <==>
            forall name :: name == "input" || name == "previous_response_id" || name == "max_output_tokens"
                           || SameUnder(a, b, name)
  {
    var x, y := Fingerprint(a).fields, Fingerprint(b).fields;
    forall name | !(name == "input" || name == "previous_response_id" || name == "max_output_tokens")
      ensures (name in x <==> name in a.fields) && (name in a.fields ==> x[name] == a.fields[name])
      ensures (name in y <==> name in b.fields) && (name in b.fields ==> y[name] == b.fields[name])
    {
    }
    if x == y {
      forall name ensures name == "input" || name == "previous_response_id" || name == "max_output_tokens"
                          || SameUnder(a, b, name) {
        assert name in x <==> name in y;
      }
    }
    if forall name :: name == "input" || name == "previous_response_id" || name == "max_output_tokens"
                      || SameUnder(a, b, name) {
      forall name ensures (name in x <==> name in y) && (name in x ==> x[name] == y[name]) {
        assert name == "input" || name == "previous_response_id" || name == "max_output_tokens" || SameUnder(a, b, name);
      }
      assert x == y;
    }
  }

  /** The earlier fingerprint: copy the whole body, then remove the excluded fields one by one. */
  method CloneThenRemove(body: Value) returns (r: Value)
    ensures r == Fingerprint(body)
  {
    if !body.Obj? {
      return body;
    }
    var fields := body.fields;
    for i := 0 to |EXCLUDED|
      invariant fields == map k | k in body.fields && k !in EXCLUDED[..i] :: body.fields[k]
    {
      assert EXCLUDED[..i + 1] == EXCLUDED[..i] + [EXCLUDED[i]];
      fields := fields - {EXCLUDED[i]};
    }
    assert EXCLUDED[..|EXCLUDED|] == EXCLUDED;
    r := Obj(fields);
  }

  /** When copying everything and editing the copy gives the shipped result. */
  predicate FormsAgree(body: Value, c: Continuation)
  {
    body.Obj? || c.lastId == "" || body != c.fingerprint || c.baseline != []
  }

  /** The earlier builder: clone the input for the checks, clone the whole body, overwrite two fields. It
      is the shipped builder on every object body; the two part only on a non-object body that passes
      every guard, where the edit has nothing to write to. */
  method CloneThenTrim(body: Value, c: Continuation) returns (r: Value)
    ensures r == BuildWireBody(body, Some(c)) <==> FormsAgree(body, c)
    ensures !FormsAgree(body, c) ==> r == body
  {
    if c.lastId == "" {
      return body;
    }
    var fingerprint := CloneThenRemove(body);
    if fingerprint != c.fingerprint {
      return body;
    }
    var input := InputSlice(body);
    if |input| < |c.baseline| {
      return body;
    }
    if input[..|c.baseline|] != c.baseline {
      return body;
    }
    r := body;
    if r.Obj? {
      r := Obj(r.fields["input" := Arr(input[|c.baseline|..])]);
      r := Obj(r.fields["previous_response_id" := Str(c.lastId)]);
      assert r.fields == BuildWireBody(body, Some(c)).fields;
    }
  }

  /** The parting is real: a body that is the JSON `null`. */
  lemma FormsPartOnNull()
    ensures var c := Continuation(Null, [], "resp_1"); !FormsAgree(Null, c) && BuildWireBody(Null, Some(c)) != Null
  {
  }
}
