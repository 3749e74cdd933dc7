/** What stream frames look like on the wire, field by field. */
module FrameShapes {
  import opened Json

  predicate TypeIs(v: Value, name: string)
  {
    v.Obj? && "type" in v.fields && v.fields["type"] == Str(name)
  }

  /** `{"type": "error"}`, or an object under `error`. */
  predicate IsError(frame: Value)
  {
    TypeIs(frame, "error") || (frame.Obj? && "error" in frame.fields && frame.fields["error"].Obj?)
  }

  predicate IsEnd(frame: Value)
  {
    || TypeIs(frame, "response.completed") || TypeIs(frame, "response.incomplete")
    || TypeIs(frame, "response.done") || TypeIs(frame, "response.failed")
  }

  /** The `response` the frame carries has this string under `name`. */
  predicate ResponseSays(frame: Value, name: string, text: string)
  {
    && frame.Obj? && "response" in frame.fields && frame.fields["response"].Obj?
    && name in frame.fields["response"].fields && frame.fields["response"].fields[name] == Str(text)
  }

  predicate IsFailedEnd(frame: Value)
  {
    && IsEnd(frame)
    && (|| TypeIs(frame, "response.failed")
        || ResponseSays(frame, "status", "failed") || ResponseSays(frame, "status", "cancelled"))
  }

  /** An item a replayed assistant turn contains again. */
  predicate IsTurnItem(item: Value)
  {
    TypeIs(item, "message") || TypeIs(item, "reasoning") || TypeIs(item, "function_call")
  }

  /** The frame delivers this output item. */
  predicate Delivers(frame: Value, item: Value)
  {
    TypeIs(frame, "response.output_item.done") && "item" in frame.fields && frame.fields["item"] == item
  }
}
