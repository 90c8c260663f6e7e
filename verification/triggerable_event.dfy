/** Forwarding of an event-stream action received from a satellite
    (LinstorTriggerableEvent.forwardEvent). */
module TriggerableEvent {
  import opened Wrappers

  /** Event-stream action names on the wire. */
  const EVENT_STREAM_VALUE: string := "value"
  const EVENT_STREAM_CLOSE_REMOVED: string := "close_removed"
  const EVENT_STREAM_CLOSE_NO_CONNECTION: string := "close_no_connection"

  /** The one handler invocation a forwarded action turns into. */
  datatype HandlerCall<Id, T> =
    | TriggerEvent(id: Id, value: T)
    | CloseStream(id: Id)
    | CloseStreamNoConnection(id: Id)

  datatype ImplementationError = ImplementationError(message: string)

  /** The wire action that selects a handler. */
  function ActionOf<Id, T>(call: HandlerCall<Id, T>): string {
    match call
    case TriggerEvent(_, _) => EVENT_STREAM_VALUE
    case CloseStream(_) => EVENT_STREAM_CLOSE_REMOVED
    case CloseStreamNoConnection(_) => EVENT_STREAM_CLOSE_NO_CONNECTION
  }

  predicate KnownAction(action: string) {
    action == EVENT_STREAM_VALUE || action == EVENT_STREAM_CLOSE_REMOVED || action == EVENT_STREAM_CLOSE_NO_CONNECTION
  }

  /** forwardEvent: dispatch an action to exactly one handler for the given
      object; an unknown action is an implementation error naming it. */
  function ForwardEvent<Id, T>(id: Id, action: string, value: T): (r: Result<HandlerCall<Id, T>, ImplementationError>)
    ensures r.Success? <==> KnownAction(action)
    ensures r.Success? ==> ActionOf(r.value) == action && r.value.id == id
    ensures r.Success? && r.value.TriggerEvent? ==> r.value.value == value
    ensures r.Failure? ==> r.error.message == "Unknown event action '" + action + "'"
  {
    if action == EVENT_STREAM_VALUE then Success(TriggerEvent(id, value))
    else if action == EVENT_STREAM_CLOSE_REMOVED then Success(CloseStream(id))
    else if action == EVENT_STREAM_CLOSE_NO_CONNECTION then Success(CloseStreamNoConnection(id))
    else Failure(ImplementationError("Unknown event action '" + action + "'"))
  }

  /** Every handler call is reached by forwarding its own action, and the
      value only matters for "value": closing ignores it. */
  lemma ForwardActionOf<Id, T>(call: HandlerCall<Id, T>, value: T)
    requires call.TriggerEvent? ==> call.value == value
    ensures ForwardEvent(call.id, ActionOf(call), value) == Success(call)
  {
    assert EVENT_STREAM_VALUE != EVENT_STREAM_CLOSE_REMOVED && EVENT_STREAM_VALUE != EVENT_STREAM_CLOSE_NO_CONNECTION;
    assert EVENT_STREAM_CLOSE_REMOVED != EVENT_STREAM_CLOSE_NO_CONNECTION;
  }
}
