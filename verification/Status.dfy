/** The abstract runtime state machine of one rule. */
module Status {
  import opened Wrappers

  type AttemptId = nat

  datatype RuntimeState =
    | Stopped
    | Starting(attempt: AttemptId)
    | Active(attempt: AttemptId)
    | Reconnecting(failedAttempt: AttemptId)
    | Stopping(last: Option<AttemptId>)
    | Failed(attempt: AttemptId)

  datatype RuntimeEvent =
    | StartRequested(attempt: AttemptId)
    | ForwardingAccepted(attempt: AttemptId)
    | AttemptFailed(attempt: AttemptId, retry: bool)
    | ProcessExited(attempt: AttemptId, retry: bool)
    | RetryDue(failedAttempt: AttemptId, nextAttempt: AttemptId)
    | StopRequested
    | CleanupComplete

  datatype Transition = Transition(from: RuntimeState, to: RuntimeState, changed: bool)

  datatype TransitionError =
    | Invalid(state: RuntimeState, event: RuntimeEvent)
    | StaleAttempt(expected: AttemptId, actual: AttemptId)

  function FailedState(attempt: AttemptId, retry: bool): RuntimeState {
    if retry then Reconnecting(attempt) else Failed(attempt)
  }

  function Ensure(expected: AttemptId, actual: AttemptId, to: RuntimeState): Result<RuntimeState, TransitionError> {
    if expected == actual then Ok(to) else Err(StaleAttempt(expected, actual))
  }

  function Next(from: RuntimeState, event: RuntimeEvent): Result<RuntimeState, TransitionError> {
    match (from, event)
    case (Stopped, StartRequested(a)) => Ok(Starting(a))
    case (Failed(_), StartRequested(a)) => Ok(Starting(a))
    case (Starting(expected), ForwardingAccepted(a)) => Ensure(expected, a, Active(a))
    case (Starting(expected), AttemptFailed(a, retry)) => Ensure(expected, a, FailedState(a, retry))
    case (Active(expected), ProcessExited(a, retry)) => Ensure(expected, a, FailedState(a, retry))
    case (Reconnecting(expected), RetryDue(failed, next)) => Ensure(expected, failed, Starting(next))
    case (Stopped, StopRequested) => Ok(from)
    case (Stopping(_), StopRequested) => Ok(from)
    case (Starting(a), StopRequested) => Ok(Stopping(Some(a)))
    case (Active(a), StopRequested) => Ok(Stopping(Some(a)))
    case (Failed(a), StopRequested) => Ok(Stopping(Some(a)))
    case (Reconnecting(a), StopRequested) => Ok(Stopping(Some(a)))
    case (Stopping(_), CleanupComplete) => Ok(Stopped)
    case _ => Err(Invalid(from, event))
  }

  /** The state after a sequence of events, if each is accepted in turn. */
  function NextAll(from: RuntimeState, events: seq<RuntimeEvent>): Result<RuntimeState, TransitionError>
    decreases events
  {
    if events == [] then Ok(from)
    else
      var next :- Next(from, events[0]);
      NextAll(next, events[1..])
  }

  lemma {:induction false} NextAllConcat(from: RuntimeState, a: seq<RuntimeEvent>, b: seq<RuntimeEvent>)
    requires NextAll(from, a).Ok?
    ensures NextAll(from, a + b) == NextAll(NextAll(from, a).value, b)
    decreases a
  {
    if a == [] {
      assert a + b == b;
    } else {
      NextAllConcat(Next(from, a[0]).value, a[1..], b);
      assert (a + b)[1..] == a[1..] + b;
    }
  }

  /** A rejected event changes nothing; an accepted event about an attempt names the current one. */
  class RuntimeStateMachine {
    var state: RuntimeState

    constructor ()
      ensures state == Stopped
    {
      state := Stopped;
    }

    method Apply(event: RuntimeEvent) returns (r: Result<Transition, TransitionError>)
      modifies this
      ensures r.Err? ==> state == old(state) && Next(old(state), event) == Err(r.error)
      ensures r.Ok? ==> Next(old(state), event) == Ok(state)
                        && r.value == Transition(old(state), state, old(state) != state)
    {
      var from := state;
      var to := Next(from, event);
      if to.Err? {
        return Err(to.error);
      }
      state := to.value;
      return Ok(Transition(from, to.value, from != to.value));
    }
  }

  lemma {:induction false} NextAllLast(from: RuntimeState, events: seq<RuntimeEvent>)
    requires events != [] && NextAll(from, events).Ok?
    ensures var n := |events| - 1;
      && NextAll(from, events[..n]).Ok?
      && NextAll(from, events) == Next(NextAll(from, events[..n]).value, events[n])
    decreases events
  {
    var n := |events| - 1;
    if n == 0 {
      assert events[..0] == [] && events[1..] == [];
    } else {
      NextAllLast(Next(from, events[0]).value, events[1..]);
      assert events[1..][..n - 1] == events[..n][1..];
    }
  }

  /** In every accepted history an attempt is active only once accepted, which it is only after its own start. */
  lemma ActiveWasStarted(events: seq<RuntimeEvent>, a: AttemptId)
    requires NextAll(Stopped, events) == Ok(Active(a))
    ensures var n := |events| - 1;
      && n >= 1 && events[n] == ForwardingAccepted(a)
      && (events[n - 1] == StartRequested(a) || (events[n - 1].RetryDue? && events[n - 1].nextAttempt == a))
  {
    var n := |events| - 1;
    NextAllLast(Stopped, events);
    NextAllLast(Stopped, events[..n]);
    assert events[..n][n - 1] == events[n - 1];
  }

  /** Whatever the state, a stop and the end of its cleanup lead to Stopped. */
  lemma StopAlwaysWorks(from: RuntimeState)
    ensures Next(from, StopRequested).Ok?
    ensures var stopping := Next(from, StopRequested).value;
      stopping == Stopped || Next(stopping, CleanupComplete) == Ok(Stopped)
    ensures Next(from, StopRequested).value == from <==> from.Stopped? || from.Stopping?
  {
  }

  /** News of another attempt than the current one is rejected as stale, naming both. */
  lemma StaleNewsIsRejected(from: RuntimeState, a: AttemptId, retry: bool)
    ensures from.Starting? && from.attempt != a ==>
      && Next(from, ForwardingAccepted(a)) == Err(StaleAttempt(from.attempt, a))
      && Next(from, AttemptFailed(a, retry)) == Err(StaleAttempt(from.attempt, a))
    ensures from.Active? && from.attempt != a ==>
      Next(from, ProcessExited(a, retry)) == Err(StaleAttempt(from.attempt, a))
    ensures from.Reconnecting? && from.failedAttempt != a ==>
      forall b :: Next(from, RetryDue(a, b)) == Err(StaleAttempt(from.failedAttempt, a))
  {
  }

  /** Which events a state accepts at all. */
  lemma AcceptedExactly(from: RuntimeState, event: RuntimeEvent)
    ensures Next(from, event).Ok? <==>
            match event
            case StartRequested(_) => from.Stopped? || from.Failed?
            case ForwardingAccepted(a) => from == Starting(a)
            case AttemptFailed(a, _) => from == Starting(a)
            case ProcessExited(a, _) => from == Active(a)
            case RetryDue(a, _) => from == Reconnecting(a)
            case StopRequested => true
            case CleanupComplete => from.Stopping?
  {
  }
}
