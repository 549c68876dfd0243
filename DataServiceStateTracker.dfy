/**
 * The data registration bookkeeping of DataServiceStateTracker: the radio's
 * registration codes (section 7.2 of 3GPP TS 27.007) turned into a service
 * state and a roaming flag, the polling context that tells current poll
 * responses from stale ones, and the attach/detach events worked out when a
 * poll completes.
 */
module DataServiceState {
  import opened Nullable
  import opened JavaText

  /** ServiceState.STATE_*. */
  const STATE_IN_SERVICE: int := 0
  const STATE_OUT_OF_SERVICE: int := 1
  const STATE_EMERGENCY_ONLY: int := 2
  const STATE_POWER_OFF: int := 3

  /** regCodeToServiceState: only "registered, home" (1) and "registered,
      roaming" (5) are in service; every other code, listed or not, is out
      of service. */
  function RegCodeToServiceState(code: int): (r: int)
    ensures r == STATE_IN_SERVICE || r == STATE_OUT_OF_SERVICE
    ensures r == STATE_IN_SERVICE <==> code == 1 || code == 5
  {
    match code
    case 0 => STATE_OUT_OF_SERVICE
    case 1 => STATE_IN_SERVICE
    case 2 => STATE_OUT_OF_SERVICE
    case 3 => STATE_OUT_OF_SERVICE
    case 4 => STATE_OUT_OF_SERVICE
    case 10 => STATE_OUT_OF_SERVICE
    case 12 => STATE_OUT_OF_SERVICE
    case 13 => STATE_OUT_OF_SERVICE
    case 14 => STATE_OUT_OF_SERVICE
    case 5 => STATE_IN_SERVICE
    case _ => STATE_OUT_OF_SERVICE
  }

  /** regCodeIsRoaming: "registered, roaming". */
  function RegCodeIsRoaming(code: int): (r: bool)
    ensures r <==> code == 5
    ensures r ==> RegCodeToServiceState(code) == STATE_IN_SERVICE
  {
    code == 5
  }

  /** Roaming is one of the two in-service codes, and the only one: a
      roaming phone is in service, and an in-service phone that is not
      roaming is registered on its home network. */
  lemma RoamingIsInService(code: int)
    ensures RegCodeIsRoaming(code) ==> RegCodeToServiceState(code) == STATE_IN_SERVICE
    ensures RegCodeToServiceState(code) == STATE_IN_SERVICE && !RegCodeIsRoaming(code) <==> code == 1
  {
  }

  /** The registration state in a REGISTRATION_STATE response: `None` when
      the response does not have its 14 fields (the source throws and the
      poll result is dropped), 4 ("unknown") when the field is missing or
      not a number. */
  function RegistrationState(states: seq<Option<string>>): (r: Option<int>)
    ensures r.None? <==> |states| != 14
    ensures r.Some? && states[0].Some? && ParseInt(states[0].value).Some? ==> r.value == ParseInt(states[0].value).value
    ensures r.Some? && (states[0].None? || ParseInt(states[0].value).None?) ==> r.value == 4
  {
    if |states| != 14 then None
    else if states[0].None? then Some(4)
    else match ParseInt(states[0].value)
      case Some(v) => Some(v)
      case None => Some(4)
  }

  /** The events pollStateDone raises about the data connection. */
  datatype DataTransition = DataTransition(attached: bool, detached: bool, changed: bool)

  /** pollStateDone's flags for a move from `oldState` to `newState`. */
  function Transition(oldState: int, newState: int): (t: DataTransition)
    ensures t.attached <==> oldState != STATE_IN_SERVICE && newState == STATE_IN_SERVICE
    ensures t.detached <==> oldState == STATE_IN_SERVICE && newState != STATE_IN_SERVICE
    ensures t.changed <==> oldState != newState
  {
    DataTransition(oldState != STATE_IN_SERVICE && newState == STATE_IN_SERVICE,
                   oldState == STATE_IN_SERVICE && newState != STATE_IN_SERVICE,
                   oldState != newState)
  }

  /** A poll never reports both an attach and a detach, either one is a
      change, and a change reports one of them exactly when it crosses
      the in-service boundary. Going back and forth reports the opposite
      event. */
  lemma TransitionConsistent(a: int, b: int)
    ensures !(Transition(a, b).attached && Transition(a, b).detached)
    ensures Transition(a, b).attached || Transition(a, b).detached ==> Transition(a, b).changed
    ensures Transition(a, b).attached <==> Transition(b, a).detached
    ensures !Transition(a, a).changed
  {
  }

  /** The radio states pollState distinguishes; every state with the radio
      on is handled alike. */
  datatype RadioState = RADIO_OFF | RADIO_UNAVAILABLE | RADIO_ON

  /** CommandException.Error values the poll handler tests; `OtherError`
      stands for every other error and for an exception that is not a
      CommandException. */
  datatype CommandError = RADIO_NOT_AVAILABLE | OP_NOT_ALLOWED_BEFORE_REG_NW | OtherError

  /** The result a poll request comes back with. */
  datatype PollResult = Failed(error: CommandError) | Registration(states: seq<Option<string>>)

  class DataServiceStateTracker {
    /** The context of the current poll: its identity tells current
        responses from stale ones, its element counts the responses still
        expected. Null before the first poll. */
    var pollingContext: array?<int>
    /** getState() of mSs and mNewSS. */
    var serviceState: int
    var newServiceState: int
    var dataConnectionState: int
    var newDataConnectionState: int

    /** Every context holds a single counter. */
    predicate Valid()
      reads this
    {
      pollingContext != null ==> pollingContext.Length == 1
    }

    constructor ()
      ensures Valid() && pollingContext == null
      ensures dataConnectionState == STATE_OUT_OF_SERVICE && newDataConnectionState == STATE_OUT_OF_SERVICE
      ensures serviceState == STATE_OUT_OF_SERVICE && newServiceState == STATE_OUT_OF_SERVICE
    {
      pollingContext := null;
      serviceState, newServiceState := STATE_OUT_OF_SERVICE, STATE_OUT_OF_SERVICE;
      dataConnectionState, newDataConnectionState := STATE_OUT_OF_SERVICE, STATE_OUT_OF_SERVICE;
    }

    /** pollStateDone: the new state becomes current, the spare one starts
        out of service, and the events of the move are returned. */
    method PollStateDone() returns (t: DataTransition)
      requires Valid()
      modifies this
      ensures Valid()
      ensures t == Transition(old(dataConnectionState), old(newDataConnectionState))
      ensures dataConnectionState == old(newDataConnectionState) && newDataConnectionState == old(newDataConnectionState)
      ensures serviceState == old(newServiceState) && newServiceState == STATE_OUT_OF_SERVICE
      ensures pollingContext == old(pollingContext)
    {
      t := Transition(dataConnectionState, newDataConnectionState);
      serviceState, newServiceState := newServiceState, serviceState;
      newServiceState := STATE_OUT_OF_SERVICE;
      dataConnectionState := newDataConnectionState;
    }

    /** pollState: a fresh context. With the radio unavailable or off the
        poll completes at once; otherwise one registration request goes out
        carrying the context (`request`). */
    method PollState(radio: RadioState) returns (request: Option<array<int>>, done: Option<DataTransition>)
      requires Valid()
      modifies this
      ensures Valid()
      ensures pollingContext != null && fresh(pollingContext)
      ensures radio == RADIO_ON ==> request == Some(pollingContext) && pollingContext[0] == 1 && done.None?
      ensures radio == RADIO_ON ==> serviceState == old(serviceState) && newServiceState == old(newServiceState)
                                    && dataConnectionState == old(dataConnectionState)
      ensures radio != RADIO_ON ==> request.None? && pollingContext[0] == 0
      ensures radio != RADIO_ON ==> done == Some(Transition(old(dataConnectionState), old(newDataConnectionState)))
                                    && dataConnectionState == old(newDataConnectionState)
                                    && serviceState == (if radio == RADIO_OFF then STATE_POWER_OFF else STATE_OUT_OF_SERVICE)
                                    && newServiceState == STATE_OUT_OF_SERVICE
      ensures newDataConnectionState == old(newDataConnectionState)
    {
      var context := new int[1](_ => 0);
      pollingContext := context;
      request, done := None, None;
      match radio
      case RADIO_UNAVAILABLE =>
        newServiceState := STATE_OUT_OF_SERVICE;
        var t := PollStateDone();
        done := Some(t);
      case RADIO_OFF =>
        newServiceState := STATE_POWER_OFF;
        var t := PollStateDone();
        done := Some(t);
      case RADIO_ON =>
        context[0] := context[0] + 1;
        request := Some(context);
    }

    /** cancelPollState: a fresh context, so every pending response is
        stale. */
    method CancelPollState()
      requires Valid()
      modifies this
      ensures Valid() && pollingContext != null
      ensures fresh(pollingContext) && pollingContext[0] == 0
      ensures serviceState == old(serviceState) && newServiceState == old(newServiceState)
      ensures dataConnectionState == old(dataConnectionState) && newDataConnectionState == old(newDataConnectionState)
    {
      pollingContext := new int[1](_ => 0);
    }

    /** handlePollStateResult. A response whose context is not the current
        one changes nothing. A lost radio cancels the poll. Otherwise a
        well-formed registration response sets the new service and data
        states from its registration code, and the response is counted off;
        the last one completes the poll. */
    method HandlePollStateResult(context: array<int>, result: PollResult, radioOn: bool) returns (done: Option<DataTransition>)
      requires Valid()
      modifies this, pollingContext
      ensures Valid()
      ensures context != old(pollingContext) ==>
                done.None? && pollingContext == old(pollingContext)
                && serviceState == old(serviceState) && newServiceState == old(newServiceState)
                && dataConnectionState == old(dataConnectionState) && newDataConnectionState == old(newDataConnectionState)
                && (pollingContext != null ==> pollingContext[..] == old(pollingContext[..]))
      ensures context == old(pollingContext) && result.Failed? && (result.error == RADIO_NOT_AVAILABLE || !radioOn) ==>
                done.None? && fresh(pollingContext) && pollingContext[0] == 0
                && dataConnectionState == old(dataConnectionState) && newDataConnectionState == old(newDataConnectionState)
      ensures context == old(pollingContext) && !(result.Failed? && (result.error == RADIO_NOT_AVAILABLE || !radioOn)) ==>
                var reg := if result.Registration? then RegistrationState(result.states) else None;
                var expected := if reg.Some? then RegCodeToServiceState(reg.value) else old(newDataConnectionState);
                && pollingContext == context && context.Length == 1 && context[0] == old(context[0]) - 1
                && newDataConnectionState == expected
                && (done.Some? <==> context[0] == 0)
                && (done.Some? ==> done.value == Transition(old(dataConnectionState), expected)
                                   && dataConnectionState == expected)
                && (done.None? ==> dataConnectionState == old(dataConnectionState))
    {
      if context != pollingContext {
        return None;
      }
      if result.Failed? {
        if result.error == RADIO_NOT_AVAILABLE || !radioOn {
          CancelPollState();
          return None;
        }
      } else {
        var reg := RegistrationState(result.states);
        if reg.Some? {
          newServiceState := RegCodeToServiceState(reg.value);
          newDataConnectionState := RegCodeToServiceState(reg.value);
        }
      }
      context[0] := context[0] - 1;
      done := None;
      if context[0] == 0 {
        var t := PollStateDone();
        done := Some(t);
      }
    }
  }
}
