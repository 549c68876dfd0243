/**
 * The converters of DefaultPhoneNotifier between the phone's internal state
 * enums and the integer constants of the public TelephonyManager API, in both
 * directions. TelephonyManager itself is not part of this model; its
 * constants carry the values of the public Android API.
 */
module PhoneNotifier {

  datatype CallState = IDLE | RINGING | OFFHOOK

  datatype DataState = CONNECTED | CONNECTING | DISCONNECTED | SUSPENDED

  datatype DataActivityState = NONE | DATAIN | DATAOUT | DATAINANDOUT | DORMANT

  const CALL_STATE_IDLE: int := 0
  const CALL_STATE_RINGING: int := 1
  const CALL_STATE_OFFHOOK: int := 2

  const DATA_DISCONNECTED: int := 0
  const DATA_CONNECTING: int := 1
  const DATA_CONNECTED: int := 2
  const DATA_SUSPENDED: int := 3

  const DATA_ACTIVITY_NONE: int := 0
  const DATA_ACTIVITY_IN: int := 1
  const DATA_ACTIVITY_OUT: int := 2
  const DATA_ACTIVITY_INOUT: int := 3
  const DATA_ACTIVITY_DORMANT: int := 4

  // ---------------------------------------------------------------------------
  // Call state
  // ---------------------------------------------------------------------------

  /** convertCallState(int): unknown codes read as IDLE. */
  function IntToCallState(code: int): (r: CallState)
    ensures r == IDLE <==> code != CALL_STATE_RINGING && code != CALL_STATE_OFFHOOK
  {
    if code == CALL_STATE_RINGING then RINGING
    else if code == CALL_STATE_OFFHOOK then OFFHOOK
    else IDLE
  }

  /** convertCallState(State): a code that converts back to the same state. */
  function CallStateToInt(s: CallState): (r: int)
    ensures CALL_STATE_IDLE <= r <= CALL_STATE_OFFHOOK
    ensures IntToCallState(r) == s
  {
    match s
    case RINGING => CALL_STATE_RINGING
    case OFFHOOK => CALL_STATE_OFFHOOK
    case _ => CALL_STATE_IDLE
  }

  /** A code survives the round trip through the enum exactly when it is one
      of the three call-state constants; every other code is normalised to
      IDLE's. */
  lemma CallStateCodeNormalises(code: int)
    ensures CallStateToInt(IntToCallState(code)) == code <==> CALL_STATE_IDLE <= code <= CALL_STATE_OFFHOOK
    ensures !(CALL_STATE_IDLE <= code <= CALL_STATE_OFFHOOK) ==> CallStateToInt(IntToCallState(code)) == CALL_STATE_IDLE
  {
  }

  // ---------------------------------------------------------------------------
  // Data connection state
  // ---------------------------------------------------------------------------

  /** convertDataState(int): unknown codes read as DISCONNECTED. */
  function IntToDataState(code: int): (r: DataState)
    ensures r == DISCONNECTED <==> code !in {DATA_CONNECTING, DATA_CONNECTED, DATA_SUSPENDED}
  {
    if code == DATA_CONNECTING then CONNECTING
    else if code == DATA_CONNECTED then CONNECTED
    else if code == DATA_SUSPENDED then SUSPENDED
    else DISCONNECTED
  }

  /** convertDataState(DataState). */
  function DataStateToInt(s: DataState): (r: int)
    ensures DATA_DISCONNECTED <= r <= DATA_SUSPENDED
    ensures IntToDataState(r) == s
  {
    match s
    case CONNECTING => DATA_CONNECTING
    case CONNECTED => DATA_CONNECTED
    case SUSPENDED => DATA_SUSPENDED
    case _ => DATA_DISCONNECTED
  }

  lemma DataStateCodeNormalises(code: int)
    ensures DataStateToInt(IntToDataState(code)) == code <==> DATA_DISCONNECTED <= code <= DATA_SUSPENDED
    ensures !(DATA_DISCONNECTED <= code <= DATA_SUSPENDED) ==> DataStateToInt(IntToDataState(code)) == DATA_DISCONNECTED
  {
  }

  // ---------------------------------------------------------------------------
  // Data activity
  // ---------------------------------------------------------------------------

  /** convertDataActivityState(int): unknown codes read as NONE. */
  function IntToDataActivity(code: int): (r: DataActivityState)
    ensures r == NONE <==> code !in {DATA_ACTIVITY_IN, DATA_ACTIVITY_OUT, DATA_ACTIVITY_INOUT, DATA_ACTIVITY_DORMANT}
  {
    if code == DATA_ACTIVITY_IN then DATAIN
    else if code == DATA_ACTIVITY_OUT then DATAOUT
    else if code == DATA_ACTIVITY_INOUT then DATAINANDOUT
    else if code == DATA_ACTIVITY_DORMANT then DORMANT
    else NONE
  }

  /** convertDataActivityState(DataActivityState). */
  function DataActivityToInt(s: DataActivityState): (r: int)
    ensures DATA_ACTIVITY_NONE <= r <= DATA_ACTIVITY_DORMANT
    ensures IntToDataActivity(r) == s
  {
    match s
    case DATAIN => DATA_ACTIVITY_IN
    case DATAOUT => DATA_ACTIVITY_OUT
    case DATAINANDOUT => DATA_ACTIVITY_INOUT
    case DORMANT => DATA_ACTIVITY_DORMANT
    case _ => DATA_ACTIVITY_NONE
  }

  lemma DataActivityCodeNormalises(code: int)
    ensures DataActivityToInt(IntToDataActivity(code)) == code <==> DATA_ACTIVITY_NONE <= code <= DATA_ACTIVITY_DORMANT
    ensures !(DATA_ACTIVITY_NONE <= code <= DATA_ACTIVITY_DORMANT)
            ==> DataActivityToInt(IntToDataActivity(code)) == DATA_ACTIVITY_NONE
  {
  }
}
