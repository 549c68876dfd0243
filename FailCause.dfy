/**
 * DataConnectionFailCause: why a data call could not be set up or was torn
 * down, the classification predicates the retry logic consults, and the
 * mapping from the cause codes the radio reports (the session-management
 * causes of section 6.1.3.1.3 of 3GPP TS 24.008, plus two vendor codes for
 * registration failures).
 */
module FailCause {
  import opened Nullable

  datatype Cause =
    | NONE
    | OPERATOR_BARRED
    | INSUFFICIENT_RESOURCES
    | MISSING_UNKOWN_APN
    | UNKNOWN_PDP_ADDRESS
    | USER_AUTHENTICATION
    | ACTIVATION_REJECT_GGSN
    | ACTIVATION_REJECT_UNSPECIFIED
    | SERVICE_OPTION_NOT_SUPPORTED
    | SERVICE_OPTION_NOT_SUBSCRIBED
    | SERVICE_OPTION_OUT_OF_ORDER
    | NSAPI_IN_USE
    | PROTOCOL_ERRORS
    | UNKNOWN
    | REGISTRATION_FAIL
    | GPRS_REGISTRATION_FAIL
    | RADIO_NOT_AVAILABLE
    | RADIO_ERROR_RETRY
    | PREF_RADIO_TECHNOLOGY_CHANGED
    | TETHERED_MODE_CALL_ON
    | IP_VERSION_NOT_SUPPORTED
    | PDP_NOT_AVAILABLE

  const PDP_FAIL_OPERATOR_BARRED: int := 0x08
  const PDP_FAIL_INSUFFICIENT_RESOURCES: int := 0x1A
  const PDP_FAIL_MISSING_UNKOWN_APN: int := 0x1B
  const PDP_FAIL_UNKNOWN_PDP_ADDRESS_TYPE: int := 0x1C
  const PDP_FAIL_USER_AUTHENTICATION: int := 0x1D
  const PDP_FAIL_ACTIVATION_REJECT_GGSN: int := 0x1E
  const PDP_FAIL_ACTIVATION_REJECT_UNSPECIFIED: int := 0x1F
  const PDP_FAIL_SERVICE_OPTION_NOT_SUPPORTED: int := 0x20
  const PDP_FAIL_SERVICE_OPTION_NOT_SUBSCRIBED: int := 0x21
  const PDP_FAIL_SERVICE_OPTION_OUT_OF_ORDER: int := 0x22
  const PDP_FAIL_NSAPI_IN_USE: int := 0x23
  const PDP_FAIL_ONLY_IPV4_ALLOWED: int := 0x32
  const PDP_FAIL_ONLY_IPV6_ALLOWED: int := 0x33
  const PDP_FAIL_PROTOCOL_ERRORS: int := 0x6F
  const PDP_FAIL_ERROR_UNSPECIFIED: int := 0xffff
  const PDP_FAIL_REGISTRATION_FAIL: int := -1
  const PDP_FAIL_GPRS_REGISTRATION_FAIL: int := -2

  /** The radio code that reports a cause, for the causes the radio can
      report; the other causes are raised by the framework itself. Where two
      codes share a cause (IPv4-only and IPv6-only) the IPv4 code is given. */
  function ReportedCode(c: Cause): (r: Option<int>)
    ensures r.None? <==> c in {NONE, RADIO_NOT_AVAILABLE, RADIO_ERROR_RETRY, PREF_RADIO_TECHNOLOGY_CHANGED,
                               TETHERED_MODE_CALL_ON, PDP_NOT_AVAILABLE}
  {
    match c
    case OPERATOR_BARRED => Some(PDP_FAIL_OPERATOR_BARRED)
    case INSUFFICIENT_RESOURCES => Some(PDP_FAIL_INSUFFICIENT_RESOURCES)
    case MISSING_UNKOWN_APN => Some(PDP_FAIL_MISSING_UNKOWN_APN)
    case UNKNOWN_PDP_ADDRESS => Some(PDP_FAIL_UNKNOWN_PDP_ADDRESS_TYPE)
    case USER_AUTHENTICATION => Some(PDP_FAIL_USER_AUTHENTICATION)
    case ACTIVATION_REJECT_GGSN => Some(PDP_FAIL_ACTIVATION_REJECT_GGSN)
    case ACTIVATION_REJECT_UNSPECIFIED => Some(PDP_FAIL_ACTIVATION_REJECT_UNSPECIFIED)
    case SERVICE_OPTION_NOT_SUPPORTED => Some(PDP_FAIL_SERVICE_OPTION_NOT_SUPPORTED)
    case SERVICE_OPTION_NOT_SUBSCRIBED => Some(PDP_FAIL_SERVICE_OPTION_NOT_SUBSCRIBED)
    case SERVICE_OPTION_OUT_OF_ORDER => Some(PDP_FAIL_SERVICE_OPTION_OUT_OF_ORDER)
    case NSAPI_IN_USE => Some(PDP_FAIL_NSAPI_IN_USE)
    case PROTOCOL_ERRORS => Some(PDP_FAIL_PROTOCOL_ERRORS)
    case UNKNOWN => Some(PDP_FAIL_ERROR_UNSPECIFIED)
    case REGISTRATION_FAIL => Some(PDP_FAIL_REGISTRATION_FAIL)
    case GPRS_REGISTRATION_FAIL => Some(PDP_FAIL_GPRS_REGISTRATION_FAIL)
    case IP_VERSION_NOT_SUPPORTED => Some(PDP_FAIL_ONLY_IPV4_ALLOWED)
    case _ => None
  }

  /** The codes the mapping recognises; every other code is UNKNOWN. */
  predicate IsKnownCode(code: int)
  {
    code in {PDP_FAIL_OPERATOR_BARRED, PDP_FAIL_INSUFFICIENT_RESOURCES, PDP_FAIL_MISSING_UNKOWN_APN,
             PDP_FAIL_UNKNOWN_PDP_ADDRESS_TYPE, PDP_FAIL_USER_AUTHENTICATION, PDP_FAIL_ACTIVATION_REJECT_GGSN,
             PDP_FAIL_ACTIVATION_REJECT_UNSPECIFIED, PDP_FAIL_SERVICE_OPTION_NOT_SUPPORTED,
             PDP_FAIL_SERVICE_OPTION_NOT_SUBSCRIBED, PDP_FAIL_SERVICE_OPTION_OUT_OF_ORDER, PDP_FAIL_NSAPI_IN_USE,
             PDP_FAIL_ONLY_IPV4_ALLOWED, PDP_FAIL_ONLY_IPV6_ALLOWED, PDP_FAIL_PROTOCOL_ERRORS,
             PDP_FAIL_ERROR_UNSPECIFIED, PDP_FAIL_REGISTRATION_FAIL, PDP_FAIL_GPRS_REGISTRATION_FAIL}
  }

  /** The setup causes that come from a wrong data profile (APN or
      credentials); each of them is permanent and never retried. */
  function IsDataProfileFailure(c: Cause): (r: bool)
    ensures r <==> c == MISSING_UNKOWN_APN || c == USER_AUTHENTICATION
    ensures r ==> IsPermanentFail(c) && !CanRetryAfterDcDisconnect(c)
  {
    c == MISSING_UNKOWN_APN || c == USER_AUTHENTICATION
  }

  /** Lack of PDP resources: a transient cause, so a retry is allowed. */
  function IsPdpAvailabilityFailure(c: Cause): (r: bool)
    ensures r ==> !IsPermanentFail(c) && CanRetryAfterDcDisconnect(c)
    ensures r ==> ReportedCode(c).None?
  {
    c == PDP_NOT_AVAILABLE
  }

  /** Causes for which setting the call up again cannot succeed. All but
      RADIO_NOT_AVAILABLE are network-reported causes. */
  function IsPermanentFail(c: Cause): (r: bool)
    ensures r && c != RADIO_NOT_AVAILABLE ==> ReportedCode(c).Some? && c != UNKNOWN
    ensures r ==> c != NONE && c != UNKNOWN
  {
    || c == OPERATOR_BARRED || c == MISSING_UNKOWN_APN
    || c == UNKNOWN_PDP_ADDRESS || c == USER_AUTHENTICATION
    || c == ACTIVATION_REJECT_GGSN || c == ACTIVATION_REJECT_UNSPECIFIED
    || c == SERVICE_OPTION_NOT_SUPPORTED
    || c == SERVICE_OPTION_NOT_SUBSCRIBED || c == NSAPI_IN_USE
    || c == PROTOCOL_ERRORS || c == RADIO_NOT_AVAILABLE
  }

  /** Causes worth an event-log entry: session-management causes reported
      by the network, never a framework-raised one. */
  function IsEventLoggable(c: Cause): (r: bool)
    ensures r ==> ReportedCode(c).Some? && 0 < ReportedCode(c).value < PDP_FAIL_ERROR_UNSPECIFIED
  {
    || c == OPERATOR_BARRED || c == INSUFFICIENT_RESOURCES
    || c == UNKNOWN_PDP_ADDRESS || c == USER_AUTHENTICATION
    || c == ACTIVATION_REJECT_GGSN || c == ACTIVATION_REJECT_UNSPECIFIED
    || c == SERVICE_OPTION_NOT_SUBSCRIBED
    || c == SERVICE_OPTION_NOT_SUPPORTED
    || c == SERVICE_OPTION_OUT_OF_ORDER || c == NSAPI_IN_USE
    || c == PROTOCOL_ERRORS
  }

  /** A call torn down for this cause may be set up again: not for a
      permanent cause, and not while a tethered call is on. */
  function CanRetryAfterDcDisconnect(c: Cause): (r: bool)
    ensures !r <==> IsPermanentFail(c) || c == TETHERED_MODE_CALL_ON
  {
    if IsPermanentFail(c) then false
    else match c
      case TETHERED_MODE_CALL_ON => false
      case _ => true
  }

  /** getDataCallSetupFailCause: the cause a reported code stands for. */
  function SetupFailCause(code: int): (r: Cause)
    ensures ReportedCode(r).Some?
    ensures r != NONE
    ensures !IsKnownCode(code) ==> r == UNKNOWN
    ensures code == PDP_FAIL_ONLY_IPV4_ALLOWED || code == PDP_FAIL_ONLY_IPV6_ALLOWED ==> r == IP_VERSION_NOT_SUPPORTED
  {
    if code == PDP_FAIL_OPERATOR_BARRED then OPERATOR_BARRED
    else if code == PDP_FAIL_INSUFFICIENT_RESOURCES then INSUFFICIENT_RESOURCES
    else if code == PDP_FAIL_MISSING_UNKOWN_APN then MISSING_UNKOWN_APN
    else if code == PDP_FAIL_UNKNOWN_PDP_ADDRESS_TYPE then UNKNOWN_PDP_ADDRESS
    else if code == PDP_FAIL_USER_AUTHENTICATION then USER_AUTHENTICATION
    else if code == PDP_FAIL_ACTIVATION_REJECT_GGSN then ACTIVATION_REJECT_GGSN
    else if code == PDP_FAIL_ACTIVATION_REJECT_UNSPECIFIED then ACTIVATION_REJECT_UNSPECIFIED
    else if code == PDP_FAIL_SERVICE_OPTION_OUT_OF_ORDER then SERVICE_OPTION_OUT_OF_ORDER
    else if code == PDP_FAIL_SERVICE_OPTION_NOT_SUPPORTED then SERVICE_OPTION_NOT_SUPPORTED
    else if code == PDP_FAIL_SERVICE_OPTION_NOT_SUBSCRIBED then SERVICE_OPTION_NOT_SUBSCRIBED
    else if code == PDP_FAIL_NSAPI_IN_USE then NSAPI_IN_USE
    else if code == PDP_FAIL_PROTOCOL_ERRORS then PROTOCOL_ERRORS
    else if code == PDP_FAIL_ERROR_UNSPECIFIED then UNKNOWN
    else if code == PDP_FAIL_REGISTRATION_FAIL then REGISTRATION_FAIL
    else if code == PDP_FAIL_GPRS_REGISTRATION_FAIL then GPRS_REGISTRATION_FAIL
    else if code == PDP_FAIL_ONLY_IPV4_ALLOWED || code == PDP_FAIL_ONLY_IPV6_ALLOWED then IP_VERSION_NOT_SUPPORTED
    else UNKNOWN
  }

  /** getDataConnectionDisconnectCause reuses the setup mapping. */
  function DisconnectCause(code: int): (r: Cause)
    ensures r == SetupFailCause(code)
  {
    SetupFailCause(code)
  }

  /** The code of every reportable cause maps back to that cause. */
  lemma ReportedCodeRoundTrip(c: Cause)
    ensures ReportedCode(c).Some? ==> SetupFailCause(ReportedCode(c).value) == c
  {
  }

  /** Apart from UNKNOWN (the fallback) and IP_VERSION_NOT_SUPPORTED (two
      codes), each cause comes from exactly one code. */
  lemma SetupFailCauseInjective(code: int)
    requires SetupFailCause(code) != UNKNOWN && SetupFailCause(code) != IP_VERSION_NOT_SUPPORTED
    ensures ReportedCode(SetupFailCause(code)) == Some(code)
  {
  }
}
