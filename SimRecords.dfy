/**
 * The record logic of SIMRecords: the service-provider-name display rule
 * (section 10.3.11 of 3GPP TS 51.011), the operator numeric taken from the
 * IMSI, the voice-mail waiting indicators of EF_MWIS (section 10.3.45 of
 * 3GPP TS 51.011) and of the CPHS file (CPHS 4.2, B.4.2.3), the customer
 * service profile check, the state machine that looks for an SPN in three
 * files in turn, and the counter of records still being loaded.
 */
module SimRecords {
  import opened Nullable

  /** A byte of a SIM file, as its unsigned value (the source masks each
      byte it reads with 0xff or with a smaller mask). */
  newtype byte = b: int | 0 <= b < 0x100

  // ---------------------------------------------------------------------------
  // Operator numeric and SPN display rule
  // ---------------------------------------------------------------------------

  /** mncLength before the IMSI or EF_AD was read, and when it could not be
      worked out. */
  const UNINITIALIZED: int := -1
  const UNKNOWN: int := 0

  const SPN_RULE_SHOW_SPN: int := 0x01
  const SPN_RULE_SHOW_PLMN: int := 0x02

  /** getSIMOperatorNumeric: `NotReady` where the source returns null, and
      `ImsiTooShort` where its `substring` throws. */
  datatype NumericResult = NotReady | Numeric(code: string) | ImsiTooShort

  function SimOperatorNumeric(imsi: Option<string>, mncLength: int): (r: NumericResult)
    ensures r == NotReady <==> imsi.None? || mncLength == UNINITIALIZED || mncLength == UNKNOWN
    ensures r.Numeric? ==> |r.code| == 3 + mncLength && r.code <= imsi.value
    ensures imsi.Some? && 2 <= mncLength <= 3 && |imsi.value| >= 6 ==> r.Numeric?
  {
    if imsi.None? || mncLength == UNINITIALIZED || mncLength == UNKNOWN then NotReady
    else if 0 <= 3 + mncLength <= |imsi.value| then Numeric(imsi.value[..3 + mncLength])
    else ImsiTooShort
  }

  /** isOnMatchingPlmn: the registered PLMN is the home PLMN or one of the
      EF_SPDI networks. `None` when working out the home PLMN throws. */
  function IsOnMatchingPlmn(plmn: Option<string>, home: NumericResult, spdiNetworks: Option<seq<string>>): (r: Option<bool>)
    ensures plmn.None? ==> r == Some(false)
    ensures r.None? <==> plmn.Some? && home == ImsiTooShort
    ensures r == Some(true) <==> plmn.Some? && ((home.Numeric? && plmn.value == home.code)
                                               || (home != ImsiTooShort && spdiNetworks.Some? && plmn.value in spdiNetworks.value))
  {
    if plmn.None? then Some(false)
    else if home == ImsiTooShort then None
    else if home.Numeric? && plmn.value == home.code then Some(true)
    else Some(spdiNetworks.Some? && plmn.value in spdiNetworks.value)
  }

  /** Bit `k` of a two's-complement `int` (Euclidean division floors for a
      positive divisor). */
  function Bit(x: int, k: nat): bool
  {
    (x / Pow2(k)) % 2 == 1
  }

  function Pow2(k: nat): (r: nat)
    ensures r >= 1
  {
    if k == 0 then 1 else 2 * Pow2(k - 1)
  }

  predicate ShowsSpn(rule: int) { rule % 2 == 1 }
  predicate ShowsPlmn(rule: int) { (rule / 2) % 2 == 1 }

  /** getDisplayRule once the source knows whether EF_SPN is loaded and
      whether the registered PLMN matches. The two flags are distinct bits,
      so the source's `|` is a sum here. */
  function DisplayRule(spnLoaded: bool, spnDisplayCondition: int, onMatchingPlmn: bool): (r: int)
    ensures 1 <= r <= 3
    ensures !spnLoaded || spnDisplayCondition == -1 ==> r == SPN_RULE_SHOW_PLMN
  {
    if !spnLoaded || spnDisplayCondition == -1 then SPN_RULE_SHOW_PLMN
    else if onMatchingPlmn then SPN_RULE_SHOW_SPN + (if Bit(spnDisplayCondition, 0) then SPN_RULE_SHOW_PLMN else 0)
    else SPN_RULE_SHOW_PLMN + (if !Bit(spnDisplayCondition, 1) then SPN_RULE_SHOW_SPN else 0)
  }

  /** What the rule shows, as section 10.3.11 of 3GPP TS 51.011 reads the
      display condition: on the home PLMN (or an EF_SPDI network) the SPN,
      and the PLMN name too when bit 1 of the condition is set; elsewhere
      the PLMN name, and the SPN too unless bit 2 is set. Something is
      always shown. */
  lemma DisplayRuleShows(spnLoaded: bool, cond: int, onMatchingPlmn: bool)
    ensures var rule := DisplayRule(spnLoaded, cond, onMatchingPlmn);
            && (ShowsSpn(rule) || ShowsPlmn(rule))
            && (!spnLoaded || cond == -1 ==> ShowsPlmn(rule) && !ShowsSpn(rule))
            && (spnLoaded && cond != -1 && onMatchingPlmn ==> ShowsSpn(rule) && (ShowsPlmn(rule) <==> Bit(cond, 0)))
            && (spnLoaded && cond != -1 && !onMatchingPlmn ==> ShowsPlmn(rule) && (ShowsSpn(rule) <==> !Bit(cond, 1)))
  {
  }

  // ---------------------------------------------------------------------------
  // Voice-mail waiting indicators
  // ---------------------------------------------------------------------------

  /** `(b & 0xfe) | (waiting ? 1 : 0)`: bit 0 replaced, the rest kept. */
  function WithBit0(b: byte, waiting: bool): (r: byte)
    ensures r / 2 == b / 2
    ensures r % 2 == 1 <==> waiting
  {
    (b as int - b as int % 2 + (if waiting then 1 else 0)) as byte
  }

  /** `(b & 0xf0) | nibble`: the low nibble replaced, the high one kept. */
  function WithLowNibble(b: byte, nibble: int): (r: byte)
    requires 0 <= nibble < 0x10
    ensures r / 0x10 == b / 0x10
    ensures r as int % 0x10 == nibble
  {
    (b as int - b as int % 0x10 + nibble) as byte
  }

  /** EF_MWIS after setVoiceMessageWaiting(1, count): bit 0 of byte 0 says
      whether messages wait, byte 1 holds the count (0 when unknown, the
      low 8 bits of `(byte) countWaiting` otherwise); everything else is
      kept. */
  function MwisUpdated(mwis: seq<byte>, countWaiting: int): (r: seq<byte>)
    requires |mwis| >= 2
    ensures |r| == |mwis| && r[2..] == mwis[2..]
    ensures r[0] / 2 == mwis[0] / 2
  {
    mwis[0 := WithBit0(mwis[0], countWaiting != 0)]
        [1 := if countWaiting < 0 then 0 else (countWaiting % 0x100) as byte]
  }

  /** The CPHS indicator after setVoiceMessageWaiting(1, count): the low
      nibble is 0x5 for "none waiting" and 0xA for "some waiting"; the high
      nibble and the other bytes are kept. */
  function CphsUpdated(cphs: seq<byte>, countWaiting: int): (r: seq<byte>)
    requires |cphs| >= 1
    ensures |r| == |cphs| && r[1..] == cphs[1..]
    ensures r[0] / 0x10 == cphs[0] / 0x10
  {
    cphs[0 := WithLowNibble(cphs[0], if countWaiting == 0 then 0x5 else 0xA)]
  }

  /** getVoiceMessageCount from EF_MWIS: the count byte, or -1 ("some, number
      unknown") when the waiting bit is set with a zero count. */
  function MwisCount(mwis: seq<byte>): (r: int)
    requires |mwis| >= 2
    ensures -1 <= r <= 255
    ensures r == -1 <==> mwis[0] % 2 == 1 && mwis[1] == 0
  {
    var voiceMailWaiting := mwis[0] % 2 != 0;
    var count := mwis[1] as int;
    if voiceMailWaiting && count == 0 then -1 else count
  }

  /** getVoiceMessageCount from the CPHS indicator: -1 for 0xA, 0 for 0x5
      and for any other nibble. */
  function CphsCount(cphs: seq<byte>): (r: int)
    requires |cphs| >= 1
    ensures r == -1 <==> cphs[0] % 0x10 == 0xA
    ensures r != -1 ==> r == 0
  {
    var indicator := cphs[0] % 0x10;
    if indicator == 0xA then -1 else 0
  }

  /** Writing a count into EF_MWIS and reading it back gives the count for
      every value the file can hold (-1 for "unknown" up to 255); a
      negative count reads back as unknown, and a larger one as its low 8
      bits, or as unknown when those are all zero. */
  lemma MwisRoundTrip(mwis: seq<byte>, countWaiting: int)
    requires |mwis| >= 2
    ensures -1 <= countWaiting <= 255 ==> MwisCount(MwisUpdated(mwis, countWaiting)) == countWaiting
    ensures countWaiting < -1 ==> MwisCount(MwisUpdated(mwis, countWaiting)) == -1
    ensures countWaiting > 255 ==>
              MwisCount(MwisUpdated(mwis, countWaiting)) == if countWaiting % 256 == 0 then -1 else countWaiting % 256
  {
    var r := MwisUpdated(mwis, countWaiting);
    assert r[0] % 2 == 1 <==> countWaiting != 0;
    assert r[1] as int == if countWaiting < 0 then 0 else countWaiting % 256;
  }

  /** The CPHS indicator only tells "none" from "some": writing a count and
      reading it back gives 0 for zero and -1 for anything else. */
  lemma CphsRoundTrip(cphs: seq<byte>, countWaiting: int)
    requires |cphs| >= 1
    ensures CphsCount(CphsUpdated(cphs, countWaiting)) == if countWaiting == 0 then 0 else -1
  {
    assert CphsUpdated(cphs, countWaiting)[0] % 0x10 == if countWaiting == 0 then 0x5 else 0xA;
  }

  /** Which file setVoiceMessageWaiting writes. */
  datatype MwiWrite = NoUpdate | WriteMwis | WriteCphsMwi | NotSupported | MalformedRecord

  // ---------------------------------------------------------------------------
  // Customer service profile (CPHS 4.2, B.4.7.1)
  // ---------------------------------------------------------------------------

  const VALUE_ADDED_SERVICES_GROUP: byte := 0xC0

  /** handleEfCspData from service group `i` on: the first Value Added
      Services group decides by its bit 8; without one, manual PLMN
      selection stays enabled. */
  function CspPlmnEnabledFrom(data: seq<byte>, i: nat): (r: bool)
    decreases |data| / 2 - i
  {
    if i >= |data| / 2 then true
    else if data[2 * i] == VALUE_ADDED_SERVICES_GROUP then data[2 * i + 1] >= 0x80
    else CspPlmnEnabledFrom(data, i + 1)
  }

  function CspPlmnEnabled(data: seq<byte>): bool
  {
    CspPlmnEnabledFrom(data, 0)
  }

  /** Manual PLMN selection is disabled exactly when some service group is
      the Value Added Services group, with bit 8 clear, and no group before
      it is one. */
  lemma {:induction false} CspPlmnDisabledIff(data: seq<byte>, i: nat)
    requires i <= |data| / 2
    ensures !CspPlmnEnabledFrom(data, i) <==>
              exists g :: i <= g < |data| / 2 && data[2 * g] == VALUE_ADDED_SERVICES_GROUP
                          && data[2 * g + 1] < 0x80
                          && forall h :: i <= h < g ==> data[2 * h] != VALUE_ADDED_SERVICES_GROUP
    decreases |data| / 2 - i
  {
    if i < |data| / 2 {
      CspPlmnDisabledIff(data, i + 1);
      if data[2 * i] != VALUE_ADDED_SERVICES_GROUP && !CspPlmnEnabledFrom(data, i) {
        var g :| i + 1 <= g < |data| / 2 && data[2 * g] == VALUE_ADDED_SERVICES_GROUP
                 && data[2 * g + 1] < 0x80
                 && forall h :: i + 1 <= h < g ==> data[2 * h] != VALUE_ADDED_SERVICES_GROUP;
        assert forall h :: i <= h < g ==> data[2 * h] != VALUE_ADDED_SERVICES_GROUP;
      }
    }
  }

  // ---------------------------------------------------------------------------
  // Records still to load
  // ---------------------------------------------------------------------------

  /** onRecordLoaded on the counter: one record fewer, never below zero;
      the all-loaded step runs when the count reaches zero after a fetch
      was requested. */
  function RecordLoaded(recordsToLoad: int, recordsRequested: bool): (r: (int, bool))
    ensures r.0 >= 0 && r.0 == if recordsToLoad - 1 < 0 then 0 else recordsToLoad - 1
    ensures r.1 <==> recordsToLoad == 1 && recordsRequested
  {
    var left := recordsToLoad - 1;
    if left == 0 && recordsRequested then (0, true)
    else if left < 0 then (0, false)
    else (left, false)
  }

  /** Whether the all-loaded step runs, for `k` responses in a row. */
  function Completions(recordsToLoad: int, recordsRequested: bool, k: nat): (r: seq<bool>)
    ensures |r| == k
    decreases k
  {
    if k == 0 then []
    else
      var next := RecordLoaded(recordsToLoad, recordsRequested);
      [next.1] + Completions(next.0, recordsRequested, k - 1)
  }

  /** After a fetch of `n` records, the all-loaded step runs once, on the
      last response, and no later stray response runs it again. */
  lemma {:induction false} LoadCompletesOnce(n: nat, extra: nat)
    requires n >= 1
    ensures Completions(n, true, n + extra) == seq(n - 1, _ => false) + [true] + seq(extra, _ => false)
  {
    if n == 1 {
      NoCompletionAtZero(extra);
    } else {
      LoadCompletesOnce(n - 1, extra);
    }
  }

  lemma {:induction false} NoCompletionAtZero(k: nat)
    ensures Completions(0, true, k) == seq(k, _ => false)
  {
    if k > 0 {
      NoCompletionAtZero(k - 1);
    }
  }

  // ---------------------------------------------------------------------------
  // The SPN state machine
  // ---------------------------------------------------------------------------

  datatype SpnFsmState = IDLE | INIT | READ_SPN_3GPP | READ_SPN_CPHS | READ_SPN_SHORT_CPHS

  /** The elementary files the machine reads, in order. */
  datatype SpnFile = EF_SPN | EF_SPN_CPHS | EF_SPN_SHORT_CPHS

  /** The outcome of the previous read: none, the file's bytes, or an
      error. */
  datatype LoadResult = NoResult | Loaded(data: seq<byte>) | LoadFailed

  /** The SPN as stored: the bytes that the ADN string decoder turns into
      text, with the offset and length the source hands it. */
  datatype SpnField = SpnField(data: seq<byte>, offset: int, length: int)

  datatype SpnMachine = SpnMachine(state: SpnFsmState, spn: Option<SpnField>, spnDisplayCondition: int)

  /** The file read while the machine is in a reading state. */
  function FileFor(s: SpnFsmState): Option<SpnFile>
  {
    match s
    case READ_SPN_3GPP => Some(EF_SPN)
    case READ_SPN_CPHS => Some(EF_SPN_CPHS)
    case READ_SPN_SHORT_CPHS => Some(EF_SPN_SHORT_CPHS)
    case _ => None
  }

  /** How far the machine is from IDLE. */
  function Rank(s: SpnFsmState): nat
  {
    match s
    case IDLE => 0
    case READ_SPN_SHORT_CPHS => 1
    case READ_SPN_CPHS => 2
    case READ_SPN_3GPP => 3
    case INIT => 4
  }

  /** One step of getSpnFsm: the new machine and the file it asks to read. */
  function SpnStep(m: SpnMachine, start: bool, result: LoadResult): (r: (SpnMachine, Option<SpnFile>))
    ensures r.1.Some? ==> r.1 == FileFor(r.0.state)
    ensures r.1.None? ==> r.0.state == IDLE || r == (m, None)
    ensures r.1.Some? ==> r.0.spn.None? || r.0.spn == m.spn
    ensures !start && m.state != IDLE ==>
              Rank(r.0.state) < Rank(m.state) || (m.state == READ_SPN_3GPP && result == Loaded([]) && r == (m, None))
    ensures !start && m.state == IDLE ==> r.0 == m
    ensures start ==> r.0.state == READ_SPN_3GPP && r.0.spn.None?
  {
    var s := if start then INIT else m.state;
    match s
    case INIT =>
      (m.(state := READ_SPN_3GPP, spn := None), Some(EF_SPN))
    case READ_SPN_3GPP =>
      if result == Loaded([]) then
        // reading the display condition byte throws; the handler catches
        // it and the machine stays where it was
        (m, None)
      else if result.Loaded? then
        var data := result.data;
        (SpnMachine(IDLE, Some(SpnField(data, 1, |data| - 1)), data[0] as int), None)
      else
        (m.(state := READ_SPN_CPHS, spnDisplayCondition := -1), Some(EF_SPN_CPHS))
    case READ_SPN_CPHS =>
      if result.Loaded? then
        (m.(state := IDLE, spn := Some(SpnField(result.data, 0, |result.data| - 1))), None)
      else
        (m.(state := READ_SPN_SHORT_CPHS), Some(EF_SPN_SHORT_CPHS))
    case READ_SPN_SHORT_CPHS =>
      if result.Loaded? then
        (m.(state := IDLE, spn := Some(SpnField(result.data, 0, |result.data| - 1))), None)
      else
        (m.(state := IDLE), None)
    case IDLE =>
      (m, None)
  }

  /** When every file fails to load, the machine reads the three files in
      order, ends IDLE with no SPN and the condition at -1, so only the
      PLMN name is shown. */
  lemma AllSpnFilesFail(m: SpnMachine)
    ensures var s1 := SpnStep(m, true, NoResult);
            var s2 := SpnStep(s1.0, false, LoadFailed);
            var s3 := SpnStep(s2.0, false, LoadFailed);
            var s4 := SpnStep(s3.0, false, LoadFailed);
            && s1.1 == Some(EF_SPN) && s2.1 == Some(EF_SPN_CPHS) && s3.1 == Some(EF_SPN_SHORT_CPHS) && s4.1.None?
            && s4.0 == SpnMachine(IDLE, None, -1)
            && DisplayRule(s4.0.spn.Some?, s4.0.spnDisplayCondition, true) == SPN_RULE_SHOW_PLMN
  {
  }

  /** An SPN found only in a CPHS file leaves the display condition at -1,
      so getDisplayRule never shows it. */
  lemma CphsSpnNotShown(m: SpnMachine, data: seq<byte>, onMatchingPlmn: bool)
    ensures var s1 := SpnStep(m, true, NoResult);
            var s2 := SpnStep(s1.0, false, LoadFailed);
            var s3 := SpnStep(s2.0, false, Loaded(data));
            && s3.0.state == IDLE && s3.0.spn == Some(SpnField(data, 0, |data| - 1))
            && DisplayRule(true, s3.0.spnDisplayCondition, onMatchingPlmn) == SPN_RULE_SHOW_PLMN
  {
  }

  /** A loaded EF_SPN sets the condition from its first byte and keeps the
      rest as the name. */
  lemma SpnFromEfSpn(m: SpnMachine, data: seq<byte>)
    requires |data| >= 1
    ensures var s1 := SpnStep(m, true, NoResult);
            var s2 := SpnStep(s1.0, false, Loaded(data));
            && s2.0 == SpnMachine(IDLE, Some(SpnField(data, 1, |data| - 1)), data[0] as int)
            && 0 <= s2.0.spnDisplayCondition <= 255 && s2.1.None?
  {
  }

  // ---------------------------------------------------------------------------
  // The records object
  // ---------------------------------------------------------------------------

  /** A fresh array holding a record read from the SIM. */
  method ArrayOf(data: seq<byte>) returns (a: array<byte>)
    ensures fresh(a) && a[..] == data
  {
    a := new byte[|data|](i requires 0 <= i < |data| => data[i]);
  }

  class SIMRecords {
    var imsi: Option<string>
    var mncLength: int
    var spdiNetworks: Option<seq<string>>
    var spnMachine: SpnMachine
    var efMWIS: array?<byte>
    var efCPHS_MWI: array?<byte>
    var cspPlmnEnabled: bool
    var recordsToLoad: int
    var recordsRequested: bool

    /** The counter is never negative, and the two indicator files are
        separate arrays. */
    predicate Valid()
      reads this
    {
      && recordsToLoad >= 0
      && (efMWIS != null && efCPHS_MWI != null ==> efMWIS != efCPHS_MWI)
    }

    /** The state after construction and resetRecords. */
    constructor ()
      ensures Valid()
      ensures imsi.None? && mncLength == UNINITIALIZED && spdiNetworks.None?
      ensures spnMachine == SpnMachine(IDLE, None, -1)
      ensures efMWIS == null && efCPHS_MWI == null && cspPlmnEnabled
      ensures recordsToLoad == 0 && !recordsRequested
    {
      imsi, mncLength, spdiNetworks := None, UNINITIALIZED, None;
      spnMachine := SpnMachine(IDLE, None, -1);
      efMWIS, efCPHS_MWI := null, null;
      cspPlmnEnabled := true;
      recordsToLoad, recordsRequested := 0, false;
    }

    /** getSIMOperatorNumeric: null until the IMSI and the MNC length are
        known, otherwise the IMSI's first 3 + mncLength characters. */
    function GetSimOperatorNumeric(): (r: NumericResult)
      reads this
      ensures r == NotReady <==> imsi.None? || mncLength == UNINITIALIZED || mncLength == UNKNOWN
      ensures r.Numeric? ==> |r.code| == 3 + mncLength && r.code <= imsi.value
    {
      SimOperatorNumeric(imsi, mncLength)
    }

    /** getDisplayRule for the registered PLMN; `None` where working out
        the home PLMN throws. */
    function GetDisplayRule(plmn: Option<string>): (r: Option<int>)
      reads this
      ensures spnMachine.spn.None? || spnMachine.spnDisplayCondition == -1 ==> r == Some(SPN_RULE_SHOW_PLMN)
      ensures r.Some? ==> 1 <= r.value <= 3
    {
      if spnMachine.spn.None? || spnMachine.spnDisplayCondition == -1 then Some(SPN_RULE_SHOW_PLMN)
      else
        match IsOnMatchingPlmn(plmn, GetSimOperatorNumeric(), spdiNetworks)
        case None => None
        case Some(matching) => Some(DisplayRule(true, spnMachine.spnDisplayCondition, matching))
    }

    /** getVoiceMessageCount: EF_MWIS when loaded, else the CPHS indicator,
        else 0. `None` where the source indexes past the end of a record
        that is too short, which it does not catch. */
    function GetVoiceMessageCount(): (r: Option<int>)
      reads this, efMWIS, efCPHS_MWI
      ensures efMWIS != null ==> (r.Some? <==> efMWIS.Length >= 2)
      ensures efMWIS != null && r.Some? ==> r.value == MwisCount(efMWIS[..])
      ensures efMWIS == null && efCPHS_MWI != null ==> (r.Some? <==> efCPHS_MWI.Length >= 1)
      ensures efMWIS == null && efCPHS_MWI != null && r.Some? ==> r.value == CphsCount(efCPHS_MWI[..])
      ensures efMWIS == null && efCPHS_MWI == null ==> r == Some(0)
    {
      if efMWIS != null then
        if efMWIS.Length >= 2 then Some(MwisCount(efMWIS[..])) else None
      else if efCPHS_MWI != null then
        if efCPHS_MWI.Length >= 1 then Some(CphsCount(efCPHS_MWI[..])) else None
      else Some(0)
    }

    /** setVoiceMessageWaiting: only line 1 is supported; EF_MWIS is updated
        when loaded, else the CPHS indicator, else the caller hears that
        neither file exists. A record too short for the bytes written stops
        the update at the first missing byte and is reported as malformed
        (the bytes before it stay written). Writing the file back to the
        SIM is not modelled; `written` says which one would be written. */
    method SetVoiceMessageWaiting(line: int, countWaiting: int) returns (written: MwiWrite)
      requires Valid()
      modifies efMWIS, efCPHS_MWI
      ensures Valid()
      ensures line != 1 ==> written == NoUpdate
      ensures line == 1 && efMWIS != null ==>
                written == (if efMWIS.Length >= 2 then WriteMwis else MalformedRecord)
      ensures line == 1 && efMWIS == null && efCPHS_MWI != null ==>
                written == (if efCPHS_MWI.Length >= 1 then WriteCphsMwi else MalformedRecord)
      ensures line == 1 && efMWIS == null && efCPHS_MWI == null ==> written == NotSupported
      ensures efMWIS != null ==>
                efMWIS[..] == if line != 1 || efMWIS.Length == 0 then old(efMWIS[..])
                              else if efMWIS.Length == 1 then [WithBit0(old(efMWIS[0]), countWaiting != 0)]
                              else MwisUpdated(old(efMWIS[..]), countWaiting)
      ensures efCPHS_MWI != null ==>
                efCPHS_MWI[..] == if written == WriteCphsMwi then CphsUpdated(old(efCPHS_MWI[..]), countWaiting)
                                  else old(efCPHS_MWI[..])
      ensures written == WriteMwis ==> GetVoiceMessageCount() == Some(MwisCount(MwisUpdated(old(efMWIS[..]), countWaiting)))
      ensures written == WriteCphsMwi ==>
                GetVoiceMessageCount() == Some(CphsCount(CphsUpdated(old(efCPHS_MWI[..]), countWaiting)))
    {
      if line != 1 {
        return NoUpdate;
      }
      if efMWIS != null {
        if efMWIS.Length == 0 {
          return MalformedRecord;
        }
        efMWIS[0] := WithBit0(efMWIS[0], countWaiting != 0);
        if efMWIS.Length == 1 {
          return MalformedRecord;
        }
        efMWIS[1] := if countWaiting < 0 then 0 else (countWaiting % 0x100) as byte;
        assert efMWIS[..] == MwisUpdated(old(efMWIS[..]), countWaiting);
        return WriteMwis;
      } else if efCPHS_MWI != null {
        if efCPHS_MWI.Length == 0 {
          return MalformedRecord;
        }
        efCPHS_MWI[0] := WithLowNibble(efCPHS_MWI[0], if countWaiting == 0 then 0x5 else 0xA);
        assert efCPHS_MWI[..] == CphsUpdated(old(efCPHS_MWI[..]), countWaiting);
        return WriteCphsMwi;
      }
      return NotSupported;
    }

    /** The EF_MWIS load response (EVENT_GET_MWIS_DONE): a failed read, an
        uninitialised record (first byte 0xFF) and an empty one (whose first
        byte cannot be read; the handler catches that) keep the file as it
        was; any other record becomes the file. */
    method OnMwisLoaded(result: LoadResult)
      requires Valid()
      modifies this
      ensures Valid()
      ensures result.Loaded? && |result.data| >= 1 && result.data[0] != 0xFF ==>
                efMWIS != null && fresh(efMWIS) && efMWIS[..] == result.data
      ensures !(result.Loaded? && |result.data| >= 1 && result.data[0] != 0xFF) ==> efMWIS == old(efMWIS)
      ensures efCPHS_MWI == old(efCPHS_MWI) && imsi == old(imsi) && mncLength == old(mncLength)
      ensures spdiNetworks == old(spdiNetworks) && spnMachine == old(spnMachine) && cspPlmnEnabled == old(cspPlmnEnabled)
      ensures recordsToLoad == old(recordsToLoad) && recordsRequested == old(recordsRequested)
    {
      if result.Loaded? && |result.data| >= 1 && result.data[0] != 0xFF {
        efMWIS := ArrayOf(result.data);
      }
    }

    /** The CPHS voice-mail indicator load response
        (EVENT_GET_VOICE_MAIL_INDICATOR_CPHS_DONE): any record read becomes
        the indicator; a failed read keeps it as it was. */
    method OnCphsMwiLoaded(result: LoadResult)
      requires Valid()
      modifies this
      ensures Valid()
      ensures result.Loaded? ==> efCPHS_MWI != null && fresh(efCPHS_MWI) && efCPHS_MWI[..] == result.data
      ensures !result.Loaded? ==> efCPHS_MWI == old(efCPHS_MWI)
      ensures efMWIS == old(efMWIS) && imsi == old(imsi) && mncLength == old(mncLength)
      ensures spdiNetworks == old(spdiNetworks) && spnMachine == old(spnMachine) && cspPlmnEnabled == old(cspPlmnEnabled)
      ensures recordsToLoad == old(recordsToLoad) && recordsRequested == old(recordsRequested)
    {
      if result.Loaded? {
        efCPHS_MWI := ArrayOf(result.data);
      }
    }

    /** handleEfCspData: scans the service groups for the Value Added
        Services group. */
    method HandleEfCspData(data: seq<byte>)
      modifies this
      ensures cspPlmnEnabled == CspPlmnEnabled(data)
      ensures imsi == old(imsi) && mncLength == old(mncLength) && spdiNetworks == old(spdiNetworks)
      ensures spnMachine == old(spnMachine) && efMWIS == old(efMWIS) && efCPHS_MWI == old(efCPHS_MWI)
      ensures recordsToLoad == old(recordsToLoad) && recordsRequested == old(recordsRequested)
    {
      var usedCspGroups := |data| / 2;
      cspPlmnEnabled := true;
      var i := 0;
      while i < usedCspGroups
        invariant 0 <= i <= usedCspGroups
        invariant CspPlmnEnabledFrom(data, i) == CspPlmnEnabled(data)
        invariant cspPlmnEnabled
      {
        if data[2 * i] == VALUE_ADDED_SERVICES_GROUP {
          cspPlmnEnabled := data[2 * i + 1] >= 0x80;
          return;
        }
        i := i + 1;
      }
    }

    /** onRecordLoaded: returns whether onAllRecordsLoaded runs. */
    method OnRecordLoaded() returns (allLoaded: bool)
      requires Valid()
      modifies this
      ensures Valid()
      ensures (recordsToLoad, allLoaded) == RecordLoaded(old(recordsToLoad), recordsRequested)
      ensures recordsRequested == old(recordsRequested) && imsi == old(imsi) && mncLength == old(mncLength)
      ensures spnMachine == old(spnMachine) && efMWIS == old(efMWIS) && efCPHS_MWI == old(efCPHS_MWI)
      ensures spdiNetworks == old(spdiNetworks) && cspPlmnEnabled == old(cspPlmnEnabled)
    {
      recordsToLoad := recordsToLoad - 1;
      allLoaded := false;
      if recordsToLoad == 0 && recordsRequested {
        allLoaded := true;
      } else if recordsToLoad < 0 {
        recordsToLoad := 0;
      }
    }

    /** getSpnFsm: one step of the machine; each file it asks for is one
        more record to load. Issuing the read itself is not modelled;
        `request` names the file. */
    method GetSpnFsm(start: bool, result: LoadResult) returns (request: Option<SpnFile>)
      requires Valid()
      modifies this
      ensures Valid()
      ensures (spnMachine, request) == SpnStep(old(spnMachine), start, result)
      ensures recordsToLoad == old(recordsToLoad) + (if request.Some? then 1 else 0)
      ensures recordsRequested == old(recordsRequested) && imsi == old(imsi) && mncLength == old(mncLength)
      ensures efMWIS == old(efMWIS) && efCPHS_MWI == old(efCPHS_MWI)
      ensures spdiNetworks == old(spdiNetworks) && cspPlmnEnabled == old(cspPlmnEnabled)
    {
      var step := SpnStep(spnMachine, start, result);
      spnMachine, request := step.0, step.1;
      if request.Some? {
        recordsToLoad := recordsToLoad + 1;
      }
    }
  }
}
