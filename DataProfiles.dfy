/**
 * Data profiles: the settings a data call is brought up with. The abstract
 * DataProfile keeps, per IP version, whether the profile is known to work and
 * which data connection currently uses it; its two kinds are an APN setting
 * (3GPP) and an OMH profile read from the modem (3GPP2 C.S0023-D).
 *
 * Java's subclassing becomes one class with a `kind` field: the common state
 * lives in the class, the kind-specific state in a datatype.
 */
module DataProfiles {
  import opened Nullable
  import opened JavaText
  import opened ServiceTypes

  datatype IPVersion = IPV4 | IPV6

  /** The identity of a data connection object (a non-null reference). */
  datatype DataConnection = DataConnection(cid: int)

  /** DataProfile.DataProfileType. The OMH kind reports PROFILE_TYPE_3GPP2_OMH,
      which the enum in DataProfile.java does not declare; it is added here. */
  datatype DataProfileType =
    | PROFILE_TYPE_3GPP_PID
    | PROFILE_TYPE_3GPP_APN
    | PROFILE_TYPE_3GPP2_PID
    | PROFILE_TYPE_3GPP2_NAI
    | PROFILE_TYPE_3GPP2_OMH

  // ---------------------------------------------------------------------------
  // OMH application types (3GPP2 C.S0023-D): one bit of a 32-bit mask each
  // ---------------------------------------------------------------------------

  datatype DataProfileTypeModem =
    | PROFILE_TYPE_UNSPECIFIED
    | PROFILE_TYPE_MMS
    | PROFILE_TYPE_LBS
    | PROFILE_TYPE_TETHERED
  {
    function Id(): bv32
    {
      match this
      case PROFILE_TYPE_UNSPECIFIED => 0x0000_0001
      case PROFILE_TYPE_MMS => 0x0000_0002
      case PROFILE_TYPE_LBS => 0x0000_0020
      case PROFILE_TYPE_TETHERED => 0x0000_0040
    }

    function ServiceType(): DataServiceType
    {
      match this
      case PROFILE_TYPE_UNSPECIFIED => SERVICE_TYPE_DEFAULT
      case PROFILE_TYPE_MMS => SERVICE_TYPE_MMS
      case PROFILE_TYPE_LBS => SERVICE_TYPE_SUPL
      case PROFILE_TYPE_TETHERED => SERVICE_TYPE_DUN
    }
  }

  /** getDataProfileTypeModem: the application type that serves a service
      type; the types without one of their own fall back to UNSPECIFIED. */
  function ModemTypeOf(t: DataServiceType): (r: DataProfileTypeModem)
    ensures r.ServiceType() == t <==> t in {SERVICE_TYPE_DEFAULT, SERVICE_TYPE_MMS, SERVICE_TYPE_SUPL, SERVICE_TYPE_DUN}
    ensures r.ServiceType() != t ==> r == PROFILE_TYPE_UNSPECIFIED
  {
    match t
    case SERVICE_TYPE_MMS => PROFILE_TYPE_MMS
    case SERVICE_TYPE_SUPL => PROFILE_TYPE_LBS
    case SERVICE_TYPE_DUN => PROFILE_TYPE_TETHERED
    case _ => PROFILE_TYPE_UNSPECIFIED
  }

  /** Each application type is the one chosen for its own service type. */
  lemma ModemTypeRoundTrip(m: DataProfileTypeModem)
    ensures ModemTypeOf(m.ServiceType()) == m
  {
  }

  /** The application-type bits are distinct single bits. */
  lemma ModemTypeIdsDistinct(m: DataProfileTypeModem, n: DataProfileTypeModem)
    ensures m != n ==> m.Id() & n.Id() == 0
    ensures m.Id() & m.Id() == m.Id() != 0
  {
  }

  /** canHandleServiceType of an OMH profile: the bit of the type's
      application type is set in the mask. */
  function MaskHandles(mask: bv32, t: DataServiceType): (r: bool)
    ensures r <==> mask & ModemTypeOf(t).Id() == ModemTypeOf(t).Id()
    ensures t !in {SERVICE_TYPE_DEFAULT, SERVICE_TYPE_MMS, SERVICE_TYPE_SUPL, SERVICE_TYPE_DUN} ==> (r <==> mask & 1 != 0)
  {
    mask & ModemTypeOf(t).Id() != 0
  }

  /** addServiceType: ORs the application type's bit into the mask. */
  function AddToMask(mask: bv32, m: DataProfileTypeModem): (r: bv32)
    ensures r & m.Id() == m.Id()
    ensures r & mask == mask
  {
    mask | m.Id()
  }

  /** After adding the application type of a service type, that service
      type is handled. */
  lemma AddedTypeIsHandled(mask: bv32, t: DataServiceType)
    ensures MaskHandles(AddToMask(mask, ModemTypeOf(t)), t)
  {
  }

  /** Adding a type never withdraws one already handled. */
  lemma AddToMaskMonotone(mask: bv32, m: DataProfileTypeModem, t: DataServiceType)
    requires MaskHandles(mask, t)
    ensures MaskHandles(AddToMask(mask, m), t)
  {
    assert AddToMask(mask, m) & mask == mask;
  }

  /** The empty mask of a new OMH profile handles nothing. */
  lemma EmptyMaskHandlesNothing(t: DataServiceType)
    ensures !MaskHandles(0, t)
  {
  }

  // ---------------------------------------------------------------------------
  // OMH priorities: 0 is the highest, 255 the lowest
  // ---------------------------------------------------------------------------

  const DATA_PROFILE_OMH_PRIORITY_LOWEST: int := 255
  const DATA_PROFILE_OMH_PRIORITY_HIGHEST: int := 0

  /** isValidPriority: within the range 0 (highest) to 255 (lowest). */
  function IsValidPriority(p: int): (r: bool)
    ensures r <==> 0 <= p <= 255
  {
    DATA_PROFILE_OMH_PRIORITY_HIGHEST <= p <= DATA_PROFILE_OMH_PRIORITY_LOWEST
  }

  /** isPriorityHigher(p): this profile (of priority `own`) ranks above a
      valid priority `p`. */
  function IsPriorityHigher(own: int, p: int): (r: bool)
    ensures r ==> own < p && IsValidPriority(p)
    ensures IsValidPriority(own) && IsValidPriority(p) ==> (r <==> own < p)
  {
    IsValidPriority(p) && own < p
  }

  /** isPriorityLower(p): this profile ranks below a valid priority `p`. */
  function IsPriorityLower(own: int, p: int): (r: bool)
    ensures r ==> p < own && IsValidPriority(p)
    ensures IsValidPriority(own) && IsValidPriority(p) ==> (r <==> own > p)
  {
    IsValidPriority(p) && own > p
  }

  /** Between two valid priorities, "higher" seen from one side is "lower"
      seen from the other, and of two different priorities exactly one
      comparison holds; an invalid priority compares neither way. */
  lemma PriorityComparisons(a: int, b: int)
    ensures IsValidPriority(a) && IsValidPriority(b) ==> (IsPriorityHigher(a, b) <==> IsPriorityLower(b, a))
    ensures !(IsPriorityHigher(a, b) && IsPriorityLower(a, b))
    ensures IsValidPriority(b) && a != b ==> IsPriorityHigher(a, b) != IsPriorityLower(a, b)
    ensures !IsValidPriority(b) ==> !IsPriorityHigher(a, b) && !IsPriorityLower(a, b)
  {
  }

  // ---------------------------------------------------------------------------
  // APN settings
  // ---------------------------------------------------------------------------

  /** The plain fields of an APN setting, stored as given. */
  datatype ApnAttributes = ApnAttributes(
    id: int, numeric: string, carrier: string, apn: string, proxy: string, port: string,
    mmsc: string, mmsProxy: string, mmsPort: string, user: string, password: string, authType: int)

  /** The trimmed pieces. */
  function TrimAll(parts: seq<string>): (r: seq<string>)
    ensures |r| == |parts|
  {
    if parts == [] then [] else TrimAll(parts[..|parts| - 1]) + [Trim(parts[|parts| - 1])]
  }

  /** The IP versions an APN's `ipVersion` attribute names: IPv4 alone when
      the attribute is absent; otherwise each version whose digit is one of
      the trimmed comma-separated pieces. Other pieces are ignored. */
  function IpVersionsOf(ipVersion: Option<string>): (r: (bool, bool))
  {
    if ipVersion.None? then (true, false)
    else
      var trimmed := TrimAll(JavaSplit(ipVersion.value, ','));
      ("4" in trimmed, "6" in trimmed)
  }

  /** The loop of the ApnSetting constructor over the pieces of the
      attribute. */
  method ParseIpVersion(ipVersion: Option<string>) returns (supportsIPv4: bool, supportsIPv6: bool)
    ensures (supportsIPv4, supportsIPv6) == IpVersionsOf(ipVersion)
  {
    if ipVersion.None? {
      return true, false;
    }
    var verList := JavaSplit(ipVersion.value, ',');
    supportsIPv4, supportsIPv6 := false, false;
    var i := 0;
    while i < |verList|
      invariant 0 <= i <= |verList|
      invariant supportsIPv4 == ("4" in TrimAll(verList[..i]))
      invariant supportsIPv6 == ("6" in TrimAll(verList[..i]))
    {
      var version := Trim(verList[i]);
      assert verList[..i + 1][..i] == verList[..i];
      assert TrimAll(verList[..i + 1]) == TrimAll(verList[..i]) + [version];
      if version == "6" {
        supportsIPv6 := true;
      }
      if version == "4" {
        supportsIPv4 := true;
      }
      i := i + 1;
    }
    assert verList[..i] == verList;
  }

  /** An attribute without a comma names exactly the version it spells,
      surrounding blanks allowed. */
  lemma {:induction false} SingleIpVersion(s: string)
    requires ',' !in s
    ensures IpVersionsOf(Some(s)) == (Trim(s) == "4", Trim(s) == "6")
  {
    assert JavaSplit(s, ',') == [s];
    assert [s][..0] == [];
    assert TrimAll([s]) == [Trim(s)];
  }

  /** An attribute naming neither digit leaves the profile with no IP
      version at all, unlike an absent attribute. */
  lemma NoVersionNamed(s: string)
    requires "4" !in TrimAll(JavaSplit(s, ',')) && "6" !in TrimAll(JavaSplit(s, ','))
    ensures IpVersionsOf(Some(s)) == (false, false)
    ensures IpVersionsOf(None) == (true, false)
  {
  }

  /** canHandleType (by type string): a listed type, the wildcard, or
      "default" when "hipri" is asked for. */
  function CanHandleType(types: seq<string>, t: string): (r: bool)
    ensures r <==> exists i :: 0 <= i < |types| && HandlesType(types[i], t)
    ensures APN_TYPE_ALL in types ==> r
    ensures t in types ==> r
  {
    if types == [] then false
    else HandlesType(types[0], t) || CanHandleType(types[1..], t)
  }

  predicate HandlesType(listed: string, t: string)
  {
    listed == t || listed == APN_TYPE_ALL || (listed == APN_TYPE_DEFAULT && t == APN_TYPE_HIPRI)
  }

  /** canHandleServiceType of an APN setting: the type is listed, or
      DEFAULT is listed and HIPRI is asked for. */
  function ApnCanHandleServiceType(serviceTypes: seq<DataServiceType>, t: DataServiceType): (r: bool)
    ensures r <==> t in serviceTypes || (SERVICE_TYPE_DEFAULT in serviceTypes && t == SERVICE_TYPE_HIPRI)
  {
    if serviceTypes == [] then false
    else
      var u := serviceTypes[0];
      assert serviceTypes == [u] + serviceTypes[1..];
      u == t || (u == SERVICE_TYPE_DEFAULT && t == SERVICE_TYPE_HIPRI)
      || ApnCanHandleServiceType(serviceTypes[1..], t)
  }

  /** The string and the enum forms of the check agree, for the types an
      APN lists by name. */
  lemma CanHandleTypeAgrees(serviceTypes: seq<DataServiceType>, t: DataServiceType)
    ensures CanHandleType(ApnTypeStrings(serviceTypes), ToApnTypeString(t)) <==> ApnCanHandleServiceType(serviceTypes, t)
  {
    if ApnCanHandleServiceType(serviceTypes, t) {
      ServiceTypeHandledByName(serviceTypes, t);
    }
    if CanHandleType(ApnTypeStrings(serviceTypes), ToApnTypeString(t)) {
      NameHandledByServiceType(serviceTypes, t);
    }
  }

  lemma ServiceTypeHandledByName(serviceTypes: seq<DataServiceType>, t: DataServiceType)
    requires ApnCanHandleServiceType(serviceTypes, t)
    ensures CanHandleType(ApnTypeStrings(serviceTypes), ToApnTypeString(t))
  {
    var names := ApnTypeStrings(serviceTypes);
    var i :| 0 <= i < |serviceTypes| && (serviceTypes[i] == t || (serviceTypes[i] == SERVICE_TYPE_DEFAULT && t == SERVICE_TYPE_HIPRI));
    assert HandlesType(names[i], ToApnTypeString(t));
  }

  lemma NameHandledByServiceType(serviceTypes: seq<DataServiceType>, t: DataServiceType)
    requires CanHandleType(ApnTypeStrings(serviceTypes), ToApnTypeString(t))
    ensures ApnCanHandleServiceType(serviceTypes, t)
  {
    var names := ApnTypeStrings(serviceTypes);
    var i :| 0 <= i < |names| && HandlesType(names[i], ToApnTypeString(t));
    ApnTypeStringRoundTrip(t);
    ApnTypeStringRoundTrip(serviceTypes[i]);
    assert serviceTypes[i] in serviceTypes;
  }

  function ApnTypeStrings(ts: seq<DataServiceType>): (r: seq<string>)
    ensures |r| == |ts|
    ensures forall i :: 0 <= i < |ts| ==> r[i] == ToApnTypeString(ts[i])
  {
    if ts == [] then [] else [ToApnTypeString(ts[0])] + ApnTypeStrings(ts[1..])
  }

  // ---------------------------------------------------------------------------
  // The profile object
  // ---------------------------------------------------------------------------

  datatype ProfileKind =
    | ApnKind(attributes: ApnAttributes, types: seq<string>, serviceTypes: seq<DataServiceType>,
              supportsIPv4: bool, supportsIPv6: bool)
    | OmhKind(profileId: int, priority: int, modemType: Option<DataProfileTypeModem>, serviceTypeMasks: bv32)

  class DataProfile {
    var worksWithIpv4: bool
    var worksWithIpv6: bool
    var ipv4Dc: Option<DataConnection>
    var ipv6Dc: Option<DataConnection>
    var kind: ProfileKind

    /** An APN setting: works on both versions until the network says
        otherwise, no connection yet, IP versions from the attribute.
        `serviceTypes` is the array the profile tracker assigns after
        construction. */
    constructor Apn(attributes: ApnAttributes, types: seq<string>, serviceTypes: seq<DataServiceType>,
                    ipVersion: Option<string>)
      ensures worksWithIpv4 && worksWithIpv6
      ensures ipv4Dc.None? && ipv6Dc.None?
      ensures kind.ApnKind? && kind.attributes == attributes && kind.types == types
      ensures kind.serviceTypes == serviceTypes
      ensures (kind.supportsIPv4, kind.supportsIPv6) == IpVersionsOf(ipVersion)
    {
      var v4, v6 := ParseIpVersion(ipVersion);
      worksWithIpv4, worksWithIpv6 := true, true;
      ipv4Dc, ipv6Dc := None, None;
      kind := ApnKind(attributes, types, serviceTypes, v4, v6);
    }

    /** An OMH profile with its modem id and priority and no application
        type yet (the no-argument constructor is `Omh(0, 0)`). */
    constructor Omh(profileId: int, priority: int)
      ensures worksWithIpv4 && worksWithIpv6
      ensures ipv4Dc.None? && ipv6Dc.None?
      ensures kind == OmhKind(profileId, priority, None, 0)
    {
      worksWithIpv4, worksWithIpv6 := true, true;
      ipv4Dc, ipv6Dc := None, None;
      kind := OmhKind(profileId, priority, None, 0);
    }

    /** isWorking(ipv): the flag of that version. */
    function IsWorking(ipv: IPVersion): (r: bool)
      reads this
      ensures ipv == IPV4 ==> r == worksWithIpv4
      ensures ipv == IPV6 ==> r == worksWithIpv6
    {
      if ipv == IPV6 then worksWithIpv6 else worksWithIpv4
    }

    /** setWorking: only the given version's flag changes. */
    method SetWorking(working: bool, ipv: IPVersion)
      modifies this
      ensures IsWorking(ipv) == working
      ensures ipv == IPV4 ==> worksWithIpv6 == old(worksWithIpv6)
      ensures ipv == IPV6 ==> worksWithIpv4 == old(worksWithIpv4)
      ensures ipv4Dc == old(ipv4Dc) && ipv6Dc == old(ipv6Dc) && kind == old(kind)
    {
      if ipv == IPV4 {
        worksWithIpv4 := working;
      } else {
        worksWithIpv6 := working;
      }
    }

    function ActiveDc(ipv: IPVersion): Option<DataConnection>
      reads this
    {
      if ipv == IPV4 then ipv4Dc else ipv6Dc
    }

    /** isActive(ipv): a connection uses this profile on that version. */
    function IsActive(ipv: IPVersion): (r: bool)
      reads this
      ensures ipv == IPV4 ==> (r <==> ipv4Dc.Some?)
      ensures ipv == IPV6 ==> (r <==> ipv6Dc.Some?)
    {
      ActiveDc(ipv).Some?
    }

    /** isActive(): active on either version. */
    function IsActiveOnAny(): (r: bool)
      reads this
      ensures r <==> ipv4Dc.Some? || ipv6Dc.Some?
    {
      IsActive(IPV4) || IsActive(IPV6)
    }

    /** setAsActive: records the connection for that version, replacing one
        already recorded (the source only logs that case). */
    method SetAsActive(ipv: IPVersion, dc: DataConnection)
      modifies this
      ensures ActiveDc(ipv) == Some(dc) && IsActive(ipv) && IsActiveOnAny()
      ensures ipv == IPV4 ==> ipv6Dc == old(ipv6Dc)
      ensures ipv == IPV6 ==> ipv4Dc == old(ipv4Dc)
      ensures worksWithIpv4 == old(worksWithIpv4) && worksWithIpv6 == old(worksWithIpv6) && kind == old(kind)
    {
      if ipv == IPV4 {
        ipv4Dc := Some(dc);
      } else {
        ipv6Dc := Some(dc);
      }
    }

    /** setAsInactive: forgets the connection of that version only. */
    method SetAsInactive(ipv: IPVersion)
      modifies this
      ensures !IsActive(ipv)
      ensures ipv == IPV4 ==> ipv6Dc == old(ipv6Dc)
      ensures ipv == IPV6 ==> ipv4Dc == old(ipv4Dc)
      ensures IsActiveOnAny() <==> old(ActiveDc(if ipv == IPV4 then IPV6 else IPV4)).Some?
      ensures worksWithIpv4 == old(worksWithIpv4) && worksWithIpv6 == old(worksWithIpv6) && kind == old(kind)
    {
      if ipv == IPV4 {
        ipv4Dc := None;
      } else {
        ipv6Dc := None;
      }
    }

    /** canSupportIpVersion: the APN's own flag; an OMH profile supports
        both versions. */
    function CanSupportIpVersion(ipv: IPVersion): (r: bool)
      reads this
      ensures kind.OmhKind? ==> r
      ensures kind.ApnKind? && ipv == IPV4 ==> r == kind.supportsIPv4
      ensures kind.ApnKind? && ipv == IPV6 ==> r == kind.supportsIPv6
    {
      if kind.OmhKind? then true
      else if ipv == IPV6 then kind.supportsIPv6
      else kind.supportsIPv4
    }

    /** canHandleServiceType: the APN's type list for an APN profile, the
        service-type mask for an OMH profile. */
    function CanHandleServiceType(t: DataServiceType): (r: bool)
      reads this
      ensures kind.ApnKind? ==> r == ApnCanHandleServiceType(kind.serviceTypes, t)
      ensures kind.OmhKind? ==> r == MaskHandles(kind.serviceTypeMasks, t)
    {
      match kind
      case ApnKind(_, _, serviceTypes, _, _) => ApnCanHandleServiceType(serviceTypes, t)
      case OmhKind(_, _, _, mask) => MaskHandles(mask, t)
    }

    function GetDataProfileType(): (r: DataProfileType)
      reads this
      ensures r == PROFILE_TYPE_3GPP_APN <==> kind.ApnKind?
      ensures r == PROFILE_TYPE_3GPP2_OMH <==> kind.OmhKind?
    {
      if kind.ApnKind? then PROFILE_TYPE_3GPP_APN else PROFILE_TYPE_3GPP2_OMH
    }

    /** addServiceType of an OMH profile: the type becomes handled and every
        type handled before stays handled. */
    method AddServiceType(m: DataProfileTypeModem)
      requires kind.OmhKind?
      modifies this
      ensures kind == old(kind).(serviceTypeMasks := AddToMask(old(kind.serviceTypeMasks), m))
      ensures CanHandleServiceType(m.ServiceType())
      ensures forall t :: old(CanHandleServiceType(t)) ==> CanHandleServiceType(t)
      ensures worksWithIpv4 == old(worksWithIpv4) && worksWithIpv6 == old(worksWithIpv6)
      ensures ipv4Dc == old(ipv4Dc) && ipv6Dc == old(ipv6Dc)
    {
      var before := kind.serviceTypeMasks;
      kind := kind.(serviceTypeMasks := AddToMask(kind.serviceTypeMasks, m));
      ModemTypeRoundTrip(m);
      forall t | MaskHandles(before, t)
        ensures MaskHandles(kind.serviceTypeMasks, t)
      {
        AddToMaskMonotone(before, m, t);
      }
    }

    /** setPriority / setProfileId / setDataProfileTypeModem of an OMH profile. */
    method SetOmhFields(profileId: int, priority: int, modemType: Option<DataProfileTypeModem>)
      requires kind.OmhKind?
      modifies this
      ensures kind == old(kind).(profileId := profileId, priority := priority, modemType := modemType)
      ensures worksWithIpv4 == old(worksWithIpv4) && worksWithIpv6 == old(worksWithIpv6)
      ensures ipv4Dc == old(ipv4Dc) && ipv6Dc == old(ipv6Dc)
    {
      kind := kind.(profileId := profileId, priority := priority, modemType := modemType);
    }
  }
}
