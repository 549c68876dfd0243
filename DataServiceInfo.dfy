/**
 * DataServiceInfo: the per-service-type bookkeeping of the data profile
 * tracker. For each IP version it keeps a connection state and the data
 * connection the service is active on, and it holds the list of data
 * profiles that can carry the service.
 */
module ServiceInfo {
  import opened Nullable
  import opened ServiceTypes
  import opened DataProfiles

  /** DataConnectionTracker.State. */
  datatype State = IDLE | INITING | CONNECTING | SCANNING | CONNECTED | DISCONNECTING | FAILED

  /** A profile the service can be tried on: of the requested kind, not
      known to fail on the IP version, and able to carry it. */
  predicate Usable(dp: DataProfile, profileType: DataProfileType, ipv: IPVersion)
    reads dp
  {
    dp.GetDataProfileType() == profileType && dp.IsWorking(ipv) && dp.CanSupportIpVersion(ipv)
  }

  class DataServiceInfo {
    var serviceType: DataServiceType
    var isEnabled: bool
    var activeIpv4Dc: Option<DataConnection>
    var activeIpv6Dc: Option<DataConnection>
    var ipv4State: State
    var ipv6State: State
    /** The profiles that support this service type, in the order the
        profile tracker listed them. */
    var dataProfileList: seq<DataProfile>

    /** A fresh entry: not requested, inactive and IDLE on both versions,
        no profiles yet. */
    constructor (serviceType: DataServiceType)
      ensures this.serviceType == serviceType
      ensures !isEnabled && activeIpv4Dc.None? && activeIpv6Dc.None?
      ensures ipv4State == IDLE && ipv6State == IDLE
      ensures dataProfileList == []
      ensures !IsServiceTypeActiveOnAny()
    {
      this.serviceType := serviceType;
      dataProfileList := [];
      ipv4State, ipv6State := IDLE, IDLE;
      isEnabled := false;
      activeIpv4Dc, activeIpv6Dc := None, None;
    }

    /** getState(ipv): the state of that version. */
    function GetState(ipv: IPVersion): (r: State)
      reads this
      ensures ipv == IPV4 ==> r == ipv4State
      ensures ipv == IPV6 ==> r == ipv6State
    {
      if ipv == IPV4 then ipv4State else ipv6State
    }

    /** getActiveDataConnection(ipv): the connection of that version. */
    function GetActiveDataConnection(ipv: IPVersion): (r: Option<DataConnection>)
      reads this
      ensures ipv == IPV4 ==> r == activeIpv4Dc
      ensures ipv == IPV6 ==> r == activeIpv6Dc
    {
      if ipv == IPV4 then activeIpv4Dc else activeIpv6Dc
    }

    /** isServiceTypeActive(ipv): the version is CONNECTED. */
    function IsServiceTypeActive(ipv: IPVersion): (r: bool)
      reads this
      ensures ipv == IPV4 ==> (r <==> ipv4State == CONNECTED)
      ensures ipv == IPV6 ==> (r <==> ipv6State == CONNECTED)
    {
      GetState(ipv) == CONNECTED
    }

    /** isServiceTypeActive(): active on either version. */
    function IsServiceTypeActiveOnAny(): (r: bool)
      reads this
      ensures r <==> ipv4State == CONNECTED || ipv6State == CONNECTED
    {
      IsServiceTypeActive(IPV4) || IsServiceTypeActive(IPV6)
    }

    /** setState: the given version takes the new state; nothing else
        changes. */
    method SetState(newState: State, ipv: IPVersion)
      modifies this
      ensures GetState(ipv) == newState
      ensures ipv == IPV4 ==> ipv6State == old(ipv6State)
      ensures ipv == IPV6 ==> ipv4State == old(ipv4State)
      ensures activeIpv4Dc == old(activeIpv4Dc) && activeIpv6Dc == old(activeIpv6Dc)
      ensures isEnabled == old(isEnabled) && dataProfileList == old(dataProfileList) && serviceType == old(serviceType)
    {
      var oldState := if ipv == IPV4 then ipv4State else ipv6State;
      if newState != oldState {
        if ipv == IPV6 {
          ipv6State := newState;
        } else {
          ipv4State := newState;
        }
      }
    }

    /** setServiceTypeEnabled: marks the service as requested or not. */
    method SetServiceTypeEnabled(enable: bool)
      modifies this
      ensures isEnabled == enable
      ensures ipv4State == old(ipv4State) && ipv6State == old(ipv6State)
      ensures activeIpv4Dc == old(activeIpv4Dc) && activeIpv6Dc == old(activeIpv6Dc)
      ensures dataProfileList == old(dataProfileList) && serviceType == old(serviceType)
    {
      isEnabled := enable;
    }

    /** setDataServiceTypeAsActive: the service runs on `dc` for `ipv` and is
        CONNECTED there; a missing connection or version changes nothing. */
    method SetDataServiceTypeAsActive(dc: Option<DataConnection>, ipv: Option<IPVersion>)
      modifies this
      ensures dc.None? || ipv.None? ==>
                ipv4State == old(ipv4State) && ipv6State == old(ipv6State)
                && activeIpv4Dc == old(activeIpv4Dc) && activeIpv6Dc == old(activeIpv6Dc)
      ensures dc.Some? && ipv.Some? ==>
                GetActiveDataConnection(ipv.value) == dc && IsServiceTypeActive(ipv.value)
      ensures ipv == Some(IPV4) ==> ipv6State == old(ipv6State) && activeIpv6Dc == old(activeIpv6Dc)
      ensures ipv == Some(IPV6) ==> ipv4State == old(ipv4State) && activeIpv4Dc == old(activeIpv4Dc)
      ensures isEnabled == old(isEnabled) && dataProfileList == old(dataProfileList) && serviceType == old(serviceType)
    {
      if dc.None? || ipv.None? {
        return;
      }
      if ipv.value == IPV6 {
        activeIpv6Dc := dc;
      } else {
        activeIpv4Dc := dc;
      }
      SetState(CONNECTED, ipv.value);
    }

    /** setDataServiceTypeAsInactive: no connection and IDLE for `ipv`. */
    method SetDataServiceTypeAsInactive(ipv: IPVersion)
      modifies this
      ensures GetActiveDataConnection(ipv).None? && GetState(ipv) == IDLE && !IsServiceTypeActive(ipv)
      ensures ipv == IPV4 ==> ipv6State == old(ipv6State) && activeIpv6Dc == old(activeIpv6Dc)
      ensures ipv == IPV6 ==> ipv4State == old(ipv4State) && activeIpv4Dc == old(activeIpv4Dc)
      ensures isEnabled == old(isEnabled) && dataProfileList == old(dataProfileList) && serviceType == old(serviceType)
    {
      if ipv == IPV6 {
        activeIpv6Dc := None;
      } else {
        activeIpv4Dc := None;
      }
      SetState(IDLE, ipv);
    }

    /** resetServiceConnectionState: a FAILED version goes back to IDLE;
        every other state is kept. */
    method ResetServiceConnectionState()
      modifies this
      ensures ipv4State == if old(ipv4State) == FAILED then IDLE else old(ipv4State)
      ensures ipv6State == if old(ipv6State) == FAILED then IDLE else old(ipv6State)
      ensures ipv4State != FAILED && ipv6State != FAILED
      ensures activeIpv4Dc == old(activeIpv4Dc) && activeIpv6Dc == old(activeIpv6Dc)
      ensures isEnabled == old(isEnabled) && dataProfileList == old(dataProfileList) && serviceType == old(serviceType)
    {
      if ipv4State == FAILED {
        SetState(IDLE, IPV4);
      }
      if ipv6State == FAILED {
        SetState(IDLE, IPV6);
      }
    }

    /** clear: not requested, no connections, and no FAILED version. */
    method Clear()
      modifies this
      ensures !isEnabled && activeIpv4Dc.None? && activeIpv6Dc.None?
      ensures ipv4State == if old(ipv4State) == FAILED then IDLE else old(ipv4State)
      ensures ipv6State == if old(ipv6State) == FAILED then IDLE else old(ipv6State)
      ensures dataProfileList == old(dataProfileList) && serviceType == old(serviceType)
    {
      isEnabled := false;
      activeIpv4Dc, activeIpv6Dc := None, None;
      ResetServiceConnectionState();
    }

    /** getNextWorkingDataProfile: the first usable profile in list order,
        or none when no profile of the list is usable. */
    method GetNextWorkingDataProfile(profileType: DataProfileType, ipv: IPVersion) returns (r: Option<DataProfile>)
      ensures r.None? <==> forall i :: 0 <= i < |dataProfileList| ==> !Usable(dataProfileList[i], profileType, ipv)
      ensures r.Some? ==> exists i :: 0 <= i < |dataProfileList| && dataProfileList[i] == r.value
                                     && Usable(dataProfileList[i], profileType, ipv)
                                     && forall j :: 0 <= j < i ==> !Usable(dataProfileList[j], profileType, ipv)
    {
      var list := dataProfileList;
      var i := 0;
      while i < |list|
        invariant 0 <= i <= |list|
        invariant forall j :: 0 <= j < i ==> !Usable(list[j], profileType, ipv)
      {
        var dp := list[i];
        if dp.GetDataProfileType() == profileType && dp.IsWorking(ipv) && dp.CanSupportIpVersion(ipv) {
          return Some(dp);
        }
        i := i + 1;
      }
      return None;
    }
  }
}
