# Telephony data bookkeeping and traffic counters, modelled in Dafny

This project models the core of an Android framework tree (`frameworks_base`, OMFGB fork):

- **Traffic counters.** These come from the native half of `android.net.TrafficStats`. Each counter is read from a sysfs or procfs file as a C string and converted with `atoll`. Interface counters are summed over the `/sys/class/net` listing, and the mobile counters fall back to `ppp0`.
- **Telephony state.** This is the bookkeeping of the telephony data stack:
  - data connection failure causes and their radio codes;
  - data service types and their priorities;
  - the phone notifier's state codes;
  - APN and OMH data profiles;
  - the per-service-type connection state;
  - the data service state tracker's registration polling;
  - the CDMA subscription response;
  - the ICC card proxy's state;
  - SMS record handling and cell-broadcast subscriptions;
  - the SIM records object: voice-mail indicators, the SPN state machine, the CPHS customer service profile, the load counter and the display rule.
- **Connectivity engine.** From the CNE service: the request pool, serial formatting, the length-prefixed socket frames, bandwidth strings and the choice of the next RAT to try.

Entities the source updates in place are classes with `modifies` clauses:

- the request pool;
- the SIM records;
- the data profiles;
- the service info;
- the poll context;
- the subscription maps.

Their methods are proved against specification functions. Enumerations, code tables and parsing are datatypes and functions. Most loops in the source are `while` loops with invariants; the exceptions are listed under "## Left out".

The model follows the code where it and its comments disagree:

- readCneMessage's comment calls the length header little-endian, but the code assembles it most significant byte first. The model reads it big-endian.

Shared modules:

- `Nullable` holds the `Option` type.
- `JavaText` holds the Java and C library behaviour the core relies on:
  - 32- and 64-bit wrap-around;
  - `Integer.parseInt` and `Integer.toString`;
  - `String.trim`;
  - `String.split` on one character, including Java's removal of trailing empty strings.

## Model

| member | source | states |
|---|---|---|
| TrafficStats.Suffix | core/jni/android_net_TrafficStats.cpp:131-168 | each statistic's counter file is a path below an interface directory |
| TrafficStats.CStringStopsAtNul | core/jni/android_net_TrafficStats.cpp:43-52 | the C string read from a buffer ends at its first NUL and is unaffected by what follows |
| TrafficStats.CStringOfBuffer | core/jni/android_net_TrafficStats.cpp:43-52 | a buffer holding the bytes read followed by a NUL is read as those bytes up to their own first NUL |
| TrafficStats.AtollOfDecimal | core/jni/android_net_TrafficStats.cpp:52 | atoll of a counter's decimal text followed by a newline gives the counter back |
| TrafficStats.ReadNumber | core/jni/android_net_TrafficStats.cpp:34-56 | readNumber computes ReadNumberOf: -1 on a simulator build or when the file cannot be opened or read, otherwise atoll of its first 79 bytes up to a NUL |
| TrafficStats.ReadNumberOfDecimal | core/jni/android_net_TrafficStats.cpp:34-56 | a file holding a decimal counter followed by a newline reads back as that counter |
| TrafficStats.Keep | core/jni/android_net_TrafficStats.cpp:73-110 | the interfaces a scan adds up: the statistic directory entries not starting with "." or "lo", optionally only "rmnet*" |
| TrafficStats.ReadingsAt | core/jni/android_net_TrafficStats.cpp:76-114 | the readings of a scan are the counters of the kept entries, in directory order |
| TrafficStats.AddReading | core/jni/android_net_TrafficStats.cpp:77-116 | a non-negative reading starts or extends the total (64-bit wrap), a negative one is skipped |
| TrafficStats.ScanInterfaces | core/jni/android_net_TrafficStats.cpp:60-125 | the directory loop computes exactly the fold of the kept entries' readings, -1 when none is non-negative |
| TrafficStats.ReadTotal | core/jni/android_net_TrafficStats.cpp:60-86 | readTotal over every non-loopback interface |
| TrafficStats.ReadRmNetStats | core/jni/android_net_TrafficStats.cpp:92-125 | readRmNetStats over the rmnet interfaces only |
| TrafficStats.FoldEmptyIff | core/jni/android_net_TrafficStats.cpp:70-82 | the total is -1 exactly when no interface gave a non-negative reading |
| TrafficStats.FoldIsSum | core/jni/android_net_TrafficStats.cpp:70-82 | without wrap-around the total is the sum of the non-negative readings |
| TrafficStats.RmNetIsFilterOfAll | core/jni/android_net_TrafficStats.cpp:73-110 | the entries readRmNetStats opens are exactly the entries readTotal opens that start with "rmnet", in listing order |
| TrafficStats.RmNetAggregateOfTotalEntries | core/jni/android_net_TrafficStats.cpp:60-125 | readRmNetStats answers the accumulator over the readings of readTotal's entries restricted to "rmnet*" |
| TrafficStats.SkippedEntryIsIgnored | core/jni/android_net_TrafficStats.cpp:73-110 | an entry named ".x" or "lo*" never changes the result of a scan |
| TrafficStats.ReadAggregateEmptyIff | core/jni/android_net_TrafficStats.cpp:63-82 | a scan gives -1 exactly when the directory is missing or no kept interface has a readable counter |
| TrafficStats.MobileOfAsWritten | core/jni/android_net_TrafficStats.cpp:131-149 | getMobile* as written: the rmnet aggregate, falling back to ppp0's tx_packets file for every metric |
| TrafficStats.MobileOf | core/jni/android_net_TrafficStats.cpp:131-149 | the corrected getMobile*: the fallback reads ppp0's file for the metric asked |
| TrafficStats.MobileRxBytesReadsTxPackets | core/jni/android_net_TrafficStats.cpp:146-149 | a concrete device where the as-written received-bytes query answers the transmitted-packet count; for tx_packets the two definitions agree |
| TrafficStats.GetMobile | core/jni/android_net_TrafficStats.cpp:131-149 | getMobile* computes the corrected MobileOf |
| TrafficStats.MobileFallback | core/jni/android_net_TrafficStats.cpp:131-149 | without overflow the answer is the sum of the readable rmnet counters, and with none readable the ppp0 counter of the same metric |
| TrafficStats.GetTotal | core/jni/android_net_TrafficStats.cpp:154-168 | getTotal*: readTotal of the statistic's file name |
| TrafficStats.UidPathFits | core/jni/android_net_TrafficStats.cpp:173-174 | the per-uid path always fits the 80-byte buffer for a 32-bit uid |
| TrafficStats.GetUidBytes | core/jni/android_net_TrafficStats.cpp:172-182 | getUid*Bytes: the per-uid counter file's number |
| FailCause.ReportedCode | telephony/java/com/android/internal/telephony/DataConnectionFailCause.java:94-152 | the causes with no radio code are exactly the six the framework raises itself (NONE, RADIO_NOT_AVAILABLE, RADIO_ERROR_RETRY, PREF_RADIO_TECHNOLOGY_CHANGED, TETHERED_MODE_CALL_ON, PDP_NOT_AVAILABLE) |
| FailCause.IsDataProfileFailure | telephony/java/com/android/internal/telephony/DataConnectionFailCause.java:52-54 | true exactly for MISSING_UNKOWN_APN and USER_AUTHENTICATION; each is permanent and not retried after a disconnect |
| FailCause.IsPdpAvailabilityFailure | telephony/java/com/android/internal/telephony/DataConnectionFailCause.java:60-62 | a PDP-availability cause is not permanent, may be retried, and is never reported by a radio code |
| FailCause.IsPermanentFail | telephony/java/com/android/internal/telephony/DataConnectionFailCause.java:64-71 | a permanent cause is never NONE or UNKNOWN, and apart from RADIO_NOT_AVAILABLE it has a radio code |
| FailCause.IsEventLoggable | telephony/java/com/android/internal/telephony/DataConnectionFailCause.java:73-81 | a loggable cause has a radio code between 0 and PDP_FAIL_ERROR_UNSPECIFIED |
| FailCause.CanRetryAfterDcDisconnect | telephony/java/com/android/internal/telephony/DataConnectionFailCause.java:83-92 | no retry exactly for the permanent causes and TETHERED_MODE_CALL_ON |
| FailCause.SetupFailCause | telephony/java/com/android/internal/telephony/DataConnectionFailCause.java:94-152 | always a cause the radio can report and never NONE; an unlisted code gives UNKNOWN; the IPv4-only and IPv6-only codes both give IP_VERSION_NOT_SUPPORTED |
| FailCause.DisconnectCause | telephony/java/com/android/internal/telephony/DataConnectionFailCause.java:154-156 | getDataConnectionDisconnectCause decodes as the setup mapping does |
| FailCause.ReportedCodeRoundTrip | telephony/java/com/android/internal/telephony/DataConnectionFailCause.java:94-152 | decoding the radio code of a cause gives the cause back |
| FailCause.SetupFailCauseInjective | telephony/java/com/android/internal/telephony/DataConnectionFailCause.java:94-152 | a code decoding to anything but UNKNOWN or IP_VERSION_NOT_SUPPORTED is the code of its cause, so no two such codes share a cause |
| ServiceTypes.Values | telephony/java/com/android/internal/telephony/DataServiceType.java:35-40 | values(): the six service types in declaration order |
| ServiceTypes.PriorityInjective | telephony/java/com/android/internal/telephony/DataServiceType.java:35-40 | no two service types share a priority |
| ServiceTypes.IsHigherPriorityThan | telephony/java/com/android/internal/telephony/DataServiceType.java:58-60 | higher is the converse of lower, and no type is higher than itself |
| ServiceTypes.IsLowerPriorityThan | telephony/java/com/android/internal/telephony/DataServiceType.java:65-67 | no type is of lower priority than itself |
| ServiceTypes.PriorityTrichotomy | telephony/java/com/android/internal/telephony/DataServiceType.java:58-67 | of two distinct types exactly one is the higher and exactly one the lower |
| ServiceTypes.InsertByPriority | telephony/java/com/android/internal/telephony/DataServiceType.java:69-82 | one insertion step keeps the list in descending priority and adds exactly the new type |
| ServiceTypes.SortByPriority | telephony/java/com/android/internal/telephony/DataServiceType.java:69-82 | a permutation of its input, in descending priority |
| ServiceTypes.PrioritySortedValues | telephony/java/com/android/internal/telephony/DataServiceType.java:69-82 | getPrioritySortedValues: the six service types, each once, in descending priority |
| ServiceTypes.ToApnTypeString | telephony/java/com/android/internal/telephony/DataServiceType.java:102-119 | no service type is named by the wildcard "*" |
| ServiceTypes.ApnTypeStringToServiceType | telephony/java/com/android/internal/telephony/DataServiceType.java:84-100 | a type is returned exactly when the string is that type's APN name; null, or a name no type has, gives null |
| ServiceTypes.ApnTypeStringRoundTrip | telephony/java/com/android/internal/telephony/DataServiceType.java:84-119 | the name of every type converts back to that type |
| PhoneNotifier.CallStateToInt | telephony/java/com/android/internal/telephony/DefaultPhoneNotifier.java:164-173 | a code from 0 to 2 that converts back to the same state |
| PhoneNotifier.IntToCallState | telephony/java/com/android/internal/telephony/DefaultPhoneNotifier.java:179-188 | IDLE exactly for the codes other than RINGING and OFFHOOK |
| PhoneNotifier.CallStateCodeNormalises | telephony/java/com/android/internal/telephony/DefaultPhoneNotifier.java:164-188 | a code survives conversion to a state and back exactly when it is a call-state code; any other comes back IDLE |
| PhoneNotifier.DataStateToInt | telephony/java/com/android/internal/telephony/DefaultPhoneNotifier.java:194-205 | a code from DISCONNECTED to SUSPENDED that converts back to the same state |
| PhoneNotifier.IntToDataState | telephony/java/com/android/internal/telephony/DefaultPhoneNotifier.java:211-222 | DISCONNECTED exactly for the codes other than CONNECTING, CONNECTED and SUSPENDED |
| PhoneNotifier.DataStateCodeNormalises | telephony/java/com/android/internal/telephony/DefaultPhoneNotifier.java:194-222 | a code survives conversion to a state and back exactly when it is a data-state code; any other comes back DISCONNECTED |
| PhoneNotifier.DataActivityToInt | telephony/java/com/android/internal/telephony/DefaultPhoneNotifier.java:228-241 | a code from NONE to DORMANT that converts back to the same activity |
| PhoneNotifier.IntToDataActivity | telephony/java/com/android/internal/telephony/DefaultPhoneNotifier.java:247-260 | NONE exactly for the codes other than IN, OUT, INOUT and DORMANT |
| PhoneNotifier.DataActivityCodeNormalises | telephony/java/com/android/internal/telephony/DefaultPhoneNotifier.java:228-260 | a code survives conversion to an activity and back exactly when it is an activity code; any other comes back NONE |
| DataProfiles.ModemTypeOf | telephony/java/com/android/internal/telephony/DataProfileOmh.java:76-99 | the modem type whose service type is the one given, for DEFAULT, MMS, SUPL and DUN; UNSPECIFIED for every other service type |
| DataProfiles.ModemTypeRoundTrip | telephony/java/com/android/internal/telephony/DataProfileOmh.java:55-99 | the modem type of a modem type's service type is that modem type |
| DataProfiles.ModemTypeIdsDistinct | telephony/java/com/android/internal/telephony/DataProfileOmh.java:55-99 | every modem type id is a single non-zero bit, distinct from every other type's |
| DataProfiles.AddToMask | telephony/java/com/android/internal/telephony/DataProfileOmh.java:209-211 | the new mask has the type's bit and keeps every bit it had |
| DataProfiles.AddedTypeIsHandled | telephony/java/com/android/internal/telephony/DataProfileOmh.java:209-211 | a profile handles every service type added to it |
| DataProfiles.AddToMaskMonotone | telephony/java/com/android/internal/telephony/DataProfileOmh.java:209-211 | adding a modem type keeps every service type already handled |
| DataProfiles.EmptyMaskHandlesNothing | telephony/java/com/android/internal/telephony/DataProfileOmh.java:108-130 | an empty mask handles no service type |
| DataProfiles.MaskHandles | telephony/java/com/android/internal/telephony/DataProfileOmh.java:127-130 | an OMH profile handles a service type exactly when the bit of its modem type is set; a type outside DEFAULT/MMS/SUPL/DUN is handled exactly when the UNSPECIFIED bit is |
| DataProfiles.IsPriorityHigher | telephony/java/com/android/internal/telephony/DataProfileOmh.java:183-185 | true only for a valid priority larger than the profile's own; between valid priorities, exactly when own < p |
| DataProfiles.IsPriorityLower | telephony/java/com/android/internal/telephony/DataProfileOmh.java:188-190 | true only for a valid priority smaller than the profile's own; between valid priorities, exactly when own > p |
| DataProfiles.IsValidPriority | telephony/java/com/android/internal/telephony/DataProfileOmh.java:196-199 | a priority is valid exactly when it lies in 0..255 |
| DataProfiles.PriorityComparisons | telephony/java/com/android/internal/telephony/DataProfileOmh.java:183-199 | between valid priorities higher is the converse of lower; the two never both hold; against an invalid priority neither holds |
| DataProfiles.TrimAll | telephony/java/com/android/internal/telephony/ApnSetting.java:66-68 | one trimmed string per list item |
| DataProfiles.ParseIpVersion | telephony/java/com/android/internal/telephony/ApnSetting.java:63-76 | the constructor's loop computes IpVersionsOf: IPv6 when some trimmed item is "6", IPv4 when some is "4", IPv4 only for a null list |
| DataProfiles.SingleIpVersion | telephony/java/com/android/internal/telephony/ApnSetting.java:63-76 | a list with one item supports IPv4 exactly when the trimmed item is "4" and IPv6 exactly when it is "6" |
| DataProfiles.NoVersionNamed | telephony/java/com/android/internal/telephony/ApnSetting.java:63-76 | a list naming neither version supports neither; a null list supports IPv4 only |
| DataProfiles.CanHandleType | telephony/java/com/android/internal/telephony/ApnSetting.java:121-131 | true exactly when some listed type equals the type, is "*", or is "default" while the type is "hipri" |
| DataProfiles.ApnCanHandleServiceType | telephony/java/com/android/internal/telephony/ApnSetting.java:133-140 | true exactly when the type is listed, or DEFAULT is listed and the type is HIPRI |
| DataProfiles.CanHandleTypeAgrees | telephony/java/com/android/internal/telephony/ApnSetting.java:121-140 | for a profile whose type strings are its service types' APN names, the string test and the service-type test agree |
| DataProfiles.DataProfile.Apn | telephony/java/com/android/internal/telephony/ApnSetting.java:45-77 | the ApnSetting constructor stores its fields and the parsed IP versions, together with the service types its owner assigns afterwards; the profile starts working on both versions with no active connection (DataProfile.java 48-53) |
| DataProfiles.DataProfile.Omh | telephony/java/com/android/internal/telephony/DataProfileOmh.java:116-124 | the DataProfileOmh constructor: an empty service-type mask, no modem type, working on both versions, no active connection |
| DataProfiles.DataProfile.SetWorking | telephony/java/com/android/internal/telephony/DataProfile.java:59-64 | setWorking changes the flag of the given IP version only |
| DataProfiles.DataProfile.IsWorking | telephony/java/com/android/internal/telephony/DataProfile.java:55-57 | isWorking(ipv) is the working flag of that IP version |
| DataProfiles.DataProfile.IsActive | telephony/java/com/android/internal/telephony/DataProfile.java:66-73 | isActive(ipv) holds exactly when that IP version has a connection |
| DataProfiles.DataProfile.IsActiveOnAny | telephony/java/com/android/internal/telephony/DataProfile.java:75-77 | true exactly when a connection is active on IPv4 or IPv6 |
| DataProfiles.DataProfile.SetAsActive | telephony/java/com/android/internal/telephony/DataProfile.java:79-95 | the connection becomes active on that IP version; the other is untouched |
| DataProfiles.DataProfile.SetAsInactive | telephony/java/com/android/internal/telephony/DataProfile.java:97-102 | that IP version loses its connection; the profile stays active exactly when the other version had one |
| DataProfiles.DataProfile.CanSupportIpVersion | telephony/java/com/android/internal/telephony/ApnSetting.java:147-154 | an APN supports the versions its ipVersion list named; an OMH profile supports both (DataProfileOmh.java 133-138) |
| DataProfiles.DataProfile.CanHandleServiceType | telephony/java/com/android/internal/telephony/DataProfile.java:115 | canHandleServiceType dispatches on the profile kind: the type list test of ApnSetting for an APN profile, the service-type mask of DataProfileOmh for an OMH profile |
| DataProfiles.DataProfile.GetDataProfileType | telephony/java/com/android/internal/telephony/ApnSetting.java:142-144 | 3GPP_APN exactly for an APN and 3GPP2_OMH exactly for an OMH profile (DataProfileOmh.java 141-143) |
| DataProfiles.DataProfile.AddServiceType | telephony/java/com/android/internal/telephony/DataProfileOmh.java:209-211 | the mask gains the type's bit, the profile then handles that service type, and every type it handled it still handles |
| DataProfiles.DataProfile.SetOmhFields | telephony/java/com/android/internal/telephony/DataProfileOmh.java:166-180 | setDataProfileTypeModem, setProfileId and setPriority store their arguments and change nothing else |
| ServiceInfo.DataServiceInfo.constructor | telephony/java/com/android/internal/telephony/DataServiceInfo.java:71-103 | a new service type is disabled and idle on both IP versions, with no connection |
| ServiceInfo.DataServiceInfo.GetState | telephony/java/com/android/internal/telephony/DataServiceInfo.java:214-219 | getState(ipv) is the state of that IP version |
| ServiceInfo.DataServiceInfo.GetActiveDataConnection | telephony/java/com/android/internal/telephony/DataServiceInfo.java:181-187 | getActiveDataConnection(ipv) is the connection of that IP version |
| ServiceInfo.DataServiceInfo.IsServiceTypeActive | telephony/java/com/android/internal/telephony/DataServiceInfo.java:189-196 | isServiceTypeActive(ipv) holds exactly when that IP version is CONNECTED |
| ServiceInfo.DataServiceInfo.IsServiceTypeActiveOnAny | telephony/java/com/android/internal/telephony/DataServiceInfo.java:198-200 | active exactly when one IP version is CONNECTED |
| ServiceInfo.DataServiceInfo.SetState | telephony/java/com/android/internal/telephony/DataServiceInfo.java:202-212 | setState changes that IP version's state only |
| ServiceInfo.DataServiceInfo.SetServiceTypeEnabled | telephony/java/com/android/internal/telephony/DataServiceInfo.java:139-142 | setServiceTypeEnabled changes the flag only |
| ServiceInfo.DataServiceInfo.SetDataServiceTypeAsActive | telephony/java/com/android/internal/telephony/DataServiceInfo.java:152-167 | a null connection or version changes nothing; otherwise that version is CONNECTED on that connection |
| ServiceInfo.DataServiceInfo.SetDataServiceTypeAsInactive | telephony/java/com/android/internal/telephony/DataServiceInfo.java:169-179 | that version loses its connection and is IDLE; the other is untouched |
| ServiceInfo.DataServiceInfo.ResetServiceConnectionState | telephony/java/com/android/internal/telephony/DataServiceInfo.java:112-118 | every FAILED state becomes IDLE, the others stay |
| ServiceInfo.DataServiceInfo.Clear | telephony/java/com/android/internal/telephony/DataServiceInfo.java:105-110 | clear disables the type, drops both connections and resets failed states |
| ServiceInfo.DataServiceInfo.GetNextWorkingDataProfile | telephony/java/com/android/internal/telephony/DataServiceInfo.java:126-134 | the first profile in list order that is of the wanted type, working on the IP version and able to carry it; none exactly when no listed profile is |
| CdmaSubscription.Field | telephony/java/com/android/internal/telephony/cdma/CdmaSubscriptionInfo.java:42-93 | a field of the response, null when the response is too short |
| CdmaSubscription.IdOf | telephony/java/com/android/internal/telephony/cdma/CdmaSubscriptionInfo.java:53-58 | an id that is not a number stays 0 |
| CdmaSubscription.ParseIds | telephony/java/com/android/internal/telephony/cdma/CdmaSubscriptionInfo.java:49-62 | one id per comma-separated piece |
| CdmaSubscription.IdListRoundTrip | telephony/java/com/android/internal/telephony/cdma/CdmaSubscriptionInfo.java:49-62 | a list of ids written with commas parses back to the same ids |
| CdmaSubscription.ParseIdArray | telephony/java/com/android/internal/telephony/cdma/CdmaSubscriptionInfo.java:50-59 | the parsing loop fills a fresh array with ParseIds of the list |
| CdmaSubscription.CdmaSubscriptionInfo.constructor | telephony/java/com/android/internal/telephony/cdma/CdmaSubscriptionInfo.java:25-32 | every field starts null |
| CdmaSubscription.CdmaSubscriptionInfo.PopulateSubscriptionInfoFromRegistrationState | telephony/java/com/android/internal/telephony/cdma/CdmaSubscriptionInfo.java:34-94 | each field from its response position; the id arrays null when their field is missing |
| CdmaSubscription.CdmaSubscriptionInfo.IsSidsAllZeros | telephony/java/com/android/internal/telephony/cdma/CdmaSubscriptionInfo.java:96-105 | true exactly when there are no home system ids or all are 0 |
| CdmaSubscription.CdmaSubscriptionInfo.IsHomeSid | telephony/java/com/android/internal/telephony/cdma/CdmaSubscriptionInfo.java:111-120 | true exactly when the id is one of the home system ids |
| JavaText.ParseIntToString | telephony/java/com/android/internal/telephony/cdma/CdmaSubscriptionInfo.java:54 | Integer.parseInt reads back what Integer.toString writes, for every 32-bit int |
| JavaText.TrimIdempotent | telephony/java/com/android/internal/telephony/ApnSetting.java:68 | String.trim leaves a trimmed string as it is |
| JavaText.JavaSplitJoin | telephony/java/com/android/internal/telephony/cdma/CdmaSubscriptionInfo.java:50 | String.split on a separator undoes joining pieces that do not contain it, provided the last piece is non-empty; empty pieces before it are kept |
| JavaText.ParseIntRejectsPlus | telephony/java/com/android/internal/telephony/cdma/CdmaSubscriptionInfo.java:54 | Integer.parseInt rejects a leading '+', so such an id keeps its initial 0 |
| IccSms.SmsRecord | telephony/java/com/android/internal/telephony/IccSmsInterfaceManager.java:450-464 | the record is 176 bytes: status bits, the PDU, then 0xFF padding |
| IccSms.MakeSmsRecordData | telephony/java/com/android/internal/telephony/IccSmsInterfaceManager.java:450-464 | makeSmsRecordData fills a fresh array with SmsRecord; a PDU too long for the record fails |
| IccSms.SmsRecordDecodes | telephony/java/com/android/internal/telephony/IccSmsInterfaceManager.java:450-464 | a built record gives back its status bits and its PDU followed by padding |
| IccSms.RawData | telephony/java/com/android/internal/telephony/IccSmsInterfaceManager.java:432-437 | a record is listed, unchanged, exactly when its status byte is not FREE |
| IccSms.BuildValidRawData | telephony/java/com/android/internal/telephony/IccSmsInterfaceManager.java:425-441 | one entry per record, null exactly for the free ones, the record itself otherwise; an empty record fails |
| IccSms.BuiltRecordListed | telephony/java/com/android/internal/telephony/IccSmsInterfaceManager.java:425-464 | a record made with a non-free status is listed |
| IccSms.Enabled | telephony/java/com/android/internal/telephony/IccSmsInterfaceManager.java:466-501 | a known id gains the client; a new id is kept only when the radio accepts the new configuration (rollback 482-491) |
| IccSms.Disabled | telephony/java/com/android/internal/telephony/IccSmsInterfaceManager.java:507-535 | only a subscribed client is removed; an id left without clients is dropped |
| IccSms.EnableThenDisable | telephony/java/com/android/internal/telephony/IccSmsInterfaceManager.java:466-535 | subscribing a new client and then unsubscribing it restores the subscriptions |
| IccSms.BroadcastSubscriptions.EnableBroadcast | telephony/java/com/android/internal/telephony/IccSmsInterfaceManager.java:466-501 | enableCellBroadcast/enableCdmaBroadcast update their own map as Enabled does, the other map unchanged |
| IccSms.BroadcastSubscriptions.DisableBroadcast | telephony/java/com/android/internal/telephony/IccSmsInterfaceManager.java:507-535 | disableCellBroadcast/disableCdmaBroadcast update their own map as Disabled does, the other map unchanged |
| SimRecords.SimOperatorNumeric | telephony/java/com/android/internal/telephony/gsm/SIMRecords.java:483-491 | null exactly without an IMSI or a known MNC length; otherwise the IMSI's first 3 + MNC-length digits, and a failure only for an IMSI too short for them |
| SimRecords.IsOnMatchingPlmn | telephony/java/com/android/internal/telephony/gsm/SIMRecords.java:1485-1500 | false without a PLMN; otherwise true exactly when it is the SIM's own PLMN or an EF_SPDI network, failing where the home PLMN cannot be worked out |
| SimRecords.DisplayRule | telephony/java/com/android/internal/telephony/gsm/SIMRecords.java:1466-1479 | a rule of 1 to 3; only the PLMN when no SPN is loaded or the condition is -1 |
| SimRecords.DisplayRuleShows | telephony/java/com/android/internal/telephony/gsm/SIMRecords.java:1461-1480 | something is always shown; on a matching PLMN the SPN, plus the PLMN exactly when bit 0 is set; elsewhere the PLMN, plus the SPN exactly when bit 1 is clear |
| SimRecords.MwisUpdated | telephony/java/com/android/internal/telephony/gsm/SIMRecords.java:370-381 | the MWIS record keeps its length, bytes from 2 on and the upper bits of byte 0 |
| SimRecords.CphsUpdated | telephony/java/com/android/internal/telephony/gsm/SIMRecords.java:386-389 | the CPHS indicator keeps its length, bytes from 1 on and the high nibble of byte 0 |
| SimRecords.MwisCount | telephony/java/com/android/internal/telephony/gsm/SIMRecords.java:1736-1747 | between -1 and 255; -1 exactly when the waiting bit is set with a zero count |
| SimRecords.CphsCount | telephony/java/com/android/internal/telephony/gsm/SIMRecords.java:1748-1760 | -1 exactly when the low nibble is 0xA, 0 otherwise |
| SimRecords.MwisRoundTrip | telephony/java/com/android/internal/telephony/gsm/SIMRecords.java:1736-1747 | a count from -1 to 255 written to MWIS by setVoiceMessageWaiting (lines 370-381) reads back unchanged; a more negative one reads as -1, a larger one as its low 8 bits (-1 when those are 0) |
| SimRecords.CphsRoundTrip | telephony/java/com/android/internal/telephony/gsm/SIMRecords.java:1748-1760 | a count written to the CPHS indicator by setVoiceMessageWaiting (lines 386-389) reads back as 0 for zero and -1 for anything else |
| SimRecords.CspPlmnDisabledIff | telephony/java/com/android/internal/telephony/gsm/SIMRecords.java:1698-1730 | the CSP disables PLMN selection exactly when its value-added service group has the PLMN bit clear |
| SimRecords.RecordLoaded | telephony/java/com/android/internal/telephony/gsm/SIMRecords.java:1298-1310 | the count drops by one but not below 0; the all-loaded step runs exactly when it reaches 0 from 1 after a fetch was requested |
| SimRecords.LoadCompletesOnce | telephony/java/com/android/internal/telephony/gsm/SIMRecords.java:1298-1310 | after a fetch of n records the all-loaded step runs once, on the n-th response, and never on stray responses after it |
| SimRecords.NoCompletionAtZero | telephony/java/com/android/internal/telephony/gsm/SIMRecords.java:1298-1310 | responses arriving with nothing pending never run the all-loaded step |
| SimRecords.SpnStep | telephony/java/com/android/internal/telephony/gsm/SIMRecords.java:1525-1600 | a step asks for the file of its new state or ends IDLE; a restart reads EF_SPN first; each step moves toward IDLE, except an empty EF_SPN, whose failed read leaves the machine as it was |
| SimRecords.AllSpnFilesFail | telephony/java/com/android/internal/telephony/gsm/SIMRecords.java:1525-1600 | when every read fails the three files are asked for in order, the machine ends IDLE with no SPN, and only the PLMN is shown |
| SimRecords.CphsSpnNotShown | telephony/java/com/android/internal/telephony/gsm/SIMRecords.java:1553-1574 | an SPN found only in EF_SPN_CPHS leaves the condition at -1, so only the PLMN is shown |
| SimRecords.SpnFromEfSpn | telephony/java/com/android/internal/telephony/gsm/SIMRecords.java:1542-1552 | a read EF_SPN sets the condition to its first byte (0 to 255), keeps the rest as the name, and ends IDLE |
| SimRecords.SIMRecords.constructor | telephony/java/com/android/internal/telephony/gsm/SIMRecords.java:211-235 | no IMSI, MNC length uninitialised, SPN machine IDLE with condition -1, no MWI files, PLMN selection enabled, nothing to load |
| SimRecords.SIMRecords.GetDisplayRule | telephony/java/com/android/internal/telephony/gsm/SIMRecords.java:1461-1480 | the record's rule is DisplayRule of its SPN, display condition and SPDI |
| SimRecords.SIMRecords.GetSimOperatorNumeric | telephony/java/com/android/internal/telephony/gsm/SIMRecords.java:483-491 | null exactly when the IMSI or the MNC length is not known, otherwise 3 + mncLength characters that begin the IMSI |
| SimRecords.SIMRecords.GetVoiceMessageCount | telephony/java/com/android/internal/telephony/gsm/SIMRecords.java:1732-1762 | MwisCount when EF_MWIS is loaded, else CphsCount of the CPHS indicator, else 0; a record too short to index fails |
| SimRecords.SIMRecords.SetVoiceMessageWaiting | telephony/java/com/android/internal/telephony/gsm/SIMRecords.java:359-406 | only line 1; MWIS if loaded, else CPHS, else not supported; a short record is malformed with the bytes before the failure written; afterwards GetVoiceMessageCount reads the written record |
| SimRecords.SIMRecords.OnMwisLoaded | telephony/java/com/android/internal/telephony/gsm/SIMRecords.java:680-700 | the MWIS record is kept only when it was read and its first byte is not 0xFF |
| SimRecords.SIMRecords.OnCphsMwiLoaded | telephony/java/com/android/internal/telephony/gsm/SIMRecords.java:720-733 | the CPHS flags are kept when they were read |
| SimRecords.SIMRecords.HandleEfCspData | telephony/java/com/android/internal/telephony/gsm/SIMRecords.java:1698-1730 | the loop finds the value-added group and sets the PLMN flag as CspPlmnEnabled says |
| SimRecords.SIMRecords.OnRecordLoaded | telephony/java/com/android/internal/telephony/gsm/SIMRecords.java:1298-1310 | the count of records to load drops by one; completion fires exactly at zero |
| SimRecords.SIMRecords.GetSpnFsm | telephony/java/com/android/internal/telephony/gsm/SIMRecords.java:1505-1600 | each step of the state machine is SpnStep |
| Cne.RequestPool.Obtain | services/java/com/android/server/CNE.java:116-141 | obtain reuses the first pooled request or allocates one, stamps the next serial (32-bit wrap) and starts the parcel with request and serial |
| Cne.RequestPool.Release | services/java/com/android/server/CNE.java:148-156 | release pools the request only while the pool holds fewer than four |
| Cne.RequestPool.ResetSerial | services/java/com/android/server/CNE.java:162-166 | resetSerial restarts serials at 0 |
| Cne.SerialString | services/java/com/android/server/CNE.java:168-184 | serialString: the serial in brackets, zero-padded to four digits |
| Cne.SerialTextDecodes | services/java/com/android/server/CNE.java:168-184 | the bracketed text parses back to the serial |
| Cne.ByteStream.Read | services/java/com/android/server/CNE.java:933-952 | InputStream.read: 0 for an empty request, -1 at end of stream, otherwise the next bytes into the buffer |
| Cne.BigEndianInt | services/java/com/android/server/CNE.java:944-947 | the four-byte length header as a 32-bit int, non-negative when its top bit is clear |
| Cne.ReadFully | services/java/com/android/server/CNE.java:929-962 | the read loops succeed exactly when the stream holds the requested bytes |
| Cne.ReadCneMessage | services/java/com/android/server/CNE.java:923-965 | end of stream when the header or the body runs out, a failure for a negative length or one beyond the buffer, otherwise the message body at the start of the buffer |
| Cne.LengthHeaderDecodes | services/java/com/android/server/CNE.java:944-947 | a length written big-endian decodes to itself |
| Cne.FrameRoundTrip | services/java/com/android/server/CNE.java:923-965 | a framed message that fits the buffer is read back, leaving what follows |
| Cne.ParseBwString | services/java/com/android/server/CNE.java:2093-2116 | parseBwString computes BwValue: digits, then "kbps" or "Mbps" |
| Cne.BwValueOfFormatted | services/java/com/android/server/CNE.java:2093-2116 | a number with a kbps or Mbps suffix parses to its value in bits per second |
| Cne.BwValueRejects | services/java/com/android/server/CNE.java:2093-2116 | a leading non-digit or an unknown suffix gives -1 |
| Cne.GetNextRatToTry | services/java/com/android/server/CNE.java:2078-2091 | the first untried RAT after index 0 is returned and marked tried; none gives CNE_RAT_INVALID |
| Cne.NetworkStateToInt | services/java/com/android/server/CNE.java:1253-1275 | each network state has a code in 0..5 |
| Cne.NetworkStateCodesDistinct | services/java/com/android/server/CNE.java:1253-1275 | the network states have distinct codes |
| DataServiceState.RegCodeToServiceState | telephony/java/com/android/internal/telephony/DataServiceStateTracker.java:677-699 | only registered-home and registered-roaming codes are in service |
| DataServiceState.RegCodeIsRoaming | telephony/java/com/android/internal/telephony/DataServiceStateTracker.java:705-716 | roaming exactly for code 5, which is an in-service code |
| DataServiceState.RoamingIsInService | telephony/java/com/android/internal/telephony/DataServiceStateTracker.java:677-716 | a roaming phone is in service, and an in-service phone that is not roaming is at home |
| DataServiceState.RegistrationState | telephony/java/com/android/internal/telephony/DataServiceStateTracker.java:331-389 | the registration code from a 14-field response; unknown (4) when missing or not a number; none for a wrong size |
| DataServiceState.Transition | telephony/java/com/android/internal/telephony/DataServiceStateTracker.java:504-508 | attach exactly when entering service, detach exactly when leaving it |
| DataServiceState.TransitionConsistent | telephony/java/com/android/internal/telephony/DataServiceStateTracker.java:504-508 | never attach and detach together; reversing a move swaps them |
| DataServiceState.DataServiceStateTracker.PollStateDone | telephony/java/com/android/internal/telephony/DataServiceStateTracker.java:501-531 | the new state becomes current and the events are the Transition of the move |
| DataServiceState.DataServiceStateTracker.PollState | telephony/java/com/android/internal/telephony/DataServiceStateTracker.java:271-296 | a fresh context; radio off or unavailable completes at once, radio on sends one request |
| DataServiceState.DataServiceStateTracker.CancelPollState | telephony/java/com/android/internal/telephony/DataServiceStateTracker.java:574-578 | a fresh context, so every pending response is stale |
| DataServiceState.DataServiceStateTracker.HandlePollStateResult | telephony/java/com/android/internal/telephony/DataServiceStateTracker.java:299-445 | a stale response changes nothing; a lost radio cancels; otherwise the response is counted off and the last one completes the poll |
| IccCardState.GetState | telephony/java/com/android/internal/telephony/IccCardProxy.java:331-448 | ABSENT with no card, no application or an absent card; CARD_IO_ERROR for a card error; READY, PIN_REQUIRED and PUK_REQUIRED exactly from the application state; never NOT_READY |
| IccCardState.PukVariantSameState | telephony/java/com/android/internal/telephony/IccCardProxy.java:385-439 | the PUK variant of a personalisation substate gives the same card state |
| IccCardState.PersoLockIff | telephony/java/com/android/internal/telephony/IccCardProxy.java:385-439 | a personalisation lock comes exactly from a present card whose application is in a locked personalisation substate; any other personalisation substate reads UNKNOWN |
| IccCardState.LockedStatesDistinct | telephony/java/com/android/internal/telephony/IccCardProxy.java:385-439 | distinct lock kinds give distinct card states |

## Left out

- Logging, `SystemProperties`, `Message`/`Handler` dispatch and `AsyncResult` plumbing are left out. Each handler is modelled on the values it receives, and a result sent back to a caller is a return value.
- Writes back to the SIM are not modelled: the SIM record methods return which file would be written (`updateEFLinearFixed`, `updateEFTransparent`), and loads and loadEF* requests are named rather than issued.
- SIM text decoding is left out. The SPN is kept as the bytes, offset and length handed to `adnStringFieldToString`, because the decoder is not part of this model.
- The remote `notify*` calls of DefaultPhoneNotifier are left out. Only the state conversions it performs are modelled, because the registry is not part of this model.
- The RetryManager of DataServiceInfo is left out, and so is its retry-count reset, because it is not part of this model.
- The enum classes `DataProfile.DataProfileType`, `IccCard.State`, AppState, PersoSubState and CardState are datatypes here. Their defining files are not part of this model. `PROFILE_TYPE_3GPP2_OMH` is added to the profile type because DataProfileOmh returns it.
- The SDK classes TelephonyManager, ServiceState and NetworkInfo are not part of this model. Their constants are restated where the core uses them.
- DataServiceStateTracker.PollStateDone covers only the data registration state and the attach/detach events. ServiceState equality, roaming and radio-technology notifications are left out.
- DataServiceStateTracker.PollState keeps the pending data state when the radio is off, so a radio-off poll reports no detach. This follows the code, which moves only the new ServiceState to POWER_OFF.
- The CNE receiver and sender threads, the socket itself and the CNE event dispatch are left out. A stream is a sequence of bytes delivered on demand.
- Cne.ByteStream.Read delivers every available byte up to the requested length. A real socket may deliver fewer; ReadFully's loop handles that case, but the model does not exercise it.
- JavaText.ParseInt accepts only ASCII digits. Java's `Integer.parseInt` reads digits with `Character.digit`, which also accepts other Unicode decimal digits. CdmaSubscription.IdOf and DataServiceState.RegistrationState inherit this restriction.
- DataProfiles.DataProfile.Apn takes the profile's service types as a constructor argument. The ApnSetting constructor never sets that field; its owner assigns it after construction. The model folds that later assignment into the constructor.
- SimRecords.IsOnMatchingPlmn is a function: the source's for-each loop over the SPDI networks is a membership test, which gives the same answer because the loop only returns early.
- IccSms.BroadcastSubscriptions.DisableBroadcast does not model the modem reconfiguration (`updateBroadcastConfig`) made when the last client of an id is removed. The source ignores that call's result, so the return value and the maps are as modelled.
- SimRecords.SIMRecords.constructor starts the SPN machine in IDLE. The source leaves `spnState` null until the first `getSpnFsm(true, …)`, which sets it to INIT whatever it was; a response reaches the machine only after such a start, so no reachable path differs.
- Cne.BwValue treats only ASCII digits as digits. Java's `Character.isDigit` also accepts other Unicode decimal digits.
- TrafficStats.AddReading models the C `long long` overflow of `total + num` as 64-bit two's-complement wrap-around; in C that overflow is undefined behaviour.
- The JNI registration table and the `JNIEnv` plumbing of TrafficStats are left out.
- IccSms.BroadcastSubscriptions.EnableBroadcast takes the radio's answer to the reconfiguration as a parameter (`configAccepted`), because `updateBroadcastConfig` talks to the modem.
- Exceptions the source catches or lets escape are outcome values:
  - `None` or `null` for an uncaught `ArrayIndexOutOfBoundsException`;
  - `MalformedRecord` for a caught one;
  - `BadLength` for a read that would throw.
- A null response array is an empty sequence wherever the source indexes it inside a `try` block.
- ServiceTypes.SortByPriority is an insertion sort on values. The source sorts a copied array with `Arrays.sort` and a comparator, which gives the same order because priorities are distinct.
- DataProfiles.CanHandleType and DataProfiles.ApnCanHandleServiceType are recursive searches. The source's for-each loops only return early, so the result is the same.

## Findings

| source | as written | input that shows it | evidently intended | confidence | as-written member | corrected member |
|---|---|---|---|---|---|---|
| core/jni/android_net_TrafficStats.cpp:136-149 | getMobileRxPackets, getMobileTxBytes and getMobileRxBytes fall back to the ppp0 `tx_packets` file, as getMobileTxPackets does | no readable rmnet counter, ppp0 `tx_packets` holding 5 and `rx_bytes` holding 7: getMobileRxBytes answers 5 | each query falls back to ppp0's counter for its own metric | high; not executed | TrafficStats.MobileOfAsWritten, TrafficStats.MobileRxBytesReadsTxPackets | TrafficStats.MobileOf, TrafficStats.MobileFallback |
