/**
 * DataServiceType: the kinds of data service a connection can carry (the
 * APN types), each with a fixed priority, the descending-priority order the
 * connection tracker walks, and the conversions to and from APN type
 * strings.
 */
module ServiceTypes {
  import opened Nullable

  /** The APN type strings of the data phone interface. */
  const APN_TYPE_ALL: string := "*"
  const APN_TYPE_DEFAULT: string := "default"
  const APN_TYPE_MMS: string := "mms"
  const APN_TYPE_SUPL: string := "supl"
  const APN_TYPE_DUN: string := "dun"
  const APN_TYPE_HIPRI: string := "hipri"
  const APN_TYPE_VERIZON: string := "verizon"

  datatype DataServiceType =
    | SERVICE_TYPE_DEFAULT
    | SERVICE_TYPE_MMS
    | SERVICE_TYPE_SUPL
    | SERVICE_TYPE_DUN
    | SERVICE_TYPE_HIPRI
    | SERVICE_TYPE_VERIZON
  {
    /** The declared index (`getid`). */
    function Index(): nat
    {
      match this
      case SERVICE_TYPE_DEFAULT => 0
      case SERVICE_TYPE_MMS => 1
      case SERVICE_TYPE_SUPL => 2
      case SERVICE_TYPE_DUN => 3
      case SERVICE_TYPE_HIPRI => 4
      case SERVICE_TYPE_VERIZON => 5
    }

    /** A higher number means a higher priority. */
    function Priority(): nat
    {
      match this
      case SERVICE_TYPE_DEFAULT => 10
      case SERVICE_TYPE_MMS => 20
      case SERVICE_TYPE_SUPL => 30
      case SERVICE_TYPE_DUN => 50
      case SERVICE_TYPE_HIPRI => 400
      case SERVICE_TYPE_VERIZON => 100
    }
  }

  /** `values()`, in declaration order. */
  function Values(): (r: seq<DataServiceType>)
    ensures |r| == 6
    ensures forall i :: 0 <= i < |r| ==> r[i].Index() == i
  {
    [SERVICE_TYPE_DEFAULT, SERVICE_TYPE_MMS, SERVICE_TYPE_SUPL, SERVICE_TYPE_DUN, SERVICE_TYPE_HIPRI, SERVICE_TYPE_VERIZON]
  }

  /** No two service types share a priority, so "higher priority" is a strict
      total order on them. */
  lemma PriorityInjective(a: DataServiceType, b: DataServiceType)
    ensures a.Priority() == b.Priority() ==> a == b
  {
  }

  function IsLowerPriorityThan(a: DataServiceType, b: DataServiceType): (r: bool)
    ensures r ==> a != b
  {
    a.Priority() < b.Priority()
  }

  /** `a.isHigherPriorityThan(b)` is `b.isLowerPriorityThan(a)`, and the
      relation is irreflexive. */
  function IsHigherPriorityThan(a: DataServiceType, b: DataServiceType): (r: bool)
    ensures r <==> IsLowerPriorityThan(b, a)
    ensures a == b ==> !r
  {
    a.Priority() > b.Priority()
  }

  /** Between two distinct types exactly one is of higher priority: the
      comparisons form a strict total order. */
  lemma PriorityTrichotomy(a: DataServiceType, b: DataServiceType)
    requires a != b
    ensures IsHigherPriorityThan(a, b) != IsHigherPriorityThan(b, a)
    ensures IsLowerPriorityThan(a, b) != IsLowerPriorityThan(b, a)
  {
    PriorityInjective(a, b);
  }

  predicate DescendingByPriority(s: seq<DataServiceType>)
  {
    forall i, j :: 0 <= i < j < |s| ==> s[i].Priority() >= s[j].Priority()
  }

  /** Places `t` in front of the first entry of lower priority. */
  function InsertByPriority(t: DataServiceType, s: seq<DataServiceType>): (r: seq<DataServiceType>)
    requires DescendingByPriority(s)
    ensures |r| == |s| + 1
    ensures r[0] == t || (s != [] && r[0] == s[0])
    ensures DescendingByPriority(r)
    ensures multiset(r) == multiset(s) + multiset{t}
  {
    if s == [] || s[0].Priority() <= t.Priority() then [t] + s
    else
      var rest := InsertByPriority(t, s[1..]);
      assert s == [s[0]] + s[1..];
      assert rest[0].Priority() <= s[0].Priority();
      [s[0]] + rest
  }

  /** A sort by the descending comparator of the source. */
  function SortByPriority(s: seq<DataServiceType>): (r: seq<DataServiceType>)
    ensures |r| == |s|
    ensures DescendingByPriority(r)
    ensures multiset(r) == multiset(s)
  {
    if s == [] then []
    else
      assert s == [s[0]] + s[1..];
      InsertByPriority(s[0], SortByPriority(s[1..]))
  }

  /** getPrioritySortedValues: every service type exactly as often as in
      `values()`, highest priority first. */
  function PrioritySortedValues(): (r: seq<DataServiceType>)
    ensures |r| == 6
    ensures DescendingByPriority(r)
    ensures multiset(r) == multiset(Values())
  {
    SortByPriority(Values())
  }

  /** toApnTypeString. */
  function ToApnTypeString(t: DataServiceType): (r: string)
    ensures r != APN_TYPE_ALL
  {
    match t
    case SERVICE_TYPE_DEFAULT => APN_TYPE_DEFAULT
    case SERVICE_TYPE_MMS => APN_TYPE_MMS
    case SERVICE_TYPE_SUPL => APN_TYPE_SUPL
    case SERVICE_TYPE_DUN => APN_TYPE_DUN
    case SERVICE_TYPE_HIPRI => APN_TYPE_HIPRI
    case SERVICE_TYPE_VERIZON => APN_TYPE_VERIZON
  }

  /** apnTypeStringToServiceType: `None` for a null string and for every
      string that is not one of the six type names. */
  function ApnTypeStringToServiceType(s: Option<string>): (r: Option<DataServiceType>)
    ensures r.Some? ==> s == Some(ToApnTypeString(r.value))
    ensures r.None? ==> forall t: DataServiceType :: s != Some(ToApnTypeString(t))
  {
    if s == Some(APN_TYPE_DEFAULT) then Some(SERVICE_TYPE_DEFAULT)
    else if s == Some(APN_TYPE_MMS) then Some(SERVICE_TYPE_MMS)
    else if s == Some(APN_TYPE_SUPL) then Some(SERVICE_TYPE_SUPL)
    else if s == Some(APN_TYPE_DUN) then Some(SERVICE_TYPE_DUN)
    else if s == Some(APN_TYPE_HIPRI) then Some(SERVICE_TYPE_HIPRI)
    else if s == Some(APN_TYPE_VERIZON) then Some(SERVICE_TYPE_VERIZON)
    else None
  }

  /** Converting a type to its string and back gives the type. */
  lemma ApnTypeStringRoundTrip(t: DataServiceType)
    ensures ApnTypeStringToServiceType(Some(ToApnTypeString(t))) == Some(t)
  {
  }
}
