/**
 * CdmaSubscriptionInfo: the subscription the radio reports for a CDMA
 * phone (MDN, home system and network ids, MIN, PRL version), filled from
 * the string array of the registration-state response.
 */
module CdmaSubscription {
  import opened Nullable
  import opened JavaText

  /** Element `k` of the response: absent when the array is too short (the
      source catches the index exception) or when the element is null. */
  function Field(response: seq<Option<string>>, k: nat): (r: Option<string>)
    ensures k >= |response| ==> r.None?
  {
    if k < |response| then response[k] else None
  }

  /** One comma-separated id: its value, or 0 (the initial array value)
      when `Integer.parseInt` rejects it. */
  function IdOf(piece: string): (r: int)
    ensures IsInt32(r)
    ensures ParseInt(piece).None? ==> r == 0
  {
    match ParseInt(piece)
    case Some(v) => v
    case None => 0
  }

  /** The id array built from a comma-separated list: one entry per piece
      of `split(",")`. */
  function ParseIds(list: string): (r: seq<int>)
    ensures |r| == |JavaSplit(list, ',')|
  {
    var parts := JavaSplit(list, ',');
    seq(|parts|, k requires 0 <= k < |parts| => IdOf(parts[k]))
  }

  function IdStrings(ids: seq<int>): (r: seq<string>)
    ensures |r| == |ids|
    ensures forall k :: 0 <= k < |ids| ==> r[k] == IntToString(ids[k])
  {
    if ids == [] then [] else [IntToString(ids[0])] + IdStrings(ids[1..])
  }

  /** A list written as comma-separated decimal `int`s parses back to the
      same ids. */
  lemma IdListRoundTrip(ids: seq<int>)
    requires |ids| >= 1
    requires forall k :: 0 <= k < |ids| ==> IsInt32(ids[k])
    ensures ParseIds(Join(IdStrings(ids), ',')) == ids
  {
    var parts := IdStrings(ids);
    var list := Join(parts, ',');
    IdStringsSplit(ids);
    var r := ParseIds(list);
    assert |r| == |ids|;
    forall k | 0 <= k < |ids|
      ensures r[k] == ids[k]
    {
      ParseIdsAt(list, k);
      IdOfToString(ids[k]);
    }
  }

  lemma ParseIdsAt(list: string, k: nat)
    requires k < |JavaSplit(list, ',')|
    ensures ParseIds(list)[k] == IdOf(JavaSplit(list, ',')[k])
  {
  }

  /** Splitting the joined id texts gives the id texts back. */
  lemma IdStringsSplit(ids: seq<int>)
    requires |ids| >= 1
    ensures JavaSplit(Join(IdStrings(ids), ','), ',') == IdStrings(ids)
  {
    var parts := IdStrings(ids);
    forall k | 0 <= k < |parts|
      ensures ',' !in parts[k]
    {
      IntToStringShape(ids[k]);
    }
    IntToStringShape(ids[|ids| - 1]);
    JavaSplitJoin(parts, ',');
  }

  /** An id written in decimal reads back as itself. */
  lemma IdOfToString(n: int)
    requires IsInt32(n)
    ensures IdOf(IntToString(n)) == n
  {
    ParseIntToString(n);
  }

  lemma IntToStringShape(n: int)
    ensures ',' !in IntToString(n) && IntToString(n) != ""
  {
    var digits := if n < 0 then NatToString(-n) else NatToString(n);
    assert forall i :: 0 <= i < |digits| ==> IsDigit(digits[i]);
    if n < 0 {
      assert IntToString(n) == "-" + digits;
    }
  }

  /** Fills a fresh array with the ids of `list`, as the source's loop
      does: a zero-initialised `int[]`, then one `parseInt` per piece. */
  method ParseIdArray(list: string) returns (a: array<int>)
    ensures fresh(a)
    ensures a[..] == ParseIds(list)
  {
    var parts := JavaSplit(list, ',');
    a := new int[|parts|](_ => 0);
    var i := 0;
    while i < |parts|
      invariant 0 <= i <= |parts| && a.Length == |parts|
      invariant forall j :: 0 <= j < i ==> a[j] == IdOf(parts[j])
      invariant forall j :: i <= j < |parts| ==> a[j] == 0
    {
      var parsed := ParseInt(parts[i]);
      if parsed.Some? {
        a[i] := parsed.value;
      }
      i := i + 1;
    }
  }

  class CdmaSubscriptionInfo {
    var homeSystemId: array?<int>
    var homeNetworkId: array?<int>
    var prlVersion: Option<string>
    var mdn: Option<string>
    var min: Option<string>

    constructor ()
      ensures homeSystemId == null && homeNetworkId == null
      ensures prlVersion.None? && mdn.None? && min.None?
    {
      homeSystemId, homeNetworkId := null, null;
      prlVersion, mdn, min := None, None, None;
    }

    /** populateSubscriptionInfoFromRegistrationState: every field is first
        cleared, then taken from its element of the response; an id array
        exists exactly when its element does, with one entry per piece. */
    method PopulateSubscriptionInfoFromRegistrationState(response: seq<Option<string>>)
      modifies this
      ensures mdn == Field(response, 0)
      ensures min == Field(response, 3)
      ensures prlVersion == Field(response, 4)
      ensures homeSystemId == null <==> Field(response, 1).None?
      ensures homeSystemId != null ==> fresh(homeSystemId) && homeSystemId[..] == ParseIds(Field(response, 1).value)
      ensures homeNetworkId == null <==> Field(response, 2).None?
      ensures homeNetworkId != null ==> fresh(homeNetworkId) && homeNetworkId[..] == ParseIds(Field(response, 2).value)
    {
      mdn, homeSystemId, homeNetworkId, min, prlVersion := None, null, null, None, None;
      mdn := Field(response, 0);
      var sid := Field(response, 1);
      if sid.Some? {
        homeSystemId := ParseIdArray(sid.value);
      }
      var nid := Field(response, 2);
      if nid.Some? {
        homeNetworkId := ParseIdArray(nid.value);
      }
      min := Field(response, 3);
      prlVersion := Field(response, 4);
    }

    /** isSidsAllZeros: no home system id array, or every entry is 0. */
    method IsSidsAllZeros() returns (r: bool)
      ensures r <==> homeSystemId == null || forall i :: 0 <= i < homeSystemId.Length ==> homeSystemId[i] == 0
    {
      if homeSystemId != null {
        var i := 0;
        while i < homeSystemId.Length
          invariant 0 <= i <= homeSystemId.Length
          invariant forall j :: 0 <= j < i ==> homeSystemId[j] == 0
        {
          if homeSystemId[i] != 0 {
            return false;
          }
          i := i + 1;
        }
      }
      return true;
    }

    /** isHomeSid: `sid` is one of the home system ids. */
    method IsHomeSid(sid: int) returns (r: bool)
      ensures r <==> homeSystemId != null && sid in homeSystemId[..]
    {
      if homeSystemId != null {
        var i := 0;
        while i < homeSystemId.Length
          invariant 0 <= i <= homeSystemId.Length
          invariant sid !in homeSystemId[..i]
        {
          if sid == homeSystemId[i] {
            return true;
          }
          assert homeSystemId[..i + 1] == homeSystemId[..i] + [homeSystemId[i]];
          i := i + 1;
        }
        assert homeSystemId[..i] == homeSystemId[..];
      }
      return false;
    }
  }
}
