/**
 * The native half of android.net.TrafficStats: counters are read as ASCII
 * decimals from files under /sys/class/net/<interface>/statistics/ and
 * /proc/uid_stat/<uid>/, and summed over the directory listing.
 *
 * The file system is a value: whether this is a device build (the simulator
 * build answers -1 to everything), the listing of /sys/class/net/ (or a
 * failure to open it), and a finite map from path to what `open`/`read`
 * would give.
 */
module TrafficStats {
  import opened Nullable
  import opened JavaText

  /** What opening and reading one path gives. A path missing from the map
      behaves as `ENOENT`. */
  datatype FileNode =
    | Contents(text: string)
    | OpenError(notFound: bool)
    | ReadError

  datatype SysFs = SysFs(android: bool, netListing: Option<seq<string>>, files: map<string, FileNode>)

  /** The four per-interface counters. */
  datatype Metric = TxPackets | RxPackets | TxBytes | RxBytes

  /** Which interfaces a directory scan sums over. */
  datatype Filter = AllInterfaces | RmNetOnly

  const NET_DIR: string := "/sys/class/net/"
  const READ_LIMIT: nat := 79
  const PPP0_DIR: string := "/sys/class/net/ppp0"

  function Suffix(m: Metric): (s: string)
    ensures |s| > 0 && s[0] == '/'
  {
    match m
    case TxPackets => "/statistics/tx_packets"
    case RxPackets => "/statistics/rx_packets"
    case TxBytes => "/statistics/tx_bytes"
    case RxBytes => "/statistics/rx_bytes"
  }

  // ---------------------------------------------------------------------------
  // atoll
  // ---------------------------------------------------------------------------

  /** The text a C string holds: everything before the first NUL. */
  function CString(s: string): (r: string)
    ensures |r| <= |s|
  {
    if s == [] || s[0] == '\0' then [] else [s[0]] + CString(s[1..])
  }

  /** The C string is the part of the buffer before its first NUL. */
  lemma {:induction false} CStringIsPrefix(s: string)
    ensures CString(s) <= s && '\0' !in CString(s)
    ensures |CString(s)| < |s| ==> s[|CString(s)|] == '\0'
  {
    if s != [] && s[0] != '\0' {
      CStringIsPrefix(s[1..]);
    }
  }

  lemma {:induction false} CStringStopsAtNul(a: string, b: string)
    requires '\0' !in a
    ensures CString(a + ['\0'] + b) == a
  {
    if a != [] {
      assert (a + ['\0'] + b)[1..] == a[1..] + ['\0'] + b;
      CStringStopsAtNul(a[1..], b);
    }
  }

  predicate IsCSpace(c: char) { c == ' ' || '\t' <= c <= '\r' }

  /** The string without its leading C white space. */
  function SkipSpace(s: string): (r: string)
    ensures |r| <= |s|
  {
    if s != [] && IsCSpace(s[0]) then SkipSpace(s[1..]) else s
  }

  /** `atoll`, as bionic implements it (through `strtoll`): leading white
      space, an optional sign, then the longest run of decimal digits; a value
      outside the `long long` range saturates; no digits gives 0. */
  function Atoll(s: string): (r: int)
    ensures IsInt64(r)
  {
    var t := SkipSpace(s);
    var signed := |t| > 0 && (t[0] == '-' || t[0] == '+');
    var body := if signed then t[1..] else t;
    var magnitude: int := DigitsValue(DigitPrefix(body));
    Clamp64(if signed && t[0] == '-' then -magnitude else magnitude)
  }

  /** A file written as the decimal of a `long` counter (sysfs ends it with a
      newline) reads back as that counter. */
  lemma AtollOfDecimal(n: nat)
    requires n <= INT64_MAX
    ensures Atoll(NatToString(n) + "\n") == n
  {
    var d := NatToString(n);
    var s := d + "\n";
    assert s[0] == d[0] && IsDigit(s[0]);
    assert SkipSpace(s) == s;
    DigitPrefixOfDigits(d, "\n");
    assert DigitPrefix("\n") == [];
    assert DigitPrefix(s) == d;
    NatToStringValue(n);
    assert DigitsValue(d) == n;
  }

  // ---------------------------------------------------------------------------
  // readNumber
  // ---------------------------------------------------------------------------

  /** The value readNumber returns for `path`: -1 when the build is not a
      device build, when the file cannot be opened or cannot be read, and
      otherwise `atoll` of the first (at most 79) bytes, NUL-terminated. */
  function ReadNumberOf(fs: SysFs, path: string): (r: int)
    ensures IsInt64(r)
    ensures !fs.android ==> r == -1
    ensures path !in fs.files ==> r == -1
    ensures path in fs.files && !fs.files[path].Contents? ==> r == -1
  {
    if !fs.android || path !in fs.files then -1
    else match fs.files[path]
      case Contents(text) =>
        var len := if |text| < READ_LIMIT then |text| else READ_LIMIT;
        Atoll(CString(text[..len]))
      case _ => -1
  }

  method ReadNumber(fs: SysFs, path: string) returns (r: int)
    ensures r == ReadNumberOf(fs, path)
  {
    if !fs.android || path !in fs.files {
      return -1;
    }
    match fs.files[path] {
      case OpenError(_) =>
        return -1;
      case ReadError =>
        return -1;
      case Contents(text) =>
        var buf := new char[READ_LIMIT + 1];
        var len := if |text| < READ_LIMIT then |text| else READ_LIMIT;
        forall i | 0 <= i < len {
          buf[i] := text[i];
        }
        buf[len] := '\0';
        r := Atoll(CString(buf[..]));
        CStringOfBuffer(text[..len], buf[..]);
    }
  }

  /** The file text copied into a larger buffer and NUL-terminated reads
      back as the same C string. */
  lemma {:induction false} CStringOfBuffer(t: string, b: string)
    requires |t| < |b| && b[..|t|] == t && b[|t|] == '\0'
    ensures CString(b) == CString(t)
  {
    if t == [] || t[0] == '\0' {
      assert b[0] == '\0';
    } else {
      assert b[0] == t[0];
      assert b[1..][..|t| - 1] == t[1..];
      CStringOfBuffer(t[1..], b[1..]);
    }
  }

  /** A counter file holding a decimal and a newline reads back as its value. */
  lemma ReadNumberOfDecimal(fs: SysFs, path: string, n: nat)
    requires fs.android && n <= INT64_MAX
    requires path in fs.files && fs.files[path] == Contents(NatToString(n) + "\n")
    ensures ReadNumberOf(fs, path) == n
  {
    var text := NatToString(n) + "\n";
    Pow10Bounds();
    NatToStringLength(n, 19, Pow10(19));
    assert |text| <= 20;
    assert text[..|text|] == text;
    assert '\0' !in text by {
      assert forall i :: 0 <= i < |text| - 1 ==> IsDigit(text[i]);
    }
    CStringWithoutNul(text);
    AtollOfDecimal(n);
  }

  lemma {:induction false} CStringWithoutNul(s: string)
    requires '\0' !in s
    ensures CString(s) == s
  {
    if s != [] {
      CStringWithoutNul(s[1..]);
    }
  }

  // ---------------------------------------------------------------------------
  // readTotal / readRmNetStats
  // ---------------------------------------------------------------------------

  predicate StartsWith(s: string, prefix: string) { prefix <= s }

  /** The directory-entry test: no entry whose name starts with '.', none
      whose name starts with "lo", and, for the mobile scan, only names that
      start with "rmnet". */
  predicate Eligible(name: string, f: Filter)
  {
    && (name == [] || name[0] != '.')
    && !StartsWith(name, "lo")
    && (f == RmNetOnly ==> StartsWith(name, "rmnet"))
  }

  function CounterPath(name: string, suffix: string): string
  {
    NET_DIR + name + suffix
  }

  /** The entries a scan with filter `f` opens, in listing order. */
  function Keep(names: seq<string>, f: Filter): (r: seq<string>)
    ensures |r| <= |names|
    ensures forall k :: 0 <= k < |r| ==> Eligible(r[k], f)
  {
    if names == [] then []
    else
      var last := names[|names| - 1];
      Keep(names[..|names| - 1], f) + (if Eligible(last, f) then [last] else [])
  }

  /** The counters read for the opened entries, in order. */
  function Readings(fs: SysFs, kept: seq<string>, suffix: string): (r: seq<int>)
    ensures |r| == |kept| && AllInt64(r)
  {
    if kept == [] then []
    else Readings(fs, kept[..|kept| - 1], suffix) + [ReadNumberOf(fs, CounterPath(kept[|kept| - 1], suffix))]
  }

  lemma {:induction false} ReadingsAt(fs: SysFs, kept: seq<string>, suffix: string, k: nat)
    requires k < |kept|
    ensures Readings(fs, kept, suffix)[k] == ReadNumberOf(fs, CounterPath(kept[k], suffix))
  {
    if k < |kept| - 1 {
      ReadingsAt(fs, kept[..|kept| - 1], suffix, k);
    }
  }

  predicate AllInt64(nums: seq<int>) { forall k :: 0 <= k < |nums| ==> IsInt64(nums[k]) }

  /** Adding a non-negative reading to the accumulator: a negative
      accumulator stands for "nothing read yet" and is replaced, otherwise the
      reading is added with `jlong` wrap-around. Once something has been read
      the accumulator never shows -1 again, even after an overflow: the
      largest sum of two `jlong` counters wraps to -2. */
  function AddReading(total: int, num: int): (r: int)
    requires IsInt64(total) && IsInt64(num) && num >= 0
    ensures IsInt64(r) && r != -1
    ensures total < 0 ==> r == num
    ensures total >= 0 && total + num <= INT64_MAX ==> r == total + num
  {
    if total < 0 then num
    else
      var s := total + num;
      assert (s - Wrap64(s)) % TWO64 == 0;
      Wrap64(s)
  }

  /** The accumulator after it has been fed `nums`, starting from -1;
      negative readings (a missing or unreadable file) are ignored. */
  function Fold(nums: seq<int>): (r: int)
    requires AllInt64(nums)
    ensures IsInt64(r)
  {
    if nums == [] then -1
    else
      var prev := Fold(nums[..|nums| - 1]);
      var num := nums[|nums| - 1];
      if num >= 0 then AddReading(prev, num) else prev
  }

  /** The value readTotal (AllInterfaces) or readRmNetStats (RmNetOnly)
      returns for a suffix. */
  function ReadAggregate(fs: SysFs, suffix: string, f: Filter): (r: int)
    ensures IsInt64(r)
    ensures !fs.android || fs.netListing.None? ==> r == -1
  {
    if !fs.android then -1
    else match fs.netListing
      case None => -1
      case Some(names) => Fold(Readings(fs, Keep(names, f), suffix))
  }

  /** The directory scan shared by readTotal and readRmNetStats. */
  method ScanInterfaces(fs: SysFs, suffix: string, f: Filter) returns (total: int)
    ensures total == ReadAggregate(fs, suffix, f)
  {
    if !fs.android || fs.netListing.None? {
      return -1;
    }
    var names := fs.netListing.value;
    total := -1;
    var i := 0;
    while i < |names|
      invariant 0 <= i <= |names|
      invariant total == Fold(Readings(fs, Keep(names[..i], f), suffix))
    {
      var name := names[i];
      ScanStep(fs, names, i, suffix, f);
      if Eligible(name, f) {
        var num := ReadNumber(fs, CounterPath(name, suffix));
        if num >= 0 {
          total := AddReading(total, num);
        }
      }
      i := i + 1;
    }
    assert names[..i] == names;
  }

  /** What one more directory entry does to the accumulator. */
  lemma ScanStep(fs: SysFs, names: seq<string>, i: nat, suffix: string, f: Filter)
    requires i < |names|
    ensures var prev := Fold(Readings(fs, Keep(names[..i], f), suffix));
            Fold(Readings(fs, Keep(names[..i + 1], f), suffix))
            == if Eligible(names[i], f) && ReadNumberOf(fs, CounterPath(names[i], suffix)) >= 0
               then AddReading(prev, ReadNumberOf(fs, CounterPath(names[i], suffix)))
               else prev
  {
    var kept := Keep(names[..i], f);
    assert names[..i + 1][..i] == names[..i] && names[..i + 1][i] == names[i];
    if !Eligible(names[i], f) {
      assert Keep(names[..i + 1], f) == kept;
    } else {
      assert Keep(names[..i + 1], f) == kept + [names[i]];
      var seen := Readings(fs, kept, suffix);
      var num := ReadNumberOf(fs, CounterPath(names[i], suffix));
      ReadingsSnoc(fs, kept, names[i], suffix);
      assert (seen + [num])[..|seen|] == seen;
    }
  }

  lemma ReadingsSnoc(fs: SysFs, kept: seq<string>, name: string, suffix: string)
    ensures Readings(fs, kept + [name], suffix) == Readings(fs, kept, suffix) + [ReadNumberOf(fs, CounterPath(name, suffix))]
  {
    assert (kept + [name])[..|kept|] == kept;
  }

  method ReadTotal(fs: SysFs, suffix: string) returns (total: int)
    ensures total == ReadAggregate(fs, suffix, AllInterfaces)
  {
    total := ScanInterfaces(fs, suffix, AllInterfaces);
  }

  method ReadRmNetStats(fs: SysFs, suffix: string) returns (total: int)
    ensures total == ReadAggregate(fs, suffix, RmNetOnly)
  {
    total := ScanInterfaces(fs, suffix, RmNetOnly);
  }

  // ---------------------------------------------------------------------------
  // Properties of the accumulator and of the scan
  // ---------------------------------------------------------------------------

  predicate AnyNonNegative(nums: seq<int>) { exists k :: 0 <= k < |nums| && nums[k] >= 0 }

  lemma AnyNonNegativeSnoc(nums: seq<int>)
    requires nums != []
    ensures AnyNonNegative(nums) <==> AnyNonNegative(nums[..|nums| - 1]) || nums[|nums| - 1] >= 0
  {
    var init := nums[..|nums| - 1];
    if AnyNonNegative(nums) {
      var k :| 0 <= k < |nums| && nums[k] >= 0;
      if k < |init| {
        assert init[k] == nums[k];
      }
    }
    if AnyNonNegative(init) {
      var k :| 0 <= k < |init| && init[k] >= 0;
      assert nums[k] == init[k];
    }
  }

  /** The accumulator is -1 exactly when no reading was non-negative: an
      empty result is not confused with a genuine zero. */
  lemma {:induction false} FoldEmptyIff(nums: seq<int>)
    requires AllInt64(nums)
    ensures Fold(nums) == -1 <==> !AnyNonNegative(nums)
  {
    if nums != [] {
      var init := nums[..|nums| - 1];
      var last := nums[|nums| - 1];
      FoldEmptyIff(init);
      AnyNonNegativeSnoc(nums);
    }
  }

  /** The exact sum of the non-negative readings. */
  function SumNonNegative(nums: seq<int>): (r: nat)
  {
    if nums == [] then 0
    else SumNonNegative(nums[..|nums| - 1]) + (if nums[|nums| - 1] >= 0 then nums[|nums| - 1] else 0)
  }

  /** Without overflow the accumulator ends at the exact sum of the
      non-negative readings, or at -1 when there were none. */
  lemma {:induction false} FoldIsSum(nums: seq<int>)
    requires AllInt64(nums) && SumNonNegative(nums) <= INT64_MAX
    ensures Fold(nums) == if AnyNonNegative(nums) then SumNonNegative(nums) else -1
  {
    FoldEmptyIff(nums);
    if nums != [] {
      var init := nums[..|nums| - 1];
      FoldIsSum(init);
      FoldEmptyIff(init);
      AnyNonNegativeSnoc(nums);
      if !AnyNonNegative(init) {
        SumOfNoneNonNegative(init);
      }
    }
  }

  lemma {:induction false} SumOfNoneNonNegative(nums: seq<int>)
    requires !AnyNonNegative(nums)
    ensures SumNonNegative(nums) == 0
  {
    if nums != [] {
      AnyNonNegativeSnoc(nums);
      SumOfNoneNonNegative(nums[..|nums| - 1]);
    }
  }

  /** The entries the mobile scan opens are exactly the entries the total
      scan opens that start with "rmnet", in the same order. */
  lemma {:induction false} RmNetIsFilterOfAll(names: seq<string>)
    ensures Keep(names, RmNetOnly) == Keep(Keep(names, AllInterfaces), RmNetOnly)
  {
    if names != [] {
      var init := names[..|names| - 1];
      var last := names[|names| - 1];
      var all := Keep(names, AllInterfaces);
      RmNetIsFilterOfAll(init);
      if Eligible(last, AllInterfaces) {
        assert all == Keep(init, AllInterfaces) + [last];
        assert all[..|all| - 1] == Keep(init, AllInterfaces);
        assert all[|all| - 1] == last;
      } else {
        assert all == Keep(init, AllInterfaces);
        assert !Eligible(last, RmNetOnly);
      }
    }
  }

  /** readRmNetStats is readTotal with the "rmnet" test added: its answer is
      the accumulator over the readings of readTotal's entries that start
      with "rmnet". */
  lemma RmNetAggregateOfTotalEntries(fs: SysFs, suffix: string)
    requires fs.android && fs.netListing.Some?
    ensures ReadAggregate(fs, suffix, RmNetOnly)
         == Fold(Readings(fs, Keep(Keep(fs.netListing.value, AllInterfaces), RmNetOnly), suffix))
  {
    RmNetIsFilterOfAll(fs.netListing.value);
  }

  /** An entry the scan skips (".", "..", "lo*", or a non-rmnet interface in
      the mobile scan) can be inserted anywhere in the listing without
      changing the answer. */
  lemma SkippedEntryIsIgnored(before: seq<string>, skipped: string, after: seq<string>, f: Filter)
    requires !Eligible(skipped, f)
    ensures Keep(before + [skipped] + after, f) == Keep(before + after, f)
  {
    KeepAppend(before + [skipped], after, f);
    KeepAppend(before, [skipped], f);
    KeepAppend(before, after, f);
    assert Keep([skipped], f) == [] by {
      assert [skipped][..0] == [];
    }
  }

  lemma {:induction false} KeepAppend(a: seq<string>, b: seq<string>, f: Filter)
    ensures Keep(a + b, f) == Keep(a, f) + Keep(b, f)
  {
    if b == [] {
      assert a + b == a;
    } else {
      var init := b[..|b| - 1];
      var last := b[|b| - 1];
      assert (a + b)[..|a + b| - 1] == a + init;
      assert (a + b)[|a + b| - 1] == last;
      KeepAppend(a, init, f);
      var tail := if Eligible(last, f) then [last] else [];
      assert Keep(a + b, f) == Keep(a + init, f) + tail;
      assert Keep(b, f) == Keep(init, f) + tail;
    }
  }

  /** The scan answers -1 exactly when the directory cannot be listed or no
      eligible entry has a readable counter. */
  lemma ReadAggregateEmptyIff(fs: SysFs, suffix: string, f: Filter)
    requires fs.android && fs.netListing.Some?
    ensures ReadAggregate(fs, suffix, f) == -1 <==>
            forall name :: name in Keep(fs.netListing.value, f) ==> ReadNumberOf(fs, CounterPath(name, suffix)) < 0
  {
    var kept := Keep(fs.netListing.value, f);
    var nums := Readings(fs, kept, suffix);
    FoldEmptyIff(nums);
    if AnyNonNegative(nums) {
      var k :| 0 <= k < |nums| && nums[k] >= 0;
      ReadingsAt(fs, kept, suffix, k);
      assert kept[k] in kept;
    } else {
      forall name | name in kept
        ensures ReadNumberOf(fs, CounterPath(name, suffix)) < 0
      {
        var k :| 0 <= k < |kept| && kept[k] == name;
        ReadingsAt(fs, kept, suffix, k);
      }
    }
  }

  // ---------------------------------------------------------------------------
  // The JNI queries
  // ---------------------------------------------------------------------------

  /** The ppp0 counter file of a metric. */
  function Ppp0Path(m: Metric): string
  {
    PPP0_DIR + Suffix(m)
  }

  /** getMobile* as written: the rmnet aggregate when there is one,
      otherwise the ppp0 tx_packets file, whichever metric was asked for. */
  function MobileOfAsWritten(fs: SysFs, m: Metric): (r: int)
    ensures IsInt64(r)
    ensures !fs.android ==> r == -1
  {
    var stats := ReadAggregate(fs, Suffix(m), RmNetOnly);
    if stats >= 0 then stats else ReadNumberOf(fs, Ppp0Path(TxPackets))
  }

  /** getMobile* as evidently intended: the fallback reads ppp0's own
      counter for the metric asked for. */
  function MobileOf(fs: SysFs, m: Metric): (r: int)
    ensures IsInt64(r)
    ensures !fs.android ==> r == -1
  {
    var stats := ReadAggregate(fs, Suffix(m), RmNetOnly);
    if stats >= 0 then stats else ReadNumberOf(fs, Ppp0Path(m))
  }

  /** A device without a readable interface listing whose ppp0 link has
      sent 5 packets and received 7 bytes. */
  function Ppp0Device(): SysFs
  {
    SysFs(true, None, map[Ppp0Path(TxPackets) := Contents(NatToString(5) + "\n"),
                          Ppp0Path(RxBytes) := Contents(NatToString(7) + "\n")])
  }

  /** On that device the as-written received-bytes query answers 5, the
      transmitted-packet count, where the intended one answers 7. */
  lemma MobileRxBytesReadsTxPackets()
    ensures MobileOfAsWritten(Ppp0Device(), RxBytes) == 5
    ensures MobileOf(Ppp0Device(), RxBytes) == 7
  {
    var fs := Ppp0Device();
    assert |Ppp0Path(RxBytes)| != |Ppp0Path(TxPackets)|;
    ReadNumberOfDecimal(fs, Ppp0Path(TxPackets), 5);
    ReadNumberOfDecimal(fs, Ppp0Path(RxBytes), 7);
  }

  /** getMobile*, with the ppp0 fallback of MobileOf. */
  method GetMobile(fs: SysFs, m: Metric) returns (r: int)
    ensures r == MobileOf(fs, m)
  {
    var stats := ReadRmNetStats(fs, Suffix(m));
    if stats >= 0 {
      r := stats;
    } else {
      r := ReadNumber(fs, Ppp0Path(m));
    }
  }

  /** Without overflow a mobile query answers the exact sum of the readable
      rmnet counters; with no readable rmnet counter it answers ppp0's
      counter for the same metric. */
  lemma MobileFallback(fs: SysFs, m: Metric)
    requires fs.android && fs.netListing.Some?
    ensures var nums := Readings(fs, Keep(fs.netListing.value, RmNetOnly), Suffix(m));
            && (AnyNonNegative(nums) && SumNonNegative(nums) <= INT64_MAX ==> MobileOf(fs, m) == SumNonNegative(nums))
            && (!AnyNonNegative(nums) ==> MobileOf(fs, m) == ReadNumberOf(fs, Ppp0Path(m)))
  {
    var nums := Readings(fs, Keep(fs.netListing.value, RmNetOnly), Suffix(m));
    FoldEmptyIff(nums);
    if SumNonNegative(nums) <= INT64_MAX {
      FoldIsSum(nums);
    }
  }

  /** getTotal*. */
  method GetTotal(fs: SysFs, m: Metric) returns (r: int)
    ensures r == ReadAggregate(fs, Suffix(m), AllInterfaces)
  {
    r := ReadTotal(fs, Suffix(m));
  }

  /** The per-UID files; `received` selects tcp_rcv, otherwise tcp_snd. */
  function UidPath(uid: int, received: bool): (p: string)
  {
    "/proc/uid_stat/" + IntToString(uid) + (if received then "/tcp_rcv" else "/tcp_snd")
  }

  /** The formatted name of every `jint` uid fits the 80-byte buffer with its
      terminating NUL. */
  lemma UidPathFits(uid: int, received: bool)
    requires IsInt32(uid)
    ensures |UidPath(uid, received)| < 80
  {
    var mag: nat := if uid < 0 then -uid else uid;
    Pow10Bounds();
    NatToStringLength(mag, 10, Pow10(10));
  }

  method GetUidBytes(fs: SysFs, uid: int, received: bool) returns (r: int)
    requires IsInt32(uid)
    ensures r == ReadNumberOf(fs, UidPath(uid, received))
  {
    r := ReadNumber(fs, UidPath(uid, received));
  }
}
