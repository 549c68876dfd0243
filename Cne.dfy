/**
 * The self-contained pieces of the connectivity engine client (CNE): the
 * bounded pool of request objects with their serial numbers, the text form
 * of a serial, the length-prefixed frames read off the engine's socket,
 * the bandwidth strings of link requirements, the choice of the next radio
 * access technology (RAT) to try, and the integer codes of network states.
 */
module Cne {
  import opened Nullable
  import opened JavaText

  /** A byte off the socket, as its unsigned value. */
  newtype byte = b: int | 0 <= b < 0x100

  // ---------------------------------------------------------------------------
  // The request pool (CNERequest)
  // ---------------------------------------------------------------------------

  const MAX_POOL_SIZE: int := 4

  /** One request to the engine: its serial, its request code and the first
      two `int`s written into its parcel. */
  class CNERequest {
    var serial: int
    var request: int
    var parcel: seq<int>

    constructor ()
      ensures serial == 0 && request == 0 && parcel == []
    {
      serial, request, parcel := 0, 0, [];
    }
  }

  /** The class-wide state of CNERequest: the free list (`sPool`, linked
      through `mNext`, here the list from its head), its size and the next
      serial. */
  class RequestPool {
    var pool: seq<CNERequest>
    var poolSize: int
    var nextSerial: int

    /** The size field counts the free list, which never holds more than
        MAX_POOL_SIZE requests, none of them twice. */
    predicate Valid()
      reads this
    {
      && poolSize == |pool|
      && 0 <= poolSize <= MAX_POOL_SIZE
      && IsInt32(nextSerial)
      && forall i, j :: 0 <= i < j < |pool| ==> pool[i] != pool[j]
    }

    constructor ()
      ensures Valid() && pool == [] && nextSerial == 0
    {
      pool, poolSize, nextSerial := [], 0, 0;
    }

    /** obtain: the head of the free list, or a new request when the list is
        empty; it takes the next serial (an `int` that wraps) and its parcel
        starts with the request code and the serial. */
    method Obtain(request: int) returns (rr: CNERequest)
      requires Valid()
      modifies this, pool
      ensures Valid()
      ensures old(pool) != [] ==> rr == old(pool[0]) && pool == old(pool[1..])
      ensures old(pool) == [] ==> fresh(rr) && pool == []
      ensures rr.serial == old(nextSerial) && nextSerial == Wrap32(old(nextSerial) + 1)
      ensures rr.request == request && rr.parcel == [request, rr.serial]
      ensures forall q :: q in pool ==> q.serial == old(q.serial) && q.request == old(q.request) && q.parcel == old(q.parcel)
    {
      if pool != [] {
        rr := pool[0];
        pool := pool[1..];
        poolSize := poolSize - 1;
      } else {
        rr := new CNERequest();
      }
      rr.serial := nextSerial;
      nextSerial := Wrap32(nextSerial + 1);
      rr.request := request;
      rr.parcel := [request, rr.serial];
    }

    /** release: the request goes back on the free list unless the list is
        full. The source asks that a request be released once per use,
        hence that it is not on the list already. */
    method Release(r: CNERequest)
      requires Valid()
      requires r !in pool
      modifies this
      ensures Valid()
      ensures pool == if old(poolSize) < MAX_POOL_SIZE then [r] + old(pool) else old(pool)
      ensures nextSerial == old(nextSerial)
    {
      if poolSize < MAX_POOL_SIZE {
        pool := [r] + pool;
        poolSize := poolSize + 1;
      }
    }

    /** resetSerial: numbering starts again from 0. */
    method ResetSerial()
      requires Valid()
      modifies this
      ensures Valid()
      ensures nextSerial == 0 && pool == old(pool)
    {
      nextSerial := 0;
    }
  }

  // ---------------------------------------------------------------------------
  // serialString
  // ---------------------------------------------------------------------------

  function Zeros(k: int): (r: string)
    ensures |r| == if k < 0 then 0 else k
    ensures forall i :: 0 <= i < |r| ==> r[i] == '0'
  {
    if k <= 0 then [] else seq(k, _ => '0')
  }

  /** The text serialString builds: the serial in brackets, padded on the
      left with '0' to four characters. */
  function SerialText(serial: int): string
  {
    var sn := IntToString(serial);
    "[" + Zeros(4 - |sn|) + sn + "]"
  }

  /** serialString, with the source's padding loop. */
  method SerialString(serial: int) returns (text: string)
    ensures text == SerialText(serial)
  {
    var sn := IntToString(serial);
    var sb := "[";
    var i := 0;
    var s := |sn|;
    while i < 4 - s
      invariant 0 <= i && (i <= 4 - s || i == 0)
      invariant sb == "[" + Zeros(i)
    {
      assert Zeros(i + 1) == Zeros(i) + "0";
      sb := sb + "0";
      i := i + 1;
    }
    sb := sb + sn;
    sb := sb + "]";
    assert Zeros(4 - s) == Zeros(i);
    text := sb;
  }

  /** For a non-negative serial the text is `%04d` in brackets: at least four
      digits, exactly four below 10000, reading back as the serial. */
  lemma SerialTextDecodes(serial: int)
    requires 0 <= serial <= INT32_MAX
    ensures var text := SerialText(serial);
            var inner := text[1..|text| - 1];
            && |text| >= 6 && text[0] == '[' && text[|text| - 1] == ']'
            && AllDigits(inner) && DigitsValue(inner) == serial
            && (serial < 10000 ==> |inner| == 4)
            && ParseInt(inner) == Some(serial)
  {
    var sn := NatToString(serial);
    var text := SerialText(serial);
    var z := Zeros(4 - |sn|);
    assert text[1..|text| - 1] == z + sn;
    NatToStringValue(serial);
    LeadingZerosValue(z, sn);
    ParseIntOfDigits(z + sn);
    if serial < 10000 {
      NatToStringLength(serial, 4, Pow10(4));
    }
  }

  lemma ParseIntOfDigits(s: string)
    requires |s| >= 1 && AllDigits(s) && DigitsValue(s) <= INT32_MAX
    ensures ParseInt(s) == Some(DigitsValue(s))
  {
    assert IsDigit(s[0]);
  }

  lemma {:induction false} ZerosValue(z: string)
    requires forall i :: 0 <= i < |z| ==> z[i] == '0'
    ensures AllDigits(z) && DigitsValue(z) == 0
  {
    if z != [] {
      ZerosValue(z[..|z| - 1]);
    }
  }

  /** Leading zeros do not change the value of a digit run. */
  lemma {:induction false} LeadingZerosValue(z: string, d: string)
    requires forall i :: 0 <= i < |z| ==> z[i] == '0'
    requires AllDigits(d)
    ensures AllDigits(z + d) && DigitsValue(z + d) == DigitsValue(d)
  {
    if d == [] {
      assert z + d == z;
      ZerosValue(z);
    } else {
      assert (z + d)[..|z + d| - 1] == z + d[..|d| - 1];
      LeadingZerosValue(z, d[..|d| - 1]);
    }
  }

  // ---------------------------------------------------------------------------
  // readCneMessage
  // ---------------------------------------------------------------------------

  /** The socket's input stream: the bytes it will deliver and how many it
      has delivered. */
  class ByteStream {
    var data: seq<byte>
    var pos: nat

    predicate Valid()
      reads this
    {
      pos <= |data|
    }

    constructor (data: seq<byte>)
      ensures Valid() && this.data == data && pos == 0
    {
      this.data, pos := data, 0;
    }

    function Remaining(): seq<byte>
      requires Valid()
      reads this
    {
      data[pos..]
    }

    /** `InputStream.read(b, off, len)`: 0 for an empty request, -1 at the
        end of the stream, otherwise as many bytes as asked for and
        available, stored from `off` on. */
    method Read(buffer: array<byte>, off: int, len: int) returns (count: int)
      requires Valid()
      requires 0 <= off && 0 <= len && off + len <= buffer.Length
      modifies this, buffer
      ensures Valid() && data == old(data)
      ensures len == 0 ==> count == 0
      ensures len > 0 && old(pos) == |data| ==> count == -1
      ensures len > 0 && old(pos) < |data| ==>
                1 <= count <= len && count == if len < |data| - old(pos) then len else |data| - old(pos)
      ensures count <= 0 ==> pos == old(pos)
      ensures count > 0 ==> pos == old(pos) + count
      ensures forall k :: 0 <= k < buffer.Length ==>
                buffer[k] == if off <= k < off + count then data[old(pos) + k - off] else old(buffer[k])
    {
      if len == 0 {
        return 0;
      }
      if pos == |data| {
        return -1;
      }
      count := if len < |data| - pos then len else |data| - pos;
      var start := pos;
      forall k | off <= k < off + count {
        buffer[k] := data[start + k - off];
      }
      pos := pos + count;
    }
  }

  /** What readCneMessage ends with: the length of the message now at the
      start of the buffer, the end of the stream (the source's -1), or a
      length header the buffer cannot take, on which the source's read
      throws. */
  datatype ReadOutcome = Message(length: int) | EndOfStream | BadLength(length: int)

  /** The 4-byte length header, most significant byte first, as a Java
      `int`: a first byte of 0x80 or more gives a negative length. */
  function BigEndianInt(header: seq<byte>): (r: int)
    requires |header| == 4
    ensures IsInt32(r)
    ensures header[0] < 0x80 ==> r >= 0
  {
    Wrap32(header[0] as int * 0x100_0000 + header[1] as int * 0x1_0000 + header[2] as int * 0x100 + header[3] as int)
  }

  /** The outcome of reading one frame from the bytes still to come, into a
      buffer of `capacity` bytes. */
  function FrameOutcome(rest: seq<byte>, capacity: int): ReadOutcome
  {
    if |rest| < 4 then EndOfStream
    else
      var n := BigEndianInt(rest[..4]);
      if n < 0 || n > capacity then BadLength(n)
      else if |rest| - 4 < n then EndOfStream
      else Message(n)
  }

  /** The offset/remaining loop readCneMessage runs twice: read until `n`
      bytes are at the start of the buffer, or stop at the end of the
      stream. */
  method ReadFully(stream: ByteStream, buffer: array<byte>, n: int) returns (complete: bool)
    requires stream.Valid() && 0 <= n <= buffer.Length
    modifies stream, buffer
    ensures stream.Valid() && stream.data == old(stream.data)
    ensures complete <==> n <= |old(stream.Remaining())|
    ensures complete ==> stream.pos == old(stream.pos) + n
                         && buffer[..n] == old(stream.Remaining())[..n]
    ensures !complete ==> stream.pos == |stream.data|
  {
    ghost var start := stream.pos;
    var offset := 0;
    var remaining := n;
    while remaining > 0
      invariant stream.Valid() && stream.data == old(stream.data)
      invariant 0 <= offset <= n && offset + remaining == n
      invariant stream.pos == start + offset
      invariant forall k :: 0 <= k < offset ==> buffer[k] == stream.data[start + k]
      decreases remaining
    {
      var countRead := stream.Read(buffer, offset, remaining);
      if countRead < 0 {
        return false;
      }
      offset := offset + countRead;
      remaining := remaining - countRead;
    }
    assert buffer[..n] == old(stream.Remaining())[..n];
    return true;
  }

  /** readCneMessage. Both of the source's do-while loops are `while`
      loops here: the first starts with 4 bytes to read, and for the second
      a zero-length read returns 0 and ends the loop at once. */
  method ReadCneMessage(stream: ByteStream, buffer: array<byte>) returns (r: ReadOutcome)
    requires stream.Valid() && buffer.Length >= 4
    modifies stream, buffer
    ensures stream.Valid() && stream.data == old(stream.data)
    ensures r == FrameOutcome(old(stream.Remaining()), buffer.Length)
    ensures r.EndOfStream? ==> stream.pos == |stream.data|
    ensures r.Message? ==> stream.pos == old(stream.pos) + 4 + r.length
                           && buffer[..r.length] == old(stream.Remaining())[4..4 + r.length]
  {
    ghost var rest := stream.Remaining();
    var complete := ReadFully(stream, buffer, 4);
    if !complete {
      return EndOfStream;
    }
    var messageLength := BigEndianInt(buffer[..4]);
    assert messageLength == BigEndianInt(rest[..4]);
    if messageLength < 0 || messageLength > buffer.Length {
      return BadLength(messageLength);
    }
    ghost var body := stream.Remaining();
    assert body == rest[4..];
    complete := ReadFully(stream, buffer, messageLength);
    if !complete {
      return EndOfStream;
    }
    assert buffer[..messageLength] == rest[4..4 + messageLength];
    return Message(messageLength);
  }

  /** The header a sender puts before a message of `n` bytes. */
  function LengthHeader(n: nat): (h: seq<byte>)
    requires n <= INT32_MAX
    ensures |h| == 4
  {
    var n1 := n / 0x100;
    var n2 := n1 / 0x100;
    [(n2 / 0x100) as byte, (n2 % 0x100) as byte, (n1 % 0x100) as byte, (n % 0x100) as byte]
  }

  lemma LengthHeaderDecodes(n: nat)
    requires n <= INT32_MAX
    ensures BigEndianInt(LengthHeader(n)) == n
  {
    var h := LengthHeader(n);
    var n1 := n / 0x100;
    var n2 := n1 / 0x100;
    var b0, b1, b2, b3 := n2 / 0x100, n2 % 0x100, n1 % 0x100, n % 0x100;
    assert h[0] as int == b0 && h[1] as int == b1 && h[2] as int == b2 && h[3] as int == b3;
    assert n2 == b0 * 0x100 + b1;
    assert n1 == n2 * 0x100 + b2;
    assert n == n1 * 0x100 + b3;
    assert b0 * 0x100_0000 + b1 * 0x1_0000 + b2 * 0x100 + b3 == ((b0 * 0x100 + b1) * 0x100 + b2) * 0x100 + b3;
  }

  /** A frame written as header plus message, followed by anything, reads
      back as that message when it fits the buffer, and is refused
      otherwise. */
  lemma FrameRoundTrip(message: seq<byte>, more: seq<byte>, capacity: int)
    requires |message| <= INT32_MAX
    ensures var wire := LengthHeader(|message|) + message + more;
            && (|message| <= capacity ==> FrameOutcome(wire, capacity) == Message(|message|)
                                          && wire[4..4 + |message|] == message)
            && (|message| > capacity ==> FrameOutcome(wire, capacity) == BadLength(|message|))
  {
    var wire := LengthHeader(|message|) + message + more;
    assert wire[..4] == LengthHeader(|message|);
    LengthHeaderDecodes(|message|);
    assert wire[4..4 + |message|] == message;
  }

  // ---------------------------------------------------------------------------
  // parseBwString
  // ---------------------------------------------------------------------------

  /** The value of a bandwidth string: a run of decimal digits, optionally
      followed by exactly "kbps" (thousands) or "Mbps" (millions); -1 for
      anything else. The source's `int` arithmetic wraps. */
  function BwValue(bw: string): (r: int)
    ensures IsInt32(r)
    ensures bw != [] && !IsDigit(bw[0]) ==> r == -1
  {
    var digits := DigitPrefix(bw);
    var rest := bw[|digits|..];
    if rest == [] then Wrap32(DigitsValue(digits))
    else if digits == [] then -1
    else if rest == "kbps" then Wrap32(DigitsValue(digits) * 1000)
    else if rest == "Mbps" then Wrap32(DigitsValue(digits) * 1000000)
    else -1
  }

  /** parseBwString, with the source's digit-by-digit loop. */
  method ParseBwString(bw: string) returns (result: int)
    ensures result == BwValue(bw)
  {
    result := 0;
    var i := 0;
    while i < |bw|
      invariant 0 <= i <= |bw|
      invariant AllDigits(bw[..i])
      invariant result == Wrap32(DigitsValue(bw[..i]))
    {
      var c := bw[i];
      if IsDigit(c) {
        assert bw[..i + 1][..i] == bw[..i];
        Wrap32MulAdd(DigitsValue(bw[..i]), 10, DigitValue(c));
        result := Wrap32(result * 10 + DigitValue(c));
      } else {
        assert bw == bw[..i] + bw[i..];
        DigitPrefixOfDigits(bw[..i], bw[i..]);
        assert DigitPrefix(bw) == bw[..i];
        if i == 0 {
          return -1;
        }
        var remainder := bw[i..];
        if remainder == "kbps" {
          Wrap32MulAdd(DigitsValue(bw[..i]), 1000, 0);
          result := Wrap32(result * 1000);
        } else if remainder == "Mbps" {
          Wrap32MulAdd(DigitsValue(bw[..i]), 1000000, 0);
          result := Wrap32(result * 1000000);
        } else {
          result := -1;
        }
        return;
      }
      i := i + 1;
    }
    assert bw[..i] == bw && bw + [] == bw;
    DigitPrefixOfDigits(bw, []);
  }

  datatype BwUnit = BitsPerSecond | Kbps | Mbps

  function Suffix(u: BwUnit): string
  {
    match u
    case BitsPerSecond => ""
    case Kbps => "kbps"
    case Mbps => "Mbps"
  }

  function Multiplier(u: BwUnit): nat
  {
    match u
    case BitsPerSecond => 1
    case Kbps => 1000
    case Mbps => 1000000
  }

  /** A bandwidth written as a decimal and a unit reads back as its value
      in bits per second, as long as that value fits an `int`. */
  lemma BwValueOfFormatted(n: nat, u: BwUnit)
    requires n * Multiplier(u) <= INT32_MAX
    ensures BwValue(NatToString(n) + Suffix(u)) == n * Multiplier(u)
  {
    var d := NatToString(n);
    var bw := d + Suffix(u);
    DigitPrefixOfDigits(d, Suffix(u));
    assert DigitPrefix(Suffix(u)) == [];
    assert DigitPrefix(bw) == d;
    assert bw[|d|..] == Suffix(u);
    NatToStringValue(n);
  }

  /** Any other text after the digits, or no digits before a unit, is
      refused. */
  lemma BwValueRejects(d: string, tail: string)
    requires AllDigits(d) && tail != [] && !IsDigit(tail[0])
    requires d == [] || (tail != "kbps" && tail != "Mbps")
    ensures BwValue(d + tail) == -1
  {
    DigitPrefixOfDigits(d, tail);
    assert (d + tail)[|d|..] == tail;
  }

  // ---------------------------------------------------------------------------
  // getNextRatToTry
  // ---------------------------------------------------------------------------

  const CNE_RAT_WWAN: int := 0
  const CNE_RAT_WLAN: int := 1
  const CNE_RAT_ANY: int := 2
  const CNE_RAT_NONE: int := 3
  const CNE_RAT_INVALID: int := 4

  datatype RatTriedStatus = RAT_STATUS_TRIED | RAT_STATUS_NOT_TRIED

  /** A RAT of the engine's preference list; a fresh one has no status
      (`null` in the source). */
  class RatInfo {
    var rat: int
    var status: Option<RatTriedStatus>

    constructor ()
      ensures rat == CNE_RAT_INVALID && status.None?
    {
      rat, status := CNE_RAT_INVALID, None;
    }
  }

  /** getNextRatToTry: entry 0 is the active RAT and is skipped; the first
      later entry not yet tried is marked tried and its RAT returned;
      without one the result is CNE_RAT_INVALID and nothing changes. */
  method GetNextRatToTry(ratList: seq<RatInfo>) returns (candidateRat: int)
    modifies set r | r in ratList
    ensures forall r :: r in ratList ==> r.rat == old(r.rat)
    ensures (forall k :: 1 <= k < |ratList| ==> old(ratList[k].status) != Some(RAT_STATUS_NOT_TRIED)) ==>
              candidateRat == CNE_RAT_INVALID && forall r :: r in ratList ==> r.status == old(r.status)
    ensures (exists k :: 1 <= k < |ratList| && old(ratList[k].status) == Some(RAT_STATUS_NOT_TRIED)) ==>
              exists k :: 1 <= k < |ratList| && old(ratList[k].status) == Some(RAT_STATUS_NOT_TRIED)
                          && (forall j :: 1 <= j < k ==> old(ratList[j].status) != Some(RAT_STATUS_NOT_TRIED))
                          && candidateRat == old(ratList[k].rat)
                          && ratList[k].status == Some(RAT_STATUS_TRIED)
                          && forall r :: r in ratList && r != ratList[k] ==> r.status == old(r.status)
  {
    candidateRat := CNE_RAT_INVALID;
    var index := 1;
    while index < |ratList|
      invariant forall j :: 1 <= j < index && j < |ratList| ==> ratList[j].status != Some(RAT_STATUS_NOT_TRIED)
    {
      var ratInfo := ratList[index];
      if ratInfo.status == Some(RAT_STATUS_NOT_TRIED) {
        candidateRat := ratInfo.rat;
        ratInfo.status := Some(RAT_STATUS_TRIED);
        return;
      }
      index := index + 1;
    }
  }

  // ---------------------------------------------------------------------------
  // NetworkStateToInt
  // ---------------------------------------------------------------------------

  /** android.net.NetworkInfo.State. */
  datatype NetworkState = CONNECTING | CONNECTED | SUSPENDED | DISCONNECTING | DISCONNECTED | UNKNOWN

  /** The engine's code for a network state: one per state, 0 to 5. The
      source's fall-through -1 is unreachable for a non-null state. */
  function NetworkStateToInt(state: NetworkState): (r: int)
    ensures 0 <= r <= 5
  {
    match state
    case CONNECTING => 0
    case CONNECTED => 1
    case SUSPENDED => 2
    case DISCONNECTING => 3
    case DISCONNECTED => 4
    case UNKNOWN => 5
  }

  /** Distinct states get distinct codes, so the engine can tell every state
      apart. */
  lemma NetworkStateCodesDistinct(a: NetworkState, b: NetworkState)
    ensures NetworkStateToInt(a) == NetworkStateToInt(b) <==> a == b
  {
  }
}
