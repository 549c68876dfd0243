/**
 * The record handling of IccSmsInterfaceManager: building an EF_SMS record
 * (section 10.5.3 of 3GPP TS 51.011: a status byte, the PDU, 0xFF padding),
 * listing the records in use, and the per-message-identifier subscriptions
 * to cell broadcasts.
 */
module IccSms {
  import opened Nullable

  /** A byte of a SIM record, as its unsigned value. */
  newtype byte = b: int | 0 <= b < 0x100

  /** IccConstants.SMS_RECORD_LENGTH. */
  const SMS_RECORD_LENGTH: nat := 176
  /** SmsManager.STATUS_ON_ICC_FREE. */
  const STATUS_ON_ICC_FREE: byte := 0

  /** `(byte)(status & 7)`: the low three bits of a two's-complement `int`,
      which Euclidean `% 8` gives for negative values too. */
  function StatusByte(status: int): (r: byte)
    ensures r < 8
  {
    (status % 8) as byte
  }

  /** The record makeSmsRecordData builds: status byte, PDU, then 0xFF up to
      the record length. */
  function SmsRecord(status: int, pdu: seq<byte>): (r: seq<byte>)
    requires |pdu| < SMS_RECORD_LENGTH
    ensures |r| == SMS_RECORD_LENGTH
    ensures r[0] == StatusByte(status)
    ensures r[1..|pdu| + 1] == pdu
    ensures forall j :: |pdu| + 1 <= j < SMS_RECORD_LENGTH ==> r[j] == 0xFF
  {
    [StatusByte(status)] + pdu + seq(SMS_RECORD_LENGTH - 1 - |pdu|, _ => 0xFF)
  }

  /** makeSmsRecordData. A PDU longer than the record can hold makes the
      array copy throw; that outcome is `null` here. */
  method MakeSmsRecordData(status: int, pdu: seq<byte>) returns (data: array?<byte>)
    ensures data == null <==> |pdu| >= SMS_RECORD_LENGTH
    ensures data != null ==> fresh(data) && data[..] == SmsRecord(status, pdu)
  {
    if |pdu| + 1 > SMS_RECORD_LENGTH {
      return null;
    }
    data := new byte[SMS_RECORD_LENGTH];
    data[0] := StatusByte(status);
    forall k | 0 <= k < |pdu| {
      data[k + 1] := pdu[k];
    }
    var j := |pdu| + 1;
    while j < SMS_RECORD_LENGTH
      invariant |pdu| + 1 <= j <= SMS_RECORD_LENGTH
      invariant data[0] == StatusByte(status)
      invariant forall k :: 0 <= k < |pdu| ==> data[k + 1] == pdu[k]
      invariant forall k :: |pdu| + 1 <= k < j ==> data[k] == 0xFF
    {
      data[j] := 0xFF;
      j := j + 1;
    }
    assert data[..] == SmsRecord(status, pdu);
  }

  /** A record built for a PDU gives back its status bits and, after the
      PDU, nothing but padding; so the PDU is recovered as long as it does
      not itself end in 0xFF. */
  lemma {:induction false} SmsRecordDecodes(status: int, pdu: seq<byte>)
    requires |pdu| < SMS_RECORD_LENGTH
    ensures SmsRecord(status, pdu)[0] as int == status % 8
    ensures SmsRecord(status, pdu)[1..] == pdu + seq(SMS_RECORD_LENGTH - 1 - |pdu|, _ => 0xFF)
    ensures (SmsRecord(status, pdu)[0] == STATUS_ON_ICC_FREE) <==> status % 8 == 0
  {
    var r := SmsRecord(status, pdu);
    assert r == [StatusByte(status)] + (pdu + seq(SMS_RECORD_LENGTH - 1 - |pdu|, _ => 0xFF));
  }

  /** buildValidRawData's view of one record: null when its status byte
      says the record is free. */
  function RawData(record: seq<byte>): (r: Option<seq<byte>>)
    requires |record| >= 1
    ensures r.None? <==> record[0] == STATUS_ON_ICC_FREE
    ensures r.Some? ==> r.value == record
  {
    if record[0] == STATUS_ON_ICC_FREE then None else Some(record)
  }

  /** buildValidRawData: one entry per record, in order, null exactly for
      the free ones. An empty record makes the status read throw, which
      the source does not catch; that outcome is `None`. */
  method BuildValidRawData(messages: seq<seq<byte>>) returns (ret: Option<seq<Option<seq<byte>>>>)
    ensures ret.None? <==> exists i :: 0 <= i < |messages| && |messages[i]| == 0
    ensures ret.Some? ==> |ret.value| == |messages|
    ensures ret.Some? ==> forall i :: 0 <= i < |messages| ==>
              (ret.value[i].None? <==> messages[i][0] == STATUS_ON_ICC_FREE)
              && (ret.value[i].Some? ==> ret.value[i].value == messages[i])
  {
    var list := [];
    var i := 0;
    while i < |messages|
      invariant 0 <= i <= |messages| && |list| == i
      invariant forall k :: 0 <= k < i ==> |messages[k]| >= 1 && list[k] == RawData(messages[k])
    {
      var ba := messages[i];
      if |ba| == 0 {
        return None;
      }
      if ba[0] == STATUS_ON_ICC_FREE {
        list := list + [None];
      } else {
        list := list + [Some(ba)];
      }
      i := i + 1;
    }
    ret := Some(list);
  }

  /** A record made with a non-free status is listed with its contents;
      one made with status FREE is not. */
  lemma BuiltRecordListed(status: int, pdu: seq<byte>)
    requires |pdu| < SMS_RECORD_LENGTH
    ensures RawData(SmsRecord(status, pdu)).Some? <==> status % 8 != 0
  {
    SmsRecordDecodes(status, pdu);
  }

  // ---------------------------------------------------------------------------
  // Broadcast subscriptions
  // ---------------------------------------------------------------------------

  datatype BroadcastType = TYPE_3GPP | TYPE_3GPP2

  /** Message identifier -> the clients subscribed to it. */
  type Subscriptions = map<int, set<string>>

  /** No identifier is kept without a client. */
  predicate NoEmptyEntry(subs: Subscriptions)
  {
    forall id :: id in subs ==> subs[id] != {}
  }

  function Clients(subs: Subscriptions, id: int): set<string>
  {
    if id in subs then subs[id] else {}
  }

  /** enableBroadcast on one map: a known identifier gains the client; a
      new identifier is added and the radio reconfigured with it, and is
      rolled back when `configAccepted` says the reconfiguration failed. */
  function Enabled(subs: Subscriptions, id: int, client: string, configAccepted: bool): (r: (Subscriptions, bool))
    requires NoEmptyEntry(subs)
    ensures NoEmptyEntry(r.0)
    ensures r.1 ==> Clients(r.0, id) == Clients(subs, id) + {client}
    ensures !r.1 <==> id !in subs && !configAccepted
    ensures !r.1 ==> r.0 == subs
    ensures forall other :: other != id ==> Clients(r.0, other) == Clients(subs, other)
  {
    if id in subs then (subs[id := subs[id] + {client}], true)
    else if configAccepted then (subs[id := {client}], true)
    else (subs, false)
  }

  /** disableBroadcast on one map: only a subscribed client is removed, and
      an identifier whose last client leaves is dropped. */
  function Disabled(subs: Subscriptions, id: int, client: string): (r: (Subscriptions, bool))
    requires NoEmptyEntry(subs)
    ensures NoEmptyEntry(r.0)
    ensures r.1 <==> client in Clients(subs, id)
    ensures !r.1 ==> r.0 == subs
    ensures Clients(r.0, id) == Clients(subs, id) - {client}
    ensures id in r.0 <==> Clients(subs, id) - {client} != {}
    ensures forall other :: other != id ==> Clients(r.0, other) == Clients(subs, other)
  {
    if id in subs && client in subs[id] then
      if subs[id] - {client} == {} then (subs - {id}, true)
      else (subs[id := subs[id] - {client}], true)
    else (subs, false)
  }

  /** Subscribing a client that was not subscribed and then unsubscribing
      it leaves the subscriptions as they were. */
  lemma EnableThenDisable(subs: Subscriptions, id: int, client: string, configAccepted: bool)
    requires NoEmptyEntry(subs)
    requires client !in Clients(subs, id)
    requires Enabled(subs, id, client, configAccepted).1
    ensures Disabled(Enabled(subs, id, client, configAccepted).0, id, client) == (subs, true)
  {
    if id in subs {
      var after := subs[id := subs[id] + {client}];
      assert (subs[id] + {client}) - {client} == subs[id];
      assert after[id := subs[id]] == subs;
    } else {
      var after := subs[id := {client}];
      assert after - {id} == subs;
    }
  }

  class BroadcastSubscriptions {
    var cellBroadcastSubscriptions: Subscriptions
    var cdmaBroadcastSubscriptions: Subscriptions

    predicate Valid()
      reads this
    {
      NoEmptyEntry(cellBroadcastSubscriptions) && NoEmptyEntry(cdmaBroadcastSubscriptions)
    }

    constructor ()
      ensures Valid()
      ensures cellBroadcastSubscriptions == map[] && cdmaBroadcastSubscriptions == map[]
    {
      cellBroadcastSubscriptions, cdmaBroadcastSubscriptions := map[], map[];
    }

    function Of(t: BroadcastType): Subscriptions
      reads this
    {
      if t == TYPE_3GPP then cellBroadcastSubscriptions else cdmaBroadcastSubscriptions
    }

    /** enableCellBroadcast / enableCdmaBroadcast for the calling client.
        `configAccepted` is the radio's answer to the reconfiguration that a
        new identifier triggers. */
    method EnableBroadcast(t: BroadcastType, messageIdentifier: int, client: string, configAccepted: bool)
      returns (ok: bool)
      requires Valid()
      modifies this
      ensures Valid()
      ensures (Of(t), ok) == Enabled(old(Of(t)), messageIdentifier, client, configAccepted)
      ensures t == TYPE_3GPP ==> cdmaBroadcastSubscriptions == old(cdmaBroadcastSubscriptions)
      ensures t == TYPE_3GPP2 ==> cellBroadcastSubscriptions == old(cellBroadcastSubscriptions)
    {
      var subscriptions := Of(t);
      if messageIdentifier !in subscriptions {
        subscriptions := subscriptions[messageIdentifier := {}];
        if !configAccepted {
          subscriptions := subscriptions - {messageIdentifier};
          assert subscriptions == old(Of(t));
          return false;
        }
      }
      subscriptions := subscriptions[messageIdentifier := subscriptions[messageIdentifier] + {client}];
      assert subscriptions == Enabled(old(Of(t)), messageIdentifier, client, configAccepted).0;
      if t == TYPE_3GPP {
        cellBroadcastSubscriptions := subscriptions;
      } else {
        cdmaBroadcastSubscriptions := subscriptions;
      }
      ok := true;
    }

    /** disableCellBroadcast / disableCdmaBroadcast for the calling client. */
    method DisableBroadcast(t: BroadcastType, messageIdentifier: int, client: string) returns (ok: bool)
      requires Valid()
      modifies this
      ensures Valid()
      ensures (Of(t), ok) == Disabled(old(Of(t)), messageIdentifier, client)
      ensures t == TYPE_3GPP ==> cdmaBroadcastSubscriptions == old(cdmaBroadcastSubscriptions)
      ensures t == TYPE_3GPP2 ==> cellBroadcastSubscriptions == old(cellBroadcastSubscriptions)
    {
      var subscriptions := Of(t);
      if messageIdentifier in subscriptions && client in subscriptions[messageIdentifier] {
        var clients := subscriptions[messageIdentifier] - {client};
        if clients == {} {
          subscriptions := subscriptions - {messageIdentifier};
        } else {
          subscriptions := subscriptions[messageIdentifier := clients];
        }
        if t == TYPE_3GPP {
          cellBroadcastSubscriptions := subscriptions;
        } else {
          cdmaBroadcastSubscriptions := subscriptions;
        }
        return true;
      }
      return false;
    }
  }
}
