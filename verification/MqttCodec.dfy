/** The MQTT 3.1.1 packet serializers of the client, the publish deserializer, and decoders written from the
    standard (sections 3.1, 3.8 and 3.10) for the packets the client only sends. */
module MqttCodec {
  import opened Basics
  import opened RemainingLength

  type uint16 = n: int | 0 <= n < 0x1_0000

  datatype QoS = QOS0 | QOS1

  datatype Code = SUCCESS | FAILURE | NULL_VALUE_ERROR | TX_BUFFER_TOO_SHORT | RX_BUFFER_TOO_SHORT
                | DECODE_REMAINING_LENGTH_ERROR | UNACCEPTABLE_PROTOCOL_VERSION

  const CONNECT := 1
  const PUBLISH := 3
  const SUBSCRIBE := 8
  const UNSUBSCRIBE := 10

  type Text = s: seq<byte> | |s| < 0x1_0000

  function Bit(b: bool): nat { if b then 1 else 0 }

  function Level(q: QoS): nat { if q == QOS1 then 1 else 0 }

  // ---------------------------------------------------------------- packets as byte strings

  /** aws_iot_mqtt_internal_init_header: the four fields do not overlap, so the shifts and ors add up. */
  function Header(typ: nat, qos: QoS, dup: bool, retained: bool): byte
    requires 1 <= typ <= 14
  {
    typ * 16 + Bit(dup) * 8 + Level(qos) * 2 + Bit(retained)
  }

  function U16(n: uint16): seq<byte> { [n / 256, n % 256] }

  function Utf8(s: Text): seq<byte> { U16(|s|) + s }

  /** Fixed header, remaining length and the rest of a packet. */
  function Packet(header: byte, body: seq<byte>): seq<byte> { [header] + Encode(|body|) + body }

  datatype Publication = Publication(dup: bool, qos: QoS, retained: bool, id: uint16, topic: Text, payload: seq<byte>)

  function PublishBody(p: Publication): seq<byte> {
    Utf8(p.topic) + (if p.qos == QOS1 then U16(p.id) else []) + p.payload
  }

  datatype Subscription = Subscription(topic: Text, qos: QoS)

  function SubscriptionBytes(t: Subscription): seq<byte> { Utf8(t.topic) + [Level(t.qos)] }

  function SubscriptionsBytes(ts: seq<Subscription>): seq<byte> {
    if ts == [] then [] else SubscriptionBytes(ts[0]) + SubscriptionsBytes(ts[1..])
  }

  function SubscribeBody(id: uint16, ts: seq<Subscription>): seq<byte> { U16(id) + SubscriptionsBytes(ts) }

  function TopicsBytes(ts: seq<Text>): seq<byte> {
    if ts == [] then [] else Utf8(ts[0]) + TopicsBytes(ts[1..])
  }

  function UnsubscribeBody(id: uint16, ts: seq<Text>): seq<byte> { U16(id) + TopicsBytes(ts) }

  datatype Will = Will(topic: Text, message: Text, qos: QoS, retained: bool)

  /** The connect parameters; the client id pointer and its length are separate in the source. */
  datatype ConnectParams = ConnectParams(
    version: byte, clientId: Option<Text>, clientIdLen: uint16, cleanSession: bool, keepAlive: uint16,
    will: Option<Will>, username: Option<Text>, password: Option<Text>)

  function OptionalUtf8(s: Option<Text>): seq<byte> { if s.Some? then Utf8(s.value) else [] }

  function WillBytes(w: Option<Will>): seq<byte> { if w.Some? then Utf8(w.value.topic) + Utf8(w.value.message) else [] }

  function ConnectFlags(c: ConnectParams): byte {
    Bit(c.cleanSession) * 2
    + (if c.will.Some? then 4 + Level(c.will.value.qos) * 8 + Bit(c.will.value.retained) * 32 else 0)
    + Bit(c.password.Some?) * 64 + Bit(c.username.Some?) * 128
  }

  const PROTOCOL: Text := [77, 81, 84, 84]  // "MQTT"

  function ClientId(c: ConnectParams): Text { if c.clientId.Some? then c.clientId.value else [] }

  function ConnectBody(c: ConnectParams): seq<byte> {
    Utf8(PROTOCOL) + [c.version] + [ConnectFlags(c)] + U16(c.keepAlive) + Utf8(ClientId(c)) + WillBytes(c.will)
    + OptionalUtf8(c.username) + OptionalUtf8(c.password)
  }

  // ---------------------------------------------------------------- the writing cursor

  /** A transmit buffer and the `ptr` that the write helpers advance. */
  class TxCursor {
    const buf: array<byte>
    var ptr: nat
    ghost const before: seq<byte>
    ghost var head: seq<byte>     // the fixed header, once written
    ghost var written: seq<byte>  // what was written after it

    constructor (buf: array<byte>)
      ensures this.buf == buf && before == buf[..] && head == [] && written == [] && Valid()
    {
      this.buf, ptr := buf, 0;
      before, head, written := buf[..], [], [];
    }

    /** Everything written stands at the front of the buffer, and the rest of it is as it was. */
    ghost predicate Valid()
      reads this, buf
    {
      ptr == |head| + |written| <= buf.Length == |before| && buf[..] == head + written + before[ptr..]
    }

    lemma Contents()
      requires Valid()
      ensures ptr == |head| + |written| <= buf.Length == |before| && buf[..] == head + written + before[ptr..]
    {
    }

    /** The header byte and the remaining length. */
    method WriteFixedHeader(header: byte, remLen: uint32)
      requires Valid() && ptr == 0 && 1 + |Encode(remLen)| <= buf.Length
      modifies this, buf
      ensures Valid() && head == [header] + Encode(remLen) && written == [] && ptr == 1 + |Encode(remLen)|
    {
      WriteChar(header);
      WriteLength(remLen);
      assert [] + written == [header] + Encode(remLen);
      head, written := [header] + Encode(remLen), [];
    }

    method WriteChar(c: byte)
      requires Valid() && ptr + 1 <= buf.Length
      modifies this, buf
      ensures Valid() && head == old(head) && written == old(written) + [c] && ptr == old(ptr) + 1
    {
      buf[ptr] := c;
      ptr := ptr + 1;
      written := written + [c];
    }

    method WriteUint16(n: uint16)
      requires Valid() && ptr + 2 <= buf.Length
      modifies this, buf
      ensures Valid() && head == old(head) && written == old(written) + U16(n) && ptr == old(ptr) + 2
    {
      WriteChar(n / 256);
      WriteChar(n % 256);
      assert old(written) + [n / 256] + [n % 256] == old(written) + U16(n);
    }

    method WriteBytes(s: seq<byte>)
      requires Valid() && ptr + |s| <= buf.Length
      modifies this, buf
      ensures Valid() && head == old(head) && written == old(written) + s && ptr == old(ptr) + |s|
    {
      forall i | 0 <= i < |s| {
        buf[ptr + i] := s[i];
      }
      ptr := ptr + |s|;
      written := written + s;
    }

    method WriteUtf8String(s: Text)
      requires Valid() && ptr + 2 + |s| <= buf.Length
      modifies this, buf
      ensures Valid() && head == old(head) && written == old(written) + Utf8(s) && ptr == old(ptr) + 2 + |s|
    {
      WriteUint16(|s|);
      if |s| > 0 {
        WriteBytes(s);
      }
      assert old(written) + U16(|s|) + s == old(written) + Utf8(s);
    }

    /** A field that is written only when its pointer is not NULL. */
    method WriteOptionalString(s: Option<Text>)
      requires Valid() && ptr + |OptionalUtf8(s)| <= buf.Length
      modifies this, buf
      ensures Valid() && head == old(head) && written == old(written) + OptionalUtf8(s)
      ensures ptr == old(ptr) + |OptionalUtf8(s)|
    {
      if s.Some? {
        WriteUtf8String(s.value);
      } else {
        assert written + [] == written;
      }
    }

    method WriteWill(w: Option<Will>)
      requires Valid() && ptr + |WillBytes(w)| <= buf.Length
      modifies this, buf
      ensures Valid() && head == old(head) && written == old(written) + WillBytes(w)
      ensures ptr == old(ptr) + |WillBytes(w)|
    {
      hide Valid, Utf8;
      if w.Some? {
        Utf8Length(w.value.topic);
        Utf8Length(w.value.message);
        WriteUtf8String(w.value.topic);
        WriteUtf8String(w.value.message);
        assert old(written) + Utf8(w.value.topic) + Utf8(w.value.message) == old(written) + WillBytes(w);
      } else {
        assert written + [] == written;
      }
    }

    method WriteLength(n: uint32)
      requires Valid() && ptr + |Encode(n)| <= buf.Length
      modifies this, buf
      ensures Valid() && head == old(head) && written == old(written) + Encode(n)
    {
      var k := WriteLenToBuffer(buf, ptr, n);
      ptr := ptr + k;
      written := written + Encode(n);
    }
  }

  // ---------------------------------------------------------------- the serializers

  /** What every serializer promises: too short a buffer is reported and left alone; otherwise the packet stands
      at the front of the buffer, its length is returned, and nothing is written beyond txBufLen. */
  ghost predicate Serialized(before: seq<byte>, after: seq<byte>, txBufLen: nat, packet: seq<byte>, body: seq<byte>, rc: Code, len: nat)
    requires |body| < TWO_TO_32
  {
    if FinalPacketLength(|body|) > txBufLen then rc == TX_BUFFER_TOO_SHORT && after == before
    else rc == SUCCESS && len == |packet| <= txBufLen && |packet| <= |before| && after == packet + before[|packet|..]
  }

  /** The lengths that 32 bits hold, less the one case in which the pre-check lets a packet through that is a byte
      longer than the buffer: it counts four length bytes where five are written. */
  ghost predicate Serializable(body: seq<byte>, txBufLen: nat) {
    |body| <= MAX_REMAINING || (|body| + 6 < TWO_TO_32 && txBufLen != |body| + 5)
  }

  /** That case is the only one: whenever the pre-check passes, the packet fits exactly in the cases kept. */
  lemma PacketFits(header: byte, body: seq<byte>, txBufLen: nat)
    requires |body| + 6 < TWO_TO_32 && FinalPacketLength(|body|) <= txBufLen
    ensures |Packet(header, body)| == 1 + |Encode(|body|)| + |body|
    ensures Serializable(body, txBufLen) <==> |Packet(header, body)| <= txBufLen
  {
    hide Encode;
    if |body| <= MAX_REMAINING { FinalLengthIsEnough(|body|); } else { EncodeLong(|body|); }
  }

  /** The smallest such body, in such a buffer: the pre-check passes a packet that is a byte too long. */
  lemma PreCheckTooSmall(header: byte)
    ensures var body: seq<byte> := seq(MAX_REMAINING + 1, _ => 0);
            FinalPacketLength(|body|) == |body| + 5 < |Packet(header, body)|
  {
    var body: seq<byte> := seq(MAX_REMAINING + 1, _ => 0);
    PacketFits(header, body, |body| + 5);
  }

  lemma TooShort(before: seq<byte>, txBufLen: nat, packet: seq<byte>, body: seq<byte>, len: nat)
    requires |body| < TWO_TO_32 && FinalPacketLength(|body|) > txBufLen
    ensures Serialized(before, before, txBufLen, packet, body, TX_BUFFER_TOO_SHORT, len)
  {
  }

  lemma Finished(header: byte, body: seq<byte>, head: seq<byte>, before: seq<byte>, after: seq<byte>, txBufLen: nat, ptr: nat)
    requires Serializable(body, txBufLen) && FinalPacketLength(|body|) <= txBufLen
    requires head == [header] + Encode(|body|) && ptr == |head| + |body| <= |before|
    requires after == head + body + before[ptr..]
    ensures Serialized(before, after, txBufLen, Packet(header, body), body, SUCCESS, ptr)
  {
    PacketFits(header, body, txBufLen);
  }

  /** The pre-pass of the publish serializer, in 32-bit arithmetic. */
  function PublishRemLen(p: Publication): uint32 {
    ((|p.topic| + |p.payload| + 2) % TWO_TO_32 + (if p.qos == QOS1 then 2 else 0)) % TWO_TO_32
  }

  lemma PublishSize(p: Publication)
    requires |PublishBody(p)| < TWO_TO_32
    ensures PublishRemLen(p) == |PublishBody(p)| == 2 + |p.topic| + (if p.qos == QOS1 then 2 else 0) + |p.payload|
  {
  }

  lemma Append(a: seq<byte>, b: seq<byte>)
    ensures [] + b == b && a + [] == a
  {
  }

  /** _aws_iot_mqtt_internal_serialize_publish */
  method SerializePublish(pTxBuf: array<byte>, txBufLen: nat, p: Publication) returns (rc: Code, len: nat)
    requires txBufLen <= pTxBuf.Length && Serializable(PublishBody(p), txBufLen)
    modifies pTxBuf
    ensures Serialized(old(pTxBuf[..]), pTxBuf[..], txBufLen,
                       Packet(Header(PUBLISH, p.qos, p.dup, p.retained), PublishBody(p)), PublishBody(p), rc, len)
  {
    hide TxCursor.Valid, Serialized, Packet, Encode, Header, U16, Utf8, FinalPacketLength, PublishRemLen, PublishBody;
    len := 0;
    ghost var header, body := Header(PUBLISH, p.qos, p.dup, p.retained), PublishBody(p);
    PublishSize(p);
    var remLen := PublishRemLen(p);
    if FinalPacketLength(remLen) > txBufLen {
      TooShort(pTxBuf[..], txBufLen, Packet(header, body), body, len);
      return TX_BUFFER_TOO_SHORT, len;
    }
    PacketFits(header, body, txBufLen);
    PacketSize(header, body);
    var cur := new TxCursor(pTxBuf);
    cur.WriteFixedHeader(Header(PUBLISH, p.qos, p.dup, p.retained), remLen);
    cur.WriteUtf8String(p.topic);
    Append(cur.written, Utf8(p.topic));
    if p.qos == QOS1 {
      cur.WriteUint16(p.id);
    }
    cur.WriteBytes(p.payload);
    PublishParts(p);
    len := cur.ptr;
    rc := SUCCESS;
    cur.Contents();
    Finished(header, body, cur.head, old(pTxBuf[..]), pTxBuf[..], txBufLen, len);
  }

  lemma PublishParts(p: Publication)
    ensures PublishBody(p) == if p.qos == QOS1 then Utf8(p.topic) + U16(p.id) + p.payload else Utf8(p.topic) + p.payload
  {
    hide Utf8, U16;
    Append(Utf8(p.topic), []);
  }

  lemma PacketSize(header: byte, body: seq<byte>)
    ensures |Packet(header, body)| == 1 + |Encode(|body|)| + |body|
  {
  }

  lemma Utf8Length(s: Text)
    ensures |Utf8(s)| == |s| + 2
    ensures forall n :: |U16(n)| == 2
  {
  }

  /** The loop of the subscribe serializer over its topics. */
  method WriteSubscriptions(cur: TxCursor, topics: seq<Subscription>)
    requires cur.Valid() && cur.ptr + |SubscriptionsBytes(topics)| <= cur.buf.Length
    modifies cur, cur.buf
    ensures cur.Valid() && cur.head == old(cur.head) && cur.written == old(cur.written) + SubscriptionsBytes(topics)
    ensures cur.ptr == old(cur.ptr) + |SubscriptionsBytes(topics)|
  {
    hide TxCursor.Valid, SubscriptionBytes, Utf8;
    ghost var all := cur.written + SubscriptionsBytes(topics);
    var itr := 0;
    while itr < |topics|
      invariant 0 <= itr <= |topics|
      invariant cur.Valid() && cur.head == old(cur.head)
      invariant cur.written + SubscriptionsBytes(topics[itr..]) == all
      invariant cur.ptr + |SubscriptionsBytes(topics[itr..])| == old(cur.ptr) + |SubscriptionsBytes(topics)|
    {
      SubscriptionSize(topics[itr]);
      assert topics[itr..][1..] == topics[itr + 1..];
      ghost var was := cur.written;
      cur.WriteUtf8String(topics[itr].topic);
      cur.WriteChar(Level(topics[itr].qos));
      assert cur.written == was + SubscriptionBytes(topics[itr]);
      itr := itr + 1;
    }
  }

  /** _aws_iot_mqtt_serialize_subscribe */
  method SerializeSubscribe(pTxBuf: array<byte>, txBufLen: nat, dup: bool, packetId: uint16, topics: seq<Subscription>)
    returns (rc: Code, len: nat)
    requires txBufLen <= pTxBuf.Length && Serializable(SubscribeBody(packetId, topics), txBufLen)
    modifies pTxBuf
    ensures Serialized(old(pTxBuf[..]), pTxBuf[..], txBufLen,
                       Packet(Header(SUBSCRIBE, QOS1, dup, false), SubscribeBody(packetId, topics)),
                       SubscribeBody(packetId, topics), rc, len)
  {
    hide TxCursor.Valid, Serialized, Packet, Encode, Header, U16, Utf8, FinalPacketLength, SubscriptionBytes;
    len := 0;
    ghost var header, body := Header(SUBSCRIBE, QOS1, dup, false), SubscribeBody(packetId, topics);
    Utf8Length([]);
    var remLen: uint32 := 2;
    var itr := 0;
    while itr < |topics|
      invariant 0 <= itr <= |topics|
      invariant remLen + |SubscriptionsBytes(topics[itr..])| == |body| && pTxBuf[..] == old(pTxBuf[..])
    {
      SubscriptionSize(topics[itr]);
      assert topics[itr..][1..] == topics[itr + 1..];
      remLen := remLen + (|topics[itr].topic| + 2 + 1);
      itr := itr + 1;
    }
    if FinalPacketLength(remLen) > txBufLen {
      TooShort(pTxBuf[..], txBufLen, Packet(header, body), body, len);
      return TX_BUFFER_TOO_SHORT, len;
    }
    PacketFits(header, body, txBufLen);
    PacketSize(header, body);
    var cur := new TxCursor(pTxBuf);
    cur.WriteFixedHeader(Header(SUBSCRIBE, QOS1, dup, false), remLen);
    cur.WriteUint16(packetId);
    WriteSubscriptions(cur, topics);
    len := cur.ptr;
    rc := SUCCESS;
    cur.Contents();
    assert cur.written == body;
    Finished(header, body, cur.head, old(pTxBuf[..]), pTxBuf[..], txBufLen, len);
  }

  lemma SubscriptionSize(t: Subscription)
    ensures SubscriptionBytes(t) == Utf8(t.topic) + [Level(t.qos)] && |SubscriptionBytes(t)| == |t.topic| + 3
  {
  }

  /** The length pre-pass of the unsubscribe serializer. */
  method UnsubscribeRemLen(id: uint16, topics: seq<Text>) returns (remLen: uint32)
    requires |UnsubscribeBody(id, topics)| < TWO_TO_32
    ensures remLen == |UnsubscribeBody(id, topics)|
  {
    hide U16, Utf8;
    Utf8Length([]);
    remLen := 2;
    var i := 0;
    while i < |topics|
      invariant 0 <= i <= |topics|
      invariant remLen + |TopicsBytes(topics[i..])| == |UnsubscribeBody(id, topics)|
    {
      Utf8Length(topics[i]);
      assert topics[i..][1..] == topics[i + 1..];
      remLen := remLen + (|topics[i]| + 2);
      i := i + 1;
    }
  }

  method WriteTopics(cur: TxCursor, topics: seq<Text>)
    requires cur.Valid() && cur.ptr + |TopicsBytes(topics)| <= cur.buf.Length
    modifies cur, cur.buf
    ensures cur.Valid() && cur.head == old(cur.head) && cur.written == old(cur.written) + TopicsBytes(topics)
    ensures cur.ptr == old(cur.ptr) + |TopicsBytes(topics)|
  {
    hide TxCursor.Valid, Utf8;
    var i := 0;
    assert topics[0..] == topics;
    while i < |topics|
      invariant 0 <= i <= |topics| && cur.Valid() && cur.head == old(cur.head)
      invariant cur.written + TopicsBytes(topics[i..]) == old(cur.written) + TopicsBytes(topics)
      invariant cur.ptr + |TopicsBytes(topics[i..])| == old(cur.ptr) + |TopicsBytes(topics)|
    {
      Utf8Length(topics[i]);
      assert topics[i..][1..] == topics[i + 1..];
      ghost var was := cur.written;
      cur.WriteUtf8String(topics[i]);
      assert was + (Utf8(topics[i]) + TopicsBytes(topics[i + 1..])) == cur.written + TopicsBytes(topics[i + 1..]);
      i := i + 1;
    }
  }

  /** _aws_iot_mqtt_serialize_unsubscribe */
  method SerializeUnsubscribe(pTxBuf: array<byte>, txBufLen: nat, dup: bool, packetId: uint16, topics: seq<Text>)
    returns (rc: Code, len: nat)
    requires txBufLen <= pTxBuf.Length && Serializable(UnsubscribeBody(packetId, topics), txBufLen)
    modifies pTxBuf
    ensures Serialized(old(pTxBuf[..]), pTxBuf[..], txBufLen,
                       Packet(Header(UNSUBSCRIBE, QOS1, dup, false), UnsubscribeBody(packetId, topics)),
                       UnsubscribeBody(packetId, topics), rc, len)
  {
    hide TxCursor.Valid, Serialized, Packet, Encode, Header, U16, TopicsBytes, FinalPacketLength;
    len := 0;
    ghost var header, body := Header(UNSUBSCRIBE, QOS1, dup, false), UnsubscribeBody(packetId, topics);
    var remLen := UnsubscribeRemLen(packetId, topics);
    if FinalPacketLength(remLen) > txBufLen {
      TooShort(pTxBuf[..], txBufLen, Packet(header, body), body, len);
      return TX_BUFFER_TOO_SHORT, len;
    }
    PacketFits(header, body, txBufLen);
    PacketSize(header, body);
    Utf8Length([]);
    var cur := new TxCursor(pTxBuf);
    cur.WriteFixedHeader(Header(UNSUBSCRIBE, QOS1, dup, false), remLen);
    cur.WriteUint16(packetId);
    Append(cur.written, U16(packetId));
    WriteTopics(cur, topics);
    len := cur.ptr;
    rc := SUCCESS;
    cur.Contents();
    Finished(header, body, cur.head, old(pTxBuf[..]), pTxBuf[..], txBufLen, len);
  }

  /** _aws_iot_get_connect_packet_length */
  function ConnectPacketLength(c: ConnectParams): nat {
    10 + c.clientIdLen + 2
    + (if c.will.Some? then |c.will.value.topic| + 2 + |c.will.value.message| + 2 else 0)
    + (if c.username.Some? then |c.username.value| + 2 else 0)
    + (if c.password.Some? then |c.password.value| + 2 else 0)
  }

  /** _aws_iot_mqtt_serialize_connect */
  method SerializeConnect(pTxBuf: array<byte>, txBufLen: nat, c: ConnectParams) returns (rc: Code, len: nat)
    requires txBufLen <= pTxBuf.Length && (c.clientId.Some? ==> |c.clientId.value| == c.clientIdLen)
    modifies pTxBuf
    ensures if c.clientId.Some? <==> c.clientIdLen == 0 then rc == NULL_VALUE_ERROR && pTxBuf[..] == old(pTxBuf[..])
            else if c.version != 4 then rc == UNACCEPTABLE_PROTOCOL_VERSION && pTxBuf[..] == old(pTxBuf[..])
            else Serialized(old(pTxBuf[..]), pTxBuf[..], txBufLen,
                            Packet(Header(CONNECT, QOS0, false, false), ConnectBody(c)), ConnectBody(c), rc, len)
  {
    hide TxCursor.Valid, Serialized, Packet, Encode, Header, U16, Utf8, FinalPacketLength, ConnectFlags, ConnectBody, WillBytes, OptionalUtf8;
    len := 0;
    if (c.clientId.None? && c.clientIdLen != 0) || (c.clientId.Some? && c.clientIdLen == 0) {
      return NULL_VALUE_ERROR, len;
    }
    if c.version != 4 {
      return UNACCEPTABLE_PROTOCOL_VERSION, len;
    }
    ghost var header, body := Header(CONNECT, QOS0, false, false), ConnectBody(c);
    ConnectSize(c);
    var remLen := ConnectPacketLength(c);
    if FinalPacketLength(remLen) > txBufLen {
      TooShort(pTxBuf[..], txBufLen, Packet(header, body), body, len);
      return TX_BUFFER_TOO_SHORT, len;
    }
    PacketFits(header, body, txBufLen);
    PacketSize(header, body);
    ConnectParts(c);
    var cur := new TxCursor(pTxBuf);
    cur.WriteFixedHeader(Header(CONNECT, QOS0, false, false), remLen);
    cur.WriteUtf8String(PROTOCOL);
    Append(cur.written, Utf8(PROTOCOL));
    cur.WriteChar(c.version);
    cur.WriteChar(ConnectFlags(c));
    cur.WriteUint16(c.keepAlive);
    EmptyUtf8();
    if c.clientId.None? {
      cur.WriteUint16(0);
    } else {
      cur.WriteUtf8String(c.clientId.value);
    }
    cur.WriteWill(c.will);
    cur.WriteOptionalString(c.username);
    cur.WriteOptionalString(c.password);
    len := cur.ptr;
    rc := SUCCESS;
    cur.Contents();
    Finished(header, body, cur.head, old(pTxBuf[..]), pTxBuf[..], txBufLen, len);
  }

  lemma EmptyUtf8()
    ensures U16(0) == Utf8([])
  {
  }

  lemma ConnectParts(c: ConnectParams)
    ensures ConnectBody(c) ==
      Utf8(PROTOCOL) + [c.version] + [ConnectFlags(c)] + U16(c.keepAlive) + Utf8(ClientId(c)) + WillBytes(c.will)
      + OptionalUtf8(c.username) + OptionalUtf8(c.password)
    ensures |ConnectBody(c)| == 12 + |Utf8(ClientId(c))| - 2 + |WillBytes(c.will)| + |OptionalUtf8(c.username)| + |OptionalUtf8(c.password)|
    ensures |Utf8(PROTOCOL)| == 6 && |U16(c.keepAlive)| == 2 && |Utf8(ClientId(c))| == 2 + |ClientId(c)|
  {
  }

  lemma ConnectSize(c: ConnectParams)
    requires (c.clientId.Some? ==> |c.clientId.value| == c.clientIdLen) && (c.clientId.None? ==> c.clientIdLen == 0)
    ensures |ConnectBody(c)| == ConnectPacketLength(c) < 400000
  {
  }

  // ---------------------------------------------------------------- decoders written from the standard

  /** A value taken from the front of a byte string, and what follows it. */
  datatype Taken<+T> = Taken(value: T, rest: seq<byte>) | Malformed

  function TakeU16(bs: seq<byte>): Taken<uint16> {
    if |bs| < 2 then Malformed else Taken((bs[0] as int) * 256 + bs[1], bs[2..])
  }

  /** Section 1.5.3: a two-byte length and that many bytes. */
  function TakeText(bs: seq<byte>): Taken<Text> {
    var n := TakeU16(bs);
    if n.Malformed? || |n.rest| < n.value then Malformed else Taken(n.rest[..n.value], n.rest[n.value..])
  }

  lemma TakeU16Of(n: uint16, rest: seq<byte>)
    ensures TakeU16(U16(n) + rest) == Taken(n, rest)
  {
  }

  lemma TakeTextOf(s: Text, rest: seq<byte>)
    ensures TakeText(Utf8(s) + rest) == Taken(s, rest)
  {
    assert Utf8(s) + rest == U16(|s|) + (s + rest);
    TakeU16Of(|s|, s + rest);
  }

  /** Section 2.2: the header byte, and as many bytes as the remaining length says, with none left over. */
  function TakeFrame(bs: seq<byte>): Taken<byte> {
    if bs == [] then Malformed
    else
      var d := Decode(bs, 1);
      if d.Decoded? && 1 + d.used <= |bs| && |bs| == 1 + d.used + d.value then Taken(bs[0], bs[1 + d.used..]) else Malformed
  }

  lemma TakeFrameOf(header: byte, body: seq<byte>)
    requires |body| <= MAX_REMAINING
    ensures TakeFrame(Packet(header, body)) == Taken(header, body)
  {
    var bs := Packet(header, body);
    var e := Encode(|body|);
    assert bs[1..1 + |e|] == e;
    DecodeEncoded(bs, 1, |body|);
    assert bs[1 + |e|..] == body;
  }

  /** Section 3.8.3: pairs of a topic filter and a requested QoS. */
  function TakeSubscriptions(bs: seq<byte>): Option<seq<Subscription>>
    decreases |bs|
  {
    if bs == [] then Some([])
    else
      var t := TakeText(bs);
      if t.Malformed? || t.rest == [] || t.rest[0] > 1 then None
      else
        var more := TakeSubscriptions(t.rest[1..]);
        if more.None? then None
        else Some([Subscription(t.value, if t.rest[0] == 1 then QOS1 else QOS0)] + more.value)
  }

  lemma {:induction false} TakeSubscriptionsOf(ts: seq<Subscription>)
    ensures TakeSubscriptions(SubscriptionsBytes(ts)) == Some(ts)
    decreases |ts|
  {
    hide TakeText, Utf8;
    if ts != [] {
      assert ts == [ts[0]] + ts[1..];
      var tail := [Level(ts[0].qos)] + SubscriptionsBytes(ts[1..]);
      assert SubscriptionsBytes(ts) == Utf8(ts[0].topic) + tail;
      Utf8Length(ts[0].topic);
      TakeTextOf(ts[0].topic, tail);
      assert tail[1..] == SubscriptionsBytes(ts[1..]);
      TakeSubscriptionsOf(ts[1..]);
    }
  }

  /** Section 3.8: fixed header 0x82, a packet identifier and at least one subscription. */
  function DecodeSubscribe(bs: seq<byte>): Option<(uint16, seq<Subscription>)> {
    var f := TakeFrame(bs);
    if f.Malformed? || f.value != 0x82 then None
    else
      var id := TakeU16(f.rest);
      if id.Malformed? then None
      else
        var ts := TakeSubscriptions(id.rest);
        if ts.None? || ts.value == [] then None else Some((id.value, ts.value))
  }

  /** A subscribe packet decodes to what was asked for, unless it carries the dup flag, which the standard
      reserves, or no topic at all; then a conforming receiver rejects it. */
  lemma SubscribeRoundTrip(dup: bool, id: uint16, ts: seq<Subscription>)
    requires |SubscribeBody(id, ts)| <= MAX_REMAINING
    ensures DecodeSubscribe(Packet(Header(SUBSCRIBE, QOS1, dup, false), SubscribeBody(id, ts)))
            == if dup || ts == [] then None else Some((id, ts))
  {
    hide Packet, TakeFrame, U16, TakeU16, SubscriptionsBytes, TakeSubscriptions;
    TakeFrameOf(Header(SUBSCRIBE, QOS1, dup, false), SubscribeBody(id, ts));
    TakeU16Of(id, SubscriptionsBytes(ts));
    TakeSubscriptionsOf(ts);
  }

  function TakeTopics(bs: seq<byte>): Option<seq<Text>>
    decreases |bs|
  {
    if bs == [] then Some([])
    else
      var t := TakeText(bs);
      if t.Malformed? then None
      else
        var more := TakeTopics(t.rest);
        if more.None? then None else Some([t.value] + more.value)
  }

  lemma {:induction false} TakeTopicsOf(ts: seq<Text>)
    ensures TakeTopics(TopicsBytes(ts)) == Some(ts)
    decreases |ts|
  {
    hide TakeText, Utf8;
    if ts != [] {
      assert ts == [ts[0]] + ts[1..];
      Utf8Length(ts[0]);
      TakeTextOf(ts[0], TopicsBytes(ts[1..]));
      TakeTopicsOf(ts[1..]);
    }
  }

  /** Section 3.10: fixed header 0xA2, a packet identifier and at least one topic filter. */
  function DecodeUnsubscribe(bs: seq<byte>): Option<(uint16, seq<Text>)> {
    var f := TakeFrame(bs);
    if f.Malformed? || f.value != 0xA2 then None
    else
      var id := TakeU16(f.rest);
      if id.Malformed? then None
      else
        var ts := TakeTopics(id.rest);
        if ts.None? || ts.value == [] then None else Some((id.value, ts.value))
  }

  lemma UnsubscribeRoundTrip(dup: bool, id: uint16, ts: seq<Text>)
    requires |UnsubscribeBody(id, ts)| <= MAX_REMAINING
    ensures DecodeUnsubscribe(Packet(Header(UNSUBSCRIBE, QOS1, dup, false), UnsubscribeBody(id, ts)))
            == if dup || ts == [] then None else Some((id, ts))
  {
    hide Packet, TakeFrame, U16, TakeU16, TopicsBytes, TakeTopics;
    TakeFrameOf(Header(UNSUBSCRIBE, QOS1, dup, false), UnsubscribeBody(id, ts));
    TakeU16Of(id, TopicsBytes(ts));
    TakeTopicsOf(ts);
  }

  function BitAt(b: byte, weight: nat): bool
    requires weight > 0
  {
    b / weight % 2 == 1
  }

  function TakeOptional(present: bool, bs: seq<byte>): Taken<Option<Text>> {
    if !present then Taken(None, bs)
    else
      var t := TakeText(bs);
      if t.Malformed? then Malformed else Taken(Some(t.value), t.rest)
  }

  function TakeWill(present: bool, qos: QoS, retained: bool, bs: seq<byte>): Taken<Option<Will>> {
    if !present then Taken(None, bs)
    else
      var t := TakeText(bs);
      if t.Malformed? then Malformed
      else
        var m := TakeText(t.rest);
        if m.Malformed? then Malformed else Taken(Some(Will(t.value, m.value, qos, retained)), m.rest)
  }

  /** Section 3.1.2.3: bit 0 is reserved, the will bits are zero without a will, a password needs a user name. */
  predicate LegalFlags(f: byte) {
    && f % 2 == 0
    && (if BitAt(f, 4) then f / 8 % 4 <= 1 else f / 8 % 8 == 0)
    && (BitAt(f, 64) ==> BitAt(f, 128))
  }

  /** Sections 3.1.2 and 3.1.3: protocol name and level, flags, keep alive; then client id, will, user name, password. */
  function DecodeConnect(bs: seq<byte>): Option<ConnectParams> {
    var f := TakeFrame(bs);
    if f.Malformed? || f.value != 0x10 then None else DecodeConnectBody(f.rest)
  }

  function DecodeConnectBody(bs: seq<byte>): Option<ConnectParams> {
    var name := TakeText(bs);
    if name.Malformed? || name.value != PROTOCOL || |name.rest| < 2 || name.rest[0] != 4 then None
    else
      var flags := name.rest[1];
      var keepAlive := TakeU16(name.rest[2..]);
      if !LegalFlags(flags) || keepAlive.Malformed? then None
      else DecodeConnectPayload(flags, keepAlive.value, keepAlive.rest)
  }

  function DecodeConnectPayload(flags: byte, keepAlive: uint16, bs: seq<byte>): Option<ConnectParams> {
    var id := TakeText(bs);
    if id.Malformed? then None
    else
      var will := TakeWill(BitAt(flags, 4), if BitAt(flags, 8) then QOS1 else QOS0, BitAt(flags, 32), id.rest);
      if will.Malformed? then None
      else
        var user := TakeOptional(BitAt(flags, 128), will.rest);
        if user.Malformed? then None
        else
          var pass := TakeOptional(BitAt(flags, 64), user.rest);
          if pass.Malformed? || pass.rest != [] then None
          else
            Some(ConnectParams(4, if id.value == [] then None else Some(id.value), |id.value|, BitAt(flags, 2), keepAlive,
                               will.value, user.value, pass.value))
  }

  lemma FlagBits(c: ConnectParams)
    ensures var f := ConnectFlags(c);
            && f % 2 == 0 && BitAt(f, 2) == c.cleanSession && BitAt(f, 4) == c.will.Some?
            && BitAt(f, 64) == c.password.Some? && BitAt(f, 128) == c.username.Some?
            && (c.will.Some? ==> f / 8 % 4 == Level(c.will.value.qos) && BitAt(f, 8) == (c.will.value.qos == QOS1)
                                 && BitAt(f, 32) == c.will.value.retained)
            && (c.will.None? ==> f / 8 % 8 == 0)
  {
    hide Bit, Level;
    var will := c.will.Some?;
    FlagParts(Bit(c.cleanSession), if will then 1 else 0, if will then Level(c.will.value.qos) else 0,
              if will then Bit(c.will.value.retained) else 0, Bit(c.password.Some?), Bit(c.username.Some?));
    BitsMean(c.cleanSession);
    BitsMean(c.password.Some?);
    BitsMean(c.username.Some?);
    if will {
      BitsMean(c.will.value.retained);
      LevelMeans(c.will.value.qos);
    }
  }

  lemma BitsMean(b: bool)
    ensures 0 <= Bit(b) <= 1 && (Bit(b) == 1 <==> b)
  {
  }

  lemma LevelMeans(q: QoS)
    ensures 0 <= Level(q) <= 1 && (Level(q) == 1 <==> q == QOS1)
  {
  }

  /** The six flag bits, read back one by one. */
  lemma FlagParts(clean: nat, will: nat, qos: nat, retained: nat, password: nat, user: nat)
    ensures var f := clean * 2 + will * 4 + qos * 8 + retained * 32 + password * 64 + user * 128;
            clean <= 1 && will <= 1 && qos <= 1 && retained <= 1 && password <= 1 && user <= 1 ==>
              && f % 2 == 0 && f / 2 % 2 == clean && f / 4 % 2 == will && f / 8 % 2 == qos && f / 8 % 4 == qos
              && f / 32 % 2 == retained && f / 64 % 2 == password && f / 128 % 2 == user
              && f / 8 % 8 == qos + 4 * retained
  {
    var f := clean * 2 + will * 4 + qos * 8 + retained * 32 + password * 64 + user * 128;
    if clean <= 1 && will <= 1 && qos <= 1 && retained <= 1 && password <= 1 && user <= 1 {
      assert f / 2 == clean + 2 * (will + 2 * (qos + 4 * (retained + 2 * (password + 2 * user))));
      assert f / 4 == will + 2 * (qos + 4 * (retained + 2 * (password + 2 * user)));
      assert f / 8 == qos + 4 * (retained + 2 * (password + 2 * user));
      assert f / 32 == retained + 2 * (password + 2 * user);
      assert f / 64 == password + 2 * user;
      assert f / 128 == user;
    }
  }

  lemma TakeOptionalOf(s: Option<Text>, rest: seq<byte>)
    ensures TakeOptional(s.Some?, OptionalUtf8(s) + rest) == Taken(s, rest)
  {
    hide TakeText, Utf8;
    if s.Some? { TakeTextOf(s.value, rest); } else { assert [] + rest == rest; }
  }

  lemma TakeWillOf(w: Option<Will>, rest: seq<byte>)
    ensures var qos := if w.Some? then w.value.qos else QOS0;
            var retained := w.Some? && w.value.retained;
            TakeWill(w.Some?, qos, retained, WillBytes(w) + rest) == Taken(w, rest)
  {
    hide TakeText, Utf8;
    if w.Some? {
      assert WillBytes(w) + rest == Utf8(w.value.topic) + (Utf8(w.value.message) + rest);
      TakeTextOf(w.value.topic, Utf8(w.value.message) + rest);
      TakeTextOf(w.value.message, rest);
    } else {
      assert [] + rest == rest;
    }
  }

  lemma PayloadRoundTrip(c: ConnectParams)
    requires c.version == 4 && (c.clientId.Some? <==> c.clientIdLen != 0) && |ClientId(c)| == c.clientIdLen
    ensures DecodeConnectPayload(ConnectFlags(c), c.keepAlive,
                                 Utf8(ClientId(c)) + (WillBytes(c.will) + (OptionalUtf8(c.username) + (OptionalUtf8(c.password) + []))))
            == Some(c)
  {
    hide TakeText, Utf8, TakeWill, TakeOptional, WillBytes, OptionalUtf8, ConnectFlags, BitAt;
    var pass := OptionalUtf8(c.password) + [];
    var user := OptionalUtf8(c.username) + pass;
    FlagBits(c);
    TakeTextOf(ClientId(c), WillBytes(c.will) + user);
    TakeWillOf(c.will, user);
    if c.will.None? { TakeWillAbsent(c.will, WillBytes(c.will) + user); }
    TakeOptionalOf(c.username, pass);
    TakeOptionalOf(c.password, []);
  }

  lemma TakeWillAbsent(w: Option<Will>, bs: seq<byte>)
    requires w.None?
    ensures forall qos, retained, q', r' :: TakeWill(false, qos, retained, bs) == TakeWill(false, q', r', bs)
  {
  }

  /** A connect packet decodes to its parameters exactly when a password comes with a user name; otherwise the
      flags are ones the standard forbids and the packet is rejected. */
  lemma ConnectRoundTrip(c: ConnectParams)
    requires c.version == 4 && (c.clientId.Some? <==> c.clientIdLen != 0) && |ClientId(c)| == c.clientIdLen
    ensures |ConnectBody(c)| <= MAX_REMAINING
    ensures DecodeConnect(Packet(Header(CONNECT, QOS0, false, false), ConnectBody(c)))
            == if c.password.Some? && c.username.None? then None else Some(c)
  {
    hide Packet, TakeFrame, Utf8, U16, TakeText, TakeU16, WillBytes, OptionalUtf8, ConnectFlags, BitAt, DecodeConnectPayload;
    ConnectSize(c);
    var body := ConnectBody(c);
    var payload := Utf8(ClientId(c)) + (WillBytes(c.will) + (OptionalUtf8(c.username) + (OptionalUtf8(c.password) + [])));
    var tail := [c.version, ConnectFlags(c)] + (U16(c.keepAlive) + payload);
    TakeFrameOf(Header(CONNECT, QOS0, false, false), body);
    ConnectBodyParts(c);
    TakeTextOf(PROTOCOL, tail);
    assert tail[2..] == U16(c.keepAlive) + payload;
    TakeU16Of(c.keepAlive, payload);
    FlagBits(c);
    PayloadRoundTrip(c);
  }

  lemma ConnectBodyParts(c: ConnectParams)
    ensures ConnectBody(c)
      == Utf8(PROTOCOL) + ([c.version, ConnectFlags(c)] + (U16(c.keepAlive)
         + (Utf8(ClientId(c)) + (WillBytes(c.will) + (OptionalUtf8(c.username) + (OptionalUtf8(c.password) + []))))))
  {
    hide Utf8, U16, WillBytes, OptionalUtf8, ConnectFlags;
  }

  // ---------------------------------------------------------------- the publish deserializer

  /** The output parameters of the deserializer; the payload is a place in the buffer and a length. */
  datatype Received =
    | Received(dup: bool, qos: nat, retained: bool, id: Option<uint16>, topic: Text, payloadAt: nat, payloadLen: uint32)
    | Rejected(code: Code)

  /** What the comment over the function asks of its buffer: it holds the packet its remaining length announces,
      identifier included. */
  predicate Framed(buf: seq<byte>) {
    |buf| >= 4 && buf[0] / 16 == PUBLISH ==>
      match Decode(buf, 1)
      case TooLong => true
      case Truncated => false
      case Decoded(value, used) =>
        && 1 + used + value <= |buf|
        && (buf[0] / 2 % 4 != 0 && value >= 2 ==> 1 + used + 2 + U16At(buf, 1 + used) + 2 <= |buf|)
  }

  function U16At(buf: seq<byte>, i: nat): nat { if i + 1 < |buf| then (buf[i] as int) * 256 + buf[i + 1] else 0 }

  /** aws_iot_mqtt_internal_deserialize_publish; the payload length is a 32-bit pointer difference. */
  function DeserializePublish(buf: seq<byte>): Received
    requires Framed(buf)
  {
    if |buf| < 4 then Rejected(RX_BUFFER_TOO_SHORT)
    else if buf[0] / 16 != PUBLISH then Rejected(FAILURE)
    else
      match Decode(buf, 1)
      case TooLong => Rejected(DECODE_REMAINING_LENGTH_ERROR)
      case Decoded(value, used) =>
        var cur := 1 + used;
        var end := cur + value;
        if value <= 1 || cur + 2 + U16At(buf, cur) > end then Rejected(FAILURE)
        else
          var at := cur + 2;
          var n := U16At(buf, cur);
          var qos := buf[0] / 2 % 4;
          var payloadAt := at + n + (if qos != 0 then 2 else 0);
          Received(buf[0] / 8 % 2 == 1, qos, buf[0] % 2 == 1,
                   if qos != 0 then Some(U16At(buf, at + n)) else None,
                   buf[at..at + n], payloadAt, (end - payloadAt) % TWO_TO_32)
  }

  /** What is rejected, and why: fewer than four bytes; another packet type, or a packet whose remaining length has no
      room for the topic it announces; a length field of more than four bytes.  Everything else is received. */
  lemma RejectionsExactly(buf: seq<byte>)
    requires Framed(buf)
    ensures var r := DeserializePublish(buf);
            if |buf| < 4 then r == Rejected(RX_BUFFER_TOO_SHORT)
            else if !(48 <= buf[0] < 64) then r == Rejected(FAILURE)
            else match Decode(buf, 1)
              case TooLong => r == Rejected(DECODE_REMAINING_LENGTH_ERROR)
              case Decoded(value, used) =>
                if value < 2 || value < 2 + (buf[1 + used] as int) * 256 + buf[2 + used] then r == Rejected(FAILURE)
                else r.Received?
  {
    hide DecodeFrom;
    if |buf| >= 4 { DecodeBound(buf, 1); }
  }

  /** Where the topic of a received publication ends, counted from the start of the packet's body. */
  function TopicEnd(r: Received): nat
    requires r.Received?
  {
    2 + |r.topic|
  }

  /** The payload as reported ends where the packet does if and only if the QoS is 0 or there is room for the
      identifier after the topic.  Otherwise its length has wrapped: it is 2^32 less the bytes missing. */
  lemma PayloadEndsWithPacket(buf: seq<byte>)
    requires Framed(buf) && DeserializePublish(buf).Received?
    ensures Decode(buf, 1).Decoded?
    ensures var Decoded(value, used) := Decode(buf, 1);
            var r := DeserializePublish(buf);
            var short := TopicEnd(r) + 2 - value;
            && (r.payloadAt + r.payloadLen == 1 + used + value <==> r.qos == 0 || short <= 0)
            && (r.qos != 0 && short > 0 ==> short <= 2 && r.payloadLen == TWO_TO_32 - short)
  {
    hide DecodeFrom;
    DecodeBound(buf, 1);
  }

  /** A QoS 1 publication of three bytes: topic "a" and no identifier. */
  lemma PayloadLengthWraps()
    ensures var buf: seq<byte> := [0x32, 3, 0, 1, 97, 0, 0];
            Framed(buf) && DeserializePublish(buf).Received? && DeserializePublish(buf).payloadLen == 4294967294
  {
    var buf: seq<byte> := [0x32, 3, 0, 1, 97, 0, 0];
    assert Decode(buf, 1) == Decoded(3, 1);
  }

  lemma HeaderBits(qos: QoS, dup: bool, retained: bool)
    ensures var h := Header(PUBLISH, qos, dup, retained);
            h / 16 == PUBLISH && h / 8 % 2 == Bit(dup) && h / 2 % 4 == Level(qos) && h % 2 == Bit(retained)
  {
  }

  /** Deserializing a buffer that starts with a serialized publication gives back every field of it: dup, QoS,
      retain, the identifier for QoS 1, the topic, and the payload in place. */
  lemma PublishRoundTrip(p: Publication, rest: seq<byte>)
    requires |PublishBody(p)| <= MAX_REMAINING
    ensures var buf := Packet(Header(PUBLISH, p.qos, p.dup, p.retained), PublishBody(p)) + rest;
            && Framed(buf)
            && var r := DeserializePublish(buf);
               && r.Received?
               && r.dup == p.dup && r.qos == Level(p.qos) && r.retained == p.retained && r.topic == p.topic
               && r.id == (if p.qos == QOS1 then Some(p.id) else None)
               && r.payloadLen == |p.payload| && r.payloadAt + r.payloadLen <= |buf|
               && buf[r.payloadAt..r.payloadAt + r.payloadLen] == p.payload
  {
    hide Header, Decode, Encode, Packet, PublishBody, U16At;
    var h := Header(PUBLISH, p.qos, p.dup, p.retained);
    var body := PublishBody(p);
    var e := Encode(|body|);
    var buf := Packet(h, body) + rest;
    HeaderBits(p.qos, p.dup, p.retained);
    PublishAt(h, p, rest, e);
    DecodeEncoded(buf, 1, |body|);
  }

  lemma PublishAt(h: byte, p: Publication, rest: seq<byte>, e: seq<byte>)
    requires e == Encode(|PublishBody(p)|)
    ensures var body := PublishBody(p);
            var buf := Packet(h, body) + rest;
            var cur := 1 + |e|;
            var n := |p.topic|;
            var k := if p.qos == QOS1 then 2 else 0;
            && buf[0] == h && |buf| == cur + |body| + |rest| && |body| == 2 + n + k + |p.payload|
            && buf[1..cur] == e
            && U16At(buf, cur) == n && buf[cur + 2..cur + 2 + n] == p.topic
            && (p.qos == QOS1 ==> U16At(buf, cur + 2 + n) == p.id)
            && buf[cur + 2 + n + k..cur + |body|] == p.payload
  {
    hide PublishBody, U16At, Encode;
    var body := PublishBody(p);
    var buf := Packet(h, body) + rest;
    var cur, n := 1 + |e|, |p.topic|;
    BodyParts(p);
    assert buf[1..cur] == e;
    assert buf[cur..cur + |body|] == body;
    Within(buf, cur, body, 2, 2 + n);
    Within(buf, cur, body, if p.qos == QOS1 then n + 4 else n + 2, |body|);
    U16Within(buf, cur, body, 0);
    if p.qos == QOS1 { U16Within(buf, cur, body, 2 + n); }
  }

  lemma BodyParts(p: Publication)
    ensures var body := PublishBody(p);
            var n := |p.topic|;
            var k := if p.qos == QOS1 then 2 else 0;
            && |body| == 2 + n + k + |p.payload|
            && U16At(body, 0) == n && body[2..2 + n] == p.topic
            && (p.qos == QOS1 ==> U16At(body, 2 + n) == p.id)
            && body[2 + n + k..] == p.payload
  {
  }

  /** Part of a body, seen in the buffer that holds it at `at`. */
  lemma Within(buf: seq<byte>, at: nat, body: seq<byte>, lo: nat, hi: nat)
    requires at + |body| <= |buf| && buf[at..at + |body|] == body && lo <= hi <= |body|
    ensures buf[at + lo..at + hi] == body[lo..hi]
  {
    var part, whole := buf[at + lo..at + hi], buf[at..at + |body|];
    forall i | 0 <= i < |part|
      ensures part[i] == body[lo..hi][i]
    {
      assert whole[lo + i] == body[lo + i];
    }
  }

  lemma U16Within(buf: seq<byte>, at: nat, body: seq<byte>, i: nat)
    requires at + |body| <= |buf| && buf[at..at + |body|] == body && i + 1 < |body|
    ensures U16At(buf, at + i) == U16At(body, i)
  {
    assert buf[at + i] == buf[at..at + |body|][i] && buf[at + i + 1] == buf[at..at + |body|][i + 1];
  }

  /** The deserializer as written, with a cursor into the receive buffer. */
  method DeserializePublishFrom(pRxBuf: array<byte>) returns (r: Received)
    requires Framed(pRxBuf[..])
    ensures r == DeserializePublish(pRxBuf[..])
  {
    if 4 > pRxBuf.Length {
      return Rejected(RX_BUFFER_TOO_SHORT);
    }
    var curData := 0;
    var header: int := pRxBuf[curData];
    curData := curData + 1;
    if header / 16 != PUBLISH {
      return Rejected(FAILURE);
    }
    var ok, decodedLen, readBytesLen := DecodeFromBuffer(pRxBuf, curData);
    if !ok {
      return Rejected(DECODE_REMAINING_LENGTH_ERROR);
    }
    curData := curData + readBytesLen;
    var endData := curData + decodedLen;
    if endData - curData <= 1 {
      return Rejected(FAILURE);
    }
    var topicLen: int := pRxBuf[curData + 1] + 256 * (pRxBuf[curData] as int);
    curData := curData + 2;
    if curData + topicLen > endData {
      return Rejected(FAILURE);
    }
    var topic := pRxBuf[curData..curData + topicLen];
    curData := curData + topicLen;
    var qos := header / 2 % 4;
    var id := None;
    if qos != 0 {
      id := Some(pRxBuf[curData + 1] + 256 * (pRxBuf[curData] as int));
      curData := curData + 2;
    }
    return Received(header / 8 % 2 == 1, qos, header % 2 == 1, id, topic, curData, (endData - curData) % TWO_TO_32);
  }
}
