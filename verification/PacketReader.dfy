/** The resumable packet reader (aws_iot_mqtt_client_common_internal.c): readBuf keeps the bytes of a packet that
    has not fully arrived, and the next call goes on from there.  The network is a byte stream cut into pieces by
    an arbitrary schedule; a read stores and reports what has arrived, and succeeds only if that is all it asked
    for. */
module PacketReader {
  import opened Basics
  import opened RemainingLength

  datatype Rc = SUCCESS | MQTT_NOTHING_TO_READ | SSL_NOTHING_TO_READ | SSL_READ_TIMEOUT | SSL_READ_ERROR
              | DECODE_REMAINING_LENGTH_ERROR | RX_BUFFER_TOO_SHORT | FAILURE

  /** What one read of the network meets: how many bytes have arrived, and whether the connection broke after them. */
  datatype Chunk = Chunk(arrived: nat, broken: bool)

  /** The receive buffer, readBufIndex, the bytes still to come and their schedule. */
  datatype State = State(buf: seq<byte>, idx: nat, rest: seq<byte>, chunks: seq<Chunk>)

  // ---------------------------------------------------------------- the network

  datatype NetStep = NetStep(s: State, rc: Rc, len: nat)

  function Arrived(chunks: seq<Chunk>): Chunk { if chunks == [] then Chunk(0, false) else chunks[0] }

  function ReadRc(asked: nat, got: nat, broken: bool): Rc {
    if got == asked then SUCCESS
    else if broken then SSL_READ_ERROR
    else if got == 0 then SSL_NOTHING_TO_READ
    else SSL_READ_TIMEOUT
  }

  function NetRead(s: State, at: nat, n: nat): (r: NetStep)
    requires at + n <= |s.buf|
    ensures |r.s.buf| == |s.buf| && r.len <= n && (r.rc == SUCCESS <==> r.len == n)
  {
    var c := Arrived(s.chunks);
    var k := Min(n, Min(c.arrived, |s.rest|));
    NetStep(State(s.buf[..at] + s.rest[..k] + s.buf[at + k..], s.idx, s.rest[k..],
                  if s.chunks == [] then [] else s.chunks[1..]),
            ReadRc(n, k, c.broken), k)
  }

  // ---------------------------------------------------------------- the reader

  /** _aws_iot_mqtt_internal_readWrapper */
  function ReadWrapper(s: State, offset: nat, size: nat): (r: NetStep)
    requires s.idx <= |s.buf| && offset + size <= |s.buf|
    ensures |r.s.buf| == |s.buf| && s.idx <= r.s.idx <= |s.buf|
  {
    if offset + size > s.idx then
      var r := NetRead(s, s.idx, offset + size - s.idx);
      NetStep(r.s.(idx := s.idx + r.len), r.rc, if s.idx + r.len >= offset then s.idx + r.len - offset else 0)
    else NetStep(s, SUCCESS, size)
  }

  datatype LenStep = LenOk(s: State, offset: nat, remLen: nat) | LenStop(s: State, rc: Rc)

  /** _aws_iot_mqtt_internal_decode_packet_remaining_len, after `len` turns. */
  function ReadLength(s: State, len: nat, multiplier: nat, acc: nat): (r: LenStep)
    requires s.idx <= |s.buf| && 5 <= |s.buf| && len <= 4
    ensures |r.s.buf| == |s.buf| && r.s.idx <= |s.buf| && (r.LenOk? ==> r.offset >= 2)
    decreases 4 - len
  {
    if len == 4 then LenStop(s, DECODE_REMAINING_LENGTH_ERROR)
    else
      var w := ReadWrapper(s, len + 1, 1);
      if w.rc != SUCCESS then LenStop(w.s, w.rc)
      else
        var b: int := w.s.buf[len + 1];
        var acc' := acc + b % 128 * multiplier;
        if b < 128 then LenOk(w.s, len + 2, acc')
        else ReadLength(w.s, len + 1, multiplier * 128, acc')
  }

  lemma LengthTurn(s: State, len: nat, multiplier: nat, acc: nat)
    requires s.idx <= |s.buf| && 5 <= |s.buf| && len < 4
    ensures var w := ReadWrapper(s, len + 1, 1);
            ReadLength(s, len, multiplier, acc) ==
              if w.rc != SUCCESS then LenStop(w.s, w.rc)
              else if w.s.buf[len + 1] < 128 then LenOk(w.s, len + 2, acc + w.s.buf[len + 1] % 128 * multiplier)
              else ReadLength(w.s, len + 1, multiplier * 128, acc + w.s.buf[len + 1] % 128 * multiplier)
  {
    hide ReadWrapper;
  }

  lemma FifthByte(s: State, multiplier: nat, acc: nat)
    requires s.idx <= |s.buf| && 5 <= |s.buf|
    ensures ReadLength(s, 4, multiplier, acc) == LenStop(s, DECODE_REMAINING_LENGTH_ERROR)
  {
  }

  datatype DrainStep = DrainStep(s: State, rc: Rc, total: nat)

  /** The loop that discards a packet too long for the buffer. */
  function Drain(s: State, remLen: nat, total: nat, toRead: nat): (r: DrainStep)
    requires 0 < toRead <= |s.buf|
    ensures |r.s.buf| == |s.buf| && r.s.idx == s.idx
    decreases if total < remLen then remLen - total else 0
  {
    var r := NetRead(s, 0, toRead);
    if r.rc != SUCCESS then DrainStep(r.s, r.rc, total)
    else
      var total' := total + toRead;
      if total' >= remLen then DrainStep(r.s, SUCCESS, total')
      else Drain(r.s, remLen, total', Min(|s.buf|, remLen - total'))
  }

  /** What a call ends with: a packet and its type in the buffer; an error code; or SUCCESS without a packet,
      which the code returns when it discards more than the packet. */
  datatype Result = Packet(typ: nat) | Error(rc: Rc) | NoPacket

  datatype PacketStep = PacketStep(s: State, result: Result)

  /** _aws_iot_mqtt_internal_read_packet */
  function ReadPacket(s: State): (r: PacketStep)
    requires s.idx <= |s.buf| && 5 <= |s.buf|
    ensures |r.s.buf| == |s.buf| && r.s.idx <= |s.buf|
  {
    var w := ReadWrapper(s, 0, 1);
    if w.rc == SSL_NOTHING_TO_READ then PacketStep(w.s, Error(MQTT_NOTHING_TO_READ))
    else if w.rc != SUCCESS then PacketStep(w.s, Error(w.rc))
    else
      var l := ReadLength(w.s, 0, 1, 0);
      if l.LenStop? then PacketStep(l.s, Error(l.rc))
      else if l.remLen + l.offset >= |s.buf| then
        var d := Drain(l.s, l.remLen, 0, |s.buf|);
        if d.total == l.remLen then PacketStep(d.s.(idx := 0), Error(RX_BUFFER_TOO_SHORT))
        else PacketStep(d.s, if d.rc == SUCCESS then NoPacket else Error(d.rc))
      else if l.remLen > 0 then
        var w2 := ReadWrapper(l.s, l.offset, l.remLen);
        if w2.rc != SUCCESS || w2.len != l.remLen then PacketStep(w2.s, Error(FAILURE))
        else PacketStep(w2.s.(idx := 0), Packet(w2.s.buf[0] / 16))
      else PacketStep(l.s.(idx := 0), Packet(l.s.buf[0] / 16))
  }

  // ---------------------------------------------------------------- packets of a byte stream

  /** The first packet of a stream, by its header and remaining length alone. */
  datatype Frame = Whole(size: nat, remLen: nat) | Started(size: nat, remLen: nat) | Unknown | Bad

  function FirstFrame(bs: seq<byte>): (f: Frame)
    ensures f.Whole? ==> 2 <= f.size <= |bs| && f.remLen < f.size
  {
    if bs == [] then Unknown
    else
      match Decode(bs, 1)
      case Truncated => Unknown
      case TooLong => Bad
      case Decoded(value, used) =>
        DecodeBound(bs, 1);
        if |bs| >= 1 + used + value then Whole(1 + used + value, value) else Started(1 + used + value, value)
  }

  /** The packets a stream holds for a reader with a buffer of this size: those that fit; the ones with a
      remaining length of at least the buffer are passed over.  The list ends at anything else. */
  function Packets(bs: seq<byte>, bufSize: nat): seq<seq<byte>>
    decreases |bs|
  {
    var f := FirstFrame(bs);
    if !f.Whole? then []
    else if f.size < bufSize then [bs[..f.size]] + Packets(bs[f.size..], bufSize)
    else if f.remLen >= bufSize then Packets(bs[f.size..], bufSize)
    else []
  }

  /** All bytes not yet handed over: those held in the buffer and those still to come. */
  function Stream(s: State): seq<byte>
    requires s.idx <= |s.buf|
  {
    s.buf[..s.idx] + s.rest
  }

  /** Between calls the buffer holds no more than the packet being read, and of an oversized one only its header. */
  predicate Midway(s: State) {
    && s.idx <= |s.buf| && 5 <= |s.buf|
    && (s.idx > 0 ==>
          match FirstFrame(s.buf[..s.idx])
          case Unknown => true
          case Bad => true
          case Whole(size, remLen) => size < |s.buf| && s.idx == size
          case Started(size, remLen) => if size < |s.buf| then s.idx < size else s.idx == size - remLen)
  }

  // ---------------------------------------------------------------- one call

  lemma WrapperKeepsStream(s: State, offset: nat, size: nat)
    requires s.idx <= |s.buf| && offset + size <= |s.buf|
    ensures var r := ReadWrapper(s, offset, size);
            && Stream(r.s) == Stream(s)
            && r.s.buf[..s.idx] == s.buf[..s.idx]
            && (if r.rc == SUCCESS then r.s.idx == (if s.idx >= offset + size then s.idx else offset + size)
                else s.idx <= r.s.idx < offset + size)
            && (r.rc == SUCCESS && s.idx <= offset + size ==> r.len == size)
  {
    if offset + size > s.idx {
      var r := NetRead(s, s.idx, offset + size - s.idx);
      assert r.s.buf[..s.idx + r.len] == s.buf[..s.idx] + s.rest[..r.len];
      assert s.rest[..r.len] + s.rest[r.len..] == s.rest;
    }
  }

  lemma {:induction false} DecodePrefix(bs: seq<byte>, more: seq<byte>, i: nat, len: nat, multiplier: nat, acc: nat)
    requires i <= |bs| && len <= 4
    ensures var d := DecodeFrom(bs, i, len, multiplier, acc);
            !d.Truncated? ==> DecodeFrom(bs + more, i, len, multiplier, acc) == d
    ensures var d := DecodeFrom(bs, i, len, multiplier, acc);
            && (d.Truncated? ==> |bs| - i < 4 - len)
            && (d.TooLong? ==> |bs| - i >= 4 - len)
            && (d.Decoded? ==> len < d.used && i + (d.used - len) <= |bs|)
    decreases 4 - len
  {
    if len < 4 && i < |bs| && bs[i] >= 128 {
      DecodePrefix(bs, more, i + 1, len + 1, multiplier * 128, acc + bs[i] % 128 * multiplier);
    }
  }

  /** Decoding does not look past the byte that ends the field. */
  lemma {:induction false} DecodeShort(bs: seq<byte>, k: nat, i: nat, len: nat, multiplier: nat, acc: nat)
    requires i <= k <= |bs| && len <= 4
    ensures var d := DecodeFrom(bs, i, len, multiplier, acc);
            DecodeFrom(bs[..k], i, len, multiplier, acc)
            == (match d
                case Decoded(_, used) => if i + (used - len) <= k then d else Truncated
                case TooLong => if k - i >= 4 - len then TooLong else Truncated
                case Truncated => Truncated)
    decreases 4 - len
  {
    DecodePrefix(bs, [], i, len, multiplier, acc);
    if len < 4 && i < k && bs[i] >= 128 {
      DecodeShort(bs, k, i + 1, len + 1, multiplier * 128, acc + bs[i] % 128 * multiplier);
    }
  }

  /** The length loop decodes the stream, holding no byte past the field unless it held it before. */
  ghost predicate LengthAgrees(s: State, r: LenStep, len: nat, multiplier: nat, acc: nat)
    requires s.idx <= |s.buf| && r.s.idx <= |r.s.buf| && len <= 4 && len + 1 <= s.idx <= r.s.idx && (r.LenOk? ==> r.offset >= 2)
  {
    var d := DecodeFrom(Stream(s), len + 1, len, multiplier, acc);
    && Stream(r.s) == Stream(s)
    && match r
       case LenOk(s', offset, remLen) =>
         d == Decoded(remLen, offset - 1) && len + 2 <= offset <= 5 && s'.idx == (if s.idx >= offset then s.idx else offset)
       case LenStop(s', rc) =>
         if rc == DECODE_REMAINING_LENGTH_ERROR then d == TooLong && s'.idx == (if s.idx >= 5 then s.idx else 5)
         else rc != SUCCESS && DecodeFrom(s'.buf[..s'.idx], len + 1, len, multiplier, acc) == Truncated
  }

  /** Bytes held are bytes of the stream. */
  lemma HeldInStream(s: State, i: nat)
    requires i < s.idx <= |s.buf|
    ensures i < |Stream(s)| && s.buf[..s.idx][i] == Stream(s)[i] == s.buf[i]
  {
  }

  /** One more length byte, and the rest as the remaining turns have it. */
  lemma AgreesOnceMore(s: State, w: State, r: LenStep, len: nat, multiplier: nat, acc: nat)
    requires s.idx <= |s.buf| && w.idx <= |w.buf| && r.s.idx <= |r.s.buf| && len < 4 && (r.LenOk? ==> r.offset >= 2)
    requires Stream(w) == Stream(s) && len + 1 <= s.idx <= w.idx <= r.s.idx
    requires w.idx == if s.idx >= len + 2 then s.idx else len + 2
    requires w.buf[len + 1] >= 128
    requires LengthAgrees(w, r, len + 1, multiplier * 128, acc + w.buf[len + 1] % 128 * multiplier)
    ensures LengthAgrees(s, r, len, multiplier, acc)
  {
    hide Stream;
    HeldInStream(w, len + 1);
    HeldInStream(r.s, len + 1);
  }

  /** The turns that end the loop: the last byte of the field, a failed read, and a fifth byte. */
  lemma AgreesAtEnd(s: State, w: State, r: LenStep, len: nat, multiplier: nat, acc: nat)
    requires s.idx <= |s.buf| && w.idx <= |w.buf| && len < 4 && len + 1 <= s.idx <= w.idx && Stream(w) == Stream(s)
    requires
      if r.LenOk? then
        && w.idx == (if s.idx >= len + 2 then s.idx else len + 2) && w.buf[len + 1] < 128
        && r == LenOk(w, len + 2, acc + w.buf[len + 1] % 128 * multiplier)
      else
        r.s == w && w.idx < len + 2 && r.rc != DECODE_REMAINING_LENGTH_ERROR && r.rc != SUCCESS
    ensures LengthAgrees(s, r, len, multiplier, acc)
  {
    if r.LenOk? { HeldInStream(w, len + 1); }
  }

  lemma {:induction false} LengthDecodes(s: State, len: nat, multiplier: nat, acc: nat)
    requires s.idx <= |s.buf| && 5 <= |s.buf| && len <= 4 && len + 1 <= s.idx
    ensures var r := ReadLength(s, len, multiplier, acc);
            s.idx <= r.s.idx && LengthAgrees(s, r, len, multiplier, acc)
    decreases 4 - len
  {
    hide ReadWrapper, ReadLength, Stream, LengthAgrees, DecodeFrom;
    var r := ReadLength(s, len, multiplier, acc);
    if len < 4 {
      LengthTurn(s, len, multiplier, acc);
      WrapperKeepsStream(s, len + 1, 1);
      WrapperRc(s, len + 1, 1);
      var w := ReadWrapper(s, len + 1, 1);
      if w.rc == SUCCESS && w.s.buf[len + 1] >= 128 {
        var acc' := acc + w.s.buf[len + 1] % 128 * multiplier;
        LengthDecodes(w.s, len + 1, multiplier * 128, acc');
        AgreesOnceMore(s, w.s, r, len, multiplier, acc);
      } else {
        AgreesAtEnd(s, w.s, r, len, multiplier, acc);
      }
    } else {
      AgreesTooLong(s, multiplier, acc);
    }
  }

  lemma AgreesTooLong(s: State, multiplier: nat, acc: nat)
    requires 5 <= s.idx <= |s.buf|
    ensures ReadLength(s, 4, multiplier, acc).s == s && LengthAgrees(s, ReadLength(s, 4, multiplier, acc), 4, multiplier, acc)
  {
  }

  lemma WrapperRc(s: State, offset: nat, size: nat)
    requires s.idx <= |s.buf| && offset + size <= |s.buf|
    ensures ReadWrapper(s, offset, size).rc != DECODE_REMAINING_LENGTH_ERROR && ReadWrapper(s, offset, size).rc != RX_BUFFER_TOO_SHORT
  {
  }

  // ---------------------------------------------------------------- one call

  predicate Fits(f: Frame, bufSize: nat) { (f.Whole? || f.Started?) ==> f.size < bufSize }

  predicate Oversized(f: Frame, bufSize: nat) { (f.Whole? || f.Started?) && f.remLen >= bufSize }

  /** The frame as a prefix that reaches past the length field shows it. */
  lemma FrameOfHeld(bs: seq<byte>, k: nat)
    requires 1 <= k <= |bs|
    ensures FirstFrame(bs[..k])
            == (match Decode(bs, 1)
                case Truncated => Unknown
                case TooLong => if k >= 5 then Bad else Unknown
                case Decoded(value, used) =>
                  if 1 + used > k then Unknown
                  else if k >= 1 + used + value then Whole(1 + used + value, value) else Started(1 + used + value, value))
  {
    DecodeShort(bs, k, 1, 0, 1, 0);
    DecodePrefix(bs, [], 1, 0, 1, 0);
  }

  lemma {:induction false} DrainExact(s: State, remLen: nat, total: nat)
    requires total < remLen && 5 <= |s.buf|
    ensures var d := Drain(s, remLen, total, Min(|s.buf|, remLen - total));
            if d.rc == SUCCESS then d.total == remLen && remLen - total <= |s.rest| && d.s.rest == s.rest[remLen - total..]
            else d.total < remLen && d.rc != RX_BUFFER_TOO_SHORT
    decreases remLen - total
  {
    hide NetRead;
    var toRead := Min(|s.buf|, remLen - total);
    var r := NetRead(s, 0, toRead);
    NetReadTakes(s, 0, toRead);
    if r.rc == SUCCESS && total + toRead < remLen {
      DrainExact(r.s, remLen, total + toRead);
      SliceTwice(s.rest, toRead, remLen - total);
    }
  }

  lemma NetReadTakes(s: State, at: nat, n: nat)
    requires at + n <= |s.buf| && n > 0
    ensures var r := NetRead(s, at, n);
            && r.rc != RX_BUFFER_TOO_SHORT && |r.s.buf| == |s.buf|
            && (r.rc == SUCCESS ==> n <= |s.rest| && r.s.rest == s.rest[n..])
  {
  }

  lemma SliceTwice(bs: seq<byte>, a: nat, b: nat)
    requires a <= b && a <= |bs|
    ensures b <= |bs| ==> bs[a..][b - a..] == bs[b..]
  {
  }

  /** What a call does with a packet that fits: deliver exactly its bytes, or keep everything for the next call. */
  ghost predicate Faithful(s: State, r: PacketStep)
    requires s.idx <= |s.buf| && r.s.idx <= |r.s.buf|
  {
    var f := FirstFrame(Stream(s));
    match r.result
    case Packet(typ) =>
      && f.Whole? && f.size <= |r.s.buf| && r.s.buf[..f.size] == Stream(s)[..f.size]
      && typ == Stream(s)[0] / 16 && r.s.idx == 0 && r.s.rest == Stream(s)[f.size..]
    case Error(rc) => Stream(r.s) == Stream(s) && Midway(r.s) && rc != SUCCESS && rc != RX_BUFFER_TOO_SHORT
    case NoPacket => false
  }

  /** What a call does with an oversized packet: drop exactly its bytes, or fail on the way. */
  ghost predicate Skips(s: State, r: PacketStep)
    requires s.idx <= |s.buf| && r.s.idx <= |r.s.buf|
  {
    var f := FirstFrame(Stream(s));
    if r.result == Error(RX_BUFFER_TOO_SHORT) then f.Whole? && r.s.idx == 0 && r.s.rest == Stream(s)[f.size..]
    else r.result.Error?
  }

  /** The header byte and the length field have been read. */
  lemma AfterLength(s: State, l: LenStep)
    requires Midway(s) && l.LenOk? && l.offset >= 2
    requires l.s.idx == (if s.idx >= l.offset then s.idx else l.offset) && l.s.idx <= |l.s.buf| && |l.s.buf| == |s.buf|
    requires Stream(l.s) == Stream(s) && Decode(Stream(s), 1) == Decoded(l.remLen, l.offset - 1)
    ensures var f := FirstFrame(Stream(s));
            && f == (if |Stream(s)| >= l.offset + l.remLen then Whole(l.offset + l.remLen, l.remLen)
                     else Started(l.offset + l.remLen, l.remLen))
            && l.s.idx <= l.offset + l.remLen
            && (l.offset + l.remLen >= |s.buf| ==> l.s.idx == l.offset)
  {
    var bs := Stream(s);
    if s.idx >= 1 {
      assert bs[..s.idx] == s.buf[..s.idx];
      FrameOfHeld(bs, s.idx);
    }
  }

  lemma DeliverRest(s: State, l: LenStep, w: NetStep)
    requires l.LenOk? && l.offset >= 2 && s.idx <= |s.buf| && l.s.idx <= |l.s.buf|
    requires l.s.idx <= l.offset + l.remLen < |l.s.buf| && l.offset <= l.s.idx && |l.s.buf| == |s.buf| >= 5
    requires Stream(l.s) == Stream(s) && Decode(Stream(s), 1) == Decoded(l.remLen, l.offset - 1)
    requires w == ReadWrapper(l.s, l.offset, l.remLen)
    requires l.remLen > 0
    ensures if w.rc != SUCCESS || w.len != l.remLen then Faithful(s, PacketStep(w.s, Error(FAILURE)))
            else Faithful(s, PacketStep(w.s.(idx := 0), Packet(w.s.buf[0] / 16)))
  {
    hide ReadWrapper;
    WrapperKeepsStream(l.s, l.offset, l.remLen);
    var bs := Stream(s);
    assert bs[..w.s.idx] == w.s.buf[..w.s.idx];
    FrameOfHeld(bs, w.s.idx);
    HeldInStream(w.s, 0);
    if w.rc == SUCCESS { assert bs[w.s.idx..] == w.s.rest; }
  }

  lemma DeliverEmpty(s: State, l: LenStep)
    requires l.LenOk? && l.offset >= 2 && l.remLen == 0 && s.idx <= |s.buf| && l.s.idx == l.offset <= |l.s.buf|
    requires Stream(l.s) == Stream(s) && Decode(Stream(s), 1) == Decoded(0, l.offset - 1)
    ensures Faithful(s, PacketStep(l.s.(idx := 0), Packet(l.s.buf[0] / 16)))
  {
    var bs := Stream(s);
    assert bs[..l.s.idx] == l.s.buf[..l.s.idx] && bs[l.s.idx..] == l.s.rest;
    HeldInStream(l.s, 0);
  }

  lemma StopKeeps(s: State, t: State, rc: Rc)
    requires s.idx <= |s.buf| && t.idx <= |t.buf| && |t.buf| >= 5 && Stream(t) == Stream(s)
    requires rc != SUCCESS && rc != RX_BUFFER_TOO_SHORT
    requires t.idx == 0 || FirstFrame(t.buf[..t.idx]).Unknown? || FirstFrame(t.buf[..t.idx]).Bad?
    ensures Faithful(s, PacketStep(t, Error(rc)))
  {
    if t.idx == 0 { assert t.buf[..0] == []; }
  }

  /** One call, from a buffer that holds part of a packet at most. */
  lemma ReadPacketIsFaithful(s: State)
    requires Midway(s)
    ensures var f := FirstFrame(Stream(s));
            && (Fits(f, |s.buf|) ==> Faithful(s, ReadPacket(s)))
            && (Oversized(f, |s.buf|) ==> Skips(s, ReadPacket(s)))
  {
    hide ReadWrapper, ReadLength, Faithful, Midway, Drain, Stream;
    MidwayShape(s);
    var bs := Stream(s);
    WrapperKeepsStream(s, 0, 1);
    WrapperRc(s, 0, 1);
    var w := ReadWrapper(s, 0, 1);
    if w.rc != SUCCESS {
      StopKeeps(s, w.s, if w.rc == SSL_NOTHING_TO_READ then MQTT_NOTHING_TO_READ else w.rc);
    } else {
      LengthDecodes(w.s, 0, 1, 0);
      LengthRc(w.s, 0, 1, 0);
      var l := ReadLength(w.s, 0, 1, 0);
      if l.LenStop? {
        StoppedFrame(w.s, l);
        StopKeeps(s, l.s, l.rc);
      } else {
        AfterLength(s, l);
        if l.remLen + l.offset >= |s.buf| {
          if l.remLen >= |s.buf| {
            DrainExact(l.s, l.remLen, 0);
            StreamRest(l.s);
          }
        } else if l.remLen > 0 {
          DeliverRest(s, l, ReadWrapper(l.s, l.offset, l.remLen));
        } else {
          DeliverEmpty(s, l);
        }
      }
    }
  }

  /** The packets that do not fit although their remaining length is shorter than the buffer: the first read of the
      discarding loop asks for a whole buffer, and so takes bytes of what follows the packet. */
  lemma DiscardsTooMuch(s: State)
    requires Midway(s)
    requires var f := FirstFrame(Stream(s)); (f.Whole? || f.Started?) && f.remLen < |s.buf| <= f.size
    ensures var f, r := FirstFrame(Stream(s)), ReadPacket(s);
            var next := f.size + (|s.buf| - f.remLen);
            && !r.result.Packet? && (r.result == Error(RX_BUFFER_TOO_SHORT) ==> f.remLen == 0)
            && (r.result == NoPacket ==> next <= |Stream(s)| && r.s.rest == Stream(s)[next..])
  {
    hide ReadWrapper, ReadLength, Midway, Stream;
    MidwayShape(s);
    WrapperKeepsStream(s, 0, 1);
    WrapperRc(s, 0, 1);
    var w := ReadWrapper(s, 0, 1);
    if w.rc == SUCCESS {
      LengthDecodes(w.s, 0, 1, 0);
      LengthRc(w.s, 0, 1, 0);
      var l := ReadLength(w.s, 0, 1, 0);
      if l.LenOk? {
        AfterLength(s, l);
        DrainOnce(l.s, l.remLen);
        StreamRest(l.s);
      }
    }
  }

  /** With less than a buffer to discard, the loop ends after one read of a whole buffer. */
  lemma DrainOnce(s: State, remLen: nat)
    requires remLen < |s.buf|
    ensures var d := Drain(s, remLen, 0, |s.buf|);
            && d.rc != RX_BUFFER_TOO_SHORT
            && d.total == (if d.rc == SUCCESS then |s.buf| else 0)
            && (d.rc == SUCCESS ==> |s.buf| <= |s.rest| && d.s.rest == s.rest[|s.buf|..])
  {
    hide NetRead;
    NetReadTakes(s, 0, |s.buf|);
  }

  /** A call got through the discarding loop.  RX_BUFFER_TOO_SHORT says so, except of a packet with nothing to discard,
      for which a first read that is cut short reports it as well. */
  predicate Discarded(s: State)
    requires Midway(s)
  {
    var r := ReadPacket(s).result;
    r == NoPacket || (r == Error(RX_BUFFER_TOO_SHORT) && !FirstIsEmpty(s))
  }

  predicate FirstIsEmpty(s: State)
    requires Midway(s)
  {
    var f := FirstFrame(Stream(s));
    (f.Whole? || f.Started?) && f.remLen == 0
  }

  /** So once a packet that does not fit has been discarded, the reader stands at the next packet if and only if the
      remaining length alone was at least the buffer. */
  lemma DiscardsExactlyWhenLong(s: State)
    requires Midway(s)
    requires var f := FirstFrame(Stream(s)); (f.Whole? || f.Started?) && |s.buf| <= f.size
    requires Discarded(s)
    ensures var f, r := FirstFrame(Stream(s)), ReadPacket(s);
            && (f.Whole? && r.s.rest == Stream(s)[f.size..] <==> f.remLen >= |s.buf|)
            && (r.result == Error(RX_BUFFER_TOO_SHORT) <==> f.remLen >= |s.buf|)
  {
    hide ReadPacket, Midway, Stream;
    MidwayShape(s);
    if FirstFrame(Stream(s)).remLen >= |s.buf| { ReadPacketIsFaithful(s); } else { DiscardsTooMuch(s); }
  }

  /** A packet of seven bytes in a buffer of six, with one byte of the next packet behind it: that byte is lost. */
  const OVERREAD := State([0, 0, 0, 0, 0, 0], 0, [0x30, 5, 0, 1, 97, 98, 99, 0xD0], [Chunk(1, false), Chunk(1, false), Chunk(6, false)])

  lemma NextByteLost()
    ensures FirstFrame(Stream(OVERREAD)) == Whole(7, 5) && ReadPacket(OVERREAD).result == NoPacket
    ensures ReadPacket(OVERREAD).s.rest == [] && Stream(OVERREAD)[7..] == [0xD0]
  {
    hide ReadPacket;
    assert Stream(OVERREAD) == OVERREAD.rest;
    assert Decode(OVERREAD.rest, 1) == Decoded(5, 1);
    OverreadResult();
  }

  const OVERREAD1 := State([0x30, 0, 0, 0, 0, 0], 1, [5, 0, 1, 97, 98, 99, 0xD0], [Chunk(1, false), Chunk(6, false)])
  const OVERREAD2 := State([0x30, 5, 0, 0, 0, 0], 2, [0, 1, 97, 98, 99, 0xD0], [Chunk(6, false)])

  lemma OverreadFirst()
    ensures ReadWrapper(OVERREAD, 0, 1) == NetStep(OVERREAD1, SUCCESS, 1)
  {
    assert ReadWrapper(OVERREAD, 0, 1).s.buf == OVERREAD1.buf;
    assert OVERREAD.rest[1..] == OVERREAD1.rest && OVERREAD.chunks[1..] == OVERREAD1.chunks;
  }

  lemma OverreadSecond()
    ensures ReadWrapper(OVERREAD1, 1, 1) == NetStep(OVERREAD2, SUCCESS, 1)
  {
    assert ReadWrapper(OVERREAD1, 1, 1).s.buf == OVERREAD2.buf;
    assert OVERREAD1.rest[1..] == OVERREAD2.rest && OVERREAD1.chunks[1..] == OVERREAD2.chunks;
  }

  lemma OverreadLength()
    ensures ReadLength(OVERREAD1, 0, 1, 0) == LenOk(OVERREAD2, 2, 5)
  {
    hide ReadWrapper, ReadLength;
    OverreadSecond();
    LengthTurn(OVERREAD1, 0, 1, 0);
  }

  lemma OverreadResult()
    ensures ReadPacket(OVERREAD).result == NoPacket && ReadPacket(OVERREAD).s.rest == []
  {
    hide ReadWrapper, ReadLength, Drain;
    OverreadFirst();
    OverreadLength();
    OverreadDrain();
    DrainOnce(OVERREAD2, 5);
  }

  lemma OverreadDrain()
    ensures Drain(OVERREAD2, 5, 0, 6).rc == SUCCESS
  {
  }

  lemma StoppedFrame(w: State, l: LenStep)
    requires l.LenStop? && 1 <= w.idx <= |w.buf| && w.idx <= l.s.idx <= |l.s.buf|
    requires LengthAgrees(w, l, 0, 1, 0)
    ensures FirstFrame(l.s.buf[..l.s.idx]).Unknown? || FirstFrame(l.s.buf[..l.s.idx]).Bad?
  {
    var bs := Stream(l.s);
    assert bs[..l.s.idx] == l.s.buf[..l.s.idx];
    FrameOfHeld(bs, l.s.idx);
  }

  lemma MidwayShape(s: State)
    requires Midway(s)
    ensures s.idx <= |s.buf| && 5 <= |s.buf|
  {
  }

  lemma StreamRest(s: State)
    requires s.idx <= |s.buf|
    ensures |Stream(s)| == s.idx + |s.rest| && forall k :: 0 <= k <= |s.rest| ==> s.rest[k..] == Stream(s)[s.idx + k..]
  {
  }

  lemma {:induction false} LengthRc(s: State, len: nat, multiplier: nat, acc: nat)
    requires s.idx <= |s.buf| && 5 <= |s.buf| && len <= 4
    ensures var r := ReadLength(s, len, multiplier, acc);
            r.LenStop? ==> r.rc != SUCCESS && r.rc != RX_BUFFER_TOO_SHORT
    decreases 4 - len
  {
    hide ReadWrapper;
    if len < 4 {
      WrapperRc(s, len + 1, 1);
      var w := ReadWrapper(s, len + 1, 1);
      if w.rc == SUCCESS {
        LengthRc(w.s, len + 1, multiplier * 128, acc + w.s.buf[len + 1] % 128 * multiplier);
      }
    }
  }

  // ---------------------------------------------------------------- runs of calls

  /** The packet in the buffer after a call that delivered one: the frame at its front. */
  function Delivered(s: State): seq<seq<byte>>
    requires Midway(s)
  {
    var f := FirstFrame(Stream(s));
    if ReadPacket(s).result.Packet? && f.Whole? && f.size <= |ReadPacket(s).s.buf| then [ReadPacket(s).s.buf[..f.size]] else []
  }

  /** A call that gave up inside a packet it was discarding, or met one whose length falls between the buffer and
      the buffer less its header: from there on the reader may be out of step. */
  predicate Lost(s: State)
    requires Midway(s)
  {
    var f := FirstFrame(Stream(s));
    !Fits(f, |s.buf|) && !(Oversized(f, |s.buf|) && ReadPacket(s).result == Error(RX_BUFFER_TOO_SHORT))
  }

  lemma CallKeepsMidway(s: State)
    requires Midway(s) && !Lost(s)
    ensures Midway(ReadPacket(s).s) && |ReadPacket(s).s.buf| == |s.buf|
    ensures Packets(Stream(s), |s.buf|) == Delivered(s) + Packets(Stream(ReadPacket(s).s), |s.buf|)
  {
    hide ReadPacket, FirstFrame;
    ReadPacketIsFaithful(s);
    var r := ReadPacket(s);
    if r.s.idx == 0 {
      assert r.s.buf[..0] == [] && [] + r.s.rest == r.s.rest;
      NoBytes();
    }
    assert [] + Packets(Stream(r.s), |s.buf|) == Packets(Stream(r.s), |s.buf|);
  }

  lemma NoBytes()
    ensures FirstFrame([]) == Unknown
  {
  }

  datatype Reading = Reading(s: State, packets: seq<seq<byte>>)

  /** n calls in a row, with the packets they delivered; none once a call has lost step. */
  function Calls(s: State, n: nat): (r: Reading)
    requires Midway(s)
    ensures Midway(r.s) && |r.s.buf| == |s.buf|
    decreases n
  {
    if n == 0 || Lost(s) then Reading(s, [])
    else
      CallKeepsMidway(s);
      var r := Calls(ReadPacket(s).s, n - 1);
      Reading(r.s, Delivered(s) + r.packets)
  }

  /** What was delivered and what is still in the stream are the packets of the stream, in order. */
  lemma {:induction false} CallsAddUp(s: State, n: nat)
    requires Midway(s)
    ensures var r := Calls(s, n); r.packets + Packets(Stream(r.s), |s.buf|) == Packets(Stream(s), |s.buf|)
    decreases n
  {
    hide Packets, Stream, ReadPacket, FirstFrame, Delivered, Lost;
    var r := Calls(s, n);
    var left := Packets(Stream(r.s), |s.buf|);
    if n == 0 || Lost(s) {
      assert [] + left == left;
    } else {
      CallKeepsMidway(s);
      CallsAddUp(ReadPacket(s).s, n - 1);
      var later := Calls(ReadPacket(s).s, n - 1).packets;
      assert (Delivered(s) + later) + left == Delivered(s) + (later + left);
    }
  }

  /** What is delivered depends on the bytes and not on how they were cut up: two readers of the same stream, on
      any two schedules and after any numbers of calls, have delivered lists of which one continues the other;
      and when the streams they still have hold no further packet, the same list. */
  lemma ChunkIndependent(s: State, t: State, n: nat, m: nat)
    requires Midway(s) && Midway(t) && Stream(s) == Stream(t) && |s.buf| == |t.buf|
    ensures var a, b := Calls(s, n), Calls(t, m);
            && (a.packets <= b.packets || b.packets <= a.packets)
            && (Packets(Stream(a.s), |s.buf|) == [] == Packets(Stream(b.s), |s.buf|) ==> a.packets == b.packets)
  {
    hide Packets, Calls, Stream, FirstFrame;
    var all := Packets(Stream(s), |s.buf|);
    var a, b := Calls(s, n), Calls(t, m);
    CallsAddUp(s, n);
    CallsAddUp(t, m);
    PrefixOf(a.packets, Packets(Stream(a.s), |s.buf|), all);
    PrefixOf(b.packets, Packets(Stream(b.s), |s.buf|), all);
    if |a.packets| <= |b.packets| {
      assert a.packets == all[..|b.packets|][..|a.packets|];
    } else {
      assert b.packets == all[..|a.packets|][..|b.packets|];
    }
  }

  lemma PrefixOf(a: seq<seq<byte>>, rest: seq<seq<byte>>, all: seq<seq<byte>>)
    requires a + rest == all
    ensures |a| <= |all| && a == all[..|a|] && (rest == [] ==> a == all)
  {
  }

  // ---------------------------------------------------------------- waiting ends

  /** The next k reads find everything they ask for, as long as the stream has it. */
  predicate Generous(s: State, k: nat) {
    |s.chunks| >= k && forall i :: 0 <= i < k ==> s.chunks[i].arrived >= |s.buf| && !s.chunks[i].broken
  }

  lemma GenerousWrapper(s: State, offset: nat, size: nat, k: nat)
    requires s.idx <= |s.buf| && offset + size <= |s.buf| && 0 < k && Generous(s, k)
    requires offset + size <= |Stream(s)|
    ensures var r := ReadWrapper(s, offset, size); r.rc == SUCCESS && Generous(r.s, k - 1)
  {
  }

  lemma GenerousLess(s: State, k: nat, j: nat)
    requires Generous(s, k) && j <= k
    ensures Generous(s, j)
  {
  }

  lemma {:induction false} GenerousLength(s: State, len: nat, multiplier: nat, acc: nat, k: nat)
    requires s.idx <= |s.buf| && 5 <= |s.buf| && len <= 4 && len + 1 <= s.idx && k >= 4 - len && Generous(s, k)
    requires DecodeFrom(Stream(s), len + 1, len, multiplier, acc).Decoded?
    ensures var r := ReadLength(s, len, multiplier, acc); r.LenOk? && Generous(r.s, k - (4 - len))
    decreases 4 - len
  {
    hide ReadWrapper, ReadLength, Stream, Generous;
    StreamRest(s);
    if len < 4 {
      LengthTurn(s, len, multiplier, acc);
      DecodePrefix(Stream(s), [], len + 1, len, multiplier, acc);
      GenerousWrapper(s, len + 1, 1, k);
      WrapperKeepsStream(s, len + 1, 1);
      var w := ReadWrapper(s, len + 1, 1);
      HeldInStream(w.s, len + 1);
      if w.s.buf[len + 1] >= 128 {
        GenerousLength(w.s, len + 1, multiplier * 128, acc + w.s.buf[len + 1] % 128 * multiplier, k - 1);
      } else {
        GenerousLess(w.s, k - 1, k - (4 - len));
      }
    }
  }

  /** A packet that is all there and fits is delivered by the next call whose reads are not cut short. */
  lemma WholePacketDelivered(s: State)
    requires Midway(s) && Generous(s, 6)
    requires FirstFrame(Stream(s)).Whole? && Fits(FirstFrame(Stream(s)), |s.buf|)
    ensures ReadPacket(s).result.Packet?
  {
    hide ReadWrapper, ReadLength, Midway, Drain, Stream;
    MidwayShape(s);
    GenerousWrapper(s, 0, 1, 6);
    WrapperKeepsStream(s, 0, 1);
    var w := ReadWrapper(s, 0, 1);
    LengthDecodes(w.s, 0, 1, 0);
    GenerousLength(w.s, 0, 1, 0, 5);
    var l := ReadLength(w.s, 0, 1, 0);
    AfterLength(s, l);
    if l.remLen > 0 {
      GenerousWrapper(l.s, l.offset, l.remLen, 1);
      WrapperKeepsStream(l.s, l.offset, l.remLen);
    }
  }

  // ---------------------------------------------------------------- the reader as written

  class Network {
    var rest: seq<byte>
    var chunks: seq<Chunk>

    constructor (rest: seq<byte>, chunks: seq<Chunk>)
      ensures this.rest == rest && this.chunks == chunks
    {
      this.rest, this.chunks := rest, chunks;
    }
  }

  class Client {
    const network: Network
    const readBuf: array<byte>
    var readBufIndex: nat

    constructor (network: Network, readBuf: array<byte>)
      ensures this.network == network && this.readBuf == readBuf && readBufIndex == 0
    {
      this.network, this.readBuf, readBufIndex := network, readBuf, 0;
    }

    function View(): State
      reads this, network, readBuf
    {
      State(readBuf[..], readBufIndex, network.rest, network.chunks)
    }

    /** networkStack.read into readBuf + at. */
    method NetworkRead(at: nat, n: nat) returns (rc: Rc, readLen: nat)
      requires at + n <= readBuf.Length
      modifies network, readBuf
      ensures NetStep(View(), rc, readLen) == NetRead(old(View()), at, n)
    {
      var c := Arrived(network.chunks);
      readLen := Min(n, Min(c.arrived, |network.rest|));
      var got := network.rest[..readLen];
      forall i | 0 <= i < readLen {
        readBuf[at + i] := got[i];
      }
      network.rest := network.rest[readLen..];
      network.chunks := if network.chunks == [] then [] else network.chunks[1..];
      rc := ReadRc(n, readLen, c.broken);
      assert readBuf[..] == old(readBuf[..at]) + got + old(readBuf[at + readLen..]);
    }

    method ReadWrapperInto(offset: nat, size: nat) returns (rc: Rc, readLen: nat)
      requires readBufIndex <= readBuf.Length && offset + size <= readBuf.Length
      modifies `readBufIndex, network, readBuf
      ensures NetStep(View(), rc, readLen) == ReadWrapper(old(View()), offset, size)
    {
      hide NetRead;
      var byteToRead := offset + size - readBufIndex;
      if byteToRead > 0 {
        var byteRead;
        rc, byteRead := NetworkRead(readBufIndex, byteToRead);
        readBufIndex := readBufIndex + byteRead;
        byteToRead := offset + size - readBufIndex;
        readLen := if size >= byteToRead then size - byteToRead else 0;
      } else {
        readLen := size;
        rc := SUCCESS;
      }
    }

    method DecodePacketRemainingLen() returns (rc: Rc, offset: nat, remLen: nat)
      requires readBufIndex <= readBuf.Length && 5 <= readBuf.Length
      modifies `readBufIndex, network, readBuf
      ensures var r := ReadLength(old(View()), 0, 1, 0);
              && r.s == View()
              && (if r.LenOk? then rc == SUCCESS && offset == r.offset && remLen == r.remLen else rc == r.rc)
      ensures rc == SUCCESS <==> ReadLength(old(View()), 0, 1, 0).LenOk?
    {
      hide ReadWrapper, ReadLength;
      LengthRc(View(), 0, 1, 0);
      ghost var all := ReadLength(View(), 0, 1, 0);
      var multiplier, len := 1, 0;
      offset, remLen := 0, 0;
      while true
        invariant 0 <= len <= 4 && 0 <= multiplier && 0 <= remLen && readBufIndex <= readBuf.Length
        invariant ReadLength(View(), len, multiplier, remLen) == all
        decreases 4 - len
      {
        if len + 1 > 4 {
          FifthByte(View(), multiplier, remLen);
          rc := DECODE_REMAINING_LENGTH_ERROR;
          return;
        }
        LengthTurn(View(), len, multiplier, remLen);
        len := len + 1;
        var readLen;
        rc, readLen := ReadWrapperInto(len, 1);
        if rc != SUCCESS {
          return;
        }
        var b: int := readBuf[len];
        remLen := remLen + b % 128 * multiplier;
        multiplier := multiplier * 128;
        if b < 128 {
          offset := len + 1;
          return;
        }
      }
    }

    /** The draining loop of _aws_iot_mqtt_internal_read_packet. */
    method DrainPacket(remLen: nat) returns (rc: Rc, total: nat)
      requires 0 < readBuf.Length
      modifies network, readBuf
      ensures var d := Drain(old(View()), remLen, 0, readBuf.Length); d.s == View() && d.rc == rc && d.total == total
    {
      hide NetRead;
      var bytesToBeRead := readBuf.Length;
      ghost var all := Drain(View(), remLen, 0, readBuf.Length);
      total, rc := 0, SUCCESS;
      var more := true;
      while more
        invariant 0 < bytesToBeRead <= readBuf.Length || !more
        invariant if more then Drain(View(), remLen, total, bytesToBeRead) == all else all == DrainStep(View(), rc, total)
        decreases more, if total < remLen then remLen - total else 0
      {
        var readLen;
        rc, readLen := NetworkRead(0, bytesToBeRead);
        if rc == SUCCESS {
          total := total + readLen;
          if remLen >= total {
            bytesToBeRead := if remLen - total >= readBuf.Length then readBuf.Length else remLen - total;
          }
        }
        more := total < remLen && rc == SUCCESS;
      }
    }

    method ReadPacketInto() returns (result: Result)
      requires readBufIndex <= readBuf.Length && 5 <= readBuf.Length
      modifies `readBufIndex, network, readBuf
      ensures PacketStep(View(), result) == ReadPacket(old(View()))
    {
      hide ReadWrapper, ReadLength, Drain, NetRead;
      var rc, readLen := ReadWrapperInto(0, 1);
      if rc == SSL_NOTHING_TO_READ {
        return Error(MQTT_NOTHING_TO_READ);
      } else if rc != SUCCESS {
        return Error(rc);
      }
      var offset, remLen;
      rc, offset, remLen := DecodePacketRemainingLen();
      if rc != SUCCESS {
        return Error(rc);
      }
      if remLen + offset >= readBuf.Length {
        var total;
        rc, total := DrainPacket(remLen);
        if total == remLen {
          readBufIndex := 0;
          return Error(RX_BUFFER_TOO_SHORT);
        }
        return if rc == SUCCESS then NoPacket else Error(rc);
      }
      if remLen > 0 {
        rc, readLen := ReadWrapperInto(offset, remLen);
        if rc != SUCCESS || readLen != remLen {
          return Error(FAILURE);
        }
      }
      readBufIndex := 0;
      return Packet(readBuf[0] / 16);
    }
  }
}
