/** What a call of the packet reader returns, told from the bytes held, the stream and the schedule alone. */
module ReaderCodes {
  import opened Basics
  import opened RemainingLength
  import opened PacketReader

  // ---------------------------------------------------------------- where the reading stops

  /** Header and length field are read byte by byte: the byte at place p of the stream, if not held yet, is what the
      read after p - idx others is to bring.  It brings none. */
  predicate Stalls(s: State, p: nat) {
    p >= s.idx && var j := p - s.idx; j >= |s.rest| || j >= |s.chunks| || s.chunks[j].arrived == 0
  }

  /** And the connection broke. */
  predicate Breaks(s: State, p: nat) {
    p >= s.idx && var j := p - s.idx; j < |s.chunks| && s.chunks[j].broken
  }

  /** The bytes that header and length field take: more than there are when the stream ends before they do. */
  function HeadSize(bs: seq<byte>): nat {
    if bs == [] then 1 else HeadFrom(bs, 1, 0, 1, 0)
  }

  function HeadFrom(bs: seq<byte>, i: nat, len: nat, multiplier: nat, acc: nat): nat
    requires i <= |bs| && len <= 4
  {
    DecodePrefix(bs, [], i, len, multiplier, acc);
    match DecodeFrom(bs, i, len, multiplier, acc)
    case Decoded(_, used) => i + used - len
    case TooLong => i + 4 - len
    case Truncated => |bs| + 1
  }

  /** The first place short of `end` whose byte does not come. */
  ghost predicate FirstStall(s: State, p: nat, end: nat) {
    s.idx <= p < end && Stalls(s, p) && forall q :: s.idx <= q < p ==> !Stalls(s, q)
  }

  ghost predicate AllCome(s: State, end: nat) {
    forall q :: s.idx <= q < end ==> !Stalls(s, q)
  }

  lemma {:induction false} StallsSomewhere(s: State, from: nat, end: nat) returns (p: nat)
    requires s.idx <= from && (forall q :: s.idx <= q < from ==> !Stalls(s, q)) && !AllCome(s, end)
    ensures FirstStall(s, p, end)
    decreases end - from
  {
    if Stalls(s, from) {
      p := from;
    } else {
      p := StallsSomewhere(s, from + 1, end);
    }
  }

  // ---------------------------------------------------------------- one byte

  /** One byte further on: it is in the buffer, and everything else comes as before. */
  function Onward(s: State): State
    requires s.idx < |s.buf| && |s.rest| > 0 && |s.chunks| > 0
  {
    State(s.buf[s.idx := s.rest[0]], s.idx + 1, s.rest[1..], s.chunks[1..])
  }

  lemma ByteComes(s: State)
    requires s.idx < |s.buf| && !Stalls(s, s.idx)
    ensures ReadWrapper(s, s.idx, 1) == NetStep(Onward(s), SUCCESS, 1)
  {
    var r := NetRead(s, s.idx, 1);
    assert r.s.buf == s.buf[s.idx := s.rest[0]];
  }

  lemma ByteStalls(s: State)
    requires s.idx < |s.buf| && Stalls(s, s.idx)
    ensures ReadWrapper(s, s.idx, 1).rc == if Breaks(s, s.idx) then SSL_READ_ERROR else SSL_NOTHING_TO_READ
  {
  }

  lemma OnwardSame(s: State, p: nat)
    requires s.idx < |s.buf| && !Stalls(s, s.idx) && p > s.idx
    ensures Stalls(Onward(s), p) <==> Stalls(s, p)
    ensures Breaks(Onward(s), p) <==> Breaks(s, p)
  {
  }

  lemma OnwardStream(s: State)
    requires s.idx < |s.buf| && !Stalls(s, s.idx)
    ensures |s.rest| > 0 && |s.chunks| > 0
    ensures Stream(Onward(s)) == Stream(s) && s.idx < |Stream(s)| && Stream(s)[s.idx] == s.rest[0]
  {
    assert Onward(s).buf[..s.idx + 1] == s.buf[..s.idx] + [s.rest[0]];
    assert [s.rest[0]] + s.rest[1..] == s.rest;
  }

  /** Held already: nothing is read. */
  lemma ByteHeld(s: State, p: nat)
    requires p < s.idx <= |s.buf|
    ensures ReadWrapper(s, p, 1) == NetStep(s, SUCCESS, 1)
    ensures p < |Stream(s)| && Stream(s)[p] == s.buf[p]
  {
  }

  // ---------------------------------------------------------------- the length field

  /** What turn `len` of the length loop finds at place len + 1 decides where the field ends. */
  lemma HeadStep(bs: seq<byte>, len: nat, multiplier: nat, acc: nat)
    requires len < 4 && len + 1 <= |bs|
    ensures len + 1 == |bs| ==> HeadFrom(bs, len + 1, len, multiplier, acc) == |bs| + 1
    ensures len + 1 < |bs| ==>
              HeadFrom(bs, len + 1, len, multiplier, acc) ==
                if bs[len + 1] < 128 then len + 2
                else HeadFrom(bs, len + 2, len + 1, multiplier * 128, acc + bs[len + 1] % 128 * multiplier)
    ensures HeadFrom(bs, len + 1, len, multiplier, acc) >= len + 2
  {
    if len + 1 < |bs| && bs[len + 1] >= 128 {
      DecodePrefix(bs, [], len + 2, len + 1, multiplier * 128, acc + bs[len + 1] % 128 * multiplier);
    }
  }

  /** How the loop ends: at the first byte that does not come, or with the whole field. */
  ghost predicate LengthEnds(s: State, r: LenStep, end: nat) {
    && (forall p :: FirstStall(s, p, end) ==>
          r.LenStop? && r.rc == if Breaks(s, p) then SSL_READ_ERROR else SSL_NOTHING_TO_READ)
    && (AllCome(s, end) ==>
          && (r.LenStop? ==> r.rc == DECODE_REMAINING_LENGTH_ERROR)
          && ReadsTo(s, end) <= |s.chunks| && r.s.chunks == s.chunks[ReadsTo(s, end)..])
  }

  /** The reads made to have the bytes up to `end`. */
  function ReadsTo(s: State, end: nat): nat {
    if s.idx < end then end - s.idx else 0
  }

  lemma EndsAtStall(s: State, r: LenStep, end: nat)
    requires Stalls(s, s.idx) && s.idx < end
    requires r.LenStop? && r.rc == if Breaks(s, s.idx) then SSL_READ_ERROR else SSL_NOTHING_TO_READ
    ensures LengthEnds(s, r, end)
  {
  }

  lemma EndsAfterOne(s: State, r: LenStep, end: nat)
    requires s.idx < |s.buf| && !Stalls(s, s.idx) && s.idx < end && LengthEnds(Onward(s), r, end)
    ensures LengthEnds(s, r, end)
  {
    var t := Onward(s);
    forall p | p > s.idx
      ensures (Stalls(t, p) <==> Stalls(s, p)) && (Breaks(t, p) <==> Breaks(s, p))
    {
      OnwardSame(s, p);
    }
    forall p | FirstStall(s, p, end)
      ensures FirstStall(t, p, end)
    {
      assert p != s.idx;
    }
    if AllCome(s, end) {
      assert AllCome(t, end);
      assert t.chunks[ReadsTo(t, end)..] == s.chunks[ReadsTo(s, end)..];
    }
  }

  lemma EndsHere(s: State, r: LenStep, end: nat)
    requires end <= s.idx && r.s.chunks == s.chunks && (r.LenStop? ==> r.rc == DECODE_REMAINING_LENGTH_ERROR)
    ensures LengthEnds(s, r, end)
  {
  }

  lemma {:induction false} LengthCodes(s: State, len: nat, multiplier: nat, acc: nat)
    requires s.idx <= |s.buf| && 5 <= |s.buf| && len <= 4 && len + 1 <= s.idx
    ensures len + 1 <= |Stream(s)|
    ensures LengthEnds(s, ReadLength(s, len, multiplier, acc), HeadFrom(Stream(s), len + 1, len, multiplier, acc))
    decreases 4 - len, 1
  {
    hide ReadLength, ReadWrapper, Stream, HeadFrom, LengthEnds, Stalls, Breaks, DecodeFrom;
    StreamHeld(s);
    var r, end := ReadLength(s, len, multiplier, acc), HeadFrom(Stream(s), len + 1, len, multiplier, acc);
    if len == 4 {
      LengthFifth(s, multiplier, acc);
      EndsHere(s, r, end);
    } else {
      HeadStep(Stream(s), len, multiplier, acc);
      LengthTurn(s, len, multiplier, acc);
      if s.idx > len + 1 {
        ByteHeld(s, len + 1);
        LengthCodesOn(s, s, len, multiplier, acc);
      } else if Stalls(s, s.idx) {
        ByteStalls(s);
        EndsAtStall(s, r, end);
      } else {
        ByteComes(s);
        OnwardStream(s);
        OnwardByte(s);
        LengthCodesOn(s, Onward(s), len, multiplier, acc);
        EndsAfterOne(s, r, end);
      }
    }
  }

  lemma StreamHeld(s: State)
    requires s.idx <= |s.buf|
    ensures s.idx <= |Stream(s)|
  {
  }

  lemma OnwardByte(s: State)
    requires s.idx < |s.buf| && !Stalls(s, s.idx)
    ensures Onward(s).buf[s.idx] == s.rest[0]
  {
  }

  lemma LengthFifth(s: State, multiplier: nat, acc: nat)
    requires 5 <= s.idx <= |s.buf|
    ensures ReadLength(s, 4, multiplier, acc) == LenStop(s, DECODE_REMAINING_LENGTH_ERROR)
    ensures 5 <= |Stream(s)| && HeadFrom(Stream(s), 5, 4, multiplier, acc) == 5
  {
  }

  /** The rest of the loop, from a state t that holds the byte at len + 1. */
  lemma {:induction false} LengthCodesOn(s: State, t: State, len: nat, multiplier: nat, acc: nat)
    requires s.idx <= |s.buf| && 5 <= |s.buf| && len < 4 && len + 1 <= s.idx
    requires t.idx <= |t.buf| == |s.buf| && len + 2 <= t.idx && Stream(t) == Stream(s)
    requires ReadWrapper(s, len + 1, 1) == NetStep(t, SUCCESS, 1) && len + 1 < |Stream(s)| && Stream(s)[len + 1] == t.buf[len + 1]
    ensures LengthEnds(t, ReadLength(s, len, multiplier, acc), HeadFrom(Stream(s), len + 1, len, multiplier, acc))
    decreases 4 - len, 0
  {
    hide ReadLength, ReadWrapper, Stream, HeadFrom, LengthEnds, Stalls, Breaks, DecodeFrom;
    var r, end := ReadLength(s, len, multiplier, acc), HeadFrom(Stream(s), len + 1, len, multiplier, acc);
    LengthTurn(s, len, multiplier, acc);
    HeadStep(Stream(s), len, multiplier, acc);
    if t.buf[len + 1] < 128 {
      EndsHere(t, r, end);
    } else {
      LengthCodes(t, len + 1, multiplier * 128, acc + t.buf[len + 1] % 128 * multiplier);
    }
  }

  // ---------------------------------------------------------------- a whole call

  /** The code of a call that stops for want of the byte at place p. */
  function StallCode(s: State, p: nat): Rc {
    if Breaks(s, p) then SSL_READ_ERROR else if p == 0 then MQTT_NOTHING_TO_READ else SSL_NOTHING_TO_READ
  }

  /** How a call gets past header and length field, and what it has then. */
  ghost predicate HeadEnds(s: State, end: nat)
    requires s.idx <= |s.buf| && 5 <= |s.buf|
  {
    var w := ReadWrapper(s, 0, 1);
    && (forall p :: FirstStall(s, p, end) ==> ReadPacket(s).result == Error(StallCode(s, p)))
    && (AllCome(s, end) ==> w.rc == SUCCESS && LengthEnds(s, ReadLength(w.s, 0, 1, 0), end))
  }

  lemma HeadCodes(s: State)
    requires s.idx <= |s.buf| && 5 <= |s.buf|
    ensures HeadEnds(s, HeadSize(Stream(s)))
  {
    hide ReadLength, ReadWrapper, Drain, Stream, HeadFrom, DecodeFrom, LengthEnds;
    var end := HeadSize(Stream(s));
    if s.idx > 0 {
      ByteHeld(s, 0);
      LengthCodes(s, 0, 1, 0);
      LengthStops(s, end);
    } else if Stalls(s, 0) {
      HeadAtLeastOne(Stream(s));
      ByteStalls(s);
    } else {
      ByteComes(s);
      OnwardStream(s);
      LengthCodes(Onward(s), 0, 1, 0);
      HeadAtLeastOne(Stream(s));
      EndsAfterOne(s, ReadLength(Onward(s), 0, 1, 0), end);
      LengthStops(s, end);
    }
  }

  lemma HeadAtLeastOne(bs: seq<byte>)
    ensures HeadSize(bs) >= 1
  {
    if bs != [] { HeadStep(bs, 0, 1, 0); }
  }

  lemma LengthStops(s: State, end: nat)
    requires s.idx <= |s.buf| && 5 <= |s.buf| && ReadWrapper(s, 0, 1).rc == SUCCESS && (s.idx == 0 ==> !Stalls(s, 0))
    requires LengthEnds(s, ReadLength(ReadWrapper(s, 0, 1).s, 0, 1, 0), end)
    ensures HeadEnds(s, end)
  {
    hide ReadLength, ReadWrapper, Drain, Stalls, Breaks;
  }

  /** The bytes of the body that are missing once the head is there, and the read that is to bring them. */
  function Missing(s: State, head: nat, value: nat): nat {
    if s.idx >= head + value then 0 else head + value - (if s.idx < head then head else s.idx)
  }

  predicate BodyComes(s: State, head: nat, value: nat) {
    var n, j := Missing(s, head, value), ReadsTo(s, head);
    n == 0 || (n + j <= |s.rest| && j < |s.chunks| && s.chunks[j].arrived >= n)
  }

  lemma BodyCodes(s: State, t: State, head: nat, value: nat)
    requires s.idx <= |s.buf| && |t.buf| == |s.buf| && head + value < |s.buf| && value > 0
    requires t.idx == (if s.idx < head then head else s.idx) <= head + value
    requires ReadsTo(s, head) <= |s.chunks| && t.chunks == s.chunks[ReadsTo(s, head)..]
    requires Stream(t) == Stream(s)
    ensures var w := ReadWrapper(t, head, value);
            w.rc == SUCCESS && w.len == value <==> BodyComes(s, head, value)
  {
    assert |t.rest| + t.idx == |s.rest| + s.idx by { assert |Stream(t)| == |Stream(s)|; }
    if t.idx < head + value && |t.chunks| > 0 { assert t.chunks[0] == s.chunks[ReadsTo(s, head)]; }
  }

  lemma {:induction false} DrainCodes(s: State, remLen: nat, total: nat, toRead: nat)
    requires 0 < toRead <= |s.buf|
    ensures var rc := Drain(s, remLen, total, toRead).rc;
            rc == SUCCESS || rc == SSL_READ_ERROR || rc == SSL_NOTHING_TO_READ || rc == SSL_READ_TIMEOUT
    decreases if total < remLen then remLen - total else 0
  {
    var r := NetRead(s, 0, toRead);
    var more := total + toRead;
    if r.rc == SUCCESS && more < remLen { DrainCodes(r.s, remLen, more, Min(|s.buf|, remLen - more)); }
  }

  /** What a call returns once all of header and length field has come: a length that is too long is an error; of a
      packet that fits, the packet or, if its body is cut short, FAILURE. */
  ghost predicate HeadCame(s: State)
    requires Midway(s)
  {
    var bs, res := Stream(s), ReadPacket(s).result;
    && bs != []
    && match Decode(bs, 1)
       case Truncated => false
       case TooLong => res == Error(DECODE_REMAINING_LENGTH_ERROR)
       case Decoded(value, used) =>
         if 1 + used + value < |s.buf| then
           res == if BodyComes(s, 1 + used, value) then Packet(bs[0] / 16) else Error(FAILURE)
         else
           res == NoPacket || (res.Error? && res.rc != MQTT_NOTHING_TO_READ && res.rc != DECODE_REMAINING_LENGTH_ERROR)
  }

  /** A stream that ends before header and length field do stalls at its end. */
  lemma ShortStalls(s: State)
    requires s.idx <= |s.buf|
    ensures var bs := Stream(s);
            bs == [] || Decode(bs, 1).Truncated? ==> s.idx <= |bs| < HeadSize(bs) && Stalls(s, |bs|)
    ensures Stream(s) != [] && Decode(Stream(s), 1).Decoded? ==> HeadSize(Stream(s)) == 1 + Decode(Stream(s), 1).used
  {
    hide DecodeFrom;
  }

  lemma HeadCameCodes(s: State)
    requires Midway(s) && AllCome(s, HeadSize(Stream(s)))
    ensures HeadCame(s)
  {
    hide ReadLength, ReadWrapper, Drain, Stream, HeadFrom, DecodeFrom, Midway, Stalls, Breaks, BodyComes;
    MidwayShape(s);
    ShortStalls(s);
    HeadCodes(s);
    var bs := Stream(s);
    var w := ReadWrapper(s, 0, 1);
    WrapperKeepsStream(s, 0, 1);
    LengthDecodes(w.s, 0, 1, 0);
    var l := ReadLength(w.s, 0, 1, 0);
    if l.LenOk? {
      AfterLength(s, l);
      if l.remLen + l.offset >= |s.buf| {
        DrainCodes(l.s, l.remLen, 0, |s.buf|);
      } else {
        ReadPacketIsFaithful(s);
        if l.remLen > 0 { BodyCodes(s, l.s, l.offset, l.remLen); } else { NoBody(s, l.offset); }
      }
    }
  }

  lemma NoBody(s: State, head: nat)
    ensures BodyComes(s, head, 0)
  {
  }

  /** The codes of a call, told from stream and schedule: */
  lemma CallCodes(s: State)
    requires Midway(s)
    ensures var bs, f, res := Stream(s), FirstFrame(Stream(s)), ReadPacket(s).result;
            var end := HeadSize(bs);
            // an idle poll: nothing is held, and the first read brings nothing from a sound connection
            && (res == Error(MQTT_NOTHING_TO_READ) <==> s.idx == 0 && Stalls(s, 0) && !Breaks(s, 0))
            // an over-long length field that is all there
            && (res == Error(DECODE_REMAINING_LENGTH_ERROR) <==> bs != [] && Decode(bs, 1).TooLong? && AllCome(s, end))
            // of a packet that fits: a break before header and length field are complete, and a body cut short
            && (Fits(f, |s.buf|) ==>
                  && (res == Error(SSL_READ_ERROR) <==> exists p :: FirstStall(s, p, end) && Breaks(s, p))
                  && (res == Error(FAILURE)
                      <==> (AllCome(s, end) && (f.Whole? || f.Started?) && !BodyComes(s, f.size - f.remLen, f.remLen)))
                  && (res.Packet? <==> AllCome(s, end) && f.Whole? && BodyComes(s, f.size - f.remLen, f.remLen)))
  {
    hide ReadPacket, Stream, HeadFrom, HeadSize, DecodeFrom, Midway, BodyComes;
    MidwayShape(s);
    HeadCodes(s);
    var bs := Stream(s);
    var end := HeadSize(bs);
    HeadAtLeastOne(bs);
    if AllCome(s, end) {
      HeadCameCodes(s);
      if FirstFrame(bs).Started? { ShortBody(s); }
    } else {
      var p := StallsSomewhere(s, s.idx, end);
      assert ReadPacket(s).result == Error(StallCode(s, p));
      OnlyFirst(s, p, end);
    }
  }

  lemma OnlyFirst(s: State, p: nat, end: nat)
    requires FirstStall(s, p, end)
    ensures forall q :: FirstStall(s, q, end) ==> q == p
    ensures p != 0 || s.idx == 0
    ensures s.idx == 0 && Stalls(s, 0) ==> p == 0
  {
  }

  /** A packet that has not all arrived has no body to come. */
  lemma ShortBody(s: State)
    requires s.idx <= |s.buf| && FirstFrame(Stream(s)).Started?
    ensures var f := FirstFrame(Stream(s)); !BodyComes(s, f.size - f.remLen, f.remLen)
  {
    hide DecodeFrom;
    DecodePrefix(Stream(s), [], 1, 0, 1, 0);
  }
}
