/** The remaining-length field of MQTT 3.1.1 (section 2.2.3) as aws_iot_mqtt_client_common_internal.c encodes,
    decodes and sizes it. */
module RemainingLength {
  type byte = b: int | 0 <= b < 256

  const MAX_REMAINING: nat := 268435455
  const TWO_TO_32: nat := 0x1_0000_0000

  type uint32 = n: int | 0 <= n < 0x1_0000_0000

  /** Base 128, least significant digit first, the top bit set on all digits but the last. */
  function Encode(n: nat): (r: seq<byte>)
    ensures |r| >= 1
  {
    if n < 128 then [n] else [n % 128 + 128] + Encode(n / 128)
  }

  /** aws_iot_mqtt_internal_write_len_to_buffer; setting the top bit of a digit below 128 adds 128 to it. */
  method WriteLenToBuffer(buf: array<byte>, at: nat, length: uint32) returns (outLen: nat)
    requires at + |Encode(length)| <= buf.Length
    modifies buf
    ensures outLen == |Encode(length)|
    ensures buf[..] == old(buf[..at]) + Encode(length) + old(buf[at + outLen..])
  {
    outLen := 0;
    var left: int := length;
    ghost var code, was := Encode(length), buf[..];
    var more := true;
    while more
      invariant 0 <= left && outLen <= |code|
      invariant if more then code[outLen..] == Encode(left) else outLen == |code|
      invariant forall j :: 0 <= j < buf.Length ==> buf[j] == if at <= j < at + outLen then code[j - at] else was[j]
      decreases more, left
    {
      var encodedByte: int := left % 128;
      assert code[outLen..] == Encode(left);
      assert left >= 128 ==> Encode(left)[1..] == Encode(left / 128);
      left := left / 128;
      if left > 0 {
        encodedByte := encodedByte + 128;
      }
      assert code[outLen] == code[outLen..][0] == encodedByte;
      assert code[outLen + 1..] == code[outLen..][1..];
      buf[at + outLen] := encodedByte;
      outLen := outLen + 1;
      more := left > 0;
    }
    assert buf[..] == was[..at] + code + was[at + outLen..];
  }

  /** A decoded value and the bytes it took; an error after four continued bytes; or no byte left to read. */
  datatype Decoded = Decoded(value: nat, used: nat) | TooLong | Truncated

  /** The decoding loops, having read `len` bytes worth `acc` at position i. */
  function DecodeFrom(buf: seq<byte>, i: nat, len: nat, multiplier: nat, acc: nat): Decoded
    requires i <= |buf| && len <= 4
    decreases 4 - len
  {
    if len == 4 then TooLong
    else if i == |buf| then Truncated
    else
      var acc' := acc + buf[i] % 128 * multiplier;
      if buf[i] < 128 then Decoded(acc', len + 1)
      else DecodeFrom(buf, i + 1, len + 1, multiplier * 128, acc')
  }

  function Decode(buf: seq<byte>, at: nat): Decoded
    requires at <= |buf|
  {
    DecodeFrom(buf, at, 0, 1, 0)
  }

  /** aws_iot_mqtt_internal_decode_remaining_length_from_buffer, on a buffer that holds the whole field. */
  method DecodeFromBuffer(buf: array<byte>, at: nat) returns (ok: bool, decodedLen: nat, readBytesLen: nat)
    requires at <= buf.Length && Decode(buf[..], at) != Truncated
    ensures ok == Decode(buf[..], at).Decoded?
    ensures ok ==> Decode(buf[..], at) == Decoded(decodedLen, readBytesLen)
  {
    decodedLen, readBytesLen := 0, 0;
    var multiplier, len, i := 1, 0, at;
    while true
      invariant at <= i <= buf.Length && 0 <= len <= 4 && 0 <= multiplier && 0 <= decodedLen
      invariant DecodeFrom(buf[..], i, len, multiplier, decodedLen) == Decode(buf[..], at)
      decreases 4 - len
    {
      if len + 1 > 4 {
        return false, decodedLen, readBytesLen;
      }
      len := len + 1;
      var encodedByte: int := buf[i];
      i := i + 1;
      decodedLen := decodedLen + encodedByte % 128 * multiplier;
      multiplier := multiplier * 128;
      if encodedByte < 128 {
        return true, decodedLen, len;
      }
    }
  }

  function Pow128(k: nat): nat { if k == 0 then 1 else 128 * Pow128(k - 1) }

  lemma EncodeLength(n: nat)
    ensures |Encode(n)| == 1 <==> n < 128
    ensures |Encode(n)| == 2 <==> 128 <= n < 16384
    ensures |Encode(n)| == 3 <==> 16384 <= n < 2097152
    ensures |Encode(n)| == 4 <==> 2097152 <= n <= MAX_REMAINING
  {
    assert n >= 128 ==> Encode(n) == [n % 128 + 128] + Encode(n / 128);
    assert n >= 16384 ==> |Encode(n / 128)| == 1 + |Encode(n / 128 / 128)|;
    if n >= 2097152 {
      var m := n / 128 / 128;
      assert m >= 128 && |Encode(m)| == 1 + |Encode(m / 128)|;
      assert m / 128 >= 128 ==> |Encode(m / 128)| == 1 + |Encode(m / 128 / 128)|;
      assert m / 128 >= 128 <==> n > MAX_REMAINING;
    }
  }

  /** Above the field's limit a 32-bit length is written with five bytes, which no reader accepts. */
  lemma EncodeLong(n: uint32)
    requires n > MAX_REMAINING
    ensures |Encode(n)| == 5
  {
    EncodeLength(n / 128);
    assert Encode(n) == [n % 128 + 128] + Encode(n / 128);
  }

  lemma {:induction false} DecodeEncodedFrom(buf: seq<byte>, i: nat, n: nat, len: nat, multiplier: nat, acc: nat)
    requires len <= 4 && i + |Encode(n)| <= |buf| && buf[i..i + |Encode(n)|] == Encode(n)
    ensures DecodeFrom(buf, i, len, multiplier, acc)
            == if len + |Encode(n)| <= 4 then Decoded(acc + n * multiplier, len + |Encode(n)|) else TooLong
    decreases n
  {
    hide Encode, DecodeFrom;
    var e := Encode(n);
    EncodeStep(n);
    ByteParts(n);
    DecodeStep(buf, i, len, multiplier, acc);
    if len < 4 {
      assert buf[i] == buf[i..i + |e|][0] == e[0];
      if n >= 128 {
        assert buf[i + 1..i + 1 + |Encode(n / 128)|] == buf[i..i + |e|][1..];
        DecodeEncodedFrom(buf, i + 1, n / 128, len + 1, multiplier * 128, acc + n % 128 * multiplier);
        MulSplit(n / 128, n % 128, multiplier);
      }
    }
  }

  lemma EncodeStep(n: nat)
    ensures |Encode(n)| >= 1
    ensures if n < 128 then Encode(n) == [n] && n % 128 == n
            else Encode(n)[0] == n % 128 + 128 && Encode(n)[1..] == Encode(n / 128)
  {
    if n >= 128 {
      assert Encode(n) == [n % 128 + 128] + Encode(n / 128);
    }
  }

  lemma ByteParts(n: nat)
    ensures n == n / 128 * 128 + n % 128
    ensures (n % 128 + 128) % 128 == n % 128
  {
  }

  lemma DecodeStep(buf: seq<byte>, i: nat, len: nat, multiplier: nat, acc: nat)
    requires i <= |buf| && len <= 4
    ensures len == 4 ==> DecodeFrom(buf, i, len, multiplier, acc) == TooLong
    ensures len < 4 && i < |buf| ==>
              var acc' := acc + buf[i] % 128 * multiplier;
              DecodeFrom(buf, i, len, multiplier, acc) ==
                if buf[i] < 128 then Decoded(acc', len + 1) else DecodeFrom(buf, i + 1, len + 1, multiplier * 128, acc')
  {
  }

  lemma MulSplit(q: nat, r: nat, m: nat)
    ensures (q * 128 + r) * m == r * m + q * (m * 128)
  {
    assert (q * 128 + r) * m == q * 128 * m + r * m;
    assert q * 128 * m == q * (128 * m);
  }

  /** Wherever Encode(n) stands in a buffer, decoding there gives n back when n fits the field, and an error
      when it does not. */
  lemma DecodeEncoded(buf: seq<byte>, at: nat, n: nat)
    requires at + |Encode(n)| <= |buf| && buf[at..at + |Encode(n)|] == Encode(n)
    ensures Decode(buf, at) == if n <= MAX_REMAINING then Decoded(n, |Encode(n)|) else TooLong
  {
    DecodeEncodedFrom(buf, at, n, 0, 1, 0);
    EncodeLength(n);
  }

  /** No buffer decodes to more than the field can hold. */
  lemma DecodeBound(buf: seq<byte>, at: nat)
    requires at <= |buf|
    ensures var d := Decode(buf, at);
            d.Decoded? ==> 1 <= d.used <= 4 && at + d.used <= |buf| && d.value <= MAX_REMAINING
  {
    DecodeBoundFrom(buf, at, 0, 1, 0);
    assert Pow128(4) == 128 * Pow128(3) == 128 * 128 * Pow128(2);
  }

  lemma {:induction false} DecodeBoundFrom(buf: seq<byte>, i: nat, len: nat, multiplier: nat, acc: nat)
    requires i <= |buf| && len <= 4 && multiplier == Pow128(len) && acc < multiplier
    ensures var d := DecodeFrom(buf, i, len, multiplier, acc);
            d.Decoded? ==> len < d.used <= 4 && i + d.used - len <= |buf| && d.value < Pow128(4)
    decreases 4 - len
  {
    assert Pow128(4) == 268435456 && Pow128(3) == 2097152 && Pow128(2) == 16384 && Pow128(1) == 128;
    if len < 4 && i < |buf| {
      var r := buf[i] % 128;
      assert r * multiplier <= 127 * multiplier;
      if buf[i] >= 128 { DecodeBoundFrom(buf, i + 1, len + 1, multiplier * 128, acc + r * multiplier); }
    }
  }

  /** aws_iot_mqtt_internal_get_final_packet_length_from_remaining_length, in 32-bit arithmetic. */
  function FinalPacketLength(remLen: uint32): uint32 {
    var r := (remLen + 1) % TWO_TO_32;
    if r < 128 then r + 1
    else if r < 16384 then r + 2
    else if r < 2097152 then r + 3
    else (r + 4) % TWO_TO_32
  }

  /** The pre-check never underestimates a legal packet, and overestimates it only where adding the header byte
      before choosing the width moves the length into the next band. */
  lemma FinalLengthIsEnough(n: uint32)
    requires n <= MAX_REMAINING
    ensures FinalPacketLength(n) == 1 + |Encode(n)| + n + (if n == 127 || n == 16383 || n == 2097151 then 1 else 0)
  {
    hide Encode;
    EncodeLength(n);
  }

  /** Short of the 32-bit limit, it is enough exactly for the lengths the field can hold. */
  lemma FinalLengthEnoughIff(n: uint32)
    requires n + 5 < TWO_TO_32
    ensures 1 + |Encode(n)| + n <= FinalPacketLength(n) <==> n <= MAX_REMAINING
  {
    if n <= MAX_REMAINING { FinalLengthIsEnough(n); } else { EncodeLong(n); }
  }
}
