/** WebSocket frames of netpulse/mesh.py, against the frame layout of sections 5.2 and 5.3 of RFC 6455. */
module WebSocket {
  import opened Wrappers
  import opened ByteStrings

  // ---------- bitwise exclusive or ----------

  function Power2(k: nat): nat { if k == 0 then 1 else 2 * Power2(k - 1) }

  /** The low k bits of a ^ b. */
  function XorBits(a: nat, b: nat, k: nat): (r: nat)
    ensures r < Power2(k)
  {
    if k == 0 then 0 else 2 * XorBits(a / 2, b / 2, k - 1) + (if a % 2 == b % 2 then 0 else 1)
  }

  lemma {:induction false} XorTwice(a: nat, b: nat, k: nat)
    requires a < Power2(k)
    ensures XorBits(XorBits(a, b, k), b, k) == a
  {
    if k > 0 {
      XorTwice(a / 2, b / 2, k - 1);
      var x := XorBits(a, b, k);
      assert x / 2 == XorBits(a / 2, b / 2, k - 1);
      assert x % 2 == if a % 2 == b % 2 then 0 else 1;
    }
  }

  lemma EightBits()
    ensures Power2(8) == 256
  {
    assert Power2(4) == 16;
  }

  function Xor(a: Byte, b: Byte): Byte
  {
    EightBits();
    XorBits(a, b, 8)
  }

  /** Octet i combined with octet i mod 4 of the key. */
  function Masked(payload: Bytes, key: Bytes): (r: Bytes)
    requires |key| == 4
    ensures |r| == |payload|
  {
    seq(|payload|, i requires 0 <= i < |payload| => Xor(payload[i], key[i % 4]))
  }

  lemma MaskTwice(payload: Bytes, key: Bytes)
    requires |key| == 4
    ensures Masked(Masked(payload, key), key) == payload
  {
    EightBits();
    forall i | 0 <= i < |payload| ensures Masked(Masked(payload, key), key)[i] == payload[i] {
      XorTwice(payload[i], key[i % 4], 8);
    }
  }

  // ---------- _send_payload ----------

  const MAX_PAYLOAD := 0x8000_0000_0000_0000

  /** The length field of a frame: 7 bits, or 7 bits and 2 or 8 octets; flag is 0x80 for a masked frame. */
  function LengthField(n: nat, flag: Byte): Bytes
    requires n < MAX_PAYLOAD && (flag == 0 || flag == 0x80)
  {
    if n <= 125 then [flag + n]
    else if n <= 0xFFFF then [flag + 126] + ToBytes(n, 2)
    else [flag + 127] + ToBytes(n, 8)
  }

  function ClientFrame(opcode: Byte, payload: Bytes, key: Bytes): Bytes
    requires opcode < 16 && |payload| < MAX_PAYLOAD && |key| == 4
  {
    [0x80 + opcode] + LengthField(|payload|, 0x80) + key + Masked(payload, key)
  }

  method SendPayload(opcode: Byte, payload: Bytes, key: Bytes) returns (frame: Bytes)
    requires opcode < 16 && |payload| < MAX_PAYLOAD && |key| == 4
    ensures frame == ClientFrame(opcode, payload, key)
  {
    var n := |payload|;
    var header: Bytes := [0x80 + opcode];
    if n <= 125 {
      header := header + [0x80 + n];
    } else if n <= 0xFFFF {
      header := header + [0x80 + 126];
      header := header + ToBytes(n, 2);
    } else {
      header := header + [0x80 + 127];
      header := header + ToBytes(n, 8);
    }
    assert header == [0x80 + opcode] + LengthField(n, 0x80);
    var masked: Bytes := [];
    for i := 0 to n
      invariant masked == Masked(payload, key)[..i]
    {
      masked := masked + [Xor(payload[i], key[i % 4])];
    }
    assert masked == Masked(payload, key);
    frame := header + key + masked;
  }

  // ---------- the frame of RFC 6455 ----------

  datatype Frame = Frame(fin: bool, opcode: Byte, masked: bool, payload: Bytes)

  datatype Decoded = Decoded(frame: Frame, rest: Bytes)

  /** Payload length, in the minimal form section 5.2 demands, and what follows it. */
  function RfcLength(len7: nat, input: Bytes): Option<(nat, Bytes)>
  {
    if len7 <= 125 then Some((len7, input))
    else
      var k := if len7 == 126 then 2 else 8;
      if |input| < k then None
      else
        var n := FromBytes(input[..k]);
        if len7 == 126 && n <= 125 then None
        else if len7 != 126 && (n <= 0xFFFF || n >= MAX_PAYLOAD) then None
        else Some((n, input[k..]))
  }

  /** One frame without extension bits, per sections 5.2 and 5.3. */
  function RfcDecode(input: Bytes): Option<Decoded>
  {
    if |input| < 2 || input[0] / 16 % 8 != 0 then None
    else
      match RfcLength(input[1] % 128, input[2..])
      case None => None
      case Some((n, after)) =>
        var masked := input[1] >= 128;
        var k := if masked then 4 else 0;
        if |after| < k + n then None
        else
          var body := after[k..k + n];
          var payload := if masked then Masked(body, after[..4]) else body;
          Some(Decoded(Frame(input[0] >= 128, input[0] % 16, masked, payload), after[k + n..]))
  }

  lemma LengthFieldRead(n: nat, flag: Byte, rest: Bytes)
    requires n < MAX_PAYLOAD && (flag == 0 || flag == 0x80)
    ensures var f := LengthField(n, flag);
            f != [] && (f[0] >= 128 <==> flag == 0x80)
            && RfcLength(f[0] % 128, f[1..] + rest) == Some((n, rest))
  {
    hide ToBytes, FromBytes, Power256;
    var f := LengthField(n, flag);
    if n <= 125 {
      assert f[1..] + rest == rest;
    } else {
      var k := if n <= 0xFFFF then 2 else 8;
      Widths();
      ToFromBytes(n, k);
      assert f[1..] == ToBytes(n, k);
      assert (f[1..] + rest)[..k] == ToBytes(n, k) && (f[1..] + rest)[k..] == rest;
    }
  }

  lemma Widths()
    ensures Power256(2) == 0x10000 && Power256(8) == 0x1_0000_0000_0000_0000
  {
    assert Power256(4) == 0x1_0000_0000;
    assert Power256(6) == 0x1_0000_0000_0000;
  }

  /** Every frame sent is one final, masked frame of minimal length that decodes to its opcode and payload. */
  lemma SentFrameDecodes(opcode: Byte, payload: Bytes, key: Bytes, rest: Bytes)
    requires opcode < 16 && |payload| < MAX_PAYLOAD && |key| == 4
    ensures RfcDecode(ClientFrame(opcode, payload, key) + rest)
         == Some(Decoded(Frame(true, opcode, true, payload), rest))
  {
    hide LengthField, RfcLength, Masked;
    var f := LengthField(|payload|, 0x80);
    var tail := key + Masked(payload, key) + rest;
    var input := ClientFrame(opcode, payload, key) + rest;
    LengthFieldRead(|payload|, 0x80, tail);
    MaskTwice(payload, key);
    assert input[0] == 0x80 + opcode && input[1] == f[0];
    assert input[2..] == f[1..] + tail;
    assert tail[..4] == key && tail[4..4 + |payload|] == Masked(payload, key) && tail[4 + |payload|..] == rest;
  }

  // ---------- recv_frame ----------

  datatype Received = Received(fin: Byte, opcode: Byte, payload: Bytes, rest: Bytes)

  /** recv_frame on the bytes still to come; None where the connection closes first. */
  function RecvFrame(input: Bytes): Option<Received>
  {
    if |input| < 2 then None
    else
      var len7 := input[1] % 128;
      var k := if len7 == 126 then 2 else if len7 == 127 then 8 else 0;
      if |input| < 2 + k then None
      else
        var n := if k == 0 then len7 else FromBytes(input[2..2 + k]);
        if |input| < 2 + k + n then None
        else
          var fin := if input[0] >= 128 then 0x80 else 0;
          Some(Received(fin, input[0] % 16, input[2 + k..2 + k + n], input[2 + k + n..]))
  }

  /** recv_frame takes the octets right behind the length field for the payload. */
  lemma RecvReads(input: Bytes, n: nat, after: Bytes)
    requires |input| >= 2 && RfcLength(input[1] % 128, input[2..]) == Some((n, after)) && |after| >= n
    ensures RecvFrame(input)
         == Some(Received(if input[0] >= 128 then 0x80 else 0, input[0] % 16, after[..n], after[n..]))
  {
    hide FromBytes;
    var len7 := input[1] % 128;
    var k := if len7 == 126 then 2 else if len7 == 127 then 8 else 0;
    assert after == input[2 + k..];
    assert k > 0 ==> input[2..][..k] == input[2..2 + k];
    assert after[..n] == input[2 + k..2 + k + n] && after[n..] == input[2 + k + n..];
  }

  /** recv_frame gives back every well-formed frame that is not masked. */
  lemma RecvAgreesUnmasked(input: Bytes)
    requires RfcDecode(input).Some? && !RfcDecode(input).value.frame.masked
    ensures var d := RfcDecode(input).value;
            RecvFrame(input)
              == Some(Received(if d.frame.fin then 0x80 else 0, d.frame.opcode, d.frame.payload, d.rest))
  {
    hide RecvFrame;
    var (n, after) := RfcLength(input[1] % 128, input[2..]).value;
    RecvReads(input, n, after);
    assert after[0..n] == after[..n];
  }

  function ServerFrame(fin: bool, opcode: Byte, payload: Bytes): Bytes
    requires opcode < 16 && |payload| < MAX_PAYLOAD
  {
    [(if fin then 0x80 else 0) + opcode] + LengthField(|payload|, 0) + payload
  }

  /** recv_frame gives back what a server sent and consumes exactly that frame. */
  lemma RecvInvertsServer(fin: bool, opcode: Byte, payload: Bytes, rest: Bytes)
    requires opcode < 16 && |payload| < MAX_PAYLOAD
    ensures RecvFrame(ServerFrame(fin, opcode, payload) + rest)
         == Some(Received(if fin then 0x80 else 0, opcode, payload, rest))
  {
    hide LengthField, RfcLength, RecvFrame;
    var f := LengthField(|payload|, 0);
    var tail := payload + rest;
    var input := ServerFrame(fin, opcode, payload) + rest;
    LengthFieldRead(|payload|, 0, tail);
    assert input[1] == f[0] && input[2..] == f[1..] + tail;
    assert tail[0..|payload|] == payload && tail[|payload|..] == rest;
    RecvAgreesUnmasked(input);
  }

  /** Of a masked frame, which no server may send, it reads the key as the start of the payload and loses the end. */
  lemma RecvLeavesMask(opcode: Byte, payload: Bytes, key: Bytes, rest: Bytes)
    requires opcode < 16 && |payload| < MAX_PAYLOAD && |key| == 4
    ensures var body := key + Masked(payload, key) + rest;
            RecvFrame(ClientFrame(opcode, payload, key) + rest)
              == Some(Received(0x80, opcode, body[..|payload|], body[|payload|..]))
  {
    hide LengthField, RfcLength, RecvFrame, Masked;
    var f := LengthField(|payload|, 0x80);
    var tail := key + Masked(payload, key) + rest;
    var input := ClientFrame(opcode, payload, key) + rest;
    LengthFieldRead(|payload|, 0x80, tail);
    assert input[0] == 0x80 + opcode && input[1] == f[0] && input[2..] == f[1..] + tail;
    RecvReads(input, |payload|, tail);
  }
}
