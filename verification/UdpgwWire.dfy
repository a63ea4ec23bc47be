/** The UDPGW packet format: one packet's body, the length-prefixed frame around it, and the
    reader that cuts a stream back into packets. */
module UdpgwWire {
  import opened Bytes

  datatype SocketAddr =
    | SockV4(ip4: seq<byte>, port: u16)
    | SockV6(ip6: seq<byte>, port: u16, flowinfo: nat, scope: nat)

  type Sock = a: SocketAddr | if a.SockV4? then |a.ip4| == 4 else |a.ip6| == 16
    witness SockV4([0, 0, 0, 0], 0)

  datatype Packet = Packet(flags: byte, conid: u16, dest: Option<Sock>, payload: seq<byte>)

  const KEEPALIVE := 1
  const REBIND := 2
  const DNS := 4
  const IPV6 := 8

  // Whether the bit of weight `flag` is set.
  predicate Has(flags: byte, flag: int)
    requires flag > 0
  {
    (flags / flag) % 2 == 1
  }

  // UdpgwPacket::data; the three flags are distinct bits.
  function Data(conid: u16, dest: Sock, payload: seq<byte>, dns: bool, rebind: bool): (p: Packet)
    ensures Has(p.flags, DNS) == dns && Has(p.flags, REBIND) == rebind && !Has(p.flags, KEEPALIVE)
    ensures Consistent(p) <==> dest.SockV4? || (dest.flowinfo == 0 && dest.scope == 0)
  {
    Packet((if dest.SockV6? then IPV6 else 0) + (if dns then DNS else 0) + (if rebind then REBIND else 0),
           conid, Some(dest), payload)
  }

  function Address(a: Sock): (s: seq<byte>)
    ensures |s| == if a.SockV4? then 6 else 18
  {
    (if a.SockV4? then a.ip4 else a.ip6) + BE16(a.port)
  }

  // encode_body; None is an error.
  function EncodeBody(p: Packet): Option<seq<byte>> {
    var head := [p.flags] + LE16(p.conid);
    if Has(p.flags, KEEPALIVE) then Some(head)
    else if p.dest.None? then None
    else if p.dest.value.SockV6? && !Has(p.flags, IPV6) then None
    else Some(head + Address(p.dest.value) + p.payload)
  }

  // decode_body; None is an error.
  function DecodeBody(body: seq<byte>): Option<Packet> {
    if |body| < 3 then None
    else
      var flags, conid := body[0], FromLE16(body[1..3]);
      var rest := body[3..];
      if Has(flags, KEEPALIVE) then Some(Packet(flags, conid, None, []))
      else if Has(flags, IPV6) then
        if |rest| < 18 then None
        else Some(Packet(flags, conid, Some(SockV6(rest[..16], FromBE16(rest[16..18]), 0, 0)), rest[18..]))
      else
        if |rest| < 6 then None
        else Some(Packet(flags, conid, Some(SockV4(rest[..4], FromBE16(rest[4..6]))), rest[6..]))
  }

  // encode_frame; None is an error.
  function EncodeFrame(p: Packet): Option<seq<byte>> {
    var body := EncodeBody(p);
    if body.None? || |body.value| > 65535 then None
    else Some(LE16(|body.value|) + body.value)
  }

  // ----- One packet -----

  // The flags say what the packet holds, and nothing is held that the format cannot carry.
  predicate Consistent(p: Packet) {
    if Has(p.flags, KEEPALIVE) then p.dest.None? && p.payload == []
    else
      && p.dest.Some?
      && p.dest.value.SockV6? == Has(p.flags, IPV6)
      && (p.dest.value.SockV6? ==> p.dest.value.flowinfo == 0 && p.dest.value.scope == 0)
  }

  // Decoding gives a packet back exactly when it encodes and is flag-consistent.
  lemma BodyRoundTrip(p: Packet)
    ensures EncodeBody(p).Some? && DecodeBody(EncodeBody(p).value) == Some(p) <==> Consistent(p)
  {
    if EncodeBody(p).Some? {
      var body := EncodeBody(p).value;
      assert body[0] == p.flags && body[1..3] == LE16(p.conid);
      if !Has(p.flags, KEEPALIVE) {
        var a := p.dest.value;
        var rest := body[3..];
        assert rest == Address(a) + p.payload;
        if a.SockV4? {
          assert rest[..4] == a.ip4 && rest[4..6] == BE16(a.port) && rest[6..] == p.payload;
        } else {
          assert rest[..16] == a.ip6 && rest[16..18] == BE16(a.port) && rest[18..] == p.payload;
        }
      }
    }
  }

  // Encoding a decoded packet gives back the bytes, of a keepalive only the header.
  lemma BodyRestored(body: seq<byte>)
    requires DecodeBody(body).Some?
    ensures var p := DecodeBody(body).value;
            Consistent(p) && EncodeBody(p) == Some(if Has(p.flags, KEEPALIVE) then body[..3] else body)
  {
    var p := DecodeBody(body).value;
    var rest := body[3..];
    assert body[..3] == [body[0]] + body[1..3];
    if !Has(p.flags, KEEPALIVE) {
      var n := if Has(p.flags, IPV6) then 18 else 6;
      assert rest == rest[..n - 2] + rest[n - 2..n] + rest[n..];
      assert Address(p.dest.value) + p.payload == rest;
      assert body == body[..3] + rest;
      assert body[..3] + Address(p.dest.value) + p.payload == body[..3] + (Address(p.dest.value) + p.payload);
    }
  }

  // The layout of what encodes: the flags, the id with its low byte first, and, unless bit 0 is set,
  // address, port with its high byte first, and payload. An IPv6 address needs bit 3.
  lemma Layout(p: Packet)
    ensures EncodeBody(p).Some? <==>
            p.flags % 2 == 1 || (p.dest.Some? && (p.dest.value.SockV6? ==> (p.flags / 8) % 2 == 1))
    ensures EncodeBody(p).Some? ==>
              EncodeBody(p).value ==
              [p.flags, p.conid % 256, p.conid / 256] +
              if p.flags % 2 == 1 then []
              else
                var a := p.dest.value;
                (if a.SockV4? then a.ip4 else a.ip6) + [a.port / 256, a.port % 256] + p.payload
  {
    assert [p.flags] + LE16(p.conid) == [p.flags, p.conid % 256, p.conid / 256];
    if EncodeBody(p).Some? && p.flags % 2 == 0 {
      var head, a := [p.flags] + LE16(p.conid), p.dest.value;
      assert head + Address(a) + p.payload == head + (Address(a) + p.payload);
    }
  }

  // The bodies that decode: a header, and an address behind it unless bit 0 says that there is none.
  lemma DecodesIff(body: seq<byte>)
    ensures DecodeBody(body).Some? <==>
            |body| >= 3 && (body[0] % 2 == 1 || |body| >= 3 + if (body[0] / 8) % 2 == 1 then 18 else 6)
  {
  }

  // The flags of a data packet.
  lemma DataFlags(conid: u16, dest: Sock, payload: seq<byte>, dns: bool, rebind: bool)
    ensures Data(conid, dest, payload, dns, rebind).flags ==
            (if rebind then 2 else 0) + (if dns then 4 else 0) + (if dest.SockV6? then 8 else 0)
  {
  }

  // The layout by example: flags, the id in little-endian order, address and port in network order.
  lemma KnownBody(payload: seq<byte>)
    ensures DecodeBody([0, 1, 0, 8, 8, 8, 8, 0, 53] + payload) ==
            Some(Packet(0, 1, Some(SockV4([8, 8, 8, 8], 53)), payload))
  {
    var body: seq<byte> := [0, 1, 0, 8, 8, 8, 8, 0, 53] + payload;
    var rest := body[3..];
    assert body[1..3] == LE16(1) && rest[..4] == [8, 8, 8, 8] && rest[4..6] == BE16(53) && rest[6..] == payload;
  }

  // ----- The stream -----

  datatype Stop = EndOfStream | InvalidLength | BadPacket

  datatype Reading = Reading(packets: seq<Packet>, stop: Stop)

  datatype Cut = Got(packet: Packet, size: nat) | Stopped(stop: Stop)

  // The first frame of a stream, if it is all there and can be parsed.
  function FirstFrame(stream: seq<byte>): (c: Cut)
    ensures c.Got? ==> 2 < c.size <= |stream|
  {
    if |stream| < 2 then Stopped(EndOfStream)
    else
      var len: int := FromLE16(stream[..2]);
      if len == 0 then Stopped(InvalidLength)
      else if |stream| < 2 + len then Stopped(EndOfStream)
      else
        var p := DecodeBody(stream[2..2 + len]);
        if p.None? then Stopped(BadPacket) else Got(p.value, 2 + len)
  }

  // What the reader makes of a stream: packets until the stream ends, in or between frames,
  // or something cannot be parsed.
  function Read(stream: seq<byte>): Reading
    decreases |stream|
  {
    match FirstFrame(stream)
    case Stopped(stop) => Reading([], stop)
    case Got(p, size) => After([p], Read(stream[size..]))
  }

  function After(packets: seq<Packet>, more: Reading): Reading {
    more.(packets := packets + more.packets)
  }

  method ReadFrame(stream: seq<byte>, pos: nat) returns (c: Cut)
    requires pos <= |stream|
    ensures c == FirstFrame(stream[pos..])
  {
    ghost var here := stream[pos..];
    if |stream| - pos < 2 {
      return Stopped(EndOfStream);
    }
    var len: int := FromLE16(stream[pos..pos + 2]);
    assert here[..2] == stream[pos..pos + 2];
    if len == 0 {
      return Stopped(InvalidLength);
    }
    if |stream| - pos < 2 + len {
      return Stopped(EndOfStream);
    }
    var p := DecodeBody(stream[pos + 2..pos + 2 + len]);
    assert here[2..2 + len] == stream[pos + 2..pos + 2 + len];
    if p.None? {
      return Stopped(BadPacket);
    }
    return Got(p.value, 2 + len);
  }

  // read_loop, collecting the packets it parses; what it does with them is in the multiplexer.
  method ReadLoop(stream: seq<byte>) returns (packets: seq<Packet>, stop: Stop)
    ensures Reading(packets, stop) == Read(stream)
  {
    packets := [];
    var pos := 0;
    assert stream[pos..] == stream;
    while true
      invariant 0 <= pos <= |stream|
      invariant Read(stream) == After(packets, Read(stream[pos..]))
      decreases |stream| - pos
    {
      var c := ReadFrame(stream, pos);
      if c.Stopped? {
        return packets, c.stop;
      }
      assert stream[pos..][c.size..] == stream[pos + c.size..];
      packets := packets + [c.packet];
      pos := pos + c.size;
    }
  }

  // Bodies of legal length, each behind its length.
  predicate AllFramable(bodies: seq<seq<byte>>) {
    forall i :: 0 <= i < |bodies| ==> 0 < |bodies[i]| < 65536
  }

  function Framed(bodies: seq<seq<byte>>): seq<byte>
    requires AllFramable(bodies)
  {
    if bodies == [] then [] else LE16(|bodies[0]|) + bodies[0] + Framed(bodies[1..])
  }

  // The length in front, its low byte first.
  function Announced(rest: seq<byte>): nat
    requires |rest| >= 2
  {
    var low: int, high: int := rest[0], rest[1];
    low + 256 * high
  }

  // What the reader finds at the place where it stops.
  predicate StopsAt(rest: seq<byte>, stop: Stop) {
    match stop
    case EndOfStream => |rest| < 2 || (Announced(rest) > 0 && |rest| < 2 + Announced(rest))
    case InvalidLength => |rest| >= 2 && Announced(rest) == 0
    case BadPacket =>
      |rest| >= 2 && |rest| >= 2 + Announced(rest) > 2 && DecodeBody(rest[2..2 + Announced(rest)]).None?
  }

  // On any stream: it is a number of frames, whose bodies decode to the packets returned, and then the
  // reason for stopping.
  lemma {:induction false} ReadExactly(stream: seq<byte>) returns (bodies: seq<seq<byte>>, rest: seq<byte>)
    ensures AllFramable(bodies) && stream == Framed(bodies) + rest
    ensures |bodies| == |Read(stream).packets|
    ensures forall i :: 0 <= i < |bodies| ==> DecodeBody(bodies[i]) == Some(Read(stream).packets[i])
    ensures StopsAt(rest, Read(stream).stop)
    decreases |stream|
  {
    bodies, rest := [], stream;
    var c := FirstFrame(stream);
    if c.Got? {
      var body := stream[2..c.size];
      bodies, rest := ReadExactly(stream[c.size..]);
      FrameInFront(stream, body);
      assert stream == LE16(|body|) + body + Framed(bodies) + rest;
      assert ([body] + bodies)[1..] == bodies;
      bodies := [body] + bodies;
    }
  }

  lemma FrameInFront(stream: seq<byte>, body: seq<byte>)
    requires |stream| >= 2 && |stream| >= 2 + FromLE16(stream[..2]) as int
    requires body == stream[2..2 + FromLE16(stream[..2]) as int]
    ensures stream == LE16(|body|) + body + stream[2 + |body|..]
  {
    assert LE16(FromLE16(stream[..2])) == stream[..2];
  }

  predicate Fits(p: Packet) { Consistent(p) && EncodeFrame(p).Some? }

  predicate AllFit(packets: seq<Packet>) { forall k :: 0 <= k < |packets| ==> Fits(packets[k]) }

  // The frames of some packets, one after the other.
  function Wire(packets: seq<Packet>): seq<byte>
    requires AllFit(packets)
  {
    if packets == [] then []
    else assert Fits(packets[0]); EncodeFrame(packets[0]).value + Wire(packets[1..])
  }

  lemma FrameRead(p: Packet, tail: seq<byte>)
    requires Fits(p)
    ensures FirstFrame(EncodeFrame(p).value + tail) == Got(p, |EncodeFrame(p).value|)
  {
    var body := EncodeBody(p).value;
    var stream := EncodeFrame(p).value + tail;
    BodyRoundTrip(p);
    assert stream[..2] == LE16(|body|);
    assert stream[2..2 + |body|] == body;
  }

  lemma ReadPastFrame(p: Packet, frame: seq<byte>, tail: seq<byte>)
    requires Fits(p) && frame == EncodeFrame(p).value
    ensures Read(frame + tail) == After([p], Read(tail))
  {
    FrameRead(p, tail);
    assert (frame + tail)[|frame|..] == tail;
  }

  // Whatever packets are framed one after the other, the reader returns them all and then
  // goes on with what follows.
  lemma {:induction false} WireRead(packets: seq<Packet>, tail: seq<byte>)
    requires AllFit(packets)
    ensures Read(Wire(packets) + tail) == After(packets, Read(tail))
    decreases |packets|
  {
    if packets == [] {
      assert Wire(packets) + tail == tail;
    } else {
      assert Fits(packets[0]);
      var first, rest := EncodeFrame(packets[0]).value, Wire(packets[1..]);
      ReadPastFrame(packets[0], first, rest + tail);
      WireRead(packets[1..], tail);
      Join(packets, first, rest, tail);
    }
  }

  lemma Join(packets: seq<Packet>, first: seq<byte>, rest: seq<byte>, tail: seq<byte>)
    requires packets != []
    ensures first + rest + tail == first + (rest + tail)
    ensures forall more :: After([packets[0]], After(packets[1..], more)) == After(packets, more)
  {
    forall more
      ensures After([packets[0]], After(packets[1..], more)) == After(packets, more)
    {
      assert [packets[0]] + (packets[1..] + more.packets) == packets + more.packets;
    }
  }

  // In particular a stream that holds those frames and nothing else reads as those packets.
  lemma WholeWireRead(packets: seq<Packet>)
    requires AllFit(packets)
    ensures Read(Wire(packets)) == Reading(packets, EndOfStream)
  {
    WireRead(packets, []);
    assert Wire(packets) + [] == Wire(packets);
    assert Read([]) == Reading([], EndOfStream);
    assert packets + [] == packets;
  }
}
