/** The client side of the WebSocket byte pipe: frames as section 5.2 of RFC 6455 lays them out,
    the writer, and the reader that turns a stream of frames into a stream of bytes, answering
    pings as it goes. */
module WebSocket {
  import opened Bytes

  // A masking key.
  type Key = k: seq<byte> | |k| == 4 witness [0, 0, 0, 0]

  // Half a byte.
  type nibble = x: int | 0 <= x < 16

  const BINARY := 0x2
  const CLOSE := 0x8
  const PING := 0x9
  const PONG := 0xA

  const MAX_PAYLOAD := 1_000_000

  // ----- Masking -----

  // Exclusive or of two numbers of the given number of bits.
  function Xor(a: nat, b: nat, bits: nat): (r: nat)
    ensures r < Pow2(bits)
  {
    if bits == 0 then 0 else 2 * Xor(a / 2, b / 2, bits - 1) + (a + b) % 2
  }

  lemma Halves(half: nat, a: nat, b: nat)
    ensures var whole := 2 * half + (a + b) % 2;
            whole / 2 == half && (whole + b) % 2 == a % 2 && (whole % 2 == 1 <==> a % 2 != b % 2)
  {
  }

  lemma {:induction false} XorTwice(a: nat, b: nat, bits: nat)
    requires a < Pow2(bits)
    ensures Xor(Xor(a, b, bits), b, bits) == a
  {
    if bits > 0 {
      Halves(Xor(a / 2, b / 2, bits - 1), a, b);
      XorTwice(a / 2, b / 2, bits - 1);
    }
  }

  // Bit j of a number.
  predicate Bit(n: nat, j: nat) {
    if j == 0 then n % 2 == 1 else Bit(n / 2, j - 1)
  }

  // Each bit of the result is set exactly when one of the two is.
  lemma {:induction false} XorBits(a: nat, b: nat, bits: nat, j: nat)
    requires j < bits
    ensures Bit(Xor(a, b, bits), j) <==> Bit(a, j) != Bit(b, j)
  {
    Halves(Xor(a / 2, b / 2, bits - 1), a, b);
    if j > 0 {
      XorBits(a / 2, b / 2, bits - 1, j - 1);
    }
  }

  lemma Pow2OfByte()
    ensures Pow2(8) == 256
  {
    assert Pow2(4) == 16;
    assert Pow2(8) == 16 * Pow2(4);
  }

  function Flip(a: byte, k: byte): byte {
    Pow2OfByte();
    Xor(a, k, 8)
  }

  // The payload with byte i combined with byte i modulo 4 of the key.
  function Masked(key: Key, s: seq<byte>): (m: seq<byte>)
    ensures |m| == |s|
  {
    if s == [] then []
    else
      var n := |s| - 1;
      Masked(key, s[..n]) + [Flip(s[n], key[n % 4])]
  }

  // Section 5.3: bit j of byte i is turned over exactly when bit j of byte i modulo 4 of the key is set.
  lemma {:induction false} MaskedBits(key: Key, s: seq<byte>, i: nat, j: nat)
    requires i < |s| && j < 8
    ensures Bit(Masked(key, s)[i], j) <==> Bit(s[i], j) != Bit(key[i % 4], j)
  {
    var n := |s| - 1;
    if i == n {
      XorBits(s[n], key[n % 4], 8, j);
    } else {
      MaskedBits(key, s[..n], i, j);
    }
  }

  lemma FlipTwice(a: byte, k: byte)
    ensures Flip(Flip(a, k), k) == a
  {
    Pow2OfByte();
    XorTwice(a, k, 8);
  }

  // Section 5.3: the same step masks and unmasks.
  lemma {:induction false} MaskedTwice(key: Key, s: seq<byte>)
    ensures Masked(key, Masked(key, s)) == s
  {
    if s != [] {
      var n := |s| - 1;
      MaskedTwice(key, s[..n]);
      FlipTwice(s[n], key[n % 4]);
      Cut(Masked(key, s[..n]), [Flip(s[n], key[n % 4])]);
      assert s == s[..n] + [s[n]];
    }
  }

  // ----- Frames -----

  // The three ways to write a length: in seven bits, in two bytes, in eight bytes.
  datatype Form = Seven | Two | Eight

  // A frame with every choice of its sender made. `top` holds the FIN and the reserved bits.
  datatype Frame = Frame(top: nibble, opcode: nibble, form: Form, key: Option<Key>, payload: seq<byte>)

  // The number of length bytes after the first two, by the seven bits of the second.
  function Extra(seven: nat): (w: nat)
    ensures w == 0 || w == 2 || w == 8
  {
    if seven == 126 then 2 else if seven == 127 then 8 else 0
  }

  // What a form puts into the seven bits.
  function Low(form: Form, len: nat): (n: nat)
    ensures n < 128
  {
    match form
    case Seven => len % 128
    case Two => 126
    case Eight => 127
  }

  // The form has room for the length.
  predicate Writable(f: Frame) {
    match f.form
    case Seven => |f.payload| < 126
    case Two => |f.payload| < 0x1_0000
    case Eight => |f.payload| < 0x1_0000_0000_0000_0000
  }

  function KeyBytes(key: Option<Key>): seq<byte> {
    if key.Some? then key.value else []
  }

  function Body(f: Frame): seq<byte> {
    if f.key.Some? then Masked(f.key.value, f.payload) else f.payload
  }

  function LengthBytes(f: Frame): (s: seq<byte>)
    ensures |s| == Extra(Low(f.form, 0))
  {
    ToBE(|f.payload|, Extra(Low(f.form, 0)))
  }

  function FirstByte(top: int, opcode: int): byte
    requires 0 <= top < 16 && 0 <= opcode < 16
  {
    16 * top + opcode
  }

  // Everything before the key.
  function HeadBytes(f: Frame): (s: seq<byte>)
    ensures |s| == 2 + |LengthBytes(f)|
  {
    [FirstByte(f.top, f.opcode), (if f.key.Some? then 128 else 0) + Low(f.form, |f.payload|)] + LengthBytes(f)
  }

  function Wire(f: Frame): (s: seq<byte>)
    ensures |s| >= 2
  {
    HeadBytes(f) + (KeyBytes(f.key) + Body(f))
  }

  // ----- The reader's view of one frame -----

  datatype Error = Eof | TooLarge | Closed | Unsupported(opcode: nibble)

  datatype Head = Head(opcode: nibble, masked: bool, len: nat, size: nat)

  datatype Parsed = Ok(opcode: nibble, payload: seq<byte>, size: nat) | Err(error: Error)

  // The two fixed bytes and the length; None is the end of the stream.
  function ReadHead(s: seq<byte>): (h: Option<Head>)
    ensures h.Some? ==> 2 <= h.value.size <= |s|
  {
    if |s| < 2 then None
    else
      var w := Extra(s[1] % 128);
      if |s| < 2 + w then None
      else
        Some(Head(s[0] % 16, s[1] >= 128, if w == 0 then s[1] % 128 else FromBE(s[2..2 + w]), 2 + w))
  }

  // The key and the payload. A frame is refused for its size only after its key has arrived.
  function ReadPayload(h: Head, s: seq<byte>): (p: Parsed)
    ensures p.Ok? ==> p.opcode == h.opcode && p.size <= |s| && |p.payload| <= p.size && |p.payload| <= MAX_PAYLOAD
  {
    var k := if h.masked then 4 else 0;
    if |s| < k then Err(Eof)
    else if h.len > MAX_PAYLOAD then Err(TooLarge)
    else if |s| < k + h.len then Err(Eof)
    else
      var raw := s[k..k + h.len];
      Ok(h.opcode, if h.masked then Masked(s[..4], raw) else raw, k + h.len)
  }

  // The first frame of a byte stream, as read_data_frame reads it.
  function ReadFrame(s: seq<byte>): (p: Parsed)
    ensures p.Ok? ==> 2 <= p.size <= |s| && |p.payload| <= MAX_PAYLOAD
  {
    var h := ReadHead(s);
    if h.None? then Err(Eof)
    else
      var p := ReadPayload(h.value, s[h.value.size..]);
      if p.Err? then p else p.(size := h.value.size + p.size)
  }

  function HeadOf(f: Frame): Head {
    Head(f.opcode, f.key.Some?, |f.payload|, |HeadBytes(f)|)
  }

  lemma HeadBytesRead(first: byte, second: byte, length: seq<byte>, tail: seq<byte>)
    requires |length| == Extra(second % 128)
    ensures ReadHead([first, second] + length + tail) ==
            Some(Head(first % 16, second >= 128, if length == [] then second % 128 else FromBE(length), 2 + |length|))
  {
    var s := [first, second] + length + tail;
    assert s[0] == first && s[1] == second;
    assert s[2..2 + |length|] == length;
  }

  lemma LengthRead(f: Frame)
    requires Writable(f)
    ensures |f.payload| == if LengthBytes(f) == [] then Low(f.form, |f.payload|) else FromBE(LengthBytes(f))
    ensures |LengthBytes(f)| == Extra(Low(f.form, |f.payload|))
  {
    if f.form != Seven {
      Pow256Values();
      BERoundTrip(|f.payload|, Extra(Low(f.form, 0)));
    }
  }

  lemma HeadRead(f: Frame, tail: seq<byte>)
    requires Writable(f)
    ensures ReadHead(HeadBytes(f) + tail) == Some(HeadOf(f))
  {
    LengthRead(f);
    HeadBytesRead(HeadBytes(f)[0], HeadBytes(f)[1], LengthBytes(f), tail);
  }

  lemma HeadCut(f: Frame, k: nat)
    requires Writable(f) && k < |HeadBytes(f)|
    ensures ReadHead(HeadBytes(f)[..k]) == None
  {
    if k >= 2 {
      assert HeadBytes(f)[..k][1] % 128 == Low(f.form, |f.payload|);
    }
  }

  lemma PayloadCut(h: Head, key: seq<byte>, body: seq<byte>, tail: seq<byte>)
    requires |key| == (if h.masked then 4 else 0) && |body| == h.len
    ensures ReadPayload(h, key + body + tail) ==
            if h.len > MAX_PAYLOAD then Err(TooLarge)
            else Ok(h.opcode, if h.masked then Masked(key, body) else body, |key| + |body|)
  {
    var s := key + body + tail;
    Cut3(key, body, tail);
    Cut(key, body + tail);
    Cut(body, tail);
    if |body| <= MAX_PAYLOAD {
      assert s[|key|..|key| + |body|] == s[|key|..][..|body|];
    }
  }

  lemma BodyRestored(f: Frame)
    ensures (if f.key.Some? then Masked(f.key.value, Body(f)) else Body(f)) == f.payload
  {
    if f.key.Some? {
      MaskedTwice(f.key.value, f.payload);
    }
  }

  lemma PayloadRead(f: Frame, tail: seq<byte>)
    ensures ReadPayload(HeadOf(f), KeyBytes(f.key) + Body(f) + tail) ==
            if |f.payload| > MAX_PAYLOAD then Err(TooLarge)
            else Ok(f.opcode, f.payload, |KeyBytes(f.key) + Body(f)|)
  {
    BodyRestored(f);
    PayloadCut(HeadOf(f), KeyBytes(f.key), Body(f), tail);
  }

  // A frame is its head and then its payload.
  lemma ReadInTwo(head: seq<byte>, rest: seq<byte>, h: Head)
    requires ReadHead(head + rest) == Some(h) && h.size == |head|
    ensures var p := ReadPayload(h, rest);
            ReadFrame(head + rest) == if p.Err? then p else p.(size := |head| + p.size)
  {
    Cut(head, rest);
  }

  // A frame in front of anything is read back, whatever its reserved bits, its form and its key;
  // if its payload is too long it is refused.
  lemma FrameRead(f: Frame, tail: seq<byte>)
    requires Writable(f)
    ensures ReadFrame(Wire(f) + tail) ==
            if |f.payload| <= 1_000_000 then Ok(f.opcode, f.payload, |Wire(f)|) else Err(TooLarge)
  {
    var head, rest := HeadBytes(f), KeyBytes(f.key) + Body(f);
    Cut3(head, rest, tail);
    HeadRead(f, rest + tail);
    ReadInTwo(head, rest + tail, HeadOf(f));
    PayloadRead(f, tail);
  }

  // A frame cut short, even by one byte, yields nothing.
  lemma CutFrame(f: Frame, k: nat)
    requires Writable(f) && |f.payload| <= 1_000_000 && k < |Wire(f)|
    ensures ReadFrame(Wire(f)[..k]) == Err(Eof)
  {
    var head, rest := HeadBytes(f), KeyBytes(f.key) + Body(f);
    if k < |head| {
      assert Wire(f)[..k] == head[..k];
      HeadCut(f, k);
    } else {
      var part := rest[..k - |head|];
      assert Wire(f)[..k] == head + part;
      HeadRead(f, part);
      Cut(head, part);
    }
  }

  // The layout by two examples of section 5.7: a masked text frame and a binary frame of 256 bytes.
  lemma KnownMasked(key: Key, payload: seq<byte>)
    requires |payload| == 5
    ensures ReadFrame([0x81, 0x85] + (key + payload)) == Ok(1, Masked(key, payload), 11)
  {
    var rest := key + payload;
    assert [0x81, 0x85] + [] + rest == [0x81, 0x85] + rest;
    HeadBytesRead(0x81, 0x85, [], rest);
    ReadInTwo([0x81, 0x85], rest, Head(1, true, 5, 2));
    assert rest + [] == rest;
    PayloadCut(Head(1, true, 5, 2), key, payload, []);
  }

  lemma KnownBinary(payload: seq<byte>)
    requires |payload| == 256
    ensures ReadFrame([0x82, 0x7e, 0x01, 0x00] + payload) == Ok(2, payload, 260)
  {
    var s: seq<byte> := [0x82, 0x7e, 0x01, 0x00] + payload;
    assert s[2..4] == [1, 0] && [1, 0][..1] == [1];
    assert FromBE([1]) == 1 && FromBE([1, 0]) == 256;
    assert ReadHead(s) == Some(Head(2, false, 256, 4));
    assert s[4..] == [] + payload + [];
    PayloadCut(Head(2, false, 256, 4), [], payload, []);
  }

  // ----- A stream of frames -----

  // What the reader makes of a stream: payloads handed on and pings answered, in the order in
  // which that happens, and the error that ends it.
  datatype Log = Data(payload: seq<byte>, more: Log) | Pong(payload: seq<byte>, more: Log) | End(error: Error)

  // Repeated calls of read_data_frame, up to the first that fails.
  function Drain(s: seq<byte>): Log
    decreases |s|
  {
    var p := ReadFrame(s);
    if p.Err? then End(p.error)
    else if p.opcode <= BINARY then Data(p.payload, Drain(s[p.size..]))
    else if p.opcode == CLOSE then End(Closed)
    else if p.opcode == PING then Pong(p.payload, Drain(s[p.size..]))
    else if p.opcode == PONG then Drain(s[p.size..])
    else End(Unsupported(p.opcode))
  }

  function Delivered(log: Log): seq<seq<byte>> {
    match log
    case Data(payload, more) => [payload] + Delivered(more)
    case Pong(_, more) => Delivered(more)
    case End(_) => []
  }

  function Answered(log: Log): seq<seq<byte>> {
    match log
    case Data(_, more) => Answered(more)
    case Pong(payload, more) => [payload] + Answered(more)
    case End(_) => []
  }

  function Ending(log: Log): Error {
    match log
    case Data(_, more) => Ending(more)
    case Pong(_, more) => Ending(more)
    case End(error) => error
  }

  // A frame the reader accepts: data, a ping or a pong.
  predicate Accepted(f: Frame) {
    Writable(f) && |f.payload| <= 1_000_000 && (f.opcode <= 2 || f.opcode == 9 || f.opcode == 10)
  }

  predicate AllAccepted(frames: seq<Frame>) {
    forall i :: 0 <= i < |frames| ==> Accepted(frames[i])
  }

  function WireAll(frames: seq<Frame>): seq<byte> {
    if frames == [] then [] else Wire(frames[0]) + WireAll(frames[1..])
  }

  // What one accepted frame adds.
  function Note(f: Frame, log: Log): Log {
    if f.opcode <= 2 then Data(f.payload, log) else if f.opcode == 9 then Pong(f.payload, log) else log
  }

  // What the first n frames add.
  function Notes(frames: seq<Frame>, n: nat, log: Log): Log
    requires n <= |frames|
  {
    if n == 0 then log else Note(frames[0], Notes(frames[1..], n - 1, log))
  }

  lemma AcceptedFrame(f: Frame, tail: seq<byte>)
    requires Accepted(f)
    ensures Drain(Wire(f) + tail) == Note(f, Drain(tail))
  {
    FrameRead(f, tail);
    Cut(Wire(f), tail);
  }

  // Any other frame ends the stream at once, and names its reason.
  lemma RefusedFrame(f: Frame, tail: seq<byte>)
    requires Writable(f) && !Accepted(f)
    ensures Drain(Wire(f) + tail) == End(if |f.payload| > 1_000_000 then TooLarge
                                         else if f.opcode == 8 then Closed else Unsupported(f.opcode))
  {
    FrameRead(f, tail);
  }

  lemma {:induction false} FramesRead(frames: seq<Frame>, tail: seq<byte>)
    requires AllAccepted(frames)
    ensures Drain(WireAll(frames) + tail) == Notes(frames, |frames|, Drain(tail))
  {
    if frames == [] {
      assert WireAll(frames) + tail == tail;
    } else {
      var f, more := frames[0], frames[1..];
      Cut3(Wire(f), WireAll(more), tail);
      AcceptedFrame(f, WireAll(more) + tail);
      FramesRead(more, tail);
    }
  }

  // The payloads of the data frames, or of the pings, among the first n, in order.
  function Payloads(frames: seq<Frame>, n: nat, data: bool): seq<seq<byte>>
    requires n <= |frames|
  {
    if n == 0 then []
    else if Wanted(frames[0], data) then [frames[0].payload] + Payloads(frames[1..], n - 1, data)
    else Payloads(frames[1..], n - 1, data)
  }

  predicate Wanted(f: Frame, data: bool) {
    if data then f.opcode <= 2 else f.opcode == 9
  }

  lemma {:induction false} NotesAdd(frames: seq<Frame>, n: nat, log: Log)
    requires AllAccepted(frames) && n <= |frames|
    ensures Delivered(Notes(frames, n, log)) == Payloads(frames, n, true) + Delivered(log)
    ensures Answered(Notes(frames, n, log)) == Payloads(frames, n, false) + Answered(log)
    ensures Ending(Notes(frames, n, log)) == Ending(log)
  {
    if n > 0 {
      NotesAdd(frames[1..], n - 1, log);
    }
  }

  // For every sequence of accepted frames, in every form, masked or not, and whatever follows:
  // the data payloads come out in order, and every ping is answered with its own payload.
  lemma StreamRead(frames: seq<Frame>, tail: seq<byte>)
    requires AllAccepted(frames)
    ensures var log := Drain(WireAll(frames) + tail);
            && Delivered(log) == Payloads(frames, |frames|, true) + Delivered(Drain(tail))
            && Answered(log) == Payloads(frames, |frames|, false) + Answered(Drain(tail))
            && Ending(log) == Ending(Drain(tail))
  {
    FramesRead(frames, tail);
    NotesAdd(frames, |frames|, Drain(tail));
  }

  // The number of frames that lie wholly within the first k bytes.
  function Whole(frames: seq<Frame>, k: nat): (n: nat)
    ensures n <= |frames|
  {
    if frames == [] || k < |Wire(frames[0])| then 0 else 1 + Whole(frames[1..], k - |Wire(frames[0])|)
  }

  lemma CutFirst(f: Frame, rest: seq<byte>, k: nat)
    requires Accepted(f) && k <= |Wire(f) + rest|
    ensures Drain((Wire(f) + rest)[..k]) ==
            if k < |Wire(f)| then End(Eof) else Note(f, Drain(rest[..k - |Wire(f)|]))
  {
    TakeOfSum(Wire(f), rest, k);
    if k < |Wire(f)| {
      CutFrame(f, k);
    } else {
      AcceptedFrame(f, rest[..k - |Wire(f)|]);
    }
  }

  lemma {:induction false} CutFrames(frames: seq<Frame>, k: nat)
    requires AllAccepted(frames) && k <= |WireAll(frames)|
    ensures Drain(WireAll(frames)[..k]) == Notes(frames, Whole(frames, k), End(Eof))
  {
    if frames != [] {
      CutFirst(frames[0], WireAll(frames[1..]), k);
      if k >= |Wire(frames[0])| {
        CutFrames(frames[1..], k - |Wire(frames[0])|);
      }
    }
  }

  // A stream that stops anywhere has delivered and answered exactly the frames that arrived whole.
  lemma CutStream(frames: seq<Frame>, k: nat)
    requires AllAccepted(frames) && k <= |WireAll(frames)|
    ensures var log, n := Drain(WireAll(frames)[..k]), Whole(frames, k);
            && Delivered(log) == Payloads(frames, n, true) && Answered(log) == Payloads(frames, n, false)
            && Ending(log) == Eof
  {
    CutFrames(frames, k);
    NotesAdd(frames, Whole(frames, k), End(Eof));
  }

  // ----- The writer -----

  function Shortest(n: nat): Form {
    if n < 126 then Seven else if n <= 65535 then Two else Eight
  }

  // The frame write_frame sends.
  function Sent(opcode: nibble, payload: seq<byte>, key: Option<Key>): (f: Frame)
    ensures Writable(f) <==> |payload| < 0x1_0000_0000_0000_0000
  {
    Frame(8, opcode, Shortest(|payload|), key, payload)
  }

  // A final frame with the length n in the shortest form, by its first two bytes and its size.
  predicate FinalAndShortest(out: seq<byte>, opcode: nibble, masked: bool, n: nat) {
    var width := if n < 126 then 0 else if n < 65536 then 2 else 8;
    var seven := if n < 126 then n else if n < 65536 then 126 else 127;
    && |out| == 2 + width + (if masked then 4 else 0) + n
    && out[0] == 0x80 + opcode && out[1] == seven + if masked then 128 else 0
  }

  lemma SentShortest(opcode: nibble, payload: seq<byte>, key: Option<Key>)
    ensures FinalAndShortest(Wire(Sent(opcode, payload, key)), opcode, key.Some?, |payload|)
  {
    var f := Sent(opcode, payload, key);
    Cut3(HeadBytes(f)[..2], HeadBytes(f)[2..], KeyBytes(f.key) + Body(f));
  }

  method WriteFrame(opcode: nibble, payload: seq<byte>, key: Option<Key>) returns (out: seq<byte>)
    ensures out == Wire(Sent(opcode, payload, key))
    ensures FinalAndShortest(out, opcode, key.Some?, |payload|)
  {
    SentShortest(opcode, payload, key);
    ghost var head := HeadBytes(Sent(opcode, payload, key));
    var bit := if key.Some? then 128 else 0;
    var len := |payload|;
    var seven := if len < 126 then len else if len <= 65535 then 126 else 127;
    out := [FirstByte(8, opcode), bit + seven] + ToBE(len, Extra(seven));
    assert out == head;
    if key.None? {
      assert [] + payload == payload;
      return out + payload;
    }
    var body := MaskedCopy(key.value, payload);
    Cut3(out, key.value, body);
    return out + key.value + body;
  }

  method MaskedCopy(key: Key, payload: seq<byte>) returns (out: seq<byte>)
    ensures out == Masked(key, payload)
  {
    out := [];
    for i := 0 to |payload|
      invariant out == Masked(key, payload[..i])
    {
      assert payload[..i + 1][..i] == payload[..i];
      out := out + [Flip(payload[i], key[i % 4])];
    }
    assert payload[..|payload|] == payload;
  }

  // Reading inverts write_frame for every opcode, payload and key, up to the reader's limit.
  lemma SentIsRead(opcode: nibble, payload: seq<byte>, key: Option<Key>, tail: seq<byte>)
    requires |payload| < 0x1_0000_0000_0000_0000
    ensures var f := Sent(opcode, payload, key);
            ReadFrame(Wire(f) + tail) ==
            if |payload| <= 1_000_000 then Ok(opcode, payload, |Wire(f)|) else Err(TooLarge)
  {
    FrameRead(Sent(opcode, payload, key), tail);
  }

  // Buffers written one after the other, each with its own key or none.
  function Written(buffers: seq<seq<byte>>, keys: nat -> Option<Key>, from: nat): seq<byte> {
    if buffers == [] then [] else Wire(Sent(BINARY, buffers[0], keys(from))) + Written(buffers[1..], keys, from + 1)
  }

  // What a peer reads from buffers written one after the other is those buffers, for any keys.
  lemma {:induction false} PipeRoundTrip(buffers: seq<seq<byte>>, keys: nat -> Option<Key>, from: nat)
    requires forall i :: 0 <= i < |buffers| ==> |buffers[i]| <= 1_000_000
    ensures var log := Drain(Written(buffers, keys, from));
            Delivered(log) == buffers && Answered(log) == [] && Ending(log) == Eof
  {
    if buffers != [] {
      AcceptedFrame(Sent(BINARY, buffers[0], keys(from)), Written(buffers[1..], keys, from + 1));
      PipeRoundTrip(buffers[1..], keys, from + 1);
    }
  }

  // The bytes sent in answer to the pings of a log.
  function Answers(log: Log, keys: nat -> Option<Key>, from: nat): seq<byte> {
    match log
    case Data(_, more) => Answers(more, keys, from)
    case Pong(payload, more) => Wire(Sent(PONG, payload, keys(from))) + Answers(more, keys, from + 1)
    case End(_) => []
  }

  // The opcodes and payloads of the frames on a stream.
  function FramesOn(s: seq<byte>): seq<(nibble, seq<byte>)>
    decreases |s|
  {
    var p := ReadFrame(s);
    if p.Err? then [] else [(p.opcode, p.payload)] + FramesOn(s[p.size..])
  }

  function AsPongs(payloads: seq<seq<byte>>): seq<(nibble, seq<byte>)> {
    if payloads == [] then [] else [(10, payloads[0])] + AsPongs(payloads[1..])
  }

  // The answers, as the server reads them: one pong for each ping, with its payload.
  lemma {:induction false} AnswersRead(s: seq<byte>, keys: nat -> Option<Key>, from: nat)
    ensures FramesOn(Answers(Drain(s), keys, from)) == AsPongs(Answered(Drain(s)))
    decreases |s|
  {
    var p := ReadFrame(s);
    if p.Ok? && p.opcode == PING {
      var f, rest := Sent(PONG, p.payload, keys(from)), Answers(Drain(s[p.size..]), keys, from + 1);
      FrameRead(f, rest);
      Cut(Wire(f), rest);
      AnswersRead(s[p.size..], keys, from + 1);
    } else if p.Ok? && (p.opcode <= BINARY || p.opcode == PONG) {
      AnswersRead(s[p.size..], keys, from);
    }
  }

  // ----- The pipe -----

  // The log from the first entry that is not an answer.
  function Rest(log: Log): (r: Log)
    ensures !r.Pong?
  {
    if log.Pong? then Rest(log.more) else log
  }

  lemma {:induction false} RestKeeps(log: Log)
    ensures Delivered(log) == Delivered(Rest(log)) && Ending(log) == Ending(Rest(log))
  {
    if log.Pong? {
      RestKeeps(log.more);
    }
  }

  datatype Result = Good(value: seq<byte>) | Bad(error: Error)

  // Unmasking in place.
  method Unmask(key: Key, payload: array<byte>)
    modifies payload
    ensures payload[..] == Masked(key, old(payload[..]))
  {
    for i := 0 to payload.Length
      invariant payload[..i] == Masked(key, old(payload[..])[..i])
      invariant payload[i..] == old(payload[..])[i..]
    {
      assert old(payload[..])[..i + 1][..i] == old(payload[..])[..i];
      payload[i] := Flip(payload[i], key[i % 4]);
    }
    assert old(payload[..])[..payload.Length] == old(payload[..]);
  }

  // The connection as the client holds it: the bytes the server will send and how many have been
  // read, the bytes sent, and the random keys with the number of them drawn.
  class Socket {
    const input: seq<byte>
    var position: nat
    var output: seq<byte>
    const keys: nat -> Option<Key>
    var drawn: nat

    ghost predicate Valid() reads this { position <= |input| }

    constructor (input: seq<byte>, keys: nat -> Option<Key>)
      ensures Valid() && this.input == input && this.keys == keys
      ensures position == 0 && output == [] && drawn == 0
    {
      this.input, this.keys := input, keys;
      position, output, drawn := 0, [], 0;
    }

    method ReadExact(n: nat) returns (r: Option<seq<byte>>)
      requires Valid()
      modifies `position
      ensures Valid() && (r.None? <==> n > |input| - old(position))
      ensures r.Some? ==> position == old(position) + n && r.value == input[old(position)..position]
    {
      if n > |input| - position {
        position := |input|;
        return None;
      }
      r := Some(input[position..position + n]);
      position := position + n;
    }

    method TakeHead() returns (h: Option<Head>)
      requires Valid()
      modifies `position
      ensures Valid() && h == ReadHead(input[old(position)..])
      ensures h.Some? ==> position == old(position) + h.value.size
    {
      ghost var rest := input[position..];
      var hdr := ReadExact(2);
      if hdr.None? {
        return None;
      }
      assert hdr.value == rest[..2];
      var seven := hdr.value[1] % 128;
      var len := seven;
      var w := Extra(seven);
      if w > 0 {
        var ext := ReadExact(w);
        if ext.None? {
          return None;
        }
        assert ext.value == rest[2..2 + w];
        len := FromBE(ext.value);
      }
      return Some(Head(hdr.value[0] % 16, hdr.value[1] >= 128, len, 2 + w));
    }

    method TakePayload(h: Head) returns (p: Parsed)
      requires Valid()
      modifies `position
      ensures Valid() && p == ReadPayload(h, input[old(position)..])
      ensures p.Ok? ==> position == old(position) + p.size
    {
      ghost var start, rest := position, input[position..];
      var key: Key := [0, 0, 0, 0];
      if h.masked {
        var four := ReadExact(4);
        if four.None? {
          return Err(Eof);
        }
        key := four.value;
        assert key == rest[..4];
      }
      if h.len > MAX_PAYLOAD {
        return Err(TooLarge);
      }
      ghost var k := position - start;
      var raw := ReadExact(h.len);
      if raw.None? {
        return Err(Eof);
      }
      assert rest[k..k + h.len] == raw.value;
      if !h.masked {
        return Ok(h.opcode, raw.value, h.len);
      }
      var payload := new byte[h.len](i requires 0 <= i < h.len => raw.value[i]);
      assert payload[..] == raw.value;
      Unmask(key, payload);
      return Ok(h.opcode, payload[..], 4 + h.len);
    }

    // The body of the loop up to the choice by opcode.
    method TakeFrame() returns (p: Parsed)
      requires Valid()
      modifies `position
      ensures Valid() && p == ReadFrame(input[old(position)..])
      ensures p.Ok? ==> position == old(position) + p.size
    {
      ghost var start := position;
      var h := TakeHead();
      if h.None? {
        return Err(Eof);
      }
      DropDrop(input, start, position);
      p := TakePayload(h.value);
      if p.Ok? {
        p := p.(size := h.value.size + p.size);
      }
    }

    method Answer(payload: seq<byte>, ghost more: Log)
      modifies `output, `drawn
      ensures output + Answers(more, keys, drawn) == old(output) + Answers(Pong(payload, more), keys, old(drawn))
    {
      var pong := WriteFrame(PONG, payload, keys(drawn));
      Cut3(output, pong, Answers(more, keys, drawn + 1));
      output, drawn := output + pong, drawn + 1;
    }

    // One round of the loop of read_data_frame; None goes round again.
    method Round() returns (r: Option<Result>)
      requires Valid()
      modifies this
      ensures Valid() && (position > old(position) || r.Some?)
      ensures var log := Drain(input[old(position)..]);
              if r.None? then
                && Rest(Drain(input[position..])) == Rest(log)
                && output + Answers(Drain(input[position..]), keys, drawn) ==
                   old(output) + Answers(log, keys, old(drawn))
              else
                && output == old(output) && drawn == old(drawn)
                && log == (if r.value.Bad? then End(r.value.error) else Data(r.value.value, Drain(input[position..])))
                && (r.value.Good? ==> position > old(position))
    {
      ghost var here := position;
      var p := TakeFrame();
      if p.Err? {
        return Some(Bad(p.error));
      }
      DropDrop(input, here, position);
      if p.opcode <= BINARY {
        return Some(Good(p.payload));
      } else if p.opcode == CLOSE {
        return Some(Bad(Closed));
      } else if p.opcode == PING {
        assert Drain(input[here..]) == Pong(p.payload, Drain(input[position..]));
        Answer(p.payload, Drain(input[position..]));
        return None;
      } else if p.opcode == PONG {
        assert Drain(input[here..]) == Drain(input[position..]);
        return None;
      }
      return Some(Bad(Unsupported(p.opcode)));
    }

    // read_data_frame: what has been sent, with what the unread stream will still have sent, does
    // not change.
    method ReadDataFrame() returns (r: Result)
      requires Valid()
      modifies this
      ensures Valid()
      ensures var log := Drain(input[old(position)..]);
              if r.Bad? then
                Rest(log) == End(r.error) && output == old(output) + Answers(log, keys, old(drawn))
              else
                && Rest(log) == Data(r.value, Drain(input[position..])) && position > old(position)
                && output + Answers(Rest(log), keys, drawn) == old(output) + Answers(log, keys, old(drawn))
    {
      ghost var log := Drain(input[position..]);
      ghost var end := output + Answers(log, keys, drawn);
      while true
        invariant Valid() && position >= old(position)
        invariant Rest(Drain(input[position..])) == Rest(log)
        invariant output + Answers(Drain(input[position..]), keys, drawn) == end
        decreases |input| - position
      {
        var round := Round();
        if round.Some? {
          return round.value;
        }
      }
    }

    // The reading arm of the pipe: it ends at the first error.
    method Pump() returns (data: seq<seq<byte>>, error: Error)
      requires Valid()
      modifies this
      ensures var log := Drain(input[old(position)..]);
              && data == Delivered(log) && error == Ending(log)
              && output == old(output) + Answers(log, keys, old(drawn))
    {
      ghost var log := Drain(input[position..]);
      ghost var end := output + Answers(log, keys, drawn);
      data := [];
      while true
        invariant Valid()
        invariant data + Delivered(Drain(input[position..])) == Delivered(log)
        invariant Ending(Drain(input[position..])) == Ending(log)
        invariant output + Answers(Drain(input[position..]), keys, drawn) == end
        decreases |input| - position
      {
        RestKeeps(Drain(input[position..]));
        var r := ReadDataFrame();
        if r.Bad? {
          assert data + [] == data;
          return data, r.error;
        }
        assert data + ([r.value] + Delivered(Drain(input[position..]))) ==
               data + [r.value] + Delivered(Drain(input[position..]));
        data := data + [r.value];
      }
    }
  }
}
