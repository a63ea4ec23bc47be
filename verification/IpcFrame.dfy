/** The frames on the helper's socket: a length, the payload and at most one file descriptor. The
    sender goes on through partial sends and retries; the receiver gathers chunks. */
module IpcFrame {
  import opened Bytes

  const MAX_FRAME := 1024 * 1024

  type Fd = nat

  function Framed(payload: seq<byte>): (s: seq<byte>)
    ensures |s| == 4 + |payload|
  {
    ToBE(|payload|, 4) + payload
  }

  // What the first bytes of anything that begins with a frame say of it.
  lemma FrameInFront(payload: seq<byte>, whole: seq<byte>, part: seq<byte>)
    requires |payload| <= MAX_FRAME && Framed(payload) <= whole && part <= whole && |part| >= 4
    ensures FromBE(part[..4]) == |payload|
    ensures |part| >= 4 + |payload| ==> part[4..4 + |payload|] == payload && Framed(payload) <= part
  {
    Pow256Values();
    BERoundTrip(|payload|, 4);
    assert part[..4] == whole[..4] == Framed(payload)[..4] == ToBE(|payload|, 4);
    if |part| >= 4 + |payload| {
      assert part[..4 + |payload|] == whole[..4 + |payload|] == Framed(payload);
      assert part[4..4 + |payload|] == part[..4 + |payload|][4..] == payload;
    }
  }

  // ----- Sending -----

  // What one attempt to send meets: the kernel takes at most so many bytes, the attempt is to be
  // repeated, or it fails.
  datatype Attempt = Took(most: nat) | Again | Broken

  datatype Sent = Done | TooLong | WroteZero | Failed | Waiting

  // The bytes of one successful sendmsg and the descriptor that goes with them.
  datatype Segment = Segment(bytes: seq<byte>, fd: Option<Fd>)

  function OnWire(wire: seq<Segment>): seq<byte> {
    if wire == [] then [] else OnWire(wire[..|wire| - 1]) + wire[|wire| - 1].bytes
  }

  // How an attempt list ends for a frame of which `left` bytes are to go. A list that runs out
  // leaves the call waiting.
  function Fate(attempts: seq<Attempt>, left: nat): Sent {
    if left == 0 then Done
    else if attempts == [] then Waiting
    else
      match attempts[0]
      case Again => Fate(attempts[1..], left)
      case Broken => Failed
      case Took(most) => if most == 0 then WroteZero else Fate(attempts[1..], if most < left then left - most else 0)
  }

  // The descriptor is on the first segment and on no other.
  predicate FdFirst(wire: seq<Segment>, fd: Option<Fd>) {
    forall i :: 0 <= i < |wire| ==> wire[i].fd == (if i == 0 then fd else None) && wire[i].bytes != []
  }

  // send_frame. Under every list of attempts the wire carries a prefix of the frame, all of it
  // exactly when the call succeeds, and the descriptor with the first bytes only.
  method SendFrame(payload: seq<byte>, fd: Option<Fd>, attempts: seq<Attempt>) returns (r: Sent, wire: seq<Segment>)
    ensures r == if |payload| > 1_048_576 then TooLong else Fate(attempts, |Framed(payload)|)
    ensures OnWire(wire) <= Framed(payload) && FdFirst(wire, fd)
    ensures r == Done <==> OnWire(wire) == Framed(payload)
    ensures r == TooLong ==> wire == []
  {
    wire := [];
    if |payload| > MAX_FRAME {
      return TooLong, wire;
    }
    var framed := Framed(payload);
    var off, passFd, i := 0, fd, 0;
    while off < |framed|
      invariant 0 <= off <= |framed| && 0 <= i <= |attempts|
      invariant OnWire(wire) == framed[..off]
      invariant FdFirst(wire, fd) && passFd == (if wire == [] then fd else None)
      invariant Fate(attempts[i..], |framed| - off) == Fate(attempts, |framed|)
      decreases |attempts| - i
    {
      if i == |attempts| {
        return Waiting, wire;
      }
      assert attempts[i..][1..] == attempts[i + 1..];
      match attempts[i] {
        case Again =>
        case Broken =>
          return Failed, wire;
        case Took(most) =>
          if most == 0 {
            return WroteZero, wire;
          }
          var n := if most < |framed| - off then most else |framed| - off;
          wire := wire + [Segment(framed[off..off + n], passFd)];
          assert framed[..off] + framed[off..off + n] == framed[..off + n];
          off, passFd := off + n, None;
      }
      i := i + 1;
    }
    return Done, wire;
  }

  // ----- Receiving -----

  // What one recvmsg meets; an empty chunk is the end of the stream.
  datatype Event = Chunk(bytes: seq<byte>, fd: Option<Fd>) | Retry | Fault

  datatype Error = Eof | Oversize | Io | Pending

  datatype Gathered = Full(buf: seq<byte>, fd: Option<Fd>, left: seq<Event>) | Short(error: Error)

  datatype Received = Frame(payload: seq<byte>, fd: Option<Fd>, left: seq<Event>) | Refused(error: Error)

  function Either(a: Option<Fd>, b: Option<Fd>): Option<Fd> { if a.None? then b else a }

  // Gathering at least `want` bytes.
  function Gather(buf: seq<byte>, fd: Option<Fd>, events: seq<Event>, want: nat): (g: Gathered)
    ensures g.Full? ==> |g.buf| >= want && buf <= g.buf
    decreases |events|
  {
    if |buf| >= want then Full(buf, fd, events)
    else if events == [] then Short(Pending)
    else
      match events[0]
      case Retry => Gather(buf, fd, events[1..], want)
      case Fault => Short(Io)
      case Chunk(bytes, f) =>
        if bytes == [] then Short(Eof) else Gather(buf + bytes, Either(fd, f), events[1..], want)
  }

  // recv_frame: what is gathered past the frame is dropped.
  function Receive(events: seq<Event>): Received {
    var head := Gather([], None, events, 4);
    if head.Short? then Refused(head.error)
    else
      var len := FromBE(head.buf[..4]);
      if len > MAX_FRAME then Refused(Oversize)
      else
        var all := Gather(head.buf, head.fd, head.left, 4 + len);
        if all.Short? then Refused(all.error) else Frame(all.buf[4..4 + len], all.fd, all.left)
  }

  datatype Outcome = Got(bytes: seq<byte>, fd: Option<Fd>) | Lost(error: Error)

  // recv_chunk: retries until there is an outcome.
  method RecvChunk(events: seq<Event>, from: nat, ghost buf: seq<byte>, ghost fd: Option<Fd>, ghost want: nat)
    returns (r: Outcome, next: nat)
    requires from <= |events| && |buf| < want
    ensures from <= next <= |events| && (r.Got? ==> from < next)
    ensures Gather(buf, fd, events[from..], want) ==
            if r.Lost? then Short(r.error)
            else if r.bytes == [] then Short(Eof)
            else Gather(buf + r.bytes, Either(fd, r.fd), events[next..], want)
  {
    next := from;
    while next < |events| && events[next].Retry?
      invariant from <= next <= |events|
      invariant Gather(buf, fd, events[from..], want) == Gather(buf, fd, events[next..], want)
    {
      assert events[next..][1..] == events[next + 1..];
      next := next + 1;
    }
    if next == |events| {
      return Lost(Pending), next;
    }
    if events[next].Fault? {
      return Lost(Io), next;
    }
    assert events[next..][1..] == events[next + 1..];
    return Got(events[next].bytes, events[next].fd), next + 1;
  }

  // The two loops of recv_frame.
  method GatherLoop(events: seq<Event>, from: nat, start: seq<byte>, startFd: Option<Fd>, want: nat)
    returns (r: Option<Error>, next: nat, buf: seq<byte>, passedFd: Option<Fd>)
    requires from <= |events|
    ensures from <= next <= |events|
    ensures Gather(start, startFd, events[from..], want) ==
            if r.Some? then Short(r.value) else Full(buf, passedFd, events[next..])
  {
    next, buf, passedFd := from, start, startFd;
    while |buf| < want
      invariant from <= next <= |events|
      invariant Gather(start, startFd, events[from..], want) == Gather(buf, passedFd, events[next..], want)
      decreases |events| - next
    {
      var chunk, after := RecvChunk(events, next, buf, passedFd, want);
      if chunk.Lost? {
        return Some(chunk.error), next, buf, passedFd;
      }
      if chunk.bytes == [] {
        return Some(Eof), next, buf, passedFd;
      }
      buf, next := buf + chunk.bytes, after;
      if passedFd.None? {
        passedFd := chunk.fd;
      }
    }
    return None, next, buf, passedFd;
  }

  method RecvFrame(events: seq<Event>) returns (r: Received)
    ensures r == Receive(events)
  {
    assert events[0..] == events;
    var bad, next, buf, fd := GatherLoop(events, 0, [], None, 4);
    if bad.Some? {
      return Refused(bad.value);
    }
    var len := FromBE(buf[..4]);
    if len > MAX_FRAME {
      return Refused(Oversize);
    }
    bad, next, buf, fd := GatherLoop(events, next, buf, fd, 4 + len);
    if bad.Some? {
      return Refused(bad.value);
    }
    return Frame(buf[4..4 + len], fd, events[next..]);
  }

  // ----- What is received -----

  // The bytes the first k events bring.
  function Brought(events: seq<Event>, k: nat): seq<byte>
    requires k <= |events|
  {
    if k == 0 then []
    else if events[0].Chunk? then events[0].bytes + Brought(events[1..], k - 1)
    else Brought(events[1..], k - 1)
  }

  // The first descriptor among them.
  function FirstFd(events: seq<Event>, k: nat): Option<Fd>
    requires k <= |events|
  {
    if k == 0 then None
    else if events[0].Chunk? then Either(events[0].fd, FirstFd(events[1..], k - 1))
    else FirstFd(events[1..], k - 1)
  }

  // Chunks and retries only: the stream neither fails nor ends.
  predicate Steady(events: seq<Event>, k: nat)
    requires k <= |events|
  {
    k == 0 || ((events[0].Retry? || (events[0].Chunk? && events[0].bytes != [])) && Steady(events[1..], k - 1))
  }

  // The number of events until `want` bytes have come.
  function Needed(events: seq<Event>, want: nat): (k: nat)
    ensures k <= |events|
  {
    if want == 0 || events == [] then 0
    else
      var n := if events[0].Chunk? then |events[0].bytes| else 0;
      1 + Needed(events[1..], if n < want then want - n else 0)
  }

  // Gathering takes as many events as it needs, if they come before any fault or end.
  lemma {:induction false} Gathers(buf: seq<byte>, fd: Option<Fd>, events: seq<Event>, n: nat, want: nat)
    requires n <= |events| && Steady(events, n) && |buf| + |Brought(events, n)| >= want
    ensures var k := Needed(events, if |buf| < want then want - |buf| else 0);
            k <= n && Gather(buf, fd, events, want) ==
                      Full(buf + Brought(events, k), Either(fd, FirstFd(events, k)), events[k..])
    decreases n
  {
    if |buf| >= want {
      assert buf + [] == buf;
    } else {
      var e, rest := events[0], events[1..];
      var k := Needed(events, want - |buf|);
      if e.Retry? {
        Gathers(buf, fd, rest, n - 1, want);
      } else {
        Gathers(buf + e.bytes, Either(fd, e.fd), rest, n - 1, want);
        Cut3(buf, e.bytes, Brought(rest, k - 1));
      }
    }
  }

  lemma GathersFresh(events: seq<Event>, n: nat, want: nat)
    requires n <= |events| && Steady(events, n) && |Brought(events, n)| >= want
    ensures var k := Needed(events, want);
            && k <= n && want <= |Brought(events, k)| && Brought(events, k) <= Brought(events, n)
            && Gather([], None, events, want) == Full(Brought(events, k), FirstFd(events, k), events[k..])
  {
    var k := Needed(events, want);
    Gathers([], None, events, n, want);
    assert [] + Brought(events, k) == Brought(events, k);
    BroughtSplit(events, k, n);
  }

  lemma {:induction false} BroughtSplit(events: seq<Event>, k: nat, n: nat)
    requires k <= n <= |events|
    ensures Brought(events, n) == Brought(events, k) + Brought(events[k..], n - k)
  {
    if k == 0 {
      assert events[0..] == events;
    } else {
      BroughtSplit(events[1..], k - 1, n - 1);
      assert events[1..][k - 1..] == events[k..];
    }
  }

  // Whatever is gathered came from a steady run of events at the front.
  lemma {:induction false} GatheredFrom(buf: seq<byte>, fd: Option<Fd>, events: seq<Event>, want: nat)
    ensures var g := Gather(buf, fd, events, want);
            g.Full? ==>
              var k := |events| - |g.left|;
              k >= 0 && Steady(events, k) && g.buf == buf + Brought(events, k)
    decreases |events|
  {
    var g := Gather(buf, fd, events, want);
    if |buf| >= want {
      assert buf + [] == buf;
    } else if g.Full? {
      var e, rest := events[0], events[1..];
      if e.Retry? {
        GatheredFrom(buf, fd, rest, want);
      } else {
        GatheredFrom(buf + e.bytes, Either(fd, e.fd), rest, want);
        Cut3(buf, e.bytes, Brought(rest, |rest| - |g.left|));
      }
    }
  }

  // Gathering in two goes is gathering in one.
  lemma {:induction false} GatherTwice(buf: seq<byte>, fd: Option<Fd>, events: seq<Event>, some: nat, want: nat)
    requires some <= want
    ensures var g := Gather(buf, fd, events, some);
            g.Full? ==> Gather(g.buf, g.fd, g.left, want) == Gather(buf, fd, events, want)
    decreases |events|
  {
    if |buf| < some && events != [] && events[0].Retry? {
      GatherTwice(buf, fd, events[1..], some, want);
    } else if |buf| < some && events != [] && events[0].Chunk? {
      GatherTwice(buf + events[0].bytes, Either(fd, events[0].fd), events[1..], some, want);
    }
  }

  // The two goes of recv_frame taken together.
  lemma ReceivedAtOnce(events: seq<Event>, len: nat)
    requires Gather([], None, events, 4).Full? && FromBE(Gather([], None, events, 4).buf[..4]) == len <= MAX_FRAME
    ensures var all := Gather([], None, events, 4 + len);
            Receive(events) ==
            if all.Short? then Refused(all.error) else Frame(all.buf[4..4 + len], all.fd, all.left)
  {
    GatherTwice([], None, events, 4, 4 + len);
  }

  // A frame that has come in full before any fault is received, with the first descriptor of the
  // chunks it came in; the bytes of the last chunk past the frame are gone.
  lemma FrameReceived(events: seq<Event>, n: nat, payload: seq<byte>)
    requires n <= |events| && Steady(events, n) && |payload| <= 1_048_576
    requires Framed(payload) <= Brought(events, n)
    ensures var k := Needed(events, |Framed(payload)|);
            && k <= n && Framed(payload) <= Brought(events, k)
            && Receive(events) == Frame(payload, FirstFd(events, k), events[k..])
  {
    var j, k := Needed(events, 4), Needed(events, 4 + |payload|);
    GathersFresh(events, n, 4);
    GathersFresh(events, n, 4 + |payload|);
    FrameInFront(payload, Brought(events, n), Brought(events, j));
    FrameInFront(payload, Brought(events, n), Brought(events, k));
    ReceivedAtOnce(events, |payload|);
  }

  lemma ReceivedWasFramed(events: seq<Event>, payload: seq<byte>)
    requires Receive(events).Frame? && Receive(events).payload == payload
    ensures |payload| <= 1_048_576
    ensures var n := |events| - |Receive(events).left|;
            n >= 0 && Steady(events, n) && Framed(payload) <= Brought(events, n)
  {
    var head := Gather([], None, events, 4);
    var len := FromBE(head.buf[..4]);
    ReceivedAtOnce(events, len);
    GatherTwice([], None, events, 4, 4 + len);
    GatheredFrom([], None, events, 4 + len);
    var all := Gather([], None, events, 4 + len);
    assert [] + Brought(events, |events| - |all.left|) == all.buf;
    BEInverse(head.buf[..4]);
    assert all.buf[..4] == head.buf[..4];
    assert all.buf[..4 + len] == all.buf[..4] + all.buf[4..4 + len];
  }

  // The frame comes in full before any fault or end.
  ghost predicate Arrives(events: seq<Event>, payload: seq<byte>) {
    exists n :: 0 <= n <= |events| && Steady(events, n) && Framed(payload) <= Brought(events, n)
  }

  // A payload is received exactly when its frame arrives: nothing that was not framed is received,
  // whatever the events.
  lemma ReceivedIff(events: seq<Event>, payload: seq<byte>)
    ensures (Receive(events).Frame? && Receive(events).payload == payload) <==>
            (|payload| <= 1_048_576 && Arrives(events, payload))
  {
    if Receive(events).Frame? && Receive(events).payload == payload {
      ReceivedWasFramed(events, payload);
    }
    if |payload| <= 1_048_576 && Arrives(events, payload) {
      var n :| 0 <= n <= |events| && Steady(events, n) && Framed(payload) <= Brought(events, n);
      FrameReceived(events, n, payload);
    }
  }

  // Event n is where the stream fails or ends, or there is no event n and it falls silent.
  predicate Breaks(events: seq<Event>, n: nat, error: Error)
    requires n <= |events|
  {
    if n == |events| then error == Pending
    else (events[n].Fault? && error == Io) || (events[n].Chunk? && events[n].bytes == [] && error == Eof)
  }

  lemma {:induction false} ShortAt(buf: seq<byte>, fd: Option<Fd>, events: seq<Event>, want: nat) returns (n: nat)
    requires Gather(buf, fd, events, want).Short?
    ensures n <= |events| && Steady(events, n) && |buf| + |Brought(events, n)| < want
    ensures Breaks(events, n, Gather(buf, fd, events, want).error)
    decreases |events|
  {
    n := 0;
    if events != [] && events[0].Retry? {
      n := ShortAt(buf, fd, events[1..], want);
      n := n + 1;
    } else if events != [] && events[0].Chunk? && events[0].bytes != [] {
      n := ShortAt(buf + events[0].bytes, Either(fd, events[0].fd), events[1..], want);
      n := n + 1;
    }
  }

  lemma {:induction false} ShortIf(
    buf: seq<byte>, fd: Option<Fd>, events: seq<Event>, want: nat, n: nat, error: Error)
    requires n <= |events| && Steady(events, n) && |buf| + |Brought(events, n)| < want && Breaks(events, n, error)
    ensures Gather(buf, fd, events, want) == Short(error)
    decreases |events|
  {
    if n > 0 {
      if events[0].Retry? {
        ShortIf(buf, fd, events[1..], want, n - 1, error);
      } else {
        ShortIf(buf + events[0].bytes, Either(fd, events[0].fd), events[1..], want, n - 1, error);
      }
    }
  }

  // The bytes announce a frame beyond the limit; they are not a whole frame yet.
  predicate Exceeds(s: seq<byte>) { |s| >= 4 && FromBE(s[..4]) > 1_048_576 }

  predicate Incomplete(s: seq<byte>) {
    |s| < 4 || (FromBE(s[..4]) <= 1_048_576 && |s| < 4 + FromBE(s[..4]))
  }

  // The size is read off the first four bytes, however many have come.
  lemma HeadGathered(events: seq<Event>, n: nat)
    requires n <= |events| && Steady(events, n) && |Brought(events, n)| >= 4
    ensures var head := Gather([], None, events, 4);
            head.Full? && head.buf[..4] == Brought(events, n)[..4]
  {
    GathersFresh(events, n, 4);
    assert Brought(events, Needed(events, 4))[..4] == Brought(events, n)[..4];
  }

  lemma RefusedAt(events: seq<Event>) returns (n: nat)
    requires Receive(events).Refused?
    ensures n <= |events| && Steady(events, n)
    ensures Receive(events).error == Oversize ==> Exceeds(Brought(events, n))
    ensures Receive(events).error != Oversize ==>
              Breaks(events, n, Receive(events).error) && Incomplete(Brought(events, n))
  {
    var head := Gather([], None, events, 4);
    if head.Short? {
      n := ShortAt([], None, events, 4);
    } else {
      GatheredFrom([], None, events, 4);
      n := |events| - |head.left|;
      assert [] + Brought(events, n) == head.buf;
      var len := FromBE(head.buf[..4]);
      if len <= MAX_FRAME {
        ReceivedAtOnce(events, len);
        n := ShortAt([], None, events, 4 + len);
        if |Brought(events, n)| >= 4 {
          HeadGathered(events, n);
        }
      } else {
        assert Exceeds(Brought(events, n)) by { assert Brought(events, n)[..4] == head.buf[..4]; }
      }
    }
  }

  lemma RefusedIf(events: seq<Event>, n: nat, error: Error)
    requires n <= |events| && Steady(events, n)
    requires if error == Oversize then Exceeds(Brought(events, n))
             else Breaks(events, n, error) && Incomplete(Brought(events, n))
    ensures Receive(events) == Refused(error)
  {
    if |Brought(events, n)| < 4 {
      ShortIf([], None, events, 4, n, error);
    } else {
      HeadGathered(events, n);
      var len := FromBE(Brought(events, n)[..4]);
      if error != Oversize {
        ReceivedAtOnce(events, len);
        ShortIf([], None, events, 4 + len, n, error);
      }
    }
  }

  // Before any fault or end, four bytes have come that announce too much; or it comes before the frame
  // is whole.
  ghost predicate Overrun(events: seq<Event>) {
    exists n :: 0 <= n <= |events| && Steady(events, n) && Exceeds(Brought(events, n))
  }

  ghost predicate BrokenOff(events: seq<Event>, error: Error) {
    exists n :: 0 <= n <= |events| && Steady(events, n) && Breaks(events, n, error) && Incomplete(Brought(events, n))
  }

  // A frame is refused for its size exactly when more than a mebibyte is announced before any fault or
  // end, and for a fault, an end or silence exactly when that comes before the frame is whole.
  lemma RefusedIff(events: seq<Event>, error: Error)
    ensures Receive(events) == Refused(error) <==>
            if error == Oversize then Overrun(events) else BrokenOff(events, error)
  {
    if Receive(events) == Refused(error) {
      var n := RefusedAt(events);
    } else if error == Oversize && Overrun(events) {
      var n :| 0 <= n <= |events| && Steady(events, n) && Exceeds(Brought(events, n));
      RefusedIf(events, n, error);
    } else if error != Oversize && BrokenOff(events, error) {
      var n :| 0 <= n <= |events| && Steady(events, n) && Breaks(events, n, error) && Incomplete(Brought(events, n));
      RefusedIf(events, n, error);
    }
  }

  // The descriptor comes with the first chunk and no other.
  predicate Tagged(events: seq<Event>, fd: Option<Fd>) {
    events == [] ||
    (if events[0].Chunk? then events[0].fd == fd && Tagged(events[1..], None) else Tagged(events[1..], fd))
  }

  lemma {:induction false} FirstFdIs(events: seq<Event>, fd: Option<Fd>, k: nat)
    requires k <= |events| && Tagged(events, fd) && (Brought(events, k) != [] || fd == None)
    ensures FirstFd(events, k) == fd
  {
    if k > 0 {
      FirstFdIs(events[1..], if events[0].Chunk? then None else fd, k - 1);
    }
  }

  // One frame in flight: whatever segments the sender cut it into and whatever chunks it comes in,
  // the receiver has the payload and the descriptor, and no byte is left over.
  lemma FrameDelivered(payload: seq<byte>, fd: Option<Fd>, wire: seq<Segment>, events: seq<Event>)
    requires |payload| <= 1_048_576 && OnWire(wire) == Framed(payload) && FdFirst(wire, fd)
    requires Steady(events, |events|) && Brought(events, |events|) == OnWire(wire) && Tagged(events, wire[0].fd)
    ensures var r := Receive(events);
            r.Frame? && r.payload == payload && r.fd == fd && Brought(r.left, |r.left|) == []
  {
    FrameReceived(events, |events|, payload);
    var k := Needed(events, |Framed(payload)|);
    BroughtSplit(events, k, |events|);
    assert Framed(payload) + [] == Brought(events, k) + Brought(events[k..], |events| - k);
    SameRest(Brought(events, k), Brought(events[k..], |events| - k), Framed(payload), []);
    FirstFdIs(events, fd, k);
  }

  // Some chunk ends where the first n bytes do.
  ghost predicate EndsAt(events: seq<Event>, n: nat) {
    exists j :: 0 <= j <= |events| && |Brought(events, j)| == n
  }

  // Bytes behind the frame stay for the next call exactly when a chunk ends where the frame does;
  // otherwise the rest of that chunk is dropped.
  lemma RestKeptIff(payload: seq<byte>, more: seq<byte>, events: seq<Event>)
    requires |payload| <= 1_048_576 && Steady(events, |events|)
    requires Brought(events, |events|) == Framed(payload) + more
    ensures var r := Receive(events);
            r.Frame? && (Brought(r.left, |r.left|) == more <==> EndsAt(events, |Framed(payload)|))
  {
    FrameReceived(events, |events|, payload);
    var k := Needed(events, |Framed(payload)|);
    BroughtSplit(events, k, |events|);
    SameRest(Brought(events, k), Brought(events[k..], |events| - k), Framed(payload), more);
    if EndsAt(events, |Framed(payload)|) {
      var j :| 0 <= j <= |events| && |Brought(events, j)| == |Framed(payload)|;
      NeededLeast(events, |Framed(payload)|, j);
      BroughtSplit(events, k, j);
    }
  }

  lemma SameRest(a: seq<byte>, b: seq<byte>, c: seq<byte>, d: seq<byte>)
    requires a + b == c + d && c <= a
    ensures b == d <==> a == c
  {
    Cut(a, b);
    Cut(c, d);
    assert |a| + |b| == |a + b| == |c + d| == |c| + |d|;
  }

  lemma {:induction false} NeededLeast(events: seq<Event>, want: nat, j: nat)
    requires j <= |events| && |Brought(events, j)| >= want
    ensures Needed(events, want) <= j
  {
    if want > 0 && j > 0 {
      var n := if events[0].Chunk? then |events[0].bytes| else 0;
      NeededLeast(events[1..], if n < want then want - n else 0, j - 1);
    }
  }
}
