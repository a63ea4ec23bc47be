/** DNS over one reused TCP stream: any number of queries share a slot that holds a stream, and a
    lock around the slot. Messages are framed as section 4.2.2 of RFC 1035 says. */
module DnsTcpPool {
  import opened Bytes

  type Host = string

  // ----- Framing -----

  function Frame(message: seq<byte>): (s: seq<byte>)
    requires |message| < 65536
    ensures |s| == 2 + |message|
  {
    BE16(|message|) + message
  }

  predicate AllShort(messages: seq<seq<byte>>) {
    forall i :: 0 <= i < |messages| ==> |messages[i]| < 65536
  }

  function Frames(messages: seq<seq<byte>>): seq<byte>
    requires AllShort(messages)
  {
    if messages == [] then []
    else Frames(messages[..|messages| - 1]) + Frame(messages[|messages| - 1])
  }

  lemma FramesPush(messages: seq<seq<byte>>, m: seq<byte>)
    requires AllShort(messages) && |m| < 65536
    ensures AllShort(messages + [m]) && Frames(messages + [m]) == Frames(messages) + Frame(m)
  {
    assert (messages + [m])[..|messages|] == messages;
  }

  // ----- One exchange on one stream -----

  // A stream: the bytes written and read, and as a record of what they were for, the queries
  // asked and the replies read in full.
  datatype Stream = Stream(host: Host, sent: seq<byte>, got: seq<byte>, asked: seq<seq<byte>>, answered: seq<seq<byte>>)

  function Fresh(host: Host): Stream { Stream(host, [], [], [], []) }

  // How far exchange_over_tcp has come.
  datatype Phase = Begin | Prefixed | Asked | Sized(n: nat)

  datatype Progress = More(st: Stream, phase: Phase) | Reply(st: Stream, message: seq<byte>) | Fail

  // A write of exchange_over_tcp that succeeds or fails. A query of the wrong size is refused
  // before anything is written.
  function Written(st: Stream, query: seq<byte>, phase: Phase, ok: bool): Progress {
    match phase
    case Begin =>
      if query == [] || |query| > 65535 || !ok then Fail
      else More(st.(sent := st.sent + BE16(|query|)), Prefixed)
    case Prefixed =>
      if !ok then Fail else More(st.(sent := st.sent + query, asked := st.asked + [query]), Asked)
    case _ => More(st, phase)
  }

  // A read that brings what was asked for, or fails.
  function Read(st: Stream, phase: Phase, data: Option<seq<byte>>): Progress {
    match phase
    case Asked =>
      if data.None? then Fail
      else if |data.value| != 2 then More(st, phase)
      else
        var n := FromBE16(data.value);
        if n == 0 then Fail else More(st.(got := st.got + data.value), Sized(n))
    case Sized(n) =>
      if data.None? then Fail
      else if |data.value| != n then More(st, phase)
      else Reply(st.(got := st.got + data.value, answered := st.answered + [data.value]), data.value)
    case _ => More(st, phase)
  }

  // Between messages: every query asked has its reply, and not a byte more was written or read.
  predicate AtBoundary(st: Stream) {
    && AllShort(st.asked) && AllShort(st.answered) && |st.asked| == |st.answered|
    && st.sent == Frames(st.asked) && st.got == Frames(st.answered)
  }

  // Within the exchange of a query.
  predicate Within(st: Stream, query: seq<byte>, phase: Phase) {
    match phase
    case Begin => AtBoundary(st)
    case Prefixed =>
      && AllShort(st.asked) && AllShort(st.answered) && |st.asked| == |st.answered|
      && 0 < |query| < 65536
      && st.sent == Frames(st.asked) + BE16(|query|) && st.got == Frames(st.answered)
    case Asked => Owed(st, query) && st.got == Frames(st.answered)
    case Sized(n) => Owed(st, query) && 0 < n < 65536 && st.got == Frames(st.answered) + BE16(n)
  }

  // One reply is due, to the query.
  predicate Owed(st: Stream, query: seq<byte>) {
    && AllShort(st.asked) && AllShort(st.answered) && |st.asked| == |st.answered| + 1
    && st.sent == Frames(st.asked) && st.asked[|st.answered|] == query
  }

  // The last exchange on the stream was the query and its reply.
  predicate Closes(st: Stream, query: seq<byte>, reply: seq<byte>) {
    && AtBoundary(st) && st.asked != [] && st.asked[|st.asked| - 1] == query
    && st.answered[|st.answered| - 1] == reply
  }

  lemma WriteKeeps(st: Stream, query: seq<byte>, phase: Phase, ok: bool)
    requires Within(st, query, phase)
    ensures var p := Written(st, query, phase, ok);
            (p.More? && Within(p.st, query, p.phase) && p.st.host == st.host) || p.Fail?
  {
    if phase == Prefixed && ok {
      FramesPush(st.asked, query);
      assert Frames(st.asked) + BE16(|query|) + query == Frames(st.asked) + Frame(query);
    }
  }

  lemma ReadKeeps(st: Stream, query: seq<byte>, phase: Phase, data: Option<seq<byte>>)
    requires Within(st, query, phase)
    ensures var p := Read(st, phase, data);
            match p
            case More(st', phase') => Within(st', query, phase') && st'.host == st.host
            case Reply(st', message) => Closes(st', query, message) && st'.host == st.host
            case Fail => true
  {
    if phase.Sized? && data.Some? && |data.value| == phase.n {
      FramesPush(st.answered, data.value);
      assert Frames(st.answered) + BE16(phase.n) + data.value == Frames(st.answered) + Frame(data.value);
    }
  }

  // What the network does in one exchange: whether each write succeeds, and what the k-th read, of
  // so many bytes, brings.
  datatype Network = Network(writes: nat -> bool, brings: (nat, nat) -> Option<seq<byte>>)

  // The steps of one exchange, one after the other.
  function Exchanged(st: Stream, query: seq<byte>, net: Network): Progress {
    var a := Written(st, query, Begin, net.writes(0));
    if !a.More? then Fail
    else
      var b := Written(a.st, query, a.phase, net.writes(1));
      if !b.More? then Fail
      else
        var c := Read(b.st, b.phase, net.brings(0, 2));
        if !c.More? || !c.phase.Sized? then Fail else Read(c.st, c.phase, net.brings(1, c.phase.n))
  }

  // exchange_over_tcp as one caller has it.
  class Connection {
    var st: Stream

    constructor (host: Host)
      ensures st == Fresh(host)
    {
      st := Fresh(host);
    }

    // It takes the steps of an exchange. From a message boundary: a reply is the one message read,
    // and leaves the stream at the next boundary with the query and the reply as its last exchange.
    // A query of the wrong size is refused with the stream untouched.
    method Exchange(query: seq<byte>, net: Network) returns (r: Option<seq<byte>>)
      requires AtBoundary(st)
      requires forall k, n :: net.brings(k, n).Some? ==> |net.brings(k, n).value| == n
      modifies this
      ensures var p := Exchanged(old(st), query, net);
              if p.Reply? then r == Some(p.message) && st == p.st else p.Fail? && r.None?
      ensures st.host == old(st).host
      ensures r.Some? ==> Closes(st, query, r.value) && 0 < |r.value| < 65536
      ensures r.Some? ==> st.asked == old(st).asked + [query] && st.answered == old(st).answered + [r.value]
      ensures r.Some? <==>
                && 0 < |query| < 65536 && net.writes(0) && net.writes(1) && net.brings(0, 2).Some?
                && var n := FromBE16(net.brings(0, 2).value); n > 0 && net.brings(1, n).Some?
      ensures query == [] || |query| > 65535 ==> st == old(st)
    {
      ExchangedKeeps(st, query, net);
      if query == [] || |query| > 65535 || !net.writes(0) {
        return None;
      }
      st := st.(sent := st.sent + BE16(|query|));
      if !net.writes(1) {
        return None;
      }
      st := st.(sent := st.sent + query, asked := st.asked + [query]);
      var hdr := net.brings(0, 2);
      if hdr.None? {
        return None;
      }
      st := st.(got := st.got + hdr.value);
      var n := FromBE16(hdr.value);
      if n == 0 {
        return None;
      }
      r := net.brings(1, n);
      if r.None? {
        return None;
      }
      st := st.(got := st.got + r.value, answered := st.answered + [r.value]);
    }
  }

  // An exchange succeeds exactly when nothing fails, and then it is the last one on the stream.
  lemma ExchangedKeeps(st: Stream, query: seq<byte>, net: Network)
    requires AtBoundary(st) && forall k, n :: net.brings(k, n).Some? ==> |net.brings(k, n).value| == n
    ensures var p := Exchanged(st, query, net);
            && (p.Reply? <==>
                  && 0 < |query| < 65536 && net.writes(0) && net.writes(1) && net.brings(0, 2).Some?
                  && var n := FromBE16(net.brings(0, 2).value); n > 0 && net.brings(1, n).Some?)
            && (p.Reply? ==> Closes(p.st, query, p.message))
  {
    var a := Written(st, query, Begin, net.writes(0));
    WriteKeeps(st, query, Begin, net.writes(0));
    if a.More? {
      var b := Written(a.st, query, a.phase, net.writes(1));
      WriteKeeps(a.st, query, a.phase, net.writes(1));
      if b.More? {
        var c := Read(b.st, b.phase, net.brings(0, 2));
        ReadKeeps(b.st, query, b.phase, net.brings(0, 2));
        if c.More? && c.phase.Sized? {
          ReadKeeps(c.st, query, c.phase, net.brings(1, c.phase.n));
        }
      }
    }
  }

  // ----- A server that answers in order -----

  type Answer = f: (Host, seq<byte>) -> seq<byte> | forall h, q :: |f(h, q)| < 65536
    witness (h, q) => []

  // The bytes such a server sends when it has received these.
  function Served(answer: Answer, host: Host, sent: seq<byte>): seq<byte>
    decreases |sent|
  {
    if |sent| < 2 then []
    else
      var n := FromBE16(sent[..2]);
      if |sent| < 2 + n then []
      else Frame(answer(host, sent[2..2 + n])) + Served(answer, host, sent[2 + n..])
  }

  // Every reply read is the answer to the query in its place.
  predicate InOrder(answer: Answer, st: Stream) {
    |st.answered| <= |st.asked| &&
    forall i :: 0 <= i < |st.answered| ==> st.answered[i] == answer(st.host, st.asked[i])
  }

  // The bytes end where a message does.
  predicate Whole(sent: seq<byte>)
    decreases |sent|
  {
    sent == [] || (|sent| >= 2 && var n := FromBE16(sent[..2]); |sent| >= 2 + n && Whole(sent[2 + n..]))
  }

  lemma SizeRead(n: u16)
    ensures FromBE16(BE16(n)) == n
  {
  }

  // The first message, and what follows it, in front of more bytes.
  lemma ServedFront(answer: Answer, host: Host, query: seq<byte>, rest: seq<byte>)
    requires |query| < 65536
    ensures Served(answer, host, Frame(query) + rest) == Frame(answer(host, query)) + Served(answer, host, rest)
    ensures Whole(Frame(query) + rest) == Whole(rest)
  {
    var s := Frame(query) + rest;
    assert s[..2] == BE16(|query|) && s[2..2 + |query|] == query && s[2 + |query|..] == rest;
    SizeRead(|query|);
  }

  lemma FirstMessage(s: seq<byte>)
    requires |s| >= 2 && |s| >= 2 + FromBE16(s[..2])
    ensures var n := FromBE16(s[..2]); s == Frame(s[2..2 + n]) + s[2 + n..]
  {
  }

  lemma ServedStep(answer: Answer, host: Host, first: seq<byte>, rest: seq<byte>, query: seq<byte>)
    requires |first| < 65536 && |query| < 65536
    requires Served(answer, host, rest + Frame(query)) == Served(answer, host, rest) + Frame(answer(host, query))
    ensures Served(answer, host, Frame(first) + rest + Frame(query)) ==
            Served(answer, host, Frame(first) + rest) + Frame(answer(host, query))
    ensures Whole(Frame(first) + rest + Frame(query)) == Whole(rest + Frame(query))
  {
    ServedFront(answer, host, first, rest);
    ServedFront(answer, host, first, rest + Frame(query));
    Cut3(Frame(first), rest, Frame(query));
    Cut3(Frame(answer(host, first)), Served(answer, host, rest), Frame(answer(host, query)));
  }

  lemma {:induction false} ServedPush(answer: Answer, host: Host, s: seq<byte>, query: seq<byte>)
    requires Whole(s) && |query| < 65536
    ensures Whole(s + Frame(query))
    ensures Served(answer, host, s + Frame(query)) == Served(answer, host, s) + Frame(answer(host, query))
    decreases |s|
  {
    if s == [] {
      assert s + Frame(query) == Frame(query) + [];
      ServedFront(answer, host, query, []);
    } else {
      var n := FromBE16(s[..2]);
      FirstMessage(s);
      ServedPush(answer, host, s[2 + n..], query);
      ServedStep(answer, host, s[2..2 + n], s[2 + n..], query);
    }
  }

  // Such a server has answered the queries on a stream one by one.
  lemma {:induction false} ServedFrames(answer: Answer, host: Host, asked: seq<seq<byte>>, n: nat)
    requires AllShort(asked) && n <= |asked|
    ensures Whole(Frames(asked[..n]))
    ensures n > 0 ==> Served(answer, host, Frames(asked[..n])) ==
                      Served(answer, host, Frames(asked[..n - 1])) + Frame(answer(host, asked[n - 1]))
    decreases n
  {
    if n > 0 {
      ServedFrames(answer, host, asked, n - 1);
      assert asked[..n][..n - 1] == asked[..n - 1];
      ServedPush(answer, host, Frames(asked[..n - 1]), asked[n - 1]);
    }
  }

  lemma {:induction false} ServedSoFar(answer: Answer, st: Stream, n: nat)
    requires AllShort(st.asked) && AllShort(st.answered) && InOrder(answer, st) && n <= |st.answered|
    ensures Served(answer, st.host, Frames(st.asked[..n])) == Frames(st.answered[..n])
    decreases n
  {
    ServedFrames(answer, st.host, st.asked, n);
    if n > 0 {
      assert st.answered[..n][..n - 1] == st.answered[..n - 1];
      ServedSoFar(answer, st, n - 1);
    }
  }

  // Frames of equal announced size at the same place are the same message.
  lemma SameMessage(before: seq<byte>, n: u16, data: seq<byte>, message: seq<byte>)
    requires |message| < 65536 && |data| == n
    requires before + BE16(n) + data <= before + Frame(message)
    ensures data == message
  {
    var a, b := before + BE16(n) + data, before + Frame(message);
    assert a[|before|..|before| + 2] == BE16(n) && b[|before|..|before| + 2] == BE16(|message|);
    assert a[|before|..|before| + 2] == b[|before|..|before| + 2];
    SizeRead(n);
    SizeRead(|message|);
    assert data == a[|before| + 2..] == b[|before| + 2..] == message;
  }

  // A read the server is good for: it brings the next bytes that server sends.
  predicate Good(answer: Answer, st: Stream, data: seq<byte>) {
    st.got + data <= Served(answer, st.host, st.sent)
  }

  // The reply read from such a server is the answer to the query.
  lemma ReplyIsAnswer(answer: Answer, st: Stream, query: seq<byte>, n: nat, data: seq<byte>)
    requires Within(st, query, Sized(n)) && InOrder(answer, st) && |data| == n && Good(answer, st, data)
    ensures data == answer(st.host, query)
  {
    var k := |st.answered|;
    assert st.asked[..k + 1] == st.asked && st.answered[..k] == st.answered;
    ServedFrames(answer, st.host, st.asked, k + 1);
    ServedSoFar(answer, st, k);
    SameMessage(Frames(st.answered), n, data, answer(st.host, query));
  }

  // ----- The pool -----

  datatype Pc =
    | Start
    | Reusing(phase: Phase)
    | Connecting
    | Private(st: Stream, phase: Phase)
    | Storing(st: Stream, reply: seq<byte>)
    | Finished(result: Option<seq<byte>>)

  // One call of DnsTcpPool::exchange.
  datatype Task = Task(query: seq<byte>, host: Host, pc: Pc)

  // The slot, and the caller that holds its lock across an await, if any.
  datatype State = State(slot: Option<Stream>, holder: Option<nat>, tasks: seq<Task>)

  const INIT := State(None, None, [])

  datatype Event =
    | Arrive(query: seq<byte>, host: Host)
    | Lock(t: nat)
    | Write(t: nat, ok: bool)
    | Receive(t: nat, data: Option<seq<byte>>)
    | Connect(t: nat, ok: bool)

  function Move(s: State, t: nat, pc: Pc): State
    requires t < |s.tasks|
  {
    s.(tasks := s.tasks[t := s.tasks[t].(pc := pc)])
  }

  // Progress on the pooled stream, under the lock; a failure empties the slot.
  function Reused(s: State, t: nat, p: Progress): State
    requires t < |s.tasks|
  {
    match p
    case More(st, phase) => Move(s, t, Reusing(phase)).(slot := Some(st))
    case Reply(st, message) => Move(s, t, Finished(Some(message))).(slot := Some(st), holder := None)
    case Fail => Move(s, t, Connecting).(slot := None, holder := None)
  }

  // Progress on a stream of the caller's own.
  function Owned(s: State, t: nat, p: Progress): State
    requires t < |s.tasks|
  {
    match p
    case More(st, phase) => Move(s, t, Private(st, phase))
    case Reply(st, message) => Move(s, t, Storing(st, message))
    case Fail => Move(s, t, Finished(None))
  }

  // Taking the lock: at the start it is kept only for a stream to the right host, at the end the
  // stream is stored.
  function Locked(s: State, t: nat): State
    requires t < |s.tasks|
  {
    var task := s.tasks[t];
    if s.holder.Some? then s
    else if task.pc.Start? then
      if s.slot.Some? && s.slot.value.host == task.host then Move(s, t, Reusing(Begin)).(holder := Some(t))
      else Move(s, t, Connecting).(slot := None)
    else if task.pc.Storing? then Move(s, t, Finished(Some(task.pc.reply))).(slot := Some(task.pc.st))
    else s
  }

  // An event that cannot happen leaves the state alone.
  function Next(s: State, e: Event): State {
    if e.Arrive? then s.(tasks := s.tasks + [Task(e.query, e.host, Start)])
    else if e.t >= |s.tasks| then s
    else
      var task := s.tasks[e.t];
      match e
      case Lock(t) => Locked(s, t)
      case Connect(t, ok) =>
        if !task.pc.Connecting? then s
        else if ok then Move(s, t, Private(Fresh(task.host), Begin))
        else Move(s, t, Finished(None))
      case Write(t, ok) =>
        if task.pc.Reusing? && s.slot.Some? then Reused(s, t, Written(s.slot.value, task.query, task.pc.phase, ok))
        else if task.pc.Private? then Owned(s, t, Written(task.pc.st, task.query, task.pc.phase, ok))
        else s
      case Receive(t, data) =>
        if task.pc.Reusing? && s.slot.Some? then Reused(s, t, Read(s.slot.value, task.pc.phase, data))
        else if task.pc.Private? then Owned(s, t, Read(task.pc.st, task.pc.phase, data))
        else s
  }

  function Run(s: State, es: seq<Event>): State {
    if es == [] then s else Next(Run(s, es[..|es| - 1]), es[|es| - 1])
  }

  // ----- What every run keeps -----

  // The stream a task owns is within the exchange of its query; one it is about to store has just
  // had it.
  predicate TaskInv(task: Task) {
    match task.pc
    case Private(st, phase) => Within(st, task.query, phase) && st.host == task.host
    case Storing(st, reply) => Closes(st, task.query, reply) && st.host == task.host
    case _ => true
  }

  // A free slot is at a message boundary; a held one is within the exchange of its holder.
  predicate SlotInv(s: State) {
    if s.holder.None? then s.slot.Some? ==> AtBoundary(s.slot.value)
    else
      && s.holder.value < |s.tasks| && s.slot.Some?
      && var task := s.tasks[s.holder.value];
         task.pc.Reusing? && Within(s.slot.value, task.query, task.pc.phase) && s.slot.value.host == task.host
  }

  predicate HolderInv(s: State) {
    forall t :: 0 <= t < |s.tasks| && s.tasks[t].pc.Reusing? ==> s.holder == Some(t)
  }

  predicate Inv(s: State) {
    && SlotInv(s) && HolderInv(s)
    && forall t :: 0 <= t < |s.tasks| ==> TaskInv(s.tasks[t])
  }

  lemma ReusedKeepsInv(s: State, t: nat, p: Progress)
    requires Inv(s) && t < |s.tasks| && s.tasks[t].pc.Reusing?
    requires match p
             case More(st, phase) => Within(st, s.tasks[t].query, phase) && st.host == s.tasks[t].host
             case Reply(st, message) => AtBoundary(st)
             case Fail => true
    ensures Inv(Reused(s, t, p))
  {
  }

  lemma OwnedKeepsInv(s: State, t: nat, p: Progress)
    requires Inv(s) && t < |s.tasks| && s.tasks[t].pc.Private?
    requires match p
             case More(st, phase) => Within(st, s.tasks[t].query, phase) && st.host == s.tasks[t].host
             case Reply(st, message) => Closes(st, s.tasks[t].query, message) && st.host == s.tasks[t].host
             case Fail => true
    ensures Inv(Owned(s, t, p))
  {
  }

  lemma LockedKeepsInv(s: State, t: nat)
    requires Inv(s) && t < |s.tasks|
    ensures Inv(Locked(s, t))
  {
    assert TaskInv(s.tasks[t]);
  }

  lemma ConnectKeepsInv(s: State, t: nat)
    requires Inv(s) && t < |s.tasks| && s.tasks[t].pc.Connecting?
    ensures Inv(Move(s, t, Private(Fresh(s.tasks[t].host), Begin))) && Inv(Move(s, t, Finished(None)))
  {
    assert AtBoundary(Fresh(s.tasks[t].host));
  }

  lemma ArriveKeepsInv(s: State, task: Task)
    requires Inv(s) && task.pc.Start?
    ensures Inv(s.(tasks := s.tasks + [task]))
  {
  }

  lemma NextKeepsInv(s: State, e: Event)
    requires Inv(s)
    ensures Inv(Next(s, e))
  {
    if e.Arrive? {
      ArriveKeepsInv(s, Task(e.query, e.host, Start));
      return;
    }
    if e.t >= |s.tasks| {
      return;
    }
    var task := s.tasks[e.t];
    assert TaskInv(task);
    match e
    case Lock(t) => LockedKeepsInv(s, t);
    case Connect(t, ok) =>
      if task.pc.Connecting? {
        ConnectKeepsInv(s, t);
      }
    case Write(t, ok) =>
      if task.pc.Reusing? {
        WriteKeeps(s.slot.value, task.query, task.pc.phase, ok);
        ReusedKeepsInv(s, t, Written(s.slot.value, task.query, task.pc.phase, ok));
      } else if task.pc.Private? {
        WriteKeeps(task.pc.st, task.query, task.pc.phase, ok);
        OwnedKeepsInv(s, t, Written(task.pc.st, task.query, task.pc.phase, ok));
      }
    case Receive(t, data) =>
      if task.pc.Reusing? {
        ReadKeeps(s.slot.value, task.query, task.pc.phase, data);
        ReusedKeepsInv(s, t, Read(s.slot.value, task.pc.phase, data));
      } else if task.pc.Private? {
        ReadKeeps(task.pc.st, task.query, task.pc.phase, data);
        OwnedKeepsInv(s, t, Read(task.pc.st, task.pc.phase, data));
      }
  }

  lemma {:induction false} RunKeepsInv(es: seq<Event>)
    ensures Inv(Run(INIT, es))
  {
    if es != [] {
      RunKeepsInv(es[..|es| - 1]);
      NextKeepsInv(Run(INIT, es[..|es| - 1]), es[|es| - 1]);
    }
  }

  // In every run, whatever the server sends: a stream that lies in the pool with the lock free is
  // at a message boundary, with as many replies read as queries sent; and at most one task is on it.
  lemma PooledStreamAtBoundary(es: seq<Event>)
    ensures var s := Run(INIT, es);
            && (s.holder.None? && s.slot.Some? ==> AtBoundary(s.slot.value))
            && forall t, u :: 0 <= t < u < |s.tasks| ==> !(s.tasks[t].pc.Reusing? && s.tasks[u].pc.Reusing?)
  {
    RunKeepsInv(es);
  }

  // ----- Against a server that answers in order -----

  // Every stream has had its replies in order, and every result is the answer to its query.
  predicate Right(answer: Answer, task: Task) {
    match task.pc
    case Private(st, _) => InOrder(answer, st)
    case Storing(st, reply) => InOrder(answer, st) && reply == answer(task.host, task.query)
    case Finished(result) => result.Some? ==> result.value == answer(task.host, task.query)
    case _ => true
  }

  predicate AllRight(answer: Answer, s: State) {
    && (s.slot.Some? ==> InOrder(answer, s.slot.value))
    && forall t :: 0 <= t < |s.tasks| ==> Right(answer, s.tasks[t])
  }

  // The event brings only what such a server sends.
  predicate Honest(answer: Answer, s: State, e: Event) {
    e.Receive? && e.data.Some? && e.t < |s.tasks| ==>
      var pc := s.tasks[e.t].pc;
      && (pc.Reusing? && s.slot.Some? ==> Good(answer, s.slot.value, e.data.value))
      && (pc.Private? ==> Good(answer, pc.st, e.data.value))
  }

  predicate HonestRun(answer: Answer, es: seq<Event>) {
    es == [] || (HonestRun(answer, es[..|es| - 1]) && Honest(answer, Run(INIT, es[..|es| - 1]), es[|es| - 1]))
  }

  predicate RightProgress(answer: Answer, host: Host, query: seq<byte>, p: Progress) {
    match p
    case More(st, _) => InOrder(answer, st)
    case Reply(st, message) => InOrder(answer, st) && message == answer(host, query)
    case Fail => true
  }

  lemma ReadIsRight(answer: Answer, st: Stream, query: seq<byte>, phase: Phase, data: Option<seq<byte>>)
    requires Within(st, query, phase) && InOrder(answer, st) && (data.Some? ==> Good(answer, st, data.value))
    ensures RightProgress(answer, st.host, query, Read(st, phase, data))
  {
    if phase.Sized? && data.Some? && |data.value| == phase.n {
      ReplyIsAnswer(answer, st, query, phase.n, data.value);
    }
  }

  lemma WriteIsRight(answer: Answer, st: Stream, query: seq<byte>, phase: Phase, ok: bool)
    requires InOrder(answer, st)
    ensures RightProgress(answer, st.host, query, Written(st, query, phase, ok))
  {
  }

  lemma ProgressIsRight(answer: Answer, s: State, t: nat, p: Progress)
    requires AllRight(answer, s) && t < |s.tasks| && RightProgress(answer, s.tasks[t].host, s.tasks[t].query, p)
    ensures AllRight(answer, Reused(s, t, p)) && AllRight(answer, Owned(s, t, p))
  {
  }

  lemma LockIsRight(answer: Answer, s: State, t: nat)
    requires AllRight(answer, s) && t < |s.tasks|
    ensures AllRight(answer, Locked(s, t))
  {
    assert Right(answer, s.tasks[t]);
  }

  lemma NextIsRight(answer: Answer, s: State, e: Event)
    requires Inv(s) && AllRight(answer, s) && Honest(answer, s, e)
    ensures AllRight(answer, Next(s, e))
  {
    if e.Arrive? || e.t >= |s.tasks| {
      return;
    }
    var task := s.tasks[e.t];
    assert TaskInv(task) && Right(answer, task);
    match e
    case Lock(t) => LockIsRight(answer, s, t);
    case Connect(t, ok) =>
    case Write(t, ok) =>
      if task.pc.Reusing? {
        WriteIsRight(answer, s.slot.value, task.query, task.pc.phase, ok);
        ProgressIsRight(answer, s, t, Written(s.slot.value, task.query, task.pc.phase, ok));
      } else if task.pc.Private? {
        WriteIsRight(answer, task.pc.st, task.query, task.pc.phase, ok);
        ProgressIsRight(answer, s, t, Written(task.pc.st, task.query, task.pc.phase, ok));
      }
    case Receive(t, data) =>
      if task.pc.Reusing? {
        ReadIsRight(answer, s.slot.value, task.query, task.pc.phase, data);
        ProgressIsRight(answer, s, t, Read(s.slot.value, task.pc.phase, data));
      } else if task.pc.Private? {
        ReadIsRight(answer, task.pc.st, task.query, task.pc.phase, data);
        ProgressIsRight(answer, s, t, Read(task.pc.st, task.pc.phase, data));
      }
  }

  // In every interleaving with a server that answers each stream in order, a caller that gets a
  // reply gets the answer to its own query.
  lemma {:induction false} RepliesAreOwn(answer: Answer, es: seq<Event>)
    requires HonestRun(answer, es)
    ensures AllRight(answer, Run(INIT, es))
    ensures forall t :: 0 <= t < |Run(INIT, es).tasks| ==>
                          var task := Run(INIT, es).tasks[t];
                          task.pc.Finished? && task.pc.result.Some? ==>
                            task.pc.result.value == answer(task.host, task.query)
  {
    if es != [] {
      RepliesAreOwn(answer, es[..|es| - 1]);
      RunKeepsInv(es[..|es| - 1]);
      NextIsRight(answer, Run(INIT, es[..|es| - 1]), es[|es| - 1]);
    }
    forall t | 0 <= t < |Run(INIT, es).tasks| ensures Right(answer, Run(INIT, es).tasks[t]) {
    }
  }
}
