/** The UDPGW multiplexer: many senders and DNS queries share one stream through two maps
    behind separate locks and a wrapping 16-bit id counter, while one reader dispatches what
    comes back.

    One step is what a task does between two suspension points. The section under the flows
    lock never suspends, so it is one step; the keys lock is held across a suspension and
    is therefore part of the state. */
module UdpgwMux {
  import opened Bytes
  import opened UdpgwWire

  datatype Flow = UdpFlow(from: Sock) | DnsFlow(task: nat)

  // Who asked for an id.
  datatype Opener = ByUdp(from: Sock, dest: Sock) | ByDns(task: nat)

  datatype Task =
    | UdpStart(from: Sock, dest: Sock)              // waiting for the keys lock
    | UdpInsert(from: Sock, dest: Sock, conid: u16) // holds the keys lock, waits for flows
    | UdpDone(from: Sock, dest: Sock, conid: u16)   // goes on to write its packet
    | DnsStart
    | DnsInsert(conid: u16)
    | DnsWrite(conid: u16)
    | DnsWait(conid: u16)
    | DnsRemove(conid: u16)                         // write failed or timed out
    | DnsDone(conid: u16, answered: bool)

  // What was handed on, and which of the packets received it came in.
  datatype Reply = Reply(conid: u16, to: Sock, payload: seq<byte>, at: nat)

  datatype Answer = Answer(task: nat, conid: u16, payload: seq<byte>, at: nat)

  // `allocs` lists all allocations so far, oldest first; the counter is derived from it.
  // `heard` are the queries whose channel has been used, `received` the packets read.
  datatype State = State(
    allocs: seq<Opener>, flows: map<u16, Flow>, keys: map<(Sock, Sock), u16>, keysHeld: Option<nat>,
    tasks: map<nat, Task>, replies: seq<Reply>, answers: seq<Answer>, heard: set<nat>,
    received: seq<Packet>)

  // `ok` is the outcome of a write, or whether a wait goes on rather than timing out.
  datatype Event =
    | SendUdp(t: nat, from: Sock, dest: Sock)
    | QueryDns(t: nat)
    | Proceed(t: nat, ok: bool)
    | Deliver(packet: Packet)

  const INIT := State([], map[], map[], None, map[], [], [], {}, [])

  // The id the n-th allocation gets: the counter starts at 1 and wraps through 0.
  function Conid(n: nat): u16 { (n + 1) % 65536 }

  // The allocation an id belongs to, among the first 65,536.
  function Index(conid: u16): nat { if conid == 0 then 65535 else conid - 1 }

  // ----- The steps -----

  function Work(s: State, t: nat, ok: bool): State
    requires t in s.tasks
  {
    match s.tasks[t]
    case UdpStart(from, dest) =>
      if s.keysHeld.Some? then s
      else if (from, dest) in s.keys then s.(tasks := s.tasks[t := UdpDone(from, dest, s.keys[(from, dest)])])
      else
        var id := Conid(|s.allocs|);
        s.(allocs := s.allocs + [ByUdp(from, dest)], keys := s.keys[(from, dest) := id], keysHeld := Some(t),
           tasks := s.tasks[t := UdpInsert(from, dest, id)])
    case UdpInsert(from, dest, id) =>
      s.(flows := s.flows[id := UdpFlow(from)], keysHeld := None, tasks := s.tasks[t := UdpDone(from, dest, id)])
    case UdpDone(_, _, _) => s
    case DnsStart =>
      s.(allocs := s.allocs + [ByDns(t)], tasks := s.tasks[t := DnsInsert(Conid(|s.allocs|))])
    case DnsInsert(id) => s.(flows := s.flows[id := DnsFlow(t)], tasks := s.tasks[t := DnsWrite(id)])
    case DnsWrite(id) => s.(tasks := s.tasks[t := if ok then DnsWait(id) else DnsRemove(id)])
    case DnsWait(id) =>
      if t in s.heard then s.(tasks := s.tasks[t := DnsDone(id, true)])
      else if ok then s
      else s.(tasks := s.tasks[t := DnsRemove(id)])
    case DnsRemove(id) => s.(flows := s.flows - {id}, tasks := s.tasks[t := DnsDone(id, false)])
    case DnsDone(_, _) => s
  }

  // The receiving end of a query's channel still exists.
  predicate Listening(s: State, t: nat) {
    t in s.tasks && (s.tasks[t].DnsWrite? || s.tasks[t].DnsWait?)
  }

  // The reader's dispatch of one packet.
  function Dispatch(s: State, p: Packet): State {
    if Has(p.flags, KEEPALIVE) || p.conid !in s.flows then s
    else match s.flows[p.conid]
      case UdpFlow(from) => s.(replies := s.replies + [Reply(p.conid, from, p.payload, |s.received|)])
      case DnsFlow(t) =>
        if Listening(s, t) then
          s.(flows := s.flows - {p.conid}, heard := s.heard + {t},
             answers := s.answers + [Answer(t, p.conid, p.payload, |s.received|)])
        else s.(flows := s.flows - {p.conid})
  }

  function Next(s: State, e: Event): State {
    match e
    case SendUdp(t, from, dest) => if t in s.tasks then s else s.(tasks := s.tasks[t := UdpStart(from, dest)])
    case QueryDns(t) => if t in s.tasks then s else s.(tasks := s.tasks[t := DnsStart])
    case Proceed(t, ok) => if t in s.tasks then Work(s, t, ok) else s
    case Deliver(p) => Dispatch(s, p).(received := s.received + [p])
  }

  function Run(s: State, es: seq<Event>): State
    decreases |es|
  {
    if es == [] then s else Run(Next(s, es[0]), es[1..])
  }

  // ----- The ids -----

  // Two allocations share an id exactly when they are a multiple of 65,536 apart.
  lemma ConidsRepeat(n: nat, m: nat)
    ensures Conid(n) == Conid(m) <==> n % 65536 == m % 65536
  {
  }

  lemma IndexInverse(n: nat)
    requires n < 65536
    ensures Index(Conid(n)) == n
  {
  }

  // ----- The invariant -----

  predicate OpenedBy(allocs: seq<Opener>, conid: u16, o: Opener) {
    Index(conid) < |allocs| && allocs[Index(conid)] == o
  }

  predicate OpenedByUdp(allocs: seq<Opener>, conid: u16, from: Sock) {
    Index(conid) < |allocs| && allocs[Index(conid)].ByUdp? && allocs[Index(conid)].from == from
  }

  // A query past its allocation.
  predicate HasId(task: Task) {
    task.DnsInsert? || task.DnsWrite? || task.DnsWait? || task.DnsRemove? || task.DnsDone?
  }

  // A query allocates once, and only a known one does.
  ghost predicate AllocsSound(allocs: seq<Opener>, tasks: map<nat, Task>) {
    && |allocs| <= 65536
    && (forall t :: ByDns(t) in allocs ==> t in tasks && HasId(tasks[t]))
    && (forall n, m :: 0 <= n < |allocs| && 0 <= m < |allocs| && allocs[n].ByDns? && allocs[n] == allocs[m] ==> n == m)
  }

  predicate FlowSound(allocs: seq<Opener>, heard: set<nat>, c: u16, flow: Flow) {
    match flow
    case UdpFlow(from) => OpenedByUdp(allocs, c, from)
    case DnsFlow(t) => OpenedBy(allocs, c, ByDns(t)) && t !in heard
  }

  // A live id leads to whoever allocated it; a query that has its answer is no longer live.
  ghost predicate FlowsSound(allocs: seq<Opener>, flows: map<u16, Flow>, heard: set<nat>) {
    forall c :: c in flows ==> FlowSound(allocs, heard, c, flows[c])
  }

  ghost predicate KeysSound(allocs: seq<Opener>, keys: map<(Sock, Sock), u16>) {
    forall key :: key in keys ==> OpenedBy(allocs, keys[key], ByUdp(key.0, key.1))
  }

  // Every key has its flow, except the one its lock holder is about to insert.
  ghost predicate KeysAgree(
    keys: map<(Sock, Sock), u16>, flows: map<u16, Flow>, held: Option<nat>, tasks: map<nat, Task>)
  {
    forall key :: key in keys ==>
      || (keys[key] in flows && flows[keys[key]] == UdpFlow(key.0))
      || (held.Some? && held.value in tasks && tasks[held.value] == UdpInsert(key.0, key.1, keys[key]))
  }

  predicate TaskSound(
    allocs: seq<Opener>, keys: map<(Sock, Sock), u16>, held: Option<nat>, flows: map<u16, Flow>, heard: set<nat>,
    t: nat, task: Task)
  {
    match task
    case UdpStart(_, _) => true
    case UdpInsert(from, dest, id) => held == Some(t) && (from, dest) in keys && keys[(from, dest)] == id
    case UdpDone(from, dest, id) =>
      && (from, dest) in keys && keys[(from, dest)] == id
      && id in flows && flows[id] == UdpFlow(from)
    case DnsStart => true
    case DnsInsert(id) => OpenedBy(allocs, id, ByDns(t)) && id !in flows && t !in heard
    case DnsWrite(id) => OpenedBy(allocs, id, ByDns(t))
    case DnsWait(id) => OpenedBy(allocs, id, ByDns(t))
    case DnsRemove(id) => OpenedBy(allocs, id, ByDns(t))
    case DnsDone(id, answered) => OpenedBy(allocs, id, ByDns(t)) && (answered ==> t in heard)
  }

  ghost predicate TasksSound(
    allocs: seq<Opener>, keys: map<(Sock, Sock), u16>, held: Option<nat>, flows: map<u16, Flow>, heard: set<nat>,
    tasks: map<nat, Task>)
  {
    forall t :: t in tasks ==> TaskSound(allocs, keys, held, flows, heard, t, tasks[t])
  }

  // What has been sent went where it belongs, and no query was answered twice.
  ghost predicate LogsSound(allocs: seq<Opener>, replies: seq<Reply>, answers: seq<Answer>, heard: set<nat>) {
    && (forall k :: 0 <= k < |replies| ==> OpenedByUdp(allocs, replies[k].conid, replies[k].to))
    && (forall k :: 0 <= k < |answers| ==> OpenedBy(allocs, answers[k].conid, ByDns(answers[k].task)))
    && (forall k :: 0 <= k < |answers| ==> answers[k].task in heard)
    && (forall t :: t in heard ==> ByDns(t) in allocs)
    && (forall j, k :: 0 <= j < k < |answers| ==> answers[j].task != answers[k].task)
  }

  ghost predicate Inv(s: State) {
    && AllocsSound(s.allocs, s.tasks)
    && FlowsSound(s.allocs, s.flows, s.heard)
    && KeysSound(s.allocs, s.keys)
    && KeysAgree(s.keys, s.flows, s.keysHeld, s.tasks)
    && TasksSound(s.allocs, s.keys, s.keysHeld, s.flows, s.heard, s.tasks)
    && LogsSound(s.allocs, s.replies, s.answers, s.heard)
  }

  // What was known of the ids so far is not affected by one more allocation.
  lemma GrowFlows(allocs: seq<Opener>, o: Opener, flows: map<u16, Flow>, heard: set<nat>)
    requires FlowsSound(allocs, flows, heard)
    ensures FlowsSound(allocs + [o], flows, heard)
  {
    forall c | c in flows
      ensures FlowSound(allocs + [o], heard, c, flows[c])
    {
      assert FlowSound(allocs, heard, c, flows[c]);
    }
  }

  lemma GrowKeys(allocs: seq<Opener>, o: Opener, keys: map<(Sock, Sock), u16>)
    requires KeysSound(allocs, keys)
    ensures KeysSound(allocs + [o], keys)
  {
    forall key | key in keys
      ensures OpenedBy(allocs + [o], keys[key], ByUdp(key.0, key.1))
    {
      assert OpenedBy(allocs, keys[key], ByUdp(key.0, key.1));
    }
  }

  lemma GrowLogs(allocs: seq<Opener>, o: Opener, replies: seq<Reply>, answers: seq<Answer>, heard: set<nat>)
    requires LogsSound(allocs, replies, answers, heard)
    ensures LogsSound(allocs + [o], replies, answers, heard)
  {
    forall k | 0 <= k < |replies|
      ensures OpenedByUdp(allocs + [o], replies[k].conid, replies[k].to)
    {
      assert OpenedByUdp(allocs, replies[k].conid, replies[k].to);
    }
    forall k | 0 <= k < |answers|
      ensures OpenedBy(allocs + [o], answers[k].conid, ByDns(answers[k].task))
    {
      assert OpenedBy(allocs, answers[k].conid, ByDns(answers[k].task));
    }
  }

  lemma GrowTasks(s: State, o: Opener, t: nat, task: Task, keys: map<(Sock, Sock), u16>, held: Option<nat>)
    requires TasksSound(s.allocs, s.keys, s.keysHeld, s.flows, s.heard, s.tasks)
    requires s.keysHeld.None? || held == s.keysHeld
    requires forall key :: key in s.keys ==> key in keys && keys[key] == s.keys[key]
    requires TaskSound(s.allocs + [o], keys, held, s.flows, s.heard, t, task)
    ensures TasksSound(s.allocs + [o], keys, held, s.flows, s.heard, s.tasks[t := task])
  {
    forall u | u in s.tasks && u != t
      ensures TaskSound(s.allocs + [o], keys, held, s.flows, s.heard, u, s.tasks[u])
    {
      assert TaskSound(s.allocs, s.keys, s.keysHeld, s.flows, s.heard, u, s.tasks[u]);
    }
  }

  lemma ClaimKeepsInv(s: State, t: nat, from: Sock, dest: Sock)
    requires Inv(s) && t in s.tasks && s.tasks[t] == UdpStart(from, dest)
    requires s.keysHeld.None? && (from, dest) !in s.keys && |s.allocs| < 65536
    ensures Inv(Work(s, t, true))
  {
    var o, id := ByUdp(from, dest), Conid(|s.allocs|);
    IndexInverse(|s.allocs|);
    GrowFlows(s.allocs, o, s.flows, s.heard);
    GrowKeys(s.allocs, o, s.keys);
    GrowLogs(s.allocs, o, s.replies, s.answers, s.heard);
    GrowTasks(s, o, t, UdpInsert(from, dest, id), s.keys[(from, dest) := id], Some(t));
  }

  lemma AllocDnsKeepsInv(s: State, t: nat)
    requires Inv(s) && t in s.tasks && s.tasks[t].DnsStart? && |s.allocs| < 65536
    ensures Inv(Work(s, t, true))
  {
    var o, id := ByDns(t), Conid(|s.allocs|);
    IndexInverse(|s.allocs|);
    GrowFlows(s.allocs, o, s.flows, s.heard);
    GrowKeys(s.allocs, o, s.keys);
    GrowLogs(s.allocs, o, s.replies, s.answers, s.heard);
    assert id !in s.flows;
    assert t !in s.heard;
    GrowTasks(s, o, t, DnsInsert(id), s.keys, s.keysHeld);
  }

  // A task's move that touches neither maps nor ids.
  lemma MoveKeepsInv(s: State, t: nat, task: Task)
    requires Inv(s) && t in s.tasks && !s.tasks[t].UdpInsert? && (HasId(s.tasks[t]) ==> HasId(task))
    requires TaskSound(s.allocs, s.keys, s.keysHeld, s.flows, s.heard, t, task)
    ensures Inv(s.(tasks := s.tasks[t := task]))
  {
    var tasks := s.tasks[t := task];
    forall u | u in tasks
      ensures TaskSound(s.allocs, s.keys, s.keysHeld, s.flows, s.heard, u, tasks[u])
    {
      assert u != t ==> TaskSound(s.allocs, s.keys, s.keysHeld, s.flows, s.heard, u, s.tasks[u]);
    }
    assert forall key :: key in s.keys && s.keysHeld == Some(t) ==> s.tasks[t] != UdpInsert(key.0, key.1, s.keys[key]);
  }

  lemma InsertUdpKeepsInv(s: State, t: nat)
    requires Inv(s) && t in s.tasks && s.tasks[t].UdpInsert?
    ensures Inv(Work(s, t, true))
  {
    var s' := Work(s, t, true);
    var id := s.tasks[t].conid;
    assert TaskSound(s.allocs, s.keys, s.keysHeld, s.flows, s.heard, t, s.tasks[t]);
    forall c | c in s'.flows
      ensures FlowSound(s.allocs, s.heard, c, s'.flows[c])
    {
      assert c != id ==> FlowSound(s.allocs, s.heard, c, s.flows[c]);
    }
    forall u | u in s'.tasks
      ensures TaskSound(s.allocs, s.keys, None, s'.flows, s.heard, u, s'.tasks[u])
    {
      assert u != t ==> TaskSound(s.allocs, s.keys, s.keysHeld, s.flows, s.heard, u, s.tasks[u]);
    }
  }

  lemma InsertDnsKeepsInv(s: State, t: nat)
    requires Inv(s) && t in s.tasks && s.tasks[t].DnsInsert?
    ensures Inv(Work(s, t, true))
  {
    var s' := Work(s, t, true);
    var id := s.tasks[t].conid;
    assert TaskSound(s.allocs, s.keys, s.keysHeld, s.flows, s.heard, t, s.tasks[t]);
    forall c | c in s'.flows
      ensures FlowSound(s.allocs, s.heard, c, s'.flows[c])
    {
      assert c != id ==> FlowSound(s.allocs, s.heard, c, s.flows[c]);
    }
    forall u | u in s'.tasks
      ensures TaskSound(s.allocs, s.keys, s.keysHeld, s'.flows, s.heard, u, s'.tasks[u])
    {
      assert u != t ==> TaskSound(s.allocs, s.keys, s.keysHeld, s.flows, s.heard, u, s.tasks[u]);
    }
    assert forall key :: key in s.keys ==> OpenedBy(s.allocs, s.keys[key], ByUdp(key.0, key.1));
  }

  lemma RemoveDnsKeepsInv(s: State, t: nat)
    requires Inv(s) && t in s.tasks && s.tasks[t].DnsRemove?
    ensures Inv(Work(s, t, true))
  {
    var s' := Work(s, t, true);
    assert TaskSound(s.allocs, s.keys, s.keysHeld, s.flows, s.heard, t, s.tasks[t]);
    forall c | c in s'.flows
      ensures FlowSound(s.allocs, s.heard, c, s'.flows[c])
    {
      assert FlowSound(s.allocs, s.heard, c, s.flows[c]);
    }
    forall u | u in s'.tasks
      ensures TaskSound(s.allocs, s.keys, s.keysHeld, s'.flows, s.heard, u, s'.tasks[u])
    {
      assert u != t ==> TaskSound(s.allocs, s.keys, s.keysHeld, s.flows, s.heard, u, s.tasks[u]);
    }
    assert forall key :: key in s.keys ==> OpenedBy(s.allocs, s.keys[key], ByUdp(key.0, key.1));
  }

  lemma WorkKeepsInv(s: State, t: nat, ok: bool)
    requires Inv(s) && t in s.tasks && |Work(s, t, ok).allocs| <= 65536
    ensures Inv(Work(s, t, ok))
  {
    var task := s.tasks[t];
    assert TaskSound(s.allocs, s.keys, s.keysHeld, s.flows, s.heard, t, task);
    match task
    case UdpStart(from, dest) =>
      if s.keysHeld.None? {
        if (from, dest) in s.keys {
          MoveKeepsInv(s, t, UdpDone(from, dest, s.keys[(from, dest)]));
        } else {
          ClaimKeepsInv(s, t, from, dest);
        }
      }
    case UdpInsert(_, _, _) => InsertUdpKeepsInv(s, t);
    case UdpDone(_, _, _) =>
    case DnsStart => AllocDnsKeepsInv(s, t);
    case DnsInsert(_) => InsertDnsKeepsInv(s, t);
    case DnsWrite(id) => MoveKeepsInv(s, t, if ok then DnsWait(id) else DnsRemove(id));
    case DnsWait(id) =>
      if t in s.heard {
        MoveKeepsInv(s, t, DnsDone(id, true));
      } else if !ok {
        MoveKeepsInv(s, t, DnsRemove(id));
      }
    case DnsRemove(_) => RemoveDnsKeepsInv(s, t);
    case DnsDone(_, _) =>
  }

  // Two live ids of one query, or a live one and its reserved one, are the same id.
  lemma OneIdPerQuery(allocs: seq<Opener>, tasks: map<nat, Task>, t: nat, c: u16, d: u16)
    requires AllocsSound(allocs, tasks)
    requires OpenedBy(allocs, c, ByDns(t)) && OpenedBy(allocs, d, ByDns(t))
    ensures c == d
  {
    assert allocs[Index(c)] == allocs[Index(d)];
  }

  // A query's flow is closed, with its channel used or not.
  lemma CloseKeepsFlows(s: State, conid: u16, heard: set<nat>)
    requires Inv(s) && conid in s.flows && s.flows[conid].DnsFlow?
    requires heard == s.heard || heard == s.heard + {s.flows[conid].task}
    ensures FlowsSound(s.allocs, s.flows - {conid}, heard)
    ensures KeysAgree(s.keys, s.flows - {conid}, s.keysHeld, s.tasks)
  {
    var t, flows := s.flows[conid].task, s.flows - {conid};
    assert FlowSound(s.allocs, s.heard, conid, s.flows[conid]);
    forall c | c in flows
      ensures FlowSound(s.allocs, heard, c, flows[c])
    {
      assert FlowSound(s.allocs, s.heard, c, s.flows[c]);
      if s.flows[c] == DnsFlow(t) {
        OneIdPerQuery(s.allocs, s.tasks, t, c, conid);
      }
    }
  }

  lemma CloseKeepsTasks(s: State, conid: u16, heard: set<nat>)
    requires Inv(s) && conid in s.flows && s.flows[conid].DnsFlow?
    requires heard == s.heard || heard == s.heard + {s.flows[conid].task}
    ensures TasksSound(s.allocs, s.keys, s.keysHeld, s.flows - {conid}, heard, s.tasks)
  {
    var t, flows := s.flows[conid].task, s.flows - {conid};
    assert FlowSound(s.allocs, s.heard, conid, s.flows[conid]);
    forall u | u in s.tasks
      ensures TaskSound(s.allocs, s.keys, s.keysHeld, flows, heard, u, s.tasks[u])
    {
      assert TaskSound(s.allocs, s.keys, s.keysHeld, s.flows, s.heard, u, s.tasks[u]);
      if u == t && s.tasks[u].DnsInsert? {
        OneIdPerQuery(s.allocs, s.tasks, t, s.tasks[u].conid, conid);
      }
    }
  }

  lemma AnswerKeepsInv(s: State, p: Packet)
    requires Inv(s) && !Has(p.flags, KEEPALIVE) && p.conid in s.flows && s.flows[p.conid].DnsFlow?
    ensures Inv(Dispatch(s, p))
  {
    var s', t := Dispatch(s, p), s.flows[p.conid].task;
    assert FlowSound(s.allocs, s.heard, p.conid, s.flows[p.conid]);
    CloseKeepsFlows(s, p.conid, s'.heard);
    CloseKeepsTasks(s, p.conid, s'.heard);
    assert LogsSound(s.allocs, s'.replies, s'.answers, s'.heard);
  }

  lemma NextKeepsInv(s: State, e: Event)
    requires Inv(s) && |Next(s, e).allocs| <= 65536
    ensures Inv(Next(s, e))
  {
    match e
    case SendUdp(t, from, dest) =>
      if t !in s.tasks {
        StartKeepsInv(s, t, UdpStart(from, dest));
      }
    case QueryDns(t) =>
      if t !in s.tasks {
        StartKeepsInv(s, t, DnsStart);
      }
    case Proceed(t, ok) =>
      if t in s.tasks {
        WorkKeepsInv(s, t, ok);
      }
    case Deliver(p) =>
      if !Has(p.flags, KEEPALIVE) && p.conid in s.flows {
        if s.flows[p.conid].DnsFlow? {
          AnswerKeepsInv(s, p);
        } else {
          assert FlowSound(s.allocs, s.heard, p.conid, s.flows[p.conid]);
        }
      }
  }

  lemma StartKeepsInv(s: State, t: nat, task: Task)
    requires Inv(s) && t !in s.tasks && (task.UdpStart? || task.DnsStart?)
    ensures Inv(s.(tasks := s.tasks[t := task]))
  {
    var tasks := s.tasks[t := task];
    forall u | u in tasks
      ensures TaskSound(s.allocs, s.keys, s.keysHeld, s.flows, s.heard, u, tasks[u])
    {
      assert u != t ==> TaskSound(s.allocs, s.keys, s.keysHeld, s.flows, s.heard, u, s.tasks[u]);
    }
  }

  lemma {:induction false} AllocsOnlyGrow(s: State, es: seq<Event>)
    ensures |s.allocs| <= |Run(s, es).allocs|
    decreases |es|
  {
    if es != [] {
      AllocsOnlyGrow(Next(s, es[0]), es[1..]);
    }
  }

  lemma {:induction false} RunKeepsInv(s: State, es: seq<Event>)
    requires Inv(s) && |Run(s, es).allocs| <= 65536
    ensures Inv(Run(s, es))
    decreases |es|
  {
    if es != [] {
      AllocsOnlyGrow(Next(s, es[0]), es[1..]);
      NextKeepsInv(s, es[0]);
      RunKeepsInv(Next(s, es[0]), es[1..]);
    }
  }

  // In every run of at most 65,536 allocations no two flows share an id, and whenever the
  // keys lock is free every key leads to the live flow of its own sender.
  lemma KeysAndFlowsAgree(es: seq<Event>)
    requires |Run(INIT, es).allocs| <= 65536
    ensures var s := Run(INIT, es);
            && (forall k, l :: k in s.keys && l in s.keys && s.keys[k] == s.keys[l] ==> k == l)
            && (s.keysHeld.None? ==>
                  forall k :: k in s.keys ==> s.keys[k] in s.flows && s.flows[s.keys[k]] == UdpFlow(k.0))
  {
    RunKeepsInv(INIT, es);
    var s := Run(INIT, es);
    forall k, l | k in s.keys && l in s.keys && s.keys[k] == s.keys[l]
      ensures k == l
    {
      assert OpenedBy(s.allocs, s.keys[k], ByUdp(k.0, k.1)) && OpenedBy(s.allocs, s.keys[l], ByUdp(l.0, l.1));
    }
  }

  // A sender that goes on to write its packet does so under the id of its own pair of sockets, and
  // the flow that will bring the replies is already there.
  lemma SendersUseTheirFlow(es: seq<Event>, t: nat, u: nat)
    requires |Run(INIT, es).allocs| <= 65536
    requires t in Run(INIT, es).tasks && Run(INIT, es).tasks[t].UdpDone?
    requires u in Run(INIT, es).tasks && Run(INIT, es).tasks[u].UdpDone?
    ensures var s := Run(INIT, es);
            var a, b := s.tasks[t], s.tasks[u];
            && a.conid in s.flows && s.flows[a.conid] == UdpFlow(a.from)
            && (exists n: nat :: OnlyOpener(s.allocs, a.conid, n) && s.allocs[n] == ByUdp(a.from, a.dest))
            && (a.conid == b.conid <==> a.from == b.from && a.dest == b.dest)
  {
    RunKeepsInv(INIT, es);
    var s := Run(INIT, es);
    var a, b := s.tasks[t], s.tasks[u];
    assert TaskSound(s.allocs, s.keys, s.keysHeld, s.flows, s.heard, t, a);
    assert TaskSound(s.allocs, s.keys, s.keysHeld, s.flows, s.heard, u, b);
    assert OpenedBy(s.allocs, s.keys[(a.from, a.dest)], ByUdp(a.from, a.dest));
    assert OpenedBy(s.allocs, s.keys[(b.from, b.dest)], ByUdp(b.from, b.dest));
    OpenerIsOnly(s.allocs, a.conid);
  }

  // Allocation n is the one that got the id.
  ghost predicate OnlyOpener(allocs: seq<Opener>, conid: u16, n: nat) {
    n < |allocs| && Conid(n) == conid && forall m :: 0 <= m < |allocs| && Conid(m) == conid ==> m == n
  }

  lemma OpenerIsOnly(allocs: seq<Opener>, conid: u16)
    requires |allocs| <= 65536 && Index(conid) < |allocs|
    ensures OnlyOpener(allocs, conid, Index(conid))
  {
    forall m | 0 <= m < |allocs| && Conid(m) == conid ensures m == Index(conid) {
      IndexInverse(m);
    }
  }

  // The reply went to the socket that opened its id, and the answer to the query that did.
  ghost predicate ReplyRight(allocs: seq<Opener>, r: Reply) {
    exists n: nat :: OnlyOpener(allocs, r.conid, n) && allocs[n].ByUdp? && allocs[n].from == r.to
  }

  ghost predicate AnswerRight(allocs: seq<Opener>, a: Answer) {
    exists n: nat :: OnlyOpener(allocs, a.conid, n) && allocs[n] == ByDns(a.task)
  }

  // ... every datagram is handed to the socket that opened its id, and no other caller has that
  // id, ...
  lemma RepliesReachTheirSender(es: seq<Event>, k: nat)
    requires |Run(INIT, es).allocs| <= 65536 && k < |Run(INIT, es).replies|
    ensures ReplyRight(Run(INIT, es).allocs, Run(INIT, es).replies[k])
  {
    RunKeepsInv(INIT, es);
    var s := Run(INIT, es);
    OpenerIsOnly(s.allocs, s.replies[k].conid);
  }

  // ... and every query gets at most one answer, on the id that is its own.
  lemma QueriesAnsweredOnce(es: seq<Event>, j: nat, k: nat)
    requires |Run(INIT, es).allocs| <= 65536 && j < |Run(INIT, es).answers| && k < |Run(INIT, es).answers|
    ensures var s := Run(INIT, es);
            (s.answers[j].task == s.answers[k].task ==> j == k) && AnswerRight(s.allocs, s.answers[k])
  {
    RunKeepsInv(INIT, es);
    var s := Run(INIT, es);
    OpenerIsOnly(s.allocs, s.answers[k].conid);
  }

  // ----- What is handed on -----

  // The packet received at that place is a data packet with this id and payload.
  predicate Brings(received: seq<Packet>, at: nat, conid: u16, payload: seq<byte>) {
    at < |received| && !Has(received[at].flags, KEEPALIVE)
    && received[at].conid == conid && received[at].payload == payload
  }

  ghost predicate RepliesTraced(received: seq<Packet>, replies: seq<Reply>) {
    && (forall k :: 0 <= k < |replies| ==> Brings(received, replies[k].at, replies[k].conid, replies[k].payload))
    && (forall j, k :: 0 <= j < k < |replies| ==> replies[j].at < replies[k].at)
  }

  ghost predicate AnswersTraced(received: seq<Packet>, answers: seq<Answer>) {
    && (forall k :: 0 <= k < |answers| ==> Brings(received, answers[k].at, answers[k].conid, answers[k].payload))
    && (forall j, k :: 0 <= j < k < |answers| ==> answers[j].at < answers[k].at)
  }

  // Everything handed on was received, in that order, and no packet was handed on twice.
  ghost predicate Traced(s: State) {
    && RepliesTraced(s.received, s.replies) && AnswersTraced(s.received, s.answers)
    && (forall j, k :: 0 <= j < |s.replies| && 0 <= k < |s.answers| ==> s.replies[j].at != s.answers[k].at)
  }

  lemma GrowReceived(received: seq<Packet>, p: Packet, replies: seq<Reply>, answers: seq<Answer>)
    requires RepliesTraced(received, replies) && AnswersTraced(received, answers)
    ensures RepliesTraced(received + [p], replies) && AnswersTraced(received + [p], answers)
  {
    forall k | 0 <= k < |replies|
      ensures Brings(received + [p], replies[k].at, replies[k].conid, replies[k].payload)
    {
      assert Brings(received, replies[k].at, replies[k].conid, replies[k].payload);
    }
    forall k | 0 <= k < |answers|
      ensures Brings(received + [p], answers[k].at, answers[k].conid, answers[k].payload)
    {
      assert Brings(received, answers[k].at, answers[k].conid, answers[k].payload);
    }
  }

  lemma OneMoreReply(received: seq<Packet>, p: Packet, replies: seq<Reply>, r: Reply)
    requires RepliesTraced(received, replies) && RepliesTraced(received + [p], replies)
    requires r.at == |received| && Brings(received + [p], r.at, r.conid, r.payload)
    ensures RepliesTraced(received + [p], replies + [r])
  {
    forall k | 0 <= k < |replies| ensures replies[k].at < r.at {
      assert Brings(received, replies[k].at, replies[k].conid, replies[k].payload);
    }
  }

  lemma OneMoreAnswer(received: seq<Packet>, p: Packet, answers: seq<Answer>, a: Answer)
    requires AnswersTraced(received, answers) && AnswersTraced(received + [p], answers)
    requires a.at == |received| && Brings(received + [p], a.at, a.conid, a.payload)
    ensures AnswersTraced(received + [p], answers + [a])
  {
    forall k | 0 <= k < |answers| ensures answers[k].at < a.at {
      assert Brings(received, answers[k].at, answers[k].conid, answers[k].payload);
    }
  }

  lemma NewPlace(s: State)
    requires Traced(s)
    ensures forall k :: 0 <= k < |s.replies| ==> s.replies[k].at < |s.received|
    ensures forall k :: 0 <= k < |s.answers| ==> s.answers[k].at < |s.received|
  {
    forall k | 0 <= k < |s.replies| ensures s.replies[k].at < |s.received| {
      assert Brings(s.received, s.replies[k].at, s.replies[k].conid, s.replies[k].payload);
    }
    forall k | 0 <= k < |s.answers| ensures s.answers[k].at < |s.received| {
      assert Brings(s.received, s.answers[k].at, s.answers[k].conid, s.answers[k].payload);
    }
  }

  lemma DeliverKeepsTraced(s: State, p: Packet)
    requires Traced(s)
    ensures Traced(Next(s, Deliver(p)))
  {
    GrowReceived(s.received, p, s.replies, s.answers);
    NewPlace(s);
    if !Has(p.flags, KEEPALIVE) && p.conid in s.flows {
      assert Brings(s.received + [p], |s.received|, p.conid, p.payload);
      match s.flows[p.conid]
      case UdpFlow(from) => OneMoreReply(s.received, p, s.replies, Reply(p.conid, from, p.payload, |s.received|));
      case DnsFlow(t) => OneMoreAnswer(s.received, p, s.answers, Answer(t, p.conid, p.payload, |s.received|));
    }
  }

  lemma NextKeepsTraced(s: State, e: Event)
    requires Traced(s)
    ensures Traced(Next(s, e))
  {
    if e.Deliver? {
      DeliverKeepsTraced(s, e.packet);
    } else {
      var s' := Next(s, e);
      assert s'.replies == s.replies && s'.answers == s.answers && s'.received == s.received;
    }
  }

  lemma {:induction false} RunKeepsTraced(s: State, es: seq<Event>)
    requires Traced(s)
    ensures Traced(Run(s, es))
    decreases |es|
  {
    if es != [] {
      NextKeepsTraced(s, es[0]);
      RunKeepsTraced(Next(s, es[0]), es[1..]);
    }
  }

  // From the server's packets to the sockets: when the packets dispatched are those the reader
  // parses from a stream that begins with these frames, a reply made from one of them carries its
  // payload to the only socket that opened its id, and no packet makes two.
  lemma BytesReachTheirSocket(es: seq<Event>, packets: seq<Packet>, tail: seq<byte>, j: nat, k: nat)
    requires AllFit(packets) && |Run(INIT, es).allocs| <= 65536
    requires Run(INIT, es).received <= Read(Wire(packets) + tail).packets
    requires j < |Run(INIT, es).replies| && k < |Run(INIT, es).replies|
    ensures var s := Run(INIT, es);
            var r := s.replies[k];
            && ReplyRight(s.allocs, r)
            && (r.at < |packets| ==> packets[r.at].conid == r.conid && packets[r.at].payload == r.payload)
            && (s.replies[j].at == r.at ==> j == k)
  {
    RepliesReachTheirSender(es, k);
    RunKeepsTraced(INIT, es);
    WireRead(packets, tail);
    var s := Run(INIT, es);
    var r := s.replies[k];
    assert Brings(s.received, r.at, r.conid, r.payload);
  }

  // The same of the queries: an answer carries the payload of one of the server's packets to the
  // only query that has its id, once, and that packet makes no reply to a socket.
  lemma BytesReachTheirQuery(es: seq<Event>, packets: seq<Packet>, tail: seq<byte>, j: nat, k: nat)
    requires AllFit(packets) && |Run(INIT, es).allocs| <= 65536
    requires Run(INIT, es).received <= Read(Wire(packets) + tail).packets
    requires j < |Run(INIT, es).answers| && k < |Run(INIT, es).answers|
    ensures var s := Run(INIT, es);
            var a := s.answers[k];
            && AnswerRight(s.allocs, a)
            && (a.at < |packets| ==> packets[a.at].conid == a.conid && packets[a.at].payload == a.payload)
            && (s.answers[j].at == a.at || s.answers[j].task == a.task ==> j == k)
            && forall i :: 0 <= i < |s.replies| ==> s.replies[i].at != a.at
  {
    QueriesAnsweredOnce(es, j, k);
    RunKeepsTraced(INIT, es);
    WireRead(packets, tail);
    var s := Run(INIT, es);
    var a := s.answers[k];
    assert Brings(s.received, a.at, a.conid, a.payload);
  }

  // ----- The bound is sharp -----

  lemma {:induction false} RunAppend(s: State, a: seq<Event>, b: seq<Event>)
    ensures Run(s, a + b) == Run(Run(s, a), b)
    decreases |a|
  {
    if a == [] {
      assert a + b == b;
    } else {
      assert (a + b)[1..] == a[1..] + b;
      RunAppend(Next(s, a[0]), a[1..], b);
    }
  }

  lemma RunTwo(s: State, a: Event, b: Event)
    ensures Run(s, [a, b]) == Next(Next(s, a), b)
  {
    assert [a, b][1..] == [b] && [b][1..] == [];
    assert Run(Next(s, a), [b]) == Run(Next(Next(s, a), b), []);
  }

  // Queries that each take an id and go no further.
  function Queries(first: nat, count: nat): seq<Event> {
    if count == 0 then []
    else Queries(first, count - 1) + [QueryDns(first + count - 1), Proceed(first + count - 1, true)]
  }

  ghost predicate Before(s: State, t: nat) { forall u :: u in s.tasks ==> u < t }

  // The states differ in allocations and waiting queries only.
  ghost predicate Only(s: State, s': State, count: nat) {
    && |s'.allocs| == |s.allocs| + count && s.allocs <= s'.allocs
    && s'.flows == s.flows && s'.keys == s.keys && s'.keysHeld == s.keysHeld
    && s'.replies == s.replies && s'.answers == s.answers && s'.received == s.received
  }

  lemma {:induction false} QueriesAllocate(s: State, first: nat, count: nat)
    requires Before(s, first)
    ensures var s' := Run(s, Queries(first, count)); Before(s', first + count) && Only(s, s', count)
    decreases count
  {
    if count > 0 {
      var t := first + count - 1;
      QueriesAllocate(s, first, count - 1);
      var mid := Run(s, Queries(first, count - 1));
      RunAppend(s, Queries(first, count - 1), [QueryDns(t), Proceed(t, true)]);
      RunTwo(mid, QueryDns(t), Proceed(t, true));
      assert Next(mid, QueryDns(t)).tasks[t] == DnsStart;
    }
  }

  // A socket that opens the first id.
  function Opening(from: Sock, dest: Sock): seq<Event> {
    [SendUdp(0, from, dest), Proceed(0, true)] + [Proceed(0, true)]
  }

  lemma Opened(from: Sock, dest: Sock)
    ensures var s := Run(INIT, Opening(from, dest));
            && Before(s, 1) && s.allocs == [ByUdp(from, dest)] && s.flows == map[1 := UdpFlow(from)]
            && s.answers == [] && s.replies == [] && s.received == []
  {
    RunAppend(INIT, [SendUdp(0, from, dest), Proceed(0, true)], [Proceed(0, true)]);
    RunTwo(INIT, SendUdp(0, from, dest), Proceed(0, true));
    var s := Run(INIT, [SendUdp(0, from, dest), Proceed(0, true)]);
    assert s.tasks[0] == UdpInsert(from, dest, 1);
    assert [Proceed(0, true)][1..] == [];
    assert Run(s, [Proceed(0, true)]) == Next(s, Proceed(0, true));
  }

  // The query after 65,536 allocations gets the first id again, takes over its flow and is handed
  // the datagram meant for it.
  lemma TakesOver(s: State, t: nat, p: Packet)
    requires |s.allocs| == 65536 && Before(s, t) && s.answers == [] && s.received == []
    requires p.conid == 1 && !Has(p.flags, KEEPALIVE)
    ensures var s' := Run(s, [QueryDns(t), Proceed(t, true)] + [Proceed(t, true), Deliver(p)]);
            && s'.allocs == s.allocs + [ByDns(t)] && Before(s', t + 1)
            && s'.answers == [Answer(t, 1, p.payload, 0)] && s'.replies == s.replies
  {
    RunAppend(s, [QueryDns(t), Proceed(t, true)], [Proceed(t, true), Deliver(p)]);
    RunTwo(s, QueryDns(t), Proceed(t, true));
    var mid := Run(s, [QueryDns(t), Proceed(t, true)]);
    assert Next(s, QueryDns(t)).tasks[t] == DnsStart;
    assert mid.tasks[t] == DnsInsert(1);
    RunTwo(mid, Proceed(t, true), Deliver(p));
    var last := Next(mid, Proceed(t, true));
    assert last.tasks[t] == DnsWrite(1) && last.flows[1] == DnsFlow(t);
  }

  // A run of n allocations, n beyond the number of ids.
  function Wrapping(from: Sock, dest: Sock, p: Packet, ids: nat, n: nat): seq<Event>
    requires 0 < ids < n
  {
    Opening(from, dest) + Queries(1, ids - 1)
    + ([QueryDns(ids), Proceed(ids, true)] + [Proceed(ids, true), Deliver(p)]) + Queries(ids + 1, n - ids - 1)
  }

  lemma WrapMisroutes(from: Sock, dest: Sock, p: Packet, ids: nat, n: nat)
    requires ids == 65536 < n && p.conid == 1 && !Has(p.flags, KEEPALIVE)
    ensures var s := Run(INIT, Wrapping(from, dest, p, ids, n));
            && |s.allocs| == n && s.allocs[0] == ByUdp(from, dest) && s.replies == []
            && s.answers == [Answer(ids, 1, p.payload, 0)] && !AnswerRight(s.allocs, s.answers[0])
  {
    var a, b := Opening(from, dest), Queries(1, ids - 1);
    var c, d := [QueryDns(ids), Proceed(ids, true)] + [Proceed(ids, true), Deliver(p)], Queries(ids + 1, n - ids - 1);
    RunAppend(INIT, a, b);
    RunAppend(INIT, a + b, c);
    RunAppend(INIT, a + b + c, d);
    Opened(from, dest);
    QueriesAllocate(Run(INIT, a), 1, ids - 1);
    TakesOver(Run(INIT, a + b), ids, p);
    QueriesAllocate(Run(INIT, a + b + c), ids + 1, n - ids - 1);
    var s := Run(INIT, Wrapping(from, dest, p, ids, n));
    assert s.allocs[0] == ByUdp(from, dest) && Conid(0) == 1;
    assert forall m: nat :: OnlyOpener(s.allocs, 1, m) ==> m == 0;
  }

  // Whatever was handed on went to the only caller that has the id.
  ghost predicate AllRight(s: State) {
    && (forall k :: 0 <= k < |s.replies| ==> ReplyRight(s.allocs, s.replies[k]))
    && (forall k :: 0 <= k < |s.answers| ==> AnswerRight(s.allocs, s.answers[k]))
  }

  // The multiplexer keeps its callers apart in all runs of n allocations if and only if n is at most
  // 65,536.
  lemma CallersKeptApartIff(n: nat)
    ensures (forall es :: |Run(INIT, es).allocs| == n ==> AllRight(Run(INIT, es))) <==> n <= 65536
  {
    if n <= 65536 {
      forall es | |Run(INIT, es).allocs| == n ensures AllRight(Run(INIT, es)) {
        var s := Run(INIT, es);
        forall k | 0 <= k < |s.replies| ensures ReplyRight(s.allocs, s.replies[k]) {
          RepliesReachTheirSender(es, k);
        }
        forall k | 0 <= k < |s.answers| ensures AnswerRight(s.allocs, s.answers[k]) {
          QueriesAnsweredOnce(es, k, k);
        }
      }
    } else {
      var ids, sock: Sock := 65536, SockV4([0, 0, 0, 0], 0);
      var p := Packet(0, 1, Some(sock), []);
      WrapMisroutes(sock, sock, p, ids, n);
      assert !AllRight(Run(INIT, Wrapping(sock, sock, p, ids, n)));
    }
  }
}
