/** Exactly what the UDPGW multiplexer hands on, in every run within the number of its ids: which flows
    are live, which packets become replies and answers, and how a query ends, each stated by the
    events that came before. */
module UdpgwFlows {
  import opened Bytes
  import opened UdpgwMux
  import opened UdpgwWire

  // ----- The events -----

  // The event registers the id for datagrams to a socket; for the answer to a query.
  predicate InsertsUdp(s: State, e: Event, c: u16, from: Sock) {
    e.Proceed? && e.t in s.tasks && s.tasks[e.t].UdpInsert? && s.tasks[e.t].from == from && s.tasks[e.t].conid == c
  }

  predicate InsertsDns(s: State, e: Event, c: u16, t: nat) {
    e.Proceed? && e.t == t && t in s.tasks && s.tasks[t] == DnsInsert(c)
  }

  // A data packet for the id.
  predicate Data(e: Event, c: u16) {
    e.Deliver? && !Has(e.packet.flags, KEEPALIVE) && e.packet.conid == c
  }

  // The event ends query t's wait for an answer under the id.
  predicate Closes(s: State, e: Event, c: u16, t: nat) {
    Data(e, c) || (e.Proceed? && e.t == t && t in s.tasks && s.tasks[t] == DnsRemove(c))
  }

  // The query's packet could not be written, or its time is up; it finds its answer.
  predicate GivesUp(s: State, e: Event, t: nat) {
    e == Proceed(t, false) && t in s.tasks && (s.tasks[t].DnsWrite? || (s.tasks[t].DnsWait? && t !in s.heard))
  }

  predicate Collects(s: State, e: Event, t: nat) {
    e.Proceed? && e.t == t && t in s.tasks && s.tasks[t].DnsWait? && t in s.heard
  }

  // ----- Runs, event by event -----

  // The state before event j.
  function At(es: seq<Event>, j: nat): State
    requires j <= |es|
  {
    Run(INIT, es[..j])
  }

  lemma AtPrefix(es: seq<Event>, n: nat, j: nat)
    requires j <= n <= |es|
    ensures At(es[..n], j) == At(es, j)
  {
    assert es[..n][..j] == es[..j];
  }

  lemma RunLast(es: seq<Event>)
    requires es != []
    ensures Run(INIT, es) == Next(At(es, |es| - 1), es[|es| - 1])
  {
    var n := |es| - 1;
    RunAppend(INIT, es[..n], [es[n]]);
    assert es == es[..n] + [es[n]] && [es[n]][1..] == [];
  }

  // Every prefix of a run within the bound is within it, and sound.
  lemma SoundAt(es: seq<Event>, n: nat)
    requires n <= |es| && |Run(INIT, es).allocs| <= 65536
    ensures |At(es, n).allocs| <= 65536 && Inv(At(es, n))
  {
    assert es == es[..n] + es[n..];
    RunAppend(INIT, es[..n], es[n..]);
    AllocsOnlyGrow(At(es, n), es[n..]);
    RunKeepsInv(INIT, es[..n]);
  }

  // ----- Live flows -----

  predicate Live(s: State, c: u16, flow: Flow) { c in s.flows && s.flows[c] == flow }

  // What the invariant says about the flow of an id and the task of an event.
  predicate Known(s: State, e: Event, c: u16) {
    && (e.Proceed? && e.t in s.tasks ==>
          && TaskSound(s.allocs, s.keys, s.keysHeld, s.flows, s.heard, e.t, s.tasks[e.t])
          && (s.tasks[e.t].UdpInsert? ==>
                OpenedBy(s.allocs, s.tasks[e.t].conid, ByUdp(s.tasks[e.t].from, s.tasks[e.t].dest))))
    && (c in s.flows ==> FlowSound(s.allocs, s.heard, c, s.flows[c]))
  }

  lemma InvKnows(s: State, e: Event, c: u16)
    requires Inv(s)
    ensures Known(s, e, c)
  {
    if e.Proceed? && e.t in s.tasks && s.tasks[e.t].UdpInsert? {
      var task := s.tasks[e.t];
      assert TaskSound(s.allocs, s.keys, s.keysHeld, s.flows, s.heard, e.t, task);
      assert OpenedBy(s.allocs, s.keys[(task.from, task.dest)], ByUdp(task.from, task.dest));
    }
  }

  lemma UdpFlowNext(s: State, e: Event, c: u16, from: Sock)
    requires Known(s, e, c)
    ensures Live(Next(s, e), c, UdpFlow(from)) <==> InsertsUdp(s, e, c, from) || Live(s, c, UdpFlow(from))
  {
  }

  lemma DnsFlowNext(s: State, e: Event, c: u16, t: nat)
    requires Known(s, e, c)
    ensures Live(Next(s, e), c, DnsFlow(t)) <==>
            InsertsDns(s, e, c, t) || (Live(s, c, DnsFlow(t)) && !Closes(s, e, c, t))
  {
  }

  ghost predicate Registered(es: seq<Event>, c: u16, from: Sock) {
    exists m :: 0 <= m < |es| && InsertsUdp(At(es, m), es[m], c, from)
  }

  // Event m registers the id for query t, and nothing has closed it since.
  predicate AwaitsSince(es: seq<Event>, m: nat, c: u16, t: nat)
    requires m < |es|
  {
    InsertsDns(At(es, m), es[m], c, t) && forall j :: m < j < |es| ==> !Closes(At(es, j), es[j], c, t)
  }

  ghost predicate Awaited(es: seq<Event>, c: u16, t: nat) {
    exists m :: 0 <= m < |es| && AwaitsSince(es, m, c, t)
  }

  lemma RegisteredStep(es: seq<Event>, c: u16, from: Sock)
    requires es != []
    ensures var n := |es| - 1;
            Registered(es, c, from) <==> Registered(es[..n], c, from) || InsertsUdp(At(es, n), es[n], c, from)
  {
    var n := |es| - 1;
    forall m | 0 <= m < n ensures At(es[..n], m) == At(es, m) && es[..n][m] == es[m] {
      AtPrefix(es, n, m);
    }
  }

  lemma AwaitsEarlier(es: seq<Event>, m: nat, c: u16, t: nat)
    requires m < |es| - 1
    ensures var n := |es| - 1;
            AwaitsSince(es, m, c, t) <==> AwaitsSince(es[..n], m, c, t) && !Closes(At(es, n), es[n], c, t)
  {
    var n := |es| - 1;
    forall j | 0 <= j < n ensures At(es[..n], j) == At(es, j) && es[..n][j] == es[j] {
      AtPrefix(es, n, j);
    }
  }

  lemma AwaitedStep(es: seq<Event>, c: u16, t: nat)
    requires es != []
    ensures var n := |es| - 1;
            Awaited(es, c, t) <==>
            InsertsDns(At(es, n), es[n], c, t) || (Awaited(es[..n], c, t) && !Closes(At(es, n), es[n], c, t))
  {
    var n := |es| - 1;
    assert AwaitsSince(es, n, c, t) <==> InsertsDns(At(es, n), es[n], c, t);
    forall m | 0 <= m < n
      ensures AwaitsSince(es, m, c, t) <==> AwaitsSince(es[..n], m, c, t) && !Closes(At(es, n), es[n], c, t)
    {
      AwaitsEarlier(es, m, c, t);
    }
  }

  // An id leads to a socket exactly if it was ever registered for it: such a flow is never closed.
  lemma {:induction false} UdpFlowIff(es: seq<Event>, c: u16, from: Sock)
    requires |Run(INIT, es).allocs| <= 65536
    ensures Live(Run(INIT, es), c, UdpFlow(from)) <==> Registered(es, c, from)
    decreases |es|
  {
    if es != [] {
      var n := |es| - 1;
      SoundAt(es, n);
      UdpFlowIff(es[..n], c, from);
      RegisteredStep(es, c, from);
      RunLast(es);
      InvKnows(At(es, n), es[n], c);
      UdpFlowNext(At(es, n), es[n], c, from);
    }
  }

  // It leads to a query exactly if it was registered for it, and no data packet for the id came and
  // the query did not withdraw since.
  lemma {:induction false} DnsFlowIff(es: seq<Event>, c: u16, t: nat)
    requires |Run(INIT, es).allocs| <= 65536
    ensures Live(Run(INIT, es), c, DnsFlow(t)) <==> Awaited(es, c, t)
    decreases |es|
  {
    if es != [] {
      var n := |es| - 1;
      SoundAt(es, n);
      DnsFlowIff(es[..n], c, t);
      AwaitedStep(es, c, t);
      RunLast(es);
      InvKnows(At(es, n), es[n], c);
      DnsFlowNext(At(es, n), es[n], c, t);
    }
  }

  // ----- How a query ends -----

  ghost predicate GaveUp(es: seq<Event>, t: nat) {
    exists m :: 0 <= m < |es| && GivesUp(At(es, m), es[m], t)
  }

  ghost predicate Collected(es: seq<Event>, t: nat) {
    exists m :: 0 <= m < |es| && Collects(At(es, m), es[m], t)
  }

  predicate Withdrawn(s: State, t: nat) {
    t in s.tasks && (s.tasks[t].DnsRemove? || (s.tasks[t].DnsDone? && !s.tasks[t].answered))
  }

  predicate Returned(s: State, t: nat) { t in s.tasks && s.tasks[t].DnsDone? && s.tasks[t].answered }

  lemma EndsNext(s: State, e: Event, t: nat)
    ensures Withdrawn(Next(s, e), t) <==> Withdrawn(s, t) || GivesUp(s, e, t)
    ensures Returned(Next(s, e), t) <==> Returned(s, t) || Collects(s, e, t)
  {
  }

  // A query is on its way to an error exactly when its packet could not be written or it timed out
  // unanswered; it returns its answer exactly when it found it waiting.
  lemma {:induction false} QueryEndsIff(es: seq<Event>, t: nat)
    ensures Withdrawn(Run(INIT, es), t) <==> GaveUp(es, t)
    ensures Returned(Run(INIT, es), t) <==> Collected(es, t)
    decreases |es|
  {
    if es != [] {
      var n := |es| - 1;
      QueryEndsIff(es[..n], t);
      RunLast(es);
      EndsNext(At(es, n), es[n], t);
      forall m | 0 <= m < n ensures At(es[..n], m) == At(es, m) && es[..n][m] == es[m] {
        AtPrefix(es, n, m);
      }
    }
  }

  // While its flow is live, a query listens until it gives up.
  lemma ListeningIff(es: seq<Event>, c: u16, t: nat)
    requires |Run(INIT, es).allocs| <= 65536 && Live(Run(INIT, es), c, DnsFlow(t))
    ensures Listening(Run(INIT, es), t) <==> !GaveUp(es, t)
  {
    var s := Run(INIT, es);
    QueryEndsIff(es, t);
    RunKeepsInv(INIT, es);
    assert FlowSound(s.allocs, s.heard, c, s.flows[c]);
    assert ByDns(t) in s.allocs;
    assert TaskSound(s.allocs, s.keys, s.keysHeld, s.flows, s.heard, t, s.tasks[t]);
    if s.tasks[t].DnsInsert? {
      OneIdPerQuery(s.allocs, s.tasks, t, c, s.tasks[t].conid);
    }
  }

  // ----- What is handed on -----

  lemma {:induction false} LaterPlaces(s: State, es: seq<Event>)
    ensures s.replies <= Run(s, es).replies && s.answers <= Run(s, es).answers
    ensures forall k :: |s.replies| <= k < |Run(s, es).replies| ==> Run(s, es).replies[k].at >= |s.received|
    ensures forall k :: |s.answers| <= k < |Run(s, es).answers| ==> Run(s, es).answers[k].at >= |s.received|
    decreases |es|
  {
    if es != [] {
      LaterPlaces(Next(s, es[0]), es[1..]);
    }
  }

  // What the packet of event n makes is decided when it is dispatched.
  lemma DecidedAt(es: seq<Event>, n: nat, r: Reply, a: Answer)
    requires n < |es| && es[n].Deliver?
    requires r.at == |At(es, n).received| && a.at == |At(es, n).received|
    ensures r in Run(INIT, es).replies <==> r in Next(At(es, n), es[n]).replies && r !in At(es, n).replies
    ensures a in Run(INIT, es).answers <==> a in Next(At(es, n), es[n]).answers && a !in At(es, n).answers
  {
    var s, s' := At(es, n), Next(At(es, n), es[n]);
    assert es == es[..n] + es[n..] && es[n..][0] == es[n];
    RunAppend(INIT, es[..n], es[n..]);
    LaterPlaces(s', es[n..][1..]);
    RunKeepsTraced(INIT, es[..n]);
    NewPlace(s);
  }

  // A packet becomes a datagram for a socket exactly if it is a data packet and its id was registered
  // for that socket before.
  lemma ReplyIff(es: seq<Event>, n: nat, to: Sock)
    requires |Run(INIT, es).allocs| <= 65536 && n < |es| && es[n].Deliver?
    ensures var p := es[n].packet;
            Reply(p.conid, to, p.payload, |At(es, n).received|) in Run(INIT, es).replies <==>
            Data(es[n], p.conid) && Registered(es[..n], p.conid, to)
  {
    var s, p := At(es, n), es[n].packet;
    SoundAt(es, n);
    UdpFlowIff(es[..n], p.conid, to);
    var r := Reply(p.conid, to, p.payload, |s.received|);
    DecidedAt(es, n, r, Answer(0, p.conid, p.payload, |s.received|));
    RunKeepsTraced(INIT, es[..n]);
    NewPlace(s);
  }

  // It becomes the answer to a query exactly if it is the first data packet for the id since that was
  // registered for the query, and the query has not given up.
  lemma AnswerIff(es: seq<Event>, n: nat, t: nat)
    requires |Run(INIT, es).allocs| <= 65536 && n < |es| && es[n].Deliver?
    ensures var p := es[n].packet;
            Answer(t, p.conid, p.payload, |At(es, n).received|) in Run(INIT, es).answers <==>
            Data(es[n], p.conid) && Awaited(es[..n], p.conid, t) && !GaveUp(es[..n], t)
  {
    var s, p := At(es, n), es[n].packet;
    SoundAt(es, n);
    DnsFlowIff(es[..n], p.conid, t);
    if Live(s, p.conid, DnsFlow(t)) {
      ListeningIff(es[..n], p.conid, t);
    }
    var a := Answer(t, p.conid, p.payload, |s.received|);
    DecidedAt(es, n, Reply(p.conid, SockV4([0, 0, 0, 0], 0), p.payload, |s.received|), a);
    RunKeepsTraced(INIT, es[..n]);
    NewPlace(s);
  }
}
