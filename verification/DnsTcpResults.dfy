/** What every call of the DNS-over-TCP pool comes to, in every interleaving and whatever the servers
    send: when it uses the pooled stream and when it connects, when it fails, which reply it returns,
    and what lies in the slot, each stated by the events of the run. */
module DnsTcpResults {
  import opened Bytes
  import opened DnsTcpPool

  // ----- The events -----

  // The exchange of the query, come this far, breaks off: the query has no legal size, a write or a
  // read fails, or the size announced is zero.
  predicate Breaks(query: seq<byte>, phase: Phase, e: Event) {
    match e
    case Write(_, ok) =>
      (phase == Begin && (query == [] || |query| > 65535 || !ok)) || (phase == Prefixed && !ok)
    case Receive(_, data) =>
      || (phase == Phase.Asked && (data.None? || (|data.value| == 2 && FromBE16(data.value) == 0)))
      || (phase.Sized? && data.None?)
    case _ => false
  }

  // It is completed with the message announced.
  predicate Completes(phase: Phase, e: Event, m: seq<byte>) {
    phase.Sized? && e.Receive? && e.data == Some(m) && |m| == phase.n
  }

  // The event is one of call t, which stands at `pc`.
  predicate Of(s: State, e: Event, t: nat) { !e.Arrive? && e.t == t && t < |s.tasks| }

  predicate FindsFree(s: State, e: Event, t: nat) {
    Of(s, e, t) && e.Lock? && s.holder.None?
  }

  // The pooled stream leads to the host of call t.
  predicate Fits(s: State, t: nat)
    requires t < |s.tasks|
  {
    s.slot.Some? && s.slot.value.host == s.tasks[t].host
  }

  // Call t finds no stream to its host; the exchange on the one it found breaks off.
  predicate Misses(s: State, e: Event, t: nat) {
    FindsFree(s, e, t) && s.tasks[t].pc.Start? && !Fits(s, t)
  }

  predicate Loses(s: State, e: Event, t: nat) {
    Of(s, e, t) && s.tasks[t].pc.Reusing? && s.slot.Some? && Breaks(s.tasks[t].query, s.tasks[t].pc.phase, e)
  }

  // Its connection cannot be made, or the exchange on its own stream breaks off.
  predicate Fails(s: State, e: Event, t: nat) {
    Of(s, e, t) &&
    var pc := s.tasks[t].pc;
    (pc.Connecting? && e.Connect? && !e.ok) || (pc.Private? && Breaks(s.tasks[t].query, pc.phase, e))
  }

  // It gets its reply on the pooled stream; on its own.
  predicate GetsPooled(s: State, e: Event, t: nat, m: seq<byte>) {
    Of(s, e, t) && s.tasks[t].pc.Reusing? && s.slot.Some? && Completes(s.tasks[t].pc.phase, e, m)
  }

  predicate GetsOwn(s: State, e: Event, t: nat, m: seq<byte>) {
    Of(s, e, t) && s.tasks[t].pc.Private? && Completes(s.tasks[t].pc.phase, e, m)
  }

  // It puts its own stream into the slot.
  predicate Stores(s: State, e: Event, t: nat) {
    FindsFree(s, e, t) && s.tasks[t].pc.Storing?
  }

  datatype Kind = Missing | Losing | Failing | Storing | ByPool(m: seq<byte>) | ByOwn(m: seq<byte>)

  predicate Is(kind: Kind, s: State, e: Event, t: nat) {
    match kind
    case Missing => Misses(s, e, t)
    case Losing => Loses(s, e, t)
    case Failing => Fails(s, e, t)
    case Storing => Stores(s, e, t)
    case ByPool(m) => GetsPooled(s, e, t, m)
    case ByOwn(m) => GetsOwn(s, e, t, m)
  }

  // The state before event j.
  function At(es: seq<Event>, j: nat): State
    requires j <= |es|
  {
    Run(INIT, es[..j])
  }

  lemma AtPrefix(es: seq<Event>, n: nat, j: nat)
    requires j <= n <= |es|
    ensures At(es[..n], j) == At(es, j)
  {
    assert es[..n][..j] == es[..j];
  }

  // Some event of the run, in the state it found, is such.
  ghost predicate Once(such: (State, Event) -> bool, es: seq<Event>) {
    exists n :: 0 <= n < |es| && such(At(es, n), es[n])
  }

  lemma OnceStep(such: (State, Event) -> bool, es: seq<Event>)
    requires es != []
    ensures var n := |es| - 1; Once(such, es) <==> Once(such, es[..n]) || such(At(es, n), es[n])
  {
    var n := |es| - 1;
    forall j | 0 <= j < n ensures At(es[..n], j) == At(es, j) && es[..n][j] == es[j] {
      AtPrefix(es, n, j);
    }
  }

  function Such(kind: Kind, t: nat): (State, Event) -> bool { (s, e) => Is(kind, s, e, t) }

  // Some event of the run is of that kind for call t.
  ghost predicate Had(kind: Kind, es: seq<Event>, t: nat) { Once(Such(kind, t), es) }

  lemma HadStep(kind: Kind, es: seq<Event>, t: nat)
    requires es != []
    ensures var n := |es| - 1;
            Had(kind, es, t) <==> Had(kind, es[..n], t) || Is(kind, At(es, n), es[n], t)
  {
    OnceStep(Such(kind, t), es);
  }

  // ----- Results -----

  function PcOf(s: State, t: nat): Pc { if t < |s.tasks| then s.tasks[t].pc else Start }

  predicate Returns(pc: Pc, m: seq<byte>) { pc == Finished(Some(m)) }

  predicate Holds(pc: Pc, m: seq<byte>) { pc.Storing? && pc.reply == m }

  // Where a call comes to by one event, as far as its result goes.
  lemma ResultNext(s: State, e: Event, t: nat, m: seq<byte>)
    ensures var pc, pc' := PcOf(s, t), PcOf(Next(s, e), t);
            && (pc' == Finished(None) <==> pc == Finished(None) || Fails(s, e, t))
            && (Holds(pc', m) <==> (Holds(pc, m) && !Stores(s, e, t)) || GetsOwn(s, e, t, m))
            && (Returns(pc', m) <==> Returns(pc, m) || (Holds(pc, m) && Stores(s, e, t)) || GetsPooled(s, e, t, m))
  {
  }

  // What the events of a call so far say about its place.
  predicate Settled(pc: Pc, m: seq<byte>, failed: bool, pooled: bool, own: bool, stored: bool) {
    && (pc == Finished(None) <==> failed)
    && (Returns(pc, m) <==> pooled || (own && stored))
    && (Holds(pc, m) <==> own && !stored)
    && (stored ==> pc.Finished? && pc.result.Some?)
  }

  lemma SettledNext(s: State, e: Event, t: nat, m: seq<byte>, failed: bool, pooled: bool, own: bool, stored: bool)
    requires Settled(PcOf(s, t), m, failed, pooled, own, stored)
    ensures Settled(PcOf(Next(s, e), t), m, failed || Fails(s, e, t), pooled || GetsPooled(s, e, t, m),
                    own || GetsOwn(s, e, t, m), stored || Stores(s, e, t))
  {
    ResultNext(s, e, t, m);
  }

  // A call returns nothing exactly when its connection could not be made or the exchange on its own
  // stream broke off. It returns a reply exactly when an exchange of its own was completed with that
  // message, on the pooled stream, or on its own stream, which it has then stored.
  lemma {:induction false} ResultIff(es: seq<Event>, t: nat, m: seq<byte>)
    ensures PcOf(Run(INIT, es), t) == Finished(None) <==> Had(Failing, es, t)
    ensures PcOf(Run(INIT, es), t) == Finished(Some(m)) <==>
            Had(ByPool(m), es, t) || (Had(ByOwn(m), es, t) && Had(Kind.Storing, es, t))
  {
    ComesTo(es, t, m);
  }

  lemma {:induction false} ComesTo(es: seq<Event>, t: nat, m: seq<byte>)
    ensures Settled(PcOf(Run(INIT, es), t), m,
                    Had(Failing, es, t), Had(ByPool(m), es, t), Had(ByOwn(m), es, t), Had(Kind.Storing, es, t))
    decreases |es|
  {
    if es != [] {
      var past, e := es[..|es| - 1], es[|es| - 1];
      ComesTo(past, t, m);
      SettledNext(Run(INIT, past), e, t, m,
                  Had(Failing, past, t), Had(ByPool(m), past, t), Had(ByOwn(m), past, t), Had(Kind.Storing, past, t));
      HadStep(Failing, es, t);
      HadStep(Kind.Storing, es, t);
      HadStep(ByPool(m), es, t);
      HadStep(ByOwn(m), es, t);
    }
  }

  // ----- Reusing and connecting -----

  // The call is past the pooled stream.
  predicate Past(pc: Pc) { pc.Connecting? || pc.Private? || pc.Storing? || pc == Finished(None) }

  lemma TurnNext(s: State, e: Event, t: nat)
    ensures var pc, pc' := PcOf(s, t), PcOf(Next(s, e), t);
            && (Past(pc') <==> Misses(s, e, t) || Loses(s, e, t) || (Past(pc) && !Stores(s, e, t)))
            && (Misses(s, e, t) || Loses(s, e, t) ==> pc'.Connecting? && Next(s, e).slot.None?)
            && (Stores(s, e, t) ==> pc'.Finished? && pc'.result.Some?)
  {
  }

  // A call turns away from the pooled stream to one of its own exactly when it found none to its host
  // or the exchange on it broke off.
  lemma {:induction false} TurnsIff(es: seq<Event>, t: nat)
    ensures Past(PcOf(Run(INIT, es), t)) || Had(Kind.Storing, es, t) <==>
            Had(Missing, es, t) || Had(Losing, es, t)
    decreases |es|
  {
    if es != [] {
      var n := |es| - 1;
      TurnsIff(es[..n], t);
      TurnNext(At(es, n), es[n], t);
      HadStep(Missing, es, t);
      HadStep(Losing, es, t);
      HadStep(Kind.Storing, es, t);
    }
  }

  // ----- The slot -----

  // The event puts a stream to the host into the slot; it empties the slot.
  predicate Puts(s: State, e: Event, host: Host) {
    !e.Arrive? && Stores(s, e, e.t) && s.tasks[e.t].pc.st.host == host
  }

  predicate Empties(s: State, e: Event) { !e.Arrive? && (Misses(s, e, e.t) || Loses(s, e, e.t)) }

  predicate Leads(s: State, host: Host) { s.slot.Some? && s.slot.value.host == host }

  lemma SlotNext(s: State, e: Event, host: Host)
    ensures Leads(Next(s, e), host) <==>
            || Puts(s, e, host)
            || (Leads(s, host) && !Empties(s, e) && (e.Arrive? || !Stores(s, e, e.t)))
  {
  }

  // Event n put a stream to the host into the slot, and no later event emptied or replaced it.
  predicate Keeps(es: seq<Event>, n: nat, host: Host)
    requires n < |es|
  {
    Puts(At(es, n), es[n], host) && Untouched(es, n)
  }

  predicate Untouched(es: seq<Event>, n: nat) {
    forall j :: n < j < |es| ==> !Changes(At(es, j), es[j])
  }

  predicate Changes(s: State, e: Event) { !e.Arrive? && (Empties(s, e) || Stores(s, e, e.t)) }

  ghost predicate Kept(es: seq<Event>, host: Host) {
    exists n :: 0 <= n < |es| && Keeps(es, n, host)
  }

  lemma UntouchedEarlier(es: seq<Event>, k: nat)
    requires k < |es| - 1
    ensures var n := |es| - 1; Untouched(es, k) <==> Untouched(es[..n], k) && !Changes(At(es, n), es[n])
  {
    var n := |es| - 1;
    forall j | 0 <= j < n ensures Changes(At(es[..n], j), es[..n][j]) == Changes(At(es, j), es[j]) {
      AtPrefix(es, n, j);
    }
  }

  lemma KeptStep(es: seq<Event>, host: Host)
    requires es != []
    ensures var n := |es| - 1;
            Kept(es, host) <==>
            Puts(At(es, n), es[n], host) || (Kept(es[..n], host) && !Changes(At(es, n), es[n]))
  {
    var n := |es| - 1;
    assert Keeps(es, n, host) <==> Puts(At(es, n), es[n], host);
    forall k | 0 <= k < n
      ensures Keeps(es, k, host) <==> Keeps(es[..n], k, host) && !Changes(At(es, n), es[n])
    {
      AtPrefix(es, n, k);
      UntouchedEarlier(es, k);
    }
  }

  // The slot holds a stream to a host exactly when a call stored one, and no later call found it to
  // be to another host, had its exchange on it break off, or stored its own.
  lemma {:induction false} SlotIff(es: seq<Event>, host: Host)
    ensures Leads(Run(INIT, es), host) <==> Kept(es, host)
    decreases |es|
  {
    if es != [] {
      var n := |es| - 1;
      SlotIff(es[..n], host);
      SlotNext(At(es, n), es[n], host);
      KeptStep(es, host);
    }
  }
}
