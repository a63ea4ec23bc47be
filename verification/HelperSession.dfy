/** The privileged helper's session protocol, as a machine that every interleaving of
    client handlers runs through.

    One step is what a handler does between two points where it may be suspended: a lock
    acquisition, a command run to completion, a frame sent or received. The shared state
    is the set of things that exist at that moment: the session slot and the four pieces
    of networking state. */
module HelperSession {
  datatype Resource = Session | Dns | Table | Tun | Journal

  datatype Request = Ping | Apply | Teardown | Cleanup | EmergencyRestore

  // Why a handler runs a teardown.
  datatype Cause = OnTeardown | OnCleanup | OnLeaving

  // What a handler does once the cleanup it is running has finished.
  datatype After =
    | ThenApply             // the cleanup at the start of an Apply
    | ThenAck               // the second cleanup of a Cleanup or EmergencyRestore request
    | ThenEnd(cause: Cause) // the cleanup at the end of a teardown

  datatype Pc =
    | Idle
    | Checking
    | Reverting(cause: Cause)
    | Taking(cause: Cause)
    | CleanDns(after: After)
    | CleanTable(after: After)
    | CleanTun(after: After)
    | CleanJournal(after: After)
    | CreateTun
    | ConfigureTun
    | StartFlush
    | FlushTable
    | LoadTable
    | ConfigureDns
    | WriteJournal
    | Publish
    | UndoTun
    | Reply
    | Gone

  // One connection handler; `owns` is its local owns_session flag, which ends with it.
  datatype Client = Client(pc: Pc, owns: bool)

  // `loose` holds the things present that a failed operation has left to nobody, `maker` the handler
  // that created the TUN device last.
  datatype State = State(present: set<Resource>, clients: map<nat, Client>, loose: set<Resource>, maker: nat)

  // `ok` is the outcome of the operation the handler is at. TunClosed is the kernel
  // removing the device because its last descriptor was closed.
  datatype Event =
    | Connect(i: nat)
    | Receive(i: nat, req: Request)
    | Hangup(i: nat)
    | Proceed(i: nat, ok: bool)
    | TunClosed

  const INIT := State({}, map[], {}, 0)

  // ----- The steps -----

  // Leaving the request loop: an owner tears down first.
  function Leave(c: Client): Client {
    if c.owns then c.(pc := Reverting(OnLeaving)) else Client(Gone, false)
  }

  function Dispatch(c: Client, req: Request): Client {
    match req
    case Ping => c.(pc := Reply)
    case Apply => c.(pc := Checking)
    case Teardown => c.(pc := Reverting(OnTeardown))
    case Cleanup => c.(pc := Reverting(OnCleanup))
    case EmergencyRestore => c.(pc := Reverting(OnCleanup))
  }

  function Finish(c: Client, after: After): Client {
    match after
    case ThenApply => c.(pc := CreateTun)
    case ThenAck => c.(pc := Reply)
    case ThenEnd(OnTeardown) => Client(Reply, false)
    case ThenEnd(OnCleanup) => Client(CleanDns(ThenAck), false)
    case ThenEnd(OnLeaving) => Client(Gone, false)
  }

  // `loosened` are the things a failure leaves behind, `made` says that the device was created.
  datatype Effect = Effect(client: Client, present: set<Resource>, loosened: set<Resource>, made: bool)

  function Quiet(c: Client, p: set<Resource>): Effect { Effect(c, p, {}, false) }

  // A deletion that fails leaves the thing in place.
  function Delete(c: Client, p: set<Resource>, r: Resource, ok: bool): Effect {
    if ok || r !in p then Quiet(c, p - {r}) else Effect(c, p, {r}, false)
  }

  // The step of handler `c` that finds `p` present; `mine` says that it made the TUN device. The
  // device is there only as long as a descriptor of it is open: it cannot be created while it
  // exists, and an Apply that returns an error closes the one it made.
  function Work(c: Client, p: set<Resource>, mine: bool, ok: bool): Effect {
    match c.pc
    case Idle => Quiet(c, p)
    case Gone => Quiet(c, p)
    case Checking =>
      if !ok || Session in p then Quiet(c.(pc := Reply), p)
      else Quiet(c.(pc := CleanDns(ThenApply)), p)
    case Reverting(cause) => Delete(c.(pc := Taking(cause)), p, Dns, ok)
    case Taking(cause) => Quiet(c.(pc := CleanDns(ThenEnd(cause))), p - {Session})
    case CleanDns(a) => Delete(c.(pc := CleanTable(a)), p, Dns, ok)
    case CleanTable(a) => Delete(c.(pc := CleanTun(a)), p, Table, ok)
    case CleanTun(a) => Delete(c.(pc := CleanJournal(a)), p, Tun, ok)
    case CleanJournal(a) => Delete(Finish(c, a), p, Journal, ok)
    case CreateTun =>
      if ok && Tun !in p then Effect(c.(pc := ConfigureTun), p + {Tun}, {}, true) else Quiet(c.(pc := Reply), p)
    case ConfigureTun => Quiet(c.(pc := if ok then StartFlush else UndoTun), p)
    case StartFlush => Quiet(c.(pc := if ok then FlushTable else UndoTun), p)
    case FlushTable => Delete(c.(pc := LoadTable), p, Table, ok)
    case LoadTable =>
      if ok then Quiet(c.(pc := ConfigureDns), p + {Table}) else Quiet(c.(pc := UndoTun), p)
    case ConfigureDns => Quiet(c.(pc := WriteJournal), if ok then p + {Dns} else p)
    case WriteJournal =>
      if ok then Quiet(c.(pc := Publish), p + {Journal})
      else Effect(c.(pc := Reply), Closed(p, mine), p * {Table, Dns}, false)
    case Publish => Quiet(Client(Reply, true), p + {Session})
    case UndoTun => Delete(c.(pc := Reply), p, Tun, ok || mine)
    case Reply => Quiet(if ok then c.(pc := Idle) else Leave(c), p)
  }

  // Closing the descriptor of one's own device removes it.
  function Closed(p: set<Resource>, mine: bool): set<Resource> { if mine then p - {Tun} else p }

  // An event that is not possible in `s` changes nothing.
  function Next(s: State, e: Event): State {
    match e
    case Connect(i) =>
      if i in s.clients then s else s.(clients := s.clients[i := Client(Idle, false)])
    case Receive(i, req) =>
      if i in s.clients && s.clients[i].pc == Idle
      then s.(clients := s.clients[i := Dispatch(s.clients[i], req)]) else s
    case Hangup(i) =>
      if i in s.clients && s.clients[i].pc == Idle
      then s.(clients := s.clients[i := Leave(s.clients[i])]) else s
    case Proceed(i, ok) =>
      if i in s.clients then
        var w := Work(s.clients[i], s.present, s.maker == i, ok);
        State(w.present, s.clients[i := w.client], s.loose - (s.present - w.present) + w.loosened,
              if w.made then i else s.maker)
      else s
    case TunClosed => s.(present := s.present - {Tun}, loose := s.loose - {Tun})
  }

  function Run(s: State, es: seq<Event>): State
    decreases |es|
  {
    if es == [] then s else Run(Next(s, es[0]), es[1..])
  }

  // ----- Crash cleanup -----

  // The handler is going to run a teardown's take and cleanup: whoever holds the flag
  // cannot lose it or leave before it has taken the session.
  predicate Holds(c: Client) {
    c.owns && match c.pc
      case CleanDns(a) => !a.ThenEnd?
      case CleanTable(a) => !a.ThenEnd?
      case CleanTun(a) => !a.ThenEnd?
      case CleanJournal(a) => !a.ThenEnd?
      case Gone => false
      case _ => true
  }

  // Handler `c` will delete `r` before it is gone, unless an operation fails.
  predicate Responsible(c: Client, r: Resource) {
    Holds(c) ||
    match c.pc
    case Reverting(_) => r != Session
    case Taking(_) => r != Session
    case CleanDns(_) => r != Session
    case CleanTable(_) => r == Table || r == Tun || r == Journal
    case CleanTun(_) => r == Tun || r == Journal
    case CleanJournal(_) => r == Journal
    case ConfigureTun => r == Tun
    case StartFlush => r == Tun
    case FlushTable => r == Tun
    case LoadTable => r == Tun
    case UndoTun => r == Tun
    case ConfigureDns => r == Tun || r == Table
    case WriteJournal => r == Tun || r == Table || r == Dns
    case Publish => r != Session
    case _ => false
  }

  // The TUN device is the business of the handler that made it.
  ghost predicate Covered(s: State, r: Resource) {
    if r == Tun then s.maker in s.clients && Responsible(s.clients[s.maker], Tun)
    else exists i :: i in s.clients && Responsible(s.clients[i], r)
  }

  ghost predicate Inv(s: State) {
    && s.loose <= s.present - {Session}
    && forall r :: r in s.present ==> Covered(s, r) || r in s.loose
  }

  predicate AllGone(s: State) {
    forall i :: i in s.clients ==> s.clients[i].pc == Gone
  }

  // A handler gives up responsibility for a thing only by deleting it or by a failure that leaves
  // it loose, and takes it on for everything it creates; the session is never left loose.
  lemma WorkKeepsDuty(c: Client, p: set<Resource>, mine: bool, ok: bool, r: Resource)
    requires r in Work(c, p, mine, ok).present
    ensures (r != Tun || mine) && (r !in p || Responsible(c, r)) ==>
              Responsible(Work(c, p, mine, ok).client, r) || r in Work(c, p, mine, ok).loosened
  {
  }

  // The device is made by a handler that is then responsible for it.
  lemma MakerIsResponsible(c: Client, p: set<Resource>, mine: bool, ok: bool)
    ensures Work(c, p, mine, ok).made <==> Tun in Work(c, p, mine, ok).present && Tun !in p
    ensures Work(c, p, mine, ok).made ==> Responsible(Work(c, p, mine, ok).client, Tun)
    ensures Session !in Work(c, p, mine, ok).loosened
  {
  }

  lemma ProceedCovers(s: State, i: nat, ok: bool, r: Resource)
    requires Inv(s) && i in s.clients
    ensures var s' := Next(s, Proceed(i, ok));
            r in s'.present ==> Covered(s', r) || r in s'.loose
  {
    var w, s' := Work(s.clients[i], s.present, s.maker == i, ok), Next(s, Proceed(i, ok));
    if r in s'.present {
      WorkKeepsDuty(s.clients[i], s.present, s.maker == i, ok, r);
      MakerIsResponsible(s.clients[i], s.present, s.maker == i, ok);
      if r != Tun && r in s.present && Covered(s, r) {
        var j :| j in s.clients && Responsible(s.clients[j], r);
        assert j != i ==> s'.clients[j] == s.clients[j];
      }
      assert i in s'.clients;
    }
  }

  lemma NextKeepsInv(s: State, e: Event)
    requires Inv(s)
    ensures Inv(Next(s, e))
  {
    var s' := Next(s, e);
    if e.Proceed? && e.i in s.clients {
      MakerIsResponsible(s.clients[e.i], s.present, s.maker == e.i, e.ok);
    }
    forall r | r in s'.present
      ensures Covered(s', r) || r in s'.loose
    {
      if e.Proceed? && e.i in s.clients {
        ProceedCovers(s, e.i, e.ok, r);
      } else if Covered(s, r) && r != Tun {
        var j :| j in s.clients && Responsible(s.clients[j], r);
        assert j in s'.clients && Responsible(s'.clients[j], r);
      }
    }
  }

  lemma {:induction false} RunKeepsInv(s: State, es: seq<Event>)
    requires Inv(s)
    ensures Inv(Run(s, es))
    decreases |es|
  {
    if es != [] {
      NextKeepsInv(s, es[0]);
      RunKeepsInv(Next(s, es[0]), es[1..]);
    }
  }

  // In every interleaving, faults or not, an active session has a live handler that holds
  // the flag and has not yet taken the session.
  lemma SessionHasOwner(es: seq<Event>)
    ensures var s := Run(INIT, es);
            Session in s.present ==>
              exists i :: i in s.clients && Holds(s.clients[i]) && s.clients[i].pc != Gone
  {
    RunKeepsInv(INIT, es);
    var s := Run(INIT, es);
    if Session in s.present {
      assert Covered(s, Session);
      var i :| i in s.clients && Responsible(s.clients[i], Session);
      assert Holds(s.clients[i]);
    }
  }

  // Networking state does not outlive the connections: when every handler is gone there is no
  // session, and nothing but what failed operations have left loose.
  lemma NothingOutlivesTheClients(es: seq<Event>)
    requires AllGone(Run(INIT, es))
    ensures Session !in Run(INIT, es).present
    ensures Run(INIT, es).present == Run(INIT, es).loose
  {
    RunKeepsInv(INIT, es);
    var s := Run(INIT, es);
    forall r | r in s.present
      ensures r in s.loose
    {
      assert !Covered(s, r);
    }
  }

  // The event is an operation that fails and leaves `r` in place: a deletion of it, or the write
  // of the journal after the table and the DNS setting.
  predicate Fails(s: State, e: Event, r: Resource) {
    e.Proceed? && !e.ok && e.i in s.clients && r in s.present &&
    match s.clients[e.i].pc
    case Reverting(_) => r == Dns
    case CleanDns(_) => r == Dns
    case CleanTable(_) => r == Table
    case FlushTable => r == Table
    case CleanTun(_) => r == Tun
    case UndoTun => r == Tun && s.maker != e.i
    case CleanJournal(_) => r == Journal
    case WriteJournal => r == Table || r == Dns
    case _ => false
  }

  // The event removes `r`: a deletion of it that succeeds, the session taken, the device closed by
  // its client, or by the handler that made it when its Apply fails.
  predicate Removes(s: State, e: Event, r: Resource) {
    (e.TunClosed? && r == Tun) ||
    (e.Proceed? && e.i in s.clients &&
     match s.clients[e.i].pc
     case Reverting(_) => e.ok && r == Dns
     case Taking(_) => r == Session
     case CleanDns(_) => e.ok && r == Dns
     case CleanTable(_) => e.ok && r == Table
     case FlushTable => e.ok && r == Table
     case CleanTun(_) => e.ok && r == Tun
     case UndoTun => (e.ok || s.maker == e.i) && r == Tun
     case CleanJournal(_) => e.ok && r == Journal
     case WriteJournal => !e.ok && s.maker == e.i && r == Tun
     case _ => false)
  }

  // The event is the step of an Apply that sets `r` up.
  predicate SetsUp(s: State, e: Event, r: Resource) {
    e.Proceed? && e.i in s.clients &&
    match s.clients[e.i].pc
    case CreateTun => e.ok && r == Tun && Tun !in s.present
    case LoadTable => e.ok && r == Table
    case ConfigureDns => e.ok && r == Dns
    case WriteJournal => e.ok && r == Journal
    case Publish => r == Session
    case _ => false
  }

  lemma PresentNext(s: State, e: Event, r: Resource)
    ensures r in Next(s, e).present <==> SetsUp(s, e, r) || (r in s.present && !Removes(s, e, r))
  {
  }

  lemma LooseIsPresent(s: State, e: Event)
    requires s.loose <= s.present
    ensures Next(s, e).loose <= Next(s, e).present
  {
  }

  lemma LooseNext(s: State, e: Event, r: Resource)
    requires s.loose <= s.present
    ensures r in Next(s, e).loose <==> Fails(s, e, r) || (r in s.loose && !Removes(s, e, r))
  {
  }

  datatype Kind = Failure | SettingUp

  predicate Is(kind: Kind, s: State, e: Event, r: Resource) {
    if kind == Failure then Fails(s, e, r) else SetsUp(s, e, r)
  }

  // The state before event j.
  function At(es: seq<Event>, j: nat): State
    requires j <= |es|
  {
    Run(INIT, es[..j])
  }

  // Event k is of that kind for `r`, and no later event removes it.
  predicate Lasts(kind: Kind, es: seq<Event>, k: nat, r: Resource)
    requires k < |es|
  {
    Is(kind, At(es, k), es[k], r) && forall j :: k < j < |es| ==> !Removes(At(es, j), es[j], r)
  }

  ghost predicate Lasting(kind: Kind, es: seq<Event>, r: Resource) {
    exists k :: 0 <= k < |es| && Lasts(kind, es, k, r)
  }

  lemma AtPrefix(es: seq<Event>, n: nat, j: nat)
    requires j <= n <= |es|
    ensures At(es[..n], j) == At(es, j)
  {
    assert es[..n][..j] == es[..j];
  }

  lemma RunLast(es: seq<Event>)
    requires es != []
    ensures Run(INIT, es) == Next(At(es, |es| - 1), es[|es| - 1])
  {
    var n := |es| - 1;
    RunAppend(INIT, es[..n], [es[n]]);
    assert es == es[..n] + [es[n]] && [es[n]][1..] == [];
  }

  lemma LastsEarlier(kind: Kind, es: seq<Event>, k: nat, r: Resource)
    requires k < |es| - 1
    ensures var n := |es| - 1;
            Lasts(kind, es, k, r) <==> Lasts(kind, es[..n], k, r) && !Removes(At(es, n), es[n], r)
  {
    var n := |es| - 1;
    forall j | 0 <= j < n
      ensures At(es[..n], j) == At(es, j) && es[..n][j] == es[j]
    {
      AtPrefix(es, n, j);
    }
  }

  lemma LastingStep(kind: Kind, es: seq<Event>, r: Resource)
    requires es != []
    ensures var n := |es| - 1;
            Lasting(kind, es, r) <==>
            Is(kind, At(es, n), es[n], r) || (Lasting(kind, es[..n], r) && !Removes(At(es, n), es[n], r))
  {
    var n := |es| - 1;
    assert Lasts(kind, es, n, r) <==> Is(kind, At(es, n), es[n], r);
    forall k | 0 <= k < n
      ensures Lasts(kind, es, k, r) <==> Lasts(kind, es[..n], k, r) && !Removes(At(es, n), es[n], r)
    {
      LastsEarlier(kind, es, k, r);
    }
  }

  // In every run a thing is loose exactly when an operation failed on it and no later event removes
  // it, and it is there exactly when an Apply set it up and no later event removes it.
  lemma {:induction false} LooseIff(es: seq<Event>, r: Resource)
    ensures Run(INIT, es).loose <= Run(INIT, es).present
    ensures r in Run(INIT, es).loose <==> Lasting(Failure, es, r)
    ensures r in Run(INIT, es).present <==> Lasting(SettingUp, es, r)
    decreases |es|
  {
    if es != [] {
      var n := |es| - 1;
      LooseIff(es[..n], r);
      RunLast(es);
      LooseIsPresent(At(es, n), es[n]);
      LooseNext(At(es, n), es[n], r);
      PresentNext(At(es, n), es[n], r);
      LastingStep(Failure, es, r);
      LastingStep(SettingUp, es, r);
    }
  }

  lemma MadeNext(s: State, e: Event)
    ensures Next(s, e).maker == if SetsUp(s, e, Tun) then e.i else s.maker
  {
  }

  // Event k is a step of handler i that makes the device, and no later event removes it.
  predicate MakesLast(es: seq<Event>, k: nat, i: nat)
    requires k < |es|
  {
    Lasts(SettingUp, es, k, Tun) && es[k].Proceed? && es[k].i == i
  }

  // The device that is there was made by the handler noted as its maker.
  lemma {:induction false} MakerMadeIt(es: seq<Event>)
    requires Tun in Run(INIT, es).present
    ensures exists k :: 0 <= k < |es| && MakesLast(es, k, Run(INIT, es).maker)
    decreases |es|
  {
    var n := |es| - 1;
    RunLast(es);
    MadeNext(At(es, n), es[n]);
    PresentNext(At(es, n), es[n], Tun);
    if SetsUp(At(es, n), es[n], Tun) {
      assert MakesLast(es, n, es[n].i);
    } else {
      MakerMadeIt(es[..n]);
      var k :| 0 <= k < n && MakesLast(es[..n], k, At(es, n).maker);
      LastsEarlier(SettingUp, es, k, Tun);
      assert MakesLast(es, k, At(es, n).maker);
    }
  }

  // When every handler is gone, a thing is still there exactly when an operation failed on it, a
  // deletion of it or a journal write after it was set up, and no later event removes it.
  lemma LeftBehindIff(es: seq<Event>, r: Resource)
    requires AllGone(Run(INIT, es))
    ensures r in Run(INIT, es).present <==> Lasting(Failure, es, r)
  {
    NothingOutlivesTheClients(es);
    LooseIff(es, r);
  }

  // An Apply whose journal cannot be written, by a client that then leaves.
  const CHECK: seq<Event> := [Connect(0), Receive(0, Apply), Proceed(0, true)]
  const CLEAN: seq<Event> := [Proceed(0, true), Proceed(0, true), Proceed(0, true), Proceed(0, true)]
  const SETUP: seq<Event> := [Proceed(0, true), Proceed(0, true), Proceed(0, true)]
  const LEAVE: seq<Event> := [Proceed(0, false), Proceed(0, true), Hangup(0)]
  const UNJOURNALED: seq<Event> := CHECK + CLEAN + SETUP + SETUP + LEAVE

  lemma RunThree(s: State, a: Event, b: Event, c: Event)
    ensures Run(s, [a, b, c]) == Next(Next(Next(s, a), b), c)
  {
    assert [a, b, c][1..] == [b, c] && [b, c][1..] == [c] && [c][1..] == [];
    assert Run(Next(s, a), [b, c]) == Run(Next(Next(s, a), b), [c]);
    assert Run(Next(Next(s, a), b), [c]) == Run(Next(Next(Next(s, a), b), c), []);
  }

  lemma RunFour(s: State, a: Event, b: Event, c: Event, d: Event)
    ensures Run(s, [a, b, c, d]) == Next(Next(Next(Next(s, a), b), c), d)
  {
    assert [a, b, c, d][1..] == [b, c, d];
    RunThree(Next(s, a), b, c, d);
  }

  function Only(present: set<Resource>, pc: Pc, loose: set<Resource>): State {
    State(present, map[0 := Client(pc, false)], loose, 0)
  }

  lemma UntilTheDevice()
    ensures Run(INIT, CHECK) == Only({}, CleanDns(ThenApply), {})
    ensures Run(Only({}, CleanDns(ThenApply), {}), CLEAN) == Only({}, CreateTun, {})
  {
    RunThree(INIT, Connect(0), Receive(0, Apply), Proceed(0, true));
    var s := Only({}, CleanDns(ThenApply), {});
    RunFour(s, Proceed(0, true), Proceed(0, true), Proceed(0, true), Proceed(0, true));
    assert Next(s, Proceed(0, true)) == Only({}, CleanTable(ThenApply), {});
    assert Next(Only({}, CleanTable(ThenApply), {}), Proceed(0, true)) == Only({}, CleanTun(ThenApply), {});
    assert Next(Only({}, CleanTun(ThenApply), {}), Proceed(0, true)) == Only({}, CleanJournal(ThenApply), {});
    assert Next(Only({}, CleanJournal(ThenApply), {}), Proceed(0, true)) == Only({}, CreateTun, {});
  }

  lemma UntilTheJournal()
    ensures Run(Only({}, CreateTun, {}), SETUP) == Only({Tun}, FlushTable, {})
    ensures Run(Only({Tun}, FlushTable, {}), SETUP) == Only({Tun, Table, Dns}, WriteJournal, {})
  {
    RunThree(Only({}, CreateTun, {}), Proceed(0, true), Proceed(0, true), Proceed(0, true));
    assert Next(Only({}, CreateTun, {}), Proceed(0, true)) == Only({Tun}, ConfigureTun, {});
    assert Next(Only({Tun}, ConfigureTun, {}), Proceed(0, true)) == Only({Tun}, StartFlush, {});
    assert Next(Only({Tun}, StartFlush, {}), Proceed(0, true)) == Only({Tun}, FlushTable, {});
    RunThree(Only({Tun}, FlushTable, {}), Proceed(0, true), Proceed(0, true), Proceed(0, true));
    assert Next(Only({Tun}, FlushTable, {}), Proceed(0, true)) == Only({Tun}, LoadTable, {});
    assert Next(Only({Tun}, LoadTable, {}), Proceed(0, true)) == Only({Tun, Table}, ConfigureDns, {});
    assert Next(Only({Tun, Table}, ConfigureDns, {}), Proceed(0, true)) == Only({Tun, Table, Dns}, WriteJournal, {});
  }

  lemma UntilTheEnd()
    ensures Run(Only({Tun, Table, Dns}, WriteJournal, {}), LEAVE) == Only({Table, Dns}, Gone, {Table, Dns})
  {
    var s := Only({Tun, Table, Dns}, WriteJournal, {});
    RunThree(s, Proceed(0, false), Proceed(0, true), Hangup(0));
    assert Next(s, Proceed(0, false)) == Only({Table, Dns}, Reply, {Table, Dns});
    assert Next(Only({Table, Dns}, Reply, {Table, Dns}), Proceed(0, true)) == Only({Table, Dns}, Idle, {Table, Dns});
  }

  // It does happen: that run ends with nobody there and the table and the DNS setting in place.
  // The device is gone with its descriptor.
  lemma FailedJournalWriteLeaks()
    ensures AllGone(Run(INIT, UNJOURNALED)) && Run(INIT, UNJOURNALED).present == {Table, Dns}
  {
    UntilTheDevice();
    UntilTheJournal();
    UntilTheEnd();
    RunAppend(INIT, CHECK, CLEAN);
    RunAppend(INIT, CHECK + CLEAN, SETUP);
    RunAppend(INIT, CHECK + CLEAN + SETUP, SETUP);
    RunAppend(INIT, CHECK + CLEAN + SETUP + SETUP, LEAVE);
  }

  lemma {:induction false} RunAppend(s: State, a: seq<Event>, b: seq<Event>)
    ensures Run(s, a + b) == Run(Run(s, a), b)
    decreases |a|
  {
    if a == [] {
      assert a + b == b;
    } else {
      assert (a + b)[1..] == a[1..] + b;
      RunAppend(Next(s, a[0]), a[1..], b);
    }
  }

  // ----- Single ownership, requests handled one at a time -----

  predicate Busy(c: Client) { c.pc != Idle && c.pc != Gone }

  // No other handler is in the middle of something.
  predicate Alone(s: State, i: nat) {
    forall j :: j in s.clients && j != i ==> !Busy(s.clients[j])
  }

  // A request, a connection or a hang-up comes in only while every other handler rests,
  // and only the owner asks for a teardown.
  predicate Orderly(s: State, e: Event) {
    match e
    case Connect(i) => Alone(s, i)
    case Receive(i, req) =>
      && Alone(s, i)
      && (i in s.clients && req != Ping && req != Apply ==> s.clients[i].owns)
    case Hangup(i) => Alone(s, i)
    case Proceed(_, _) => true
    case TunClosed => true
  }

  predicate SerialRun(s: State, es: seq<Event>)
    decreases |es|
  {
    es == [] || (Orderly(s, es[0]) && SerialRun(Next(s, es[0]), es[1..]))
  }

  // Between an Apply's check and its publication, or in the second cleanup of a Cleanup.
  predicate Building(c: Client) {
    match c.pc
    case CleanDns(a) => !a.ThenEnd?
    case CleanTable(a) => !a.ThenEnd?
    case CleanTun(a) => !a.ThenEnd?
    case CleanJournal(a) => !a.ThenEnd?
    case CreateTun => true
    case ConfigureTun => true
    case StartFlush => true
    case FlushTable => true
    case LoadTable => true
    case ConfigureDns => true
    case WriteJournal => true
    case Publish => true
    case UndoTun => true
    case _ => false
  }

  predicate Tearing(c: Client) {
    match c.pc
    case Reverting(_) => true
    case Taking(_) => true
    case CleanDns(a) => a.ThenEnd?
    case CleanTable(a) => a.ThenEnd?
    case CleanTun(a) => a.ThenEnd?
    case CleanJournal(a) => a.ThenEnd?
    case _ => false
  }

  // What holds of one handler in a serial run: the flag means an active session until the
  // session is taken, an Apply past its check and a second cleanup run without one, and
  // only an owner tears down.
  predicate Sound(c: Client, session: bool) {
    && (Holds(c) ==> session)
    && (Building(c) ==> !session && !c.owns)
    && (Tearing(c) ==> c.owns && (session ==> Holds(c)))
    && (c.pc == Gone ==> !c.owns)
  }

  ghost predicate SerialInv(s: State) {
    && (forall i, j :: i in s.clients && j in s.clients && Busy(s.clients[i]) && Busy(s.clients[j]) ==> i == j)
    && (forall i, j :: i in s.clients && j in s.clients && s.clients[i].owns && s.clients[j].owns ==> i == j)
    && (forall i :: i in s.clients ==> Sound(s.clients[i], Session in s.present))
  }

  lemma WorkKeepsSound(c: Client, p: set<Resource>, mine: bool, ok: bool)
    requires Sound(c, Session in p)
    ensures Sound(Work(c, p, mine, ok).client, Session in Work(c, p, mine, ok).present)
    ensures Work(c, p, mine, ok).client.owns && !c.owns ==> Session !in p
  {
  }

  // A step of `c` does not change what a resting handler `d` may rely on.
  lemma WorkKeepsOther(c: Client, d: Client, p: set<Resource>, mine: bool, ok: bool)
    requires Sound(c, Session in p) && Sound(d, Session in p)
    requires !Busy(d) && !(c.owns && d.owns)
    ensures Sound(d, Session in Work(c, p, mine, ok).present)
    ensures !(Work(c, p, mine, ok).client.owns && d.owns)
  {
  }

  // Changing one handler keeps the invariant if every other one rests and may go on resting.
  lemma ReplaceKeepsSerialInv(s: State, i: nat, c: Client, s': State)
    requires SerialInv(s) && s'.clients == s.clients[i := c]
    requires Sound(c, Session in s'.present)
    requires forall j :: j in s.clients && j != i ==>
               !Busy(s.clients[j]) && Sound(s.clients[j], Session in s'.present) && !(c.owns && s.clients[j].owns)
    ensures SerialInv(s')
  {
  }

  lemma ProceedKeepsSerialInv(s: State, i: nat, ok: bool)
    requires SerialInv(s) && i in s.clients
    ensures SerialInv(Next(s, Proceed(i, ok)))
  {
    if !Busy(s.clients[i]) {
      assert Next(s, Proceed(i, ok)).clients == s.clients && Next(s, Proceed(i, ok)).present == s.present;
      return;
    }
    var w := Work(s.clients[i], s.present, s.maker == i, ok);
    WorkKeepsSound(s.clients[i], s.present, s.maker == i, ok);
    forall j | j in s.clients && j != i
      ensures !Busy(s.clients[j]) && Sound(s.clients[j], Session in w.present)
      ensures !(w.client.owns && s.clients[j].owns)
    {
      WorkKeepsOther(s.clients[i], s.clients[j], s.present, s.maker == i, ok);
    }
    ReplaceKeepsSerialInv(s, i, w.client, Next(s, Proceed(i, ok)));
  }

  lemma NextKeepsSerialInv(s: State, e: Event)
    requires SerialInv(s) && Orderly(s, e)
    ensures SerialInv(Next(s, e))
  {
    var s' := Next(s, e);
    match e
    case TunClosed =>
    case Connect(i) =>
      if i !in s.clients {
        ReplaceKeepsSerialInv(s, i, Client(Idle, false), s');
      }
    case Receive(i, req) =>
      if i in s.clients && s.clients[i].pc == Idle {
        assert Sound(s.clients[i], Session in s.present);
        ReplaceKeepsSerialInv(s, i, Dispatch(s.clients[i], req), s');
      }
    case Hangup(i) =>
      if i in s.clients && s.clients[i].pc == Idle {
        assert Sound(s.clients[i], Session in s.present);
        ReplaceKeepsSerialInv(s, i, Leave(s.clients[i]), s');
      }
    case Proceed(i, ok) =>
      if i in s.clients {
        ProceedKeepsSerialInv(s, i, ok);
      }
  }

  lemma {:induction false} RunKeepsSerialInv(s: State, es: seq<Event>)
    requires SerialInv(s) && SerialRun(s, es)
    ensures SerialInv(Run(s, es))
    decreases |es|
  {
    if es != [] {
      NextKeepsSerialInv(s, es[0]);
      RunKeepsSerialInv(Next(s, es[0]), es[1..]);
    }
  }

  // At most one handler owns the session, and one that owns it without being in the middle
  // of its own teardown owns an active one.
  lemma AtMostOneOwner(es: seq<Event>, i: nat, j: nat)
    requires SerialRun(INIT, es)
    requires i in Run(INIT, es).clients && Run(INIT, es).clients[i].owns
    ensures Holds(Run(INIT, es).clients[i]) ==> Session in Run(INIT, es).present
    ensures j in Run(INIT, es).clients && Run(INIT, es).clients[j].owns ==> i == j
  {
    RunKeepsSerialInv(INIT, es);
    assert Sound(Run(INIT, es).clients[i], Session in Run(INIT, es).present);
  }

  predicate About(e: Event, i: nat) { !e.TunClosed? && e.i == i }

  // However other clients come, ask and go, the tunnel of an owner that rests stays exactly
  // as it is: a second Apply is refused with nothing touched.
  lemma {:induction false} TunnelIsStable(s: State, es: seq<Event>, i: nat)
    requires SerialInv(s) && SerialRun(s, es)
    requires i in s.clients && s.clients[i] == Client(Idle, true)
    requires forall k :: 0 <= k < |es| ==> !About(es[k], i) && !es[k].TunClosed?
    ensures Run(s, es).present == s.present
    ensures i in Run(s, es).clients && Run(s, es).clients[i] == Client(Idle, true)
    decreases |es|
  {
    if es != [] {
      var e := es[0];
      NextKeepsSerialInv(s, e);
      assert !About(es[0], i);
      assert Sound(s.clients[i], Session in s.present);
      if e.Proceed? && e.i in s.clients {
        assert Sound(s.clients[e.i], Session in s.present);
        assert !s.clients[e.i].owns;
      }
      assert Next(s, e).present == s.present;
      TunnelIsStable(Next(s, e), es[1..], i);
    }
  }

  // ----- Health checks -----

  // Client `i` connects, sends nothing but Pings, and leaves in any way.
  predicate PingsOnly(es: seq<Event>, i: nat) {
    forall k :: 0 <= k < |es| && es[k].Receive? && es[k].i == i ==> es[k].req == Ping
  }

  predicate Bystander(s: State, i: nat) {
    i in s.clients ==> s.clients[i] in {Client(Idle, false), Client(Reply, false), Client(Gone, false)}
  }

  function Without(es: seq<Event>, i: nat): seq<Event> {
    if es == [] then [] else (if About(es[0], i) then [] else [es[0]]) + Without(es[1..], i)
  }

  // The two states differ at most in handler `i`.
  ghost predicate SameButFor(s: State, t: State, i: nat) {
    && s.present == t.present && s.loose == t.loose && s.maker == t.maker
    && (forall j :: j != i ==> (j in s.clients <==> j in t.clients))
    && forall j :: j in s.clients && j in t.clients && j != i ==> s.clients[j] == t.clients[j]
  }

  lemma SameNext(s: State, t: State, i: nat, e: Event)
    requires SameButFor(s, t, i) && !About(e, i)
    ensures SameButFor(Next(s, e), Next(t, e), i)
  {
  }

  lemma OwnNext(s: State, t: State, i: nat, e: Event)
    requires SameButFor(s, t, i) && Bystander(s, i)
    requires About(e, i) && (e.Receive? ==> e.req == Ping)
    ensures SameButFor(Next(s, e), t, i) && Bystander(Next(s, e), i)
  {
  }

  // In every interleaving, a client that only pings might as well not have been there: its
  // events can be struck out of the run without changing the session, the networking state
  // or any other handler.
  lemma {:induction false} HealthChecksAreInvisible(s: State, t: State, es: seq<Event>, i: nat)
    requires SameButFor(s, t, i) && Bystander(s, i) && PingsOnly(es, i)
    ensures SameButFor(Run(s, es), Run(t, Without(es, i)), i)
    ensures Bystander(Run(s, es), i)
    decreases |es|
  {
    if es != [] {
      var e := es[0];
      assert forall k :: 0 <= k < |es[1..]| ==> es[1..][k] == es[k + 1];
      if About(e, i) {
        assert Without(es, i) == Without(es[1..], i);
        OwnNext(s, t, i, e);
        HealthChecksAreInvisible(Next(s, e), t, es[1..], i);
      } else {
        SameNext(s, t, i, e);
        assert ([e] + Without(es[1..], i))[1..] == Without(es[1..], i);
        assert Bystander(Next(s, e), i);
        HealthChecksAreInvisible(Next(s, e), Next(t, e), es[1..], i);
      }
    }
  }
}
