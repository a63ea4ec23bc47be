/** The end of the helper itself. On SIGTERM or SIGINT its main task tears the session down, beside
    the handlers that go on meanwhile, and then the process ends: every handler is dropped where it
    stands. The teardown is that of a handler of its own, which has one request and sends no reply. */
module HelperShutdown {
  import opened HelperRequests
  import opened HelperSession

  // The handler has the only descriptor of the device it made: it has not been handed on yet.
  predicate Holding(c: Client) {
    match c.pc
    case ConfigureTun => true
    case StartFlush => true
    case FlushTable => true
    case LoadTable => true
    case ConfigureDns => true
    case WriteJournal => true
    case Publish => true
    case UndoTun => true
    case _ => false
  }

  // The device goes with the process.
  predicate ClosedByExit(s: State, r: Resource) {
    r == Tun && s.maker in s.clients && Holding(s.clients[s.maker])
  }

  // The process ends.
  function Exit(s: State): State {
    var gone := if ClosedByExit(s, Tun) then {Tun} else {};
    s.(present := s.present - gone, loose := s.loose - gone,
       clients := map i | i in s.clients :: Client(Gone, false))
  }

  // ----- An exit at rest -----

  // What the handler's position alone makes it remove in the end; `mine` as in its step.
  predicate Working(c: Client, r: Resource, mine: bool) {
    match c.pc
    case Reverting(_) => r != Session
    case Taking(_) => r != Session
    case CleanDns(_) => r != Session
    case CleanTable(_) => r == Table || r == Tun || r == Journal
    case CleanTun(_) => r == Tun || r == Journal
    case CleanJournal(_) => r == Journal
    case UndoTun => r == Tun
    case ConfigureTun => r == Tun && mine
    case StartFlush => r == Tun && mine
    case FlushTable => r == Tun && mine
    case LoadTable => r == Tun && mine
    case ConfigureDns => r == Table || (r == Tun && mine)
    case WriteJournal => r == Table || r == Dns || (r == Tun && mine)
    case Publish => r == Table || r == Dns || r == Journal || (r == Tun && mine)
    case _ => false
  }

  ghost predicate Attended(s: State, r: Resource) {
    exists i :: i in s.clients && Working(s.clients[i], r, s.maker == i)
  }

  // Without a session, everything is loose or some handler is at work on it: an owner flag that is
  // out of date stands for nothing.
  ghost predicate AttendedInv(s: State) {
    Session in s.present || forall r :: r in s.present ==> r in s.loose || Attended(s, r)
  }

  lemma WorkAttends(c: Client, p: set<Resource>, mine: bool, ok: bool, r: Resource)
    requires var w := Work(c, p, mine, ok); r in w.present && Session !in w.present
    requires r !in p || Session in p || Working(c, r, mine)
    ensures var w := Work(c, p, mine, ok); Working(w.client, r, mine || w.made) || r in w.loosened
  {
  }

  lemma ProceedAttends(s: State, i: nat, ok: bool, r: Resource)
    requires AttendedInv(s) && i in s.clients
    requires var s' := Next(s, Proceed(i, ok)); r in s'.present && Session !in s'.present
    ensures var s' := Next(s, Proceed(i, ok)); r in s'.loose || Attended(s', r)
  {
    var c, mine, s' := s.clients[i], s.maker == i, Next(s, Proceed(i, ok));
    var w := Work(c, s.present, mine, ok);
    assert i in s'.clients && s'.clients[i] == w.client;
    if r !in s.present || Session in s.present || Working(c, r, mine) {
      WorkAttends(c, s.present, mine, ok, r);
      assert Working(w.client, r, mine || w.made) ==> Working(s'.clients[i], r, s'.maker == i);
    } else if r !in s.loose {
      var j :| j in s.clients && Working(s.clients[j], r, s.maker == j);
      assert j != i && s'.clients[j] == s.clients[j];
      MakerIsResponsible(c, s.present, mine, ok);
      assert Working(s'.clients[j], r, s'.maker == j);
    }
  }

  lemma NextKeepsAttended(s: State, e: Event)
    requires AttendedInv(s)
    ensures AttendedInv(Next(s, e))
  {
    var s' := Next(s, e);
    if Session !in s'.present {
      forall r | r in s'.present ensures r in s'.loose || Attended(s', r) {
        if e.Proceed? && e.i in s.clients {
          ProceedAttends(s, e.i, e.ok, r);
        } else if r !in s.loose {
          var j :| j in s.clients && Working(s.clients[j], r, s.maker == j);
          assert j in s'.clients && Working(s'.clients[j], r, s'.maker == j);
        }
      }
    }
  }

  lemma {:induction false} RunKeepsAttended(s: State, es: seq<Event>)
    requires AttendedInv(s)
    ensures AttendedInv(Run(s, es))
    decreases |es|
  {
    if es != [] {
      NextKeepsAttended(s, es[0]);
      RunKeepsAttended(Next(s, es[0]), es[1..]);
    }
  }

  // No session, and every handler waits for a request, for its check or for its reply.
  predicate Quiet(s: State) {
    Session !in s.present &&
    forall i :: i in s.clients ==> s.clients[i].pc in {Idle, Checking, CreateTun, Reply, Gone}
  }

  // An exit at such a moment leaves nothing but what failures have left loose.
  lemma QuietExit(es: seq<Event>)
    requires Quiet(Run(INIT, es))
    ensures Exit(Run(INIT, es)).present <= Run(INIT, es).loose
  {
    RunKeepsAttended(INIT, es);
    var s := Run(INIT, es);
    forall r | r in s.present ensures r in s.loose {
      assert !Attended(s, r);
    }
  }

  // ----- An exit at any time -----

  // Handler m has one request, a Teardown at event b, and has carried it out.
  predicate Signal(es: seq<Event>, m: nat, b: nat) { Served(es, m, b, Teardown) }

  // The handler that made the device is still in the Apply that made it.
  predicate MidApply(s: State) {
    && s.maker in s.clients
    && s.clients[s.maker].pc in
       {ConfigureTun, StartFlush, FlushTable, LoadTable, ConfigureDns, WriteJournal, Publish, UndoTun}
  }

  // When the process has ended after a signal, a thing is still there exactly when an operation
  // failed on it, or an Apply set it up after the signal had tried to remove it, and no later event
  // removed it; the device of an Apply under way goes with the process.
  lemma ShutdownLeavesIff(es: seq<Event>, m: nat, b: nat, r: Resource)
    requires Signal(es, m, b)
    ensures exists d :: Tried(es, m, b, d, r)
    ensures r in Exit(Run(INIT, es)).present <==>
            !(r == Tun && MidApply(Run(INIT, es))) && (Lasting(Failure, es, r) || SetUpSince(es, m, b, r))
  {
    RestoreLeavesIff(es, m, b, Teardown, r);
  }

  // ----- It does happen -----

  // An Apply that is about to load its table when the signal comes, and loads it after the signal's
  // teardown has deleted the table.
  const APPLYING: seq<Event> := CHECK + CLEAN + SETUP + [Proceed(0, true), Connect(1)]
  const DELETING: seq<Event> := [Proceed(1, true), Proceed(1, true), Proceed(1, true), Proceed(1, true)]
  const LOADING: seq<Event> := [Proceed(0, true), Proceed(1, true), Proceed(1, true)]
  const INTERRUPTED: seq<Event> := APPLYING + [Receive(1, Teardown)] + DELETING + LOADING

  function Both(present: set<Resource>, applying: Pc, signal: Pc): State {
    State(present, map[0 := Client(applying, false), 1 := Client(signal, false)], {}, 0)
  }

  lemma RunOne(s: State, e: Event)
    ensures Run(s, [e]) == Next(s, e)
  {
    assert [e][1..] == [];
  }

  lemma RunTwo(s: State, a: Event, b: Event)
    ensures Run(s, [a, b]) == Next(Next(s, a), b)
  {
    assert [a, b][1..] == [b];
    RunOne(Next(s, a), b);
  }

  lemma UntilTheFlush()
    ensures Run(INIT, CHECK + CLEAN + SETUP) == Only({Tun}, FlushTable, {})
  {
    UntilTheDevice();
    UntilTheJournal();
    RunAppend(INIT, CHECK, CLEAN);
    RunAppend(INIT, CHECK + CLEAN, SETUP);
  }

  lemma UntilTheSignal()
    ensures Run(INIT, APPLYING) == Both({Tun}, LoadTable, Idle)
  {
    UntilTheFlush();
    RunAppend(INIT, CHECK + CLEAN + SETUP, [Proceed(0, true), Connect(1)]);
    var s := Only({Tun}, FlushTable, {});
    RunTwo(s, Proceed(0, true), Connect(1));
    assert Next(s, Proceed(0, true)) == Only({Tun}, LoadTable, {});
    assert Next(Only({Tun}, LoadTable, {}), Connect(1)) == Both({Tun}, LoadTable, Idle);
  }

  lemma UntilTheTableIsGone()
    ensures Run(Both({Tun}, LoadTable, Reverting(OnTeardown)), DELETING) ==
            Both({Tun}, LoadTable, CleanTun(ThenEnd(OnTeardown)))
  {
    var end, s := ThenEnd(OnTeardown), Both({Tun}, LoadTable, Reverting(OnTeardown));
    RunFour(s, Proceed(1, true), Proceed(1, true), Proceed(1, true), Proceed(1, true));
    assert Next(s, Proceed(1, true)) == Both({Tun}, LoadTable, Taking(OnTeardown));
    assert Next(Both({Tun}, LoadTable, Taking(OnTeardown)), Proceed(1, true)) == Both({Tun}, LoadTable, CleanDns(end));
    assert Next(Both({Tun}, LoadTable, CleanDns(end)), Proceed(1, true)) == Both({Tun}, LoadTable, CleanTable(end));
    assert Next(Both({Tun}, LoadTable, CleanTable(end)), Proceed(1, true)) == Both({Tun}, LoadTable, CleanTun(end));
  }

  lemma UntilTheExit()
    ensures Run(Both({Tun}, LoadTable, CleanTun(ThenEnd(OnTeardown))), LOADING) == Both({Table}, ConfigureDns, Reply)
  {
    var end := ThenEnd(OnTeardown);
    var s := Both({Tun}, LoadTable, CleanTun(end));
    RunThree(s, Proceed(0, true), Proceed(1, true), Proceed(1, true));
    assert Next(s, Proceed(0, true)) == Both({Tun, Table}, ConfigureDns, CleanTun(end));
    assert Next(Both({Tun, Table}, ConfigureDns, CleanTun(end)), Proceed(1, true)) ==
           Both({Table}, ConfigureDns, CleanJournal(end));
    assert Next(Both({Table}, ConfigureDns, CleanJournal(end)), Proceed(1, true)) == Both({Table}, ConfigureDns, Reply);
  }

  lemma UntilTheEndOfTheRun()
    ensures Run(INIT, INTERRUPTED) == Both({Table}, ConfigureDns, Reply)
  {
    var s, signal := Both({Tun}, LoadTable, Idle), Receive(1, Teardown);
    UntilTheSignal();
    RunOne(s, signal);
    assert Next(s, signal) == Both({Tun}, LoadTable, Reverting(OnTeardown));
    UntilTheTableIsGone();
    UntilTheExit();
    RunAppend(INIT, APPLYING, [signal]);
    RunAppend(INIT, APPLYING + [signal], DELETING);
    RunAppend(INIT, APPLYING + [signal] + DELETING, LOADING);
  }

  // No operation fails, and yet the table is there when the process has ended.
  lemma SignalLeaks()
    ensures Signal(INTERRUPTED, 1, |APPLYING|)
    ensures Run(INIT, INTERRUPTED).loose == {} && Exit(Run(INIT, INTERRUPTED)).present == {Table}
  {
    UntilTheSignal();
    UntilTheEndOfTheRun();
    assert INTERRUPTED[..|APPLYING|] == APPLYING;
    assert INTERRUPTED[|APPLYING|] == Receive(1, Teardown);
  }
}
