/** What each request to the helper does by the time it is answered, in every interleaving: stated
    by the events of the handler that serves it, and proved by going back from the reply along the
    only way that leads to it. */
module HelperRequests {
  import opened Bytes
  import opened HelperSession

  // Client i, at rest, asked for `req` at event b, and its handler has gone on with it since.
  predicate Heard(es: seq<Event>, i: nat, b: nat, req: Request) {
    && b < |es| && es[b] == Receive(i, req)
    && i in At(es, b).clients && At(es, b).clients[i].pc == Idle
    && forall j :: b < j < |es| && About(es[j], i) ==> es[j].Proceed?
  }

  // The handler is about to reply.
  predicate Served(es: seq<Event>, i: nat, b: nat, req: Request) {
    Heard(es, i, b, req) && i in Run(INIT, es).clients && Run(INIT, es).clients[i].pc == Reply
  }

  // Event d is a step of client i's handler after event b.
  predicate Own(es: seq<Event>, i: nat, b: nat, d: nat) {
    b < d < |es| && es[d].Proceed? && es[d].i == i
  }

  // The event is an attempt to remove `r`.
  predicate Tries(s: State, e: Event, r: Resource) {
    e.Proceed? && e.i in s.clients &&
    match s.clients[e.i].pc
    case Reverting(_) => r == Dns
    case Taking(_) => r == Session
    case CleanDns(_) => r == Dns
    case CleanTable(_) => r == Table
    case CleanTun(_) => r == Tun
    case CleanJournal(_) => r == Journal
    case _ => false
  }

  lemma TriesOrFails(s: State, e: Event, r: Resource)
    requires Tries(s, e, r)
    ensures !SetsUp(s, e, r)
    ensures r in s.present ==> (Removes(s, e, r) || Fails(s, e, r))
  {
  }

  // The event is a step at which an Apply gives up.
  predicate Refuses(s: State, e: Event) {
    e.Proceed? && e.i in s.clients &&
    match s.clients[e.i].pc
    case Checking => !e.ok || Session in s.present
    case CreateTun => !e.ok || Tun in s.present
    case ConfigureTun => !e.ok
    case StartFlush => !e.ok
    case LoadTable => !e.ok
    case WriteJournal => !e.ok
    case _ => false
  }

  // ----- Going back -----

  lemma AtNext(es: seq<Event>, j: nat)
    requires j < |es|
    ensures At(es, j + 1) == Next(At(es, j), es[j])
  {
    RunLast(es[..j + 1]);
    AtPrefix(es, j + 1, j);
  }

  lemma {:induction false} StaysConnected(es: seq<Event>, i: nat, b: nat, req: Request, j: nat)
    requires Heard(es, i, b, req) && b <= j <= |es|
    ensures i in At(es, j).clients
    ensures j == b + 1 ==> At(es, j).clients[i] == Dispatch(At(es, b).clients[i], req)
    decreases j
  {
    if j > b {
      StaysConnected(es, i, b, req, j - 1);
      AtNext(es, j - 1);
    }
  }

  // Where the handler stands before event j.
  function PcAt(es: seq<Event>, i: nat, j: nat): Pc
    requires j <= |es|
  {
    if i in At(es, j).clients then At(es, j).clients[i].pc else Gone
  }

  // The place a handler's step into `pc` comes from, where there is only one.
  function Before(pc: Pc): Option<Pc> {
    match pc
    case Taking(cause) => Some(Reverting(cause))
    case CleanDns(ThenApply) => Some(Checking)
    case CleanDns(ThenAck) => Some(CleanJournal(ThenEnd(OnCleanup)))
    case CleanDns(ThenEnd(cause)) => Some(Taking(cause))
    case CleanTable(after) => Some(CleanDns(after))
    case CleanTun(after) => Some(CleanTable(after))
    case CleanJournal(after) => Some(CleanTun(after))
    case CreateTun => Some(CleanJournal(ThenApply))
    case ConfigureTun => Some(CreateTun)
    case StartFlush => Some(ConfigureTun)
    case FlushTable => Some(StartFlush)
    case LoadTable => Some(FlushTable)
    case ConfigureDns => Some(LoadTable)
    case WriteJournal => Some(ConfigureDns)
    case Publish => Some(WriteJournal)
    case _ => None
  }

  lemma ComesFrom(s: State, e: Event, i: nat)
    requires i in s.clients && (About(e, i) ==> e.Proceed?)
    ensures i in Next(s, e).clients
    ensures var pc := Next(s, e).clients[i].pc;
            || pc == s.clients[i].pc
            || (e.Proceed? && e.i == i && (Before(pc).Some? ==> Before(pc) == Some(s.clients[i].pc)))
  {
  }

  // The step by which the handler came where it is before event j.
  lemma {:induction false} Entered(es: seq<Event>, i: nat, b: nat, req: Request, j: nat) returns (d: nat)
    requires Heard(es, i, b, req) && b < j <= |es| && Before(PcAt(es, i, j)).Some?
    ensures d < j && Own(es, i, b, d) && Before(PcAt(es, i, j)) == Some(PcAt(es, i, d))
    ensures PcAt(es, i, d + 1) == PcAt(es, i, j)
    decreases j
  {
    d := j - 1;
    StaysConnected(es, i, b, req, j);
    StaysConnected(es, i, b, req, d);
    AtNext(es, d);
    ComesFrom(At(es, d), es[d], i);
    if PcAt(es, i, d) == PcAt(es, i, j) {
      d := Entered(es, i, b, req, d);
    }
  }

  // Past the reply: at rest, gone, or tearing down because the reply could not be sent.
  predicate AfterReply(c: Client) {
    match c.pc
    case Idle => true
    case Gone => true
    case Reverting(cause) => cause == OnLeaving
    case Taking(cause) => cause == OnLeaving
    case CleanDns(a) => a == ThenEnd(OnLeaving)
    case CleanTable(a) => a == ThenEnd(OnLeaving)
    case CleanTun(a) => a == ThenEnd(OnLeaving)
    case CleanJournal(a) => a == ThenEnd(OnLeaving)
    case _ => false
  }

  lemma NeverBack(s: State, e: Event, i: nat)
    requires i in s.clients && (About(e, i) ==> e.Proceed?)
    ensures var c, c' := s.clients[i], Next(s, e).clients[i];
            && (c.pc == Reply ==> (c' == c && !About(e, i)) || AfterReply(c'))
            && (AfterReply(c) ==> AfterReply(c'))
  {
  }

  // A cleanup that has come to the journal went through the other three.
  lemma Cleaned(es: seq<Event>, i: nat, b: nat, req: Request, j: nat, after: After)
    returns (dns: nat, table: nat, tun: nat)
    requires Heard(es, i, b, req) && b < j <= |es| && PcAt(es, i, j) == CleanJournal(after)
    ensures dns < table < tun < j && Own(es, i, b, dns) && Own(es, i, b, table) && Own(es, i, b, tun)
    ensures PcAt(es, i, dns) == CleanDns(after) && PcAt(es, i, table) == CleanTable(after)
    ensures PcAt(es, i, tun) == CleanTun(after)
  {
    tun := Entered(es, i, b, req, j);
    table := Entered(es, i, b, req, tun);
    dns := Entered(es, i, b, req, table);
  }

  // ----- Restoring requests -----

  predicate Restoring(req: Request) { req == Teardown || req == Cleanup || req == EmergencyRestore }

  // What the last cleanup of the request is followed by.
  function Ending(req: Request): After { if req == Teardown then ThenEnd(OnTeardown) else ThenAck }

  function CauseOf(req: Request): Cause { if req == Teardown then OnTeardown else OnCleanup }

  // On the way to the reply, which is reached from the last cleanup only.
  predicate OnTheWay(c: Client, req: Request) {
    match c.pc
    case Reverting(cause) => cause == CauseOf(req)
    case Taking(cause) => cause == CauseOf(req)
    case CleanDns(a) => a == ThenEnd(CauseOf(req)) || (a == Ending(req) && !c.owns)
    case CleanTable(a) => a == ThenEnd(CauseOf(req)) || (a == Ending(req) && !c.owns)
    case CleanTun(a) => a == ThenEnd(CauseOf(req)) || (a == Ending(req) && !c.owns)
    case CleanJournal(a) => a == ThenEnd(CauseOf(req)) || (a == Ending(req) && !c.owns)
    case _ => false
  }

  lemma OneStep(s: State, e: Event, i: nat, req: Request)
    requires Restoring(req) && i in s.clients && (About(e, i) ==> e.Proceed?)
    ensures var c, c' := s.clients[i], Next(s, e).clients[i];
            && (OnTheWay(c, req) ==>
                  || OnTheWay(c', req)
                  || (c' == Client(Reply, false) && e.Proceed? && e.i == i && c.pc == CleanJournal(Ending(req))))
  {
  }

  // Handler i has come to the journal in the last cleanup, at an event before j.
  ghost predicate CameToTheEnd(es: seq<Event>, i: nat, b: nat, req: Request, j: nat) {
    exists d: nat :: d < j && Own(es, i, b, d) && PcAt(es, i, d) == CleanJournal(Ending(req))
  }

  lemma {:induction false} GoesItsWay(es: seq<Event>, i: nat, b: nat, req: Request, j: nat)
    requires Heard(es, i, b, req) && Restoring(req) && b < j <= |es|
    ensures i in At(es, j).clients
    ensures var c := At(es, j).clients[i];
            OnTheWay(c, req) || AfterReply(c) || (c == Client(Reply, false) && CameToTheEnd(es, i, b, req, j))
    decreases j
  {
    StaysConnected(es, i, b, req, j);
    if j > b + 1 {
      var d := j - 1;
      GoesItsWay(es, i, b, req, d);
      AtNext(es, d);
      OneStep(At(es, d), es[d], i, req);
      NeverBack(At(es, d), es[d], i);
      if OnTheWay(At(es, d).clients[i], req) && !OnTheWay(At(es, j).clients[i], req) {
        assert Own(es, i, b, d) && PcAt(es, i, d) == CleanJournal(Ending(req));
      }
    }
  }

  ghost predicate Tried(es: seq<Event>, i: nat, b: nat, d: nat, r: Resource) {
    Own(es, i, b, d) && Tries(At(es, d), es[d], r)
  }

  // A cleanup tries to remove everything but the session, the DNS setting first.
  lemma TriedInTurn(es: seq<Event>, i: nat, b: nat, req: Request, j: nat, after: After, r: Resource)
    returns (first: nat, d: nat)
    requires Heard(es, i, b, req) && Own(es, i, b, j) && PcAt(es, i, j) == CleanJournal(after)
    ensures first <= d <= j && Own(es, i, b, first) && PcAt(es, i, first) == CleanDns(after)
    ensures r != Session ==> Tried(es, i, b, d, r)
  {
    var dns, table, tun := Cleaned(es, i, b, req, j, after);
    first, d := dns, match r case Dns => dns case Table => table case Tun => tun case _ => j;
    StaysConnected(es, i, b, req, d);
  }

  // By the end of the teardown everything has been tried.
  lemma TeardownTries(es: seq<Event>, i: nat, b: nat, req: Request, j: nat, cause: Cause, r: Resource) returns (d: nat)
    requires Heard(es, i, b, req) && Own(es, i, b, j) && PcAt(es, i, j) == CleanJournal(ThenEnd(cause))
    ensures d <= j && Tried(es, i, b, d, r)
  {
    var first;
    first, d := TriedInTurn(es, i, b, req, j, ThenEnd(cause), r);
    if r == Session {
      d := Entered(es, i, b, req, first);
      StaysConnected(es, i, b, req, d);
    }
  }

  // By the reply to a restoring request its handler has given up the flag and has tried to remove
  // everything; a Cleanup or an EmergencyRestore has tried everything but the session once more.
  lemma RestoreTries(es: seq<Event>, i: nat, b: nat, req: Request, r: Resource)
    requires Served(es, i, b, req) && Restoring(req)
    ensures !Run(INIT, es).clients[i].owns
    ensures exists d :: Tried(es, i, b, d, r)
    ensures req != Teardown && r != Session ==>
              exists d, k :: d < k && Tried(es, i, b, d, r) && Tried(es, i, b, k, r)
  {
    assert es[..|es|] == es;
    GoesItsWay(es, i, b, req, |es|);
    var j: nat :| j < |es| && Own(es, i, b, j) && PcAt(es, i, j) == CleanJournal(Ending(req));
    if req == Teardown {
      var d := TeardownTries(es, i, b, req, j, OnTeardown, r);
    } else {
      var first, k := TriedInTurn(es, i, b, req, j, ThenAck, r);
      var mid := Entered(es, i, b, req, first);
      var d := TeardownTries(es, i, b, req, mid, OnCleanup, r);
    }
  }

  // An Apply set `r` up after every attempt of handler i to remove it, and it has not been removed since.
  ghost predicate SetUpSince(es: seq<Event>, i: nat, b: nat, r: Resource) {
    exists k :: b < k < |es| && Lasts(SettingUp, es, k, r) && forall d: nat :: Tried(es, i, b, d, r) ==> d < k
  }

  lemma LastsInPrefix(kind: Kind, es: seq<Event>, k: nat, n: nat, r: Resource)
    requires k < n <= |es| && Lasts(kind, es, k, r)
    ensures Lasts(kind, es[..n], k, r)
  {
    forall j | 0 <= j < n ensures At(es[..n], j) == At(es, j) && es[..n][j] == es[j] {
      AtPrefix(es, n, j);
    }
  }

  lemma SetUpBeforeFails(es: seq<Event>, k: nat, d: nat, r: Resource)
    requires k <= d < |es| && Tries(At(es, d), es[d], r) && Lasts(SettingUp, es, k, r)
    ensures Lasts(Failure, es, d, r)
  {
    TriesOrFails(At(es, d), es[d], r);
    LastsInPrefix(SettingUp, es, k, d, r);
    LooseIff(es[..d], r);
  }

  // Handler i has tried to remove `r`, and `r` is there exactly when an operation failed on it or an
  // Apply set it up after the handler's last attempt, and no later event removed it.
  ghost predicate Restored(es: seq<Event>, i: nat, b: nat, r: Resource) {
    && (exists d :: Tried(es, i, b, d, r))
    && (r in Run(INIT, es).present <==> Lasting(Failure, es, r) || SetUpSince(es, i, b, r))
  }

  // So it is at the reply to every restoring request.
  lemma RestoreLeavesIff(es: seq<Event>, i: nat, b: nat, req: Request, r: Resource)
    requires Served(es, i, b, req) && Restoring(req)
    ensures Restored(es, i, b, r)
  {
    RestoreTries(es, i, b, req, r);
    LooseIff(es, r);
    if r in Run(INIT, es).present && !Lasting(Failure, es, r) {
      var k :| 0 <= k < |es| && Lasts(SettingUp, es, k, r);
      forall d: nat | Tried(es, i, b, d, r) ensures d < k {
        if k <= d {
          SetUpBeforeFails(es, k, d, r);
        }
      }
    }
  }

  // ----- Health checks -----

  // A Ping is answered at once, with the flag as it was: until the reply the handler does nothing.
  lemma {:induction false} PingStays(es: seq<Event>, i: nat, b: nat, j: nat)
    requires Heard(es, i, b, Ping) && b < j <= |es|
    ensures i in At(es, j).clients
    ensures var c := At(es, j).clients[i];
            || AfterReply(c)
            || (c == At(es, b).clients[i].(pc := Reply) && forall d: nat :: d < j ==> !Own(es, i, b, d))
    decreases j
  {
    StaysConnected(es, i, b, Ping, j);
    if j > b + 1 {
      var d := j - 1;
      PingStays(es, i, b, d);
      AtNext(es, d);
      NeverBack(At(es, d), es[d], i);
      assert !AfterReply(At(es, j).clients[i]) ==> !Own(es, i, b, d);
    }
  }

  lemma PingDoesNothing(es: seq<Event>, i: nat, b: nat)
    requires Served(es, i, b, Ping)
    ensures Run(INIT, es).clients[i].owns == At(es, b).clients[i].owns
    ensures forall d: nat :: !Own(es, i, b, d)
  {
    assert es[..|es|] == es;
    PingStays(es, i, b, |es|);
  }

  // ----- Apply -----

  predicate Applying(pc: Pc) {
    match pc
    case Checking => true
    case CleanDns(a) => a == ThenApply
    case CleanTable(a) => a == ThenApply
    case CleanTun(a) => a == ThenApply
    case CleanJournal(a) => a == ThenApply
    case CreateTun => true
    case ConfigureTun => true
    case StartFlush => true
    case FlushTable => true
    case LoadTable => true
    case ConfigureDns => true
    case WriteJournal => true
    case Publish => true
    case _ => false
  }

  lemma ApplyStep(s: State, ok: bool, i: nat)
    requires i in s.clients
    ensures var e, c, c' := Proceed(i, ok), s.clients[i], Next(s, Proceed(i, ok)).clients[i];
            && (Applying(c.pc) && Refuses(s, e) ==>
                  (c'.pc == UndoTun || c'.pc == Reply) && c'.owns == c.owns && c.pc != Publish)
            && (Applying(c.pc) && !Refuses(s, e) && c.pc != Publish ==> Applying(c'.pc) && c'.owns == c.owns)
            && (c.pc == Publish ==> c' == Client(Reply, true))
            && (c.pc == UndoTun ==> c' == c.(pc := Reply) && !Refuses(s, e))
            && (SetsUp(s, e, Session) <==> c.pc == Publish)
  {
  }

  // Before event j handler i has given up; it has published a session.
  ghost predicate RefusedBy(es: seq<Event>, i: nat, b: nat, j: nat) {
    exists d: nat :: d < j && Own(es, i, b, d) && Refuses(At(es, d), es[d])
  }

  ghost predicate PublishedBy(es: seq<Event>, i: nat, b: nat, j: nat) {
    exists d: nat :: d < j && Own(es, i, b, d) && SetsUp(At(es, d), es[d], Session)
  }

  // How far the Apply of a handler that had the flag as in `owned` has come.
  ghost predicate Fares(c: Client, owned: bool, refused: bool, published: bool) {
    || AfterReply(c)
    || (Applying(c.pc) && !refused && !published && c.owns == owned)
    || (c.pc == UndoTun && refused && !published && c.owns == owned)
    || (c.pc == Reply && refused != published && c.owns == (owned || published))
  }

  lemma {:induction false} ApplyGoesOn(es: seq<Event>, i: nat, b: nat, j: nat)
    requires Heard(es, i, b, Apply) && b < j <= |es|
    ensures i in At(es, j).clients
    ensures Fares(At(es, j).clients[i], At(es, b).clients[i].owns, RefusedBy(es, i, b, j), PublishedBy(es, i, b, j))
    decreases j
  {
    StaysConnected(es, i, b, Apply, j);
    if j > b + 1 {
      var d := j - 1;
      ApplyGoesOn(es, i, b, d);
      AtNext(es, d);
      var own := Own(es, i, b, d);
      assert RefusedBy(es, i, b, j) <==> RefusedBy(es, i, b, d) || (own && Refuses(At(es, d), es[d]));
      assert PublishedBy(es, i, b, j) <==> PublishedBy(es, i, b, d) || (own && SetsUp(At(es, d), es[d], Session));
      if own {
        ApplyStep(At(es, d), es[d].ok, i);
        NeverBack(At(es, d), es[d], i);
      }
    }
  }

  // By its reply an Apply has either given up at one of its steps or published a session, and the
  // handler holds the flag exactly when it did before or the session is published.
  lemma ApplyIff(es: seq<Event>, i: nat, b: nat)
    requires Served(es, i, b, Apply)
    ensures RefusedBy(es, i, b, |es|) <==> !PublishedBy(es, i, b, |es|)
    ensures Run(INIT, es).clients[i].owns <==> At(es, b).clients[i].owns || PublishedBy(es, i, b, |es|)
  {
    assert es[..|es|] == es;
    ApplyGoesOn(es, i, b, |es|);
  }

  // A step of handler i after event b and before event j set `r` up.
  ghost predicate MadeBy(es: seq<Event>, i: nat, b: nat, j: nat, r: Resource) {
    exists d: nat :: d < j && Own(es, i, b, d) && SetsUp(At(es, d), es[d], r)
  }

  lemma StepMakes(es: seq<Event>, i: nat, b: nat, d: nat)
    requires Own(es, i, b, d) && i in At(es, d).clients
    ensures PcAt(es, i, d) == CreateTun && PcAt(es, i, d + 1) == ConfigureTun ==> SetsUp(At(es, d), es[d], Tun)
    ensures PcAt(es, i, d) == LoadTable && PcAt(es, i, d + 1) == ConfigureDns ==> SetsUp(At(es, d), es[d], Table)
    ensures PcAt(es, i, d) == WriteJournal && PcAt(es, i, d + 1) == Publish ==> SetsUp(At(es, d), es[d], Journal)
  {
    AtNext(es, d);
  }

  // The way of an Apply back from its publication to its table, and on to its device...
  lemma BackToTheTable(es: seq<Event>, i: nat, b: nat, k: nat) returns (load: nat)
    requires Heard(es, i, b, Apply) && Own(es, i, b, k) && PcAt(es, i, k) == Publish
    ensures load < k && Own(es, i, b, load) && PcAt(es, i, load) == LoadTable
    ensures MadeBy(es, i, b, k, Journal) && MadeBy(es, i, b, k, Table)
    ensures exists d: nat :: d < k && Own(es, i, b, d) && PcAt(es, i, d) == ConfigureDns
  {
    var journal := Entered(es, i, b, Apply, k);
    StaysConnected(es, i, b, Apply, journal);
    StepMakes(es, i, b, journal);
    var dns := Entered(es, i, b, Apply, journal);
    load := Entered(es, i, b, Apply, dns);
    StaysConnected(es, i, b, Apply, load);
    StepMakes(es, i, b, load);
  }

  lemma BackToTheDevice(es: seq<Event>, i: nat, b: nat, load: nat) returns (create: nat)
    requires Heard(es, i, b, Apply) && Own(es, i, b, load) && PcAt(es, i, load) == LoadTable
    ensures create < load && Own(es, i, b, create) && PcAt(es, i, create) == CreateTun
    ensures SetsUp(At(es, create), es[create], Tun)
  {
    var flush := Entered(es, i, b, Apply, load);
    var start := Entered(es, i, b, Apply, flush);
    var address := Entered(es, i, b, Apply, start);
    create := Entered(es, i, b, Apply, address);
    StaysConnected(es, i, b, Apply, create);
    StepMakes(es, i, b, create);
  }

  // ... shows that one that has published its session has made the device, the table and the journal
  // before, has set DNS if that did not fail, and had first tried to remove everything stale.
  lemma PublishedIsBuilt(es: seq<Event>, i: nat, b: nat, k: nat, r: Resource)
    requires Heard(es, i, b, Apply) && Own(es, i, b, k) && SetsUp(At(es, k), es[k], Session)
    ensures MadeBy(es, i, b, k, Journal) && MadeBy(es, i, b, k, Table) && MadeBy(es, i, b, k, Tun)
    ensures exists d: nat :: d < k && Own(es, i, b, d) && PcAt(es, i, d) == ConfigureDns
    ensures r != Session ==>
              exists d: nat, c: nat ::
                d < c < k && Tried(es, i, b, d, r) && Own(es, i, b, c) && SetsUp(At(es, c), es[c], Tun)
  {
    StaysConnected(es, i, b, Apply, k);
    var load := BackToTheTable(es, i, b, k);
    var c := BackToTheDevice(es, i, b, load);
    var j := Entered(es, i, b, Apply, c);
    var first, d := TriedInTurn(es, i, b, Apply, j, ThenApply, r);
  }
}
