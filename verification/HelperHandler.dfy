/** The helper's connection handler as the program that one connection executes, other handlers
    moving at every point where it waits. Whatever they do, the handler's program is a run of the
    session machine, and it leaves nothing behind it. */
module HelperHandler {
  import opened HelperRequests
  import opened HelperSession

  class Handler {
    const me: nat
    // The outcome of the handler's k-th operation, and what happens elsewhere before it.
    const oks: nat -> bool
    const gaps: nat -> seq<Event>

    // The session slot and the networking state, and the handler that made the device.
    var present: set<Resource>
    var maker: nat
    var tick: nat
    var trace: seq<Event>

    // A connection made after any run.
    constructor (before: seq<Event>, me: nat, oks: nat -> bool, gaps: nat -> seq<Event>)
      requires me !in Run(INIT, before).clients
      requires forall k, j :: 0 <= j < |gaps(k)| ==> !About(gaps(k)[j], me)
      ensures Valid() && Me() == Client(Idle, false) && this.me == me
    {
      this.me, this.oks, this.gaps := me, oks, gaps;
      tick, trace := 0, before + [Connect(me)];
      var now := Run(INIT, before + [Connect(me)]);
      present, maker := now.present, now.maker;
      RunOne(before, Connect(me));
    }

    function Now(): State
      reads this
    {
      Run(INIT, trace)
    }

    ghost predicate Placed()
      reads this
    {
      me in Now().clients && forall k, j :: 0 <= j < |gaps(k)| ==> !About(gaps(k)[j], me)
    }

    ghost predicate Valid()
      reads this
    {
      Placed() && Now().present == present && Now().maker == maker
    }

    // Where the machine has this handler.
    ghost function Me(): Client
      requires Placed()
      reads this
    {
      Now().clients[me]
    }

    // What the machine's next step of this handler does.
    ghost function Step(ok: bool): Effect
      requires Placed()
      reads this
    {
      Work(Me(), Now().present, Now().maker == me, ok)
    }

    // The handler waits; the others move.
    method Wait() returns (ok: bool)
      requires Valid()
      modifies `present, `maker, `tick, `trace
      ensures Valid() && Me() == old(Me()) && Quietly(old(trace), trace, me)
    {
      RunAppend(INIT, trace, gaps(tick));
      OthersKeep(Now(), gaps(tick), me);
      trace := trace + gaps(tick);
      present, maker := Now().present, Now().maker;
      ok := oks(tick);
      tick := tick + 1;
    }

    // The operation is over: what it did is what the machine's step does.
    method Log(ok: bool)
      requires Placed()
      requires var w := Step(ok);
               present == w.present && maker == if w.made then me else Now().maker
      modifies `trace
      ensures Valid() && Me() == old(Step(ok)).client
      ensures trace == old(trace) + [Proceed(me, ok)] && Quietly(old(trace), trace, me)
    {
      RunOne(trace, Proceed(me, ok));
      trace := trace + [Proceed(me, ok)];
    }

    // A deletion; its failure is not looked at.
    method Remove(r: Resource, ghost next: Client)
      requires Valid() && Deletes(Me(), r, next)
      modifies `present, `maker, `tick, `trace
      ensures Valid() && Me() == next
      ensures Quietly(old(trace), trace, me)
    {
      var ok := Wait();
      assert Step(ok) == Delete(next, present, r, ok);
      if ok {
        present := present - {r};
      }
      Log(ok);
    }

    // The setting up of `r`; its failure is noticed.
    method Add(r: Resource, ghost made: Client, ghost failed: Client) returns (ok: bool)
      requires Valid() && Adds(Me(), r, made, failed)
      modifies `present, `maker, `tick, `trace
      ensures Valid() && Me() == if ok then made else failed
      ensures Quietly(old(trace), trace, me)
    {
      ok := Wait();
      assert Step(ok) == Quiet(if ok then made else failed, if ok then present + {r} else present);
      if ok {
        present := present + {r};
      }
      Log(ok);
    }

    // cleanup_stale.
    method CleanupStale(ghost after: After)
      requires Valid() && Me().pc == CleanDns(after)
      modifies `present, `maker, `tick, `trace
      ensures Valid() && Me() == Finish(old(Me()), after)
      ensures Quietly(old(trace), trace, me)
    {
      ghost var c := Me();
      Remove(Dns, c.(pc := CleanTable(after)));
      Remove(Table, c.(pc := CleanTun(after)));
      Remove(Tun, c.(pc := CleanJournal(after)));
      Remove(Journal, Finish(c, after));
    }

    // teardown_session.
    method TeardownSession(ghost cause: Cause)
      requires Valid() && Me().pc == Reverting(cause)
      modifies `present, `maker, `tick, `trace
      ensures Valid() && Me() == Finish(old(Me()), ThenEnd(cause))
      ensures Quietly(old(trace), trace, me)
    {
      ghost var c := Me();
      Remove(Dns, c.(pc := Taking(cause)));
      var ok := Wait();
      present := present - {Session};
      Log(ok);
      CleanupStale(ThenEnd(cause));
    }

    // apply_spec.
    method ApplySpec() returns (applied: bool)
      requires Valid() && Me().pc == Checking
      modifies `present, `maker, `tick, `trace
      ensures Valid() && Me() == Client(Reply, applied || old(Me()).owns)
      ensures Quietly(old(trace), trace, me)
    {
      var ok := Wait();
      Log(ok);
      if !ok || Session in present {
        return false;
      }
      CleanupStale(ThenApply);
      ok := SetUp();
      if !ok {
        return false;
      }
      applied := Publicise();
    }

    // Its first half: the device and the table, or neither.
    method SetUp() returns (ok: bool)
      requires Valid() && Me().pc == CreateTun
      modifies `present, `maker, `tick, `trace
      ensures Valid() && Me() == old(Me()).(pc := if ok then ConfigureDns else Reply)
      ensures Quietly(old(trace), trace, me)
    {
      ok := Wait();
      var created := ok && Tun !in present;
      if created {
        present, maker := present + {Tun}, me;
      }
      Log(ok);
      if !created {
        return false;
      }
      ok := ConfigureAndLoad();
      if !ok {
        RemoveDevice();
      }
    }

    // The device away by name; the handler's own goes with its descriptor in any case.
    method RemoveDevice()
      requires Valid() && Me().pc == UndoTun
      modifies `present, `maker, `tick, `trace
      ensures Valid() && Me() == old(Me()).(pc := Reply)
      ensures Quietly(old(trace), trace, me)
    {
      var ok := Wait();
      if ok || maker == me {
        present := present - {Tun};
      }
      Log(ok);
    }

    // Its second half: DNS, the journal and the session.
    method Publicise() returns (ok: bool)
      requires Valid() && Me().pc == ConfigureDns
      modifies `present, `maker, `tick, `trace
      ensures Valid() && Me() == Client(Reply, ok || old(Me()).owns)
      ensures Quietly(old(trace), trace, me)
    {
      ghost var c := Me();
      ok := Add(Dns, c.(pc := WriteJournal), c.(pc := WriteJournal));
      ok := SaveJournal();
      if !ok {
        return;
      }
      ok := Wait();
      present := present + {Session};
      Log(ok);
      ok := true;
    }

    // write_journal; its failure is apply_spec's, and closes the device.
    method SaveJournal() returns (ok: bool)
      requires Valid() && Me().pc == WriteJournal
      modifies `present, `maker, `tick, `trace
      ensures Valid() && Me() == old(Me()).(pc := if ok then Publish else Reply)
      ensures Quietly(old(trace), trace, me)
    {
      ok := Wait();
      if ok {
        present := present + {Journal};
      } else if maker == me {
        present := present - {Tun};
      }
      Log(ok);
    }

    // configure_tun and apply_table: the address, then the old table away, then the new one. That the
    // old table cannot be deleted is not looked at.
    method ConfigureAndLoad() returns (ok: bool)
      requires Valid() && Me().pc == ConfigureTun
      modifies `present, `maker, `tick, `trace
      ensures Valid() && Me() == old(Me()).(pc := if ok then ConfigureDns else UndoTun)
      ensures Quietly(old(trace), trace, me)
    {
      ok := Wait();
      Log(ok);
      if !ok {
        return;
      }
      ok := Wait();
      Log(ok);
      if !ok {
        return;
      }
      Remove(Table, Me().(pc := LoadTable));
      ghost var c := Me();
      ok := Add(Table, c.(pc := ConfigureDns), c.(pc := UndoTun));
    }

    // handle_client, from the first request on: it serves the first `served` requests of the inbox,
    // all of them unless a reply cannot be sent, and then the connection ends.
    method HandleClient(inbox: seq<Request>) returns (served: nat)
      requires Valid() && Me() == Client(Idle, false)
      modifies `present, `maker, `tick, `trace
      ensures Valid() && Me() == Client(Gone, false) && old(trace) <= trace
      ensures served <= |inbox| && Asked(trace, me) == Asked(old(trace), me) + inbox[..served]
      ensures served < |inbox| ==> exists j :: |old(trace)| <= j < |trace| && Unsent(trace, me, j)
      ensures AllGone(Now()) ==> Session !in present && present == Now().loose
    {
      var alive, ownsSession;
      served, alive, ownsSession := ServeAll(inbox);
      ghost var before := trace;
      Depart(alive, ownsSession);
      if served < |inbox| {
        ghost var j :| |old(trace)| <= j < |before| && Unsent(before, me, j);
        UnsentStays(before, trace, me, j);
      }
      if AllGone(Now()) {
        NothingOutlivesTheClients(trace);
      }
    }

    // The loop of handle_client.
    method ServeAll(inbox: seq<Request>) returns (served: nat, alive: bool, ownsSession: bool)
      requires Valid() && Me() == Client(Idle, false)
      modifies `present, `maker, `tick, `trace
      ensures Valid() && old(trace) <= trace
      ensures Me() == if alive then Client(Idle, ownsSession) else Leave(Client(Reply, ownsSession))
      ensures served <= |inbox| && Asked(trace, me) == Asked(old(trace), me) + inbox[..served]
      ensures served < |inbox| ==> exists j :: |old(trace)| <= j < |trace| && Unsent(trace, me, j)
    {
      served, alive, ownsSession := 0, true, false;
      while alive && served < |inbox|
        invariant served <= |inbox| && Valid() && old(trace) <= trace
        invariant Me() == if alive then Client(Idle, ownsSession) else Leave(Client(Reply, ownsSession))
        invariant Asked(trace, me) == Asked(old(trace), me) + inbox[..served]
        invariant !alive ==> |old(trace)| < |trace| && Unsent(trace, me, |trace| - 1)
      {
        ownsSession := Hearken(inbox[served], ownsSession);
        ghost var heard := trace;
        alive := Answer();
        QuietlyAsks(heard, trace, me);
        OneMore(Asked(old(trace), me), inbox, served);
        served := served + 1;
      }
    }

    // The reply to a request.
    method Answer() returns (sent: bool)
      requires Valid() && Me().pc == Reply
      modifies `present, `maker, `tick, `trace
      ensures Valid() && Quietly(old(trace), trace, me) && |old(trace)| < |trace|
      ensures Me() == if sent then old(Me()).(pc := Idle) else Leave(old(Me()))
      ensures !sent ==> Unsent(trace, me, |trace| - 1)
    {
      sent := Wait();
      ghost var before := trace;
      Log(sent);
      assert trace[..|trace| - 1] == before;
    }

    // A request received and served.
    method Hearken(req: Request, owns: bool) returns (ownsSession: bool)
      requires Valid() && Me() == Client(Idle, owns)
      modifies `present, `maker, `tick, `trace
      ensures Valid() && Me() == Client(Reply, ownsSession) && old(trace) <= trace
      ensures Asked(trace, me) == Asked(old(trace), me) + [req]
      ensures exists b :: |old(trace)| <= b && Served(trace, me, b, req)
    {
      var heard := Wait();
      QuietlyAsks(old(trace), trace, me);
      ghost var before := trace;
      Hear(Receive(me, req));
      HeardNow(before, me, req);
      ghost var asked := trace;
      ownsSession := Serve(req, owns, |before|);
      QuietlyAsks(asked, trace, me);
    }

    // The end of the connection: an owner tears down.
    method Depart(alive: bool, ownsSession: bool)
      requires Valid() && Me() == if alive then Client(Idle, ownsSession) else Leave(Client(Reply, ownsSession))
      modifies `present, `maker, `tick, `trace
      ensures Valid() && Me() == Client(Gone, false)
      ensures old(trace) <= trace && Asked(trace, me) == Asked(old(trace), me)
    {
      if alive {
        var heard := Wait();
        QuietlyAsks(old(trace), trace, me);
        Hear(Hangup(me));
      }
      ghost var left := trace;
      if ownsSession {
        TeardownSession(OnLeaving);
      }
      QuietlyAsks(left, trace, me);
    }

    // One request, heard at event b, up to its reply; the result is the owns_session flag.
    method Serve(req: Request, owns: bool, ghost b: nat) returns (ownsSession: bool)
      requires Valid() && Me() == Dispatch(Client(Idle, owns), req)
      requires Heard(trace, me, b, req) && At(trace, b).clients[me].owns == owns
      modifies `present, `maker, `tick, `trace
      ensures Valid() && Me() == Client(Reply, ownsSession)
      ensures Quietly(old(trace), trace, me) && Served(trace, me, b, req)
      ensures req == Ping ==> ownsSession == owns && forall d: nat :: !Own(trace, me, b, d)
      ensures req == Apply ==> (ownsSession <==> owns || PublishedBy(trace, me, b, |trace|))
      ensures Restoring(req) ==> !ownsSession && forall r :: Restored(trace, me, b, r)
    {
      ownsSession := owns;
      match req {
        case Ping =>
        case Apply =>
          var applied := ApplySpec();
          if applied {
            ownsSession := true;
          }
        case Teardown =>
          TeardownSession(OnTeardown);
          ownsSession := false;
        case _ =>
          TeardownSession(OnCleanup);
          ownsSession := false;
          CleanupStale(ThenAck);
      }
      HeardOn(old(trace), trace, me, b, req);
      WhatItDid(trace, me, b, req);
    }

    // A request arrives, or the connection ends.
    method Hear(e: Event)
      requires Valid() && Me().pc == Idle && (e.Receive? || e.Hangup?) && e.i == me
      modifies `trace
      ensures Valid() && Me() == if e.Receive? then Dispatch(old(Me()), e.req) else Leave(old(Me()))
      ensures trace == old(trace) + [e]
      ensures Asked(trace, me) == Asked(old(trace), me) + if e.Receive? then [e.req] else []
    {
      AskedOne(trace, e, me);
      RunOne(trace, e);
      trace := trace + [e];
    }
  }

  // The requests of client i in a run.
  function Asked(es: seq<Event>, i: nat): seq<Request> {
    if es == [] then []
    else
      var n := |es| - 1;
      Asked(es[..n], i) + if es[n].Receive? && es[n].i == i then [es[n].req] else []
  }

  // The run goes on with nothing of client i but steps of its handler.
  predicate Quietly(es: seq<Event>, more: seq<Event>, i: nat) {
    es <= more && forall j :: |es| <= j < |more| && About(more[j], i) ==> more[j].Proceed?
  }

  lemma QuietlyOn(es: seq<Event>, more: seq<Event>, most: seq<Event>, i: nat)
    requires Quietly(es, more, i) && Quietly(more, most, i)
    ensures Quietly(es, most, i)
  {
  }

  lemma QuietlyAsks(es: seq<Event>, more: seq<Event>, i: nat)
    requires Quietly(es, more, i)
    ensures Asked(more, i) == Asked(es, i)
  {
    assert more == es + more[|es|..];
    OthersAsk(es, more[|es|..], i);
  }

  lemma HeardNow(es: seq<Event>, i: nat, req: Request)
    requires i in Run(INIT, es).clients && Run(INIT, es).clients[i].pc == Idle
    ensures Heard(es + [Receive(i, req)], i, |es|, req) && At(es + [Receive(i, req)], |es|) == Run(INIT, es)
  {
    assert (es + [Receive(i, req)])[..|es|] == es;
  }

  // A request heard and served with nothing else of its client in between.
  lemma HeardOn(es: seq<Event>, more: seq<Event>, i: nat, b: nat, req: Request)
    requires Heard(es, i, b, req) && Quietly(es, more, i)
    ensures Heard(more, i, b, req) && At(more, b) == At(es, b)
  {
    assert more[..b] == es[..b];
  }

  // Event j is a reply to client i that cannot be sent.
  predicate Unsent(es: seq<Event>, i: nat, j: nat)
    requires j < |es|
  {
    es[j] == Proceed(i, false) && i in Run(INIT, es[..j]).clients && Run(INIT, es[..j]).clients[i].pc == Reply
  }

  lemma UnsentStays(es: seq<Event>, more: seq<Event>, i: nat, j: nat)
    requires es <= more && j < |es| && Unsent(es, i, j)
    ensures Unsent(more, i, j)
  {
    assert more[..j] == es[..j];
  }

  lemma OneMore(asked: seq<Request>, inbox: seq<Request>, k: nat)
    requires k < |inbox|
    ensures asked + inbox[..k] + [inbox[k]] == asked + inbox[..k + 1]
  {
  }

  lemma AskedOne(es: seq<Event>, e: Event, i: nat)
    ensures Asked(es + [e], i) == Asked(es, i) + if e.Receive? && e.i == i then [e.req] else []
  {
    assert (es + [e])[..|es|] == es;
  }

  lemma {:induction false} OthersAsk(es: seq<Event>, more: seq<Event>, i: nat)
    requires forall j :: 0 <= j < |more| ==> !(more[j].Receive? && more[j].i == i)
    ensures Asked(es + more, i) == Asked(es, i)
    decreases |more|
  {
    if more == [] {
      assert es + more == es;
    } else {
      var n := |more| - 1;
      OthersAsk(es, more[..n], i);
      assert es + more == es + more[..n] + [more[n]];
      AskedOne(es + more[..n], more[n], i);
    }
  }

  lemma WhatItDid(es: seq<Event>, i: nat, b: nat, req: Request)
    requires Served(es, i, b, req)
    ensures var owns, owned := Run(INIT, es).clients[i].owns, At(es, b).clients[i].owns;
            && (req == Ping ==> owns == owned && forall d: nat :: !Own(es, i, b, d))
            && (req == Apply ==> (owns <==> owned || PublishedBy(es, i, b, |es|)))
            && (Restoring(req) ==> !owns)
    ensures Restoring(req) ==> forall r :: Restored(es, i, b, r)
  {
    if req == Ping {
      PingDoesNothing(es, i, b);
    } else if req == Apply {
      ApplyIff(es, i, b);
    } else {
      RestoreTries(es, i, b, req, Session);
      forall r ensures Restored(es, i, b, r) {
        RestoreLeavesIff(es, i, b, req, r);
      }
    }
  }

  // The step of the handler is the deletion of `r`.
  ghost predicate Deletes(c: Client, r: Resource, next: Client) {
    forall p, mine, ok :: Work(c, p, mine, ok) == Delete(next, p, r, ok)
  }

  // The step of the handler is the setting up of `r`.
  ghost predicate Adds(c: Client, r: Resource, made: Client, failed: Client) {
    forall p, mine, ok :: Work(c, p, mine, ok) == Quiet(if ok then made else failed, if ok then p + {r} else p)
  }

  lemma RunOne(trace: seq<Event>, e: Event)
    ensures Run(INIT, trace + [e]) == Next(Run(INIT, trace), e)
  {
    RunAppend(INIT, trace, [e]);
    assert [e][1..] == [];
  }

  // A handler moves only by its own events.
  lemma {:induction false} OthersKeep(s: State, es: seq<Event>, i: nat)
    requires i in s.clients && forall j :: 0 <= j < |es| ==> !About(es[j], i)
    ensures i in Run(s, es).clients && Run(s, es).clients[i] == s.clients[i]
    decreases |es|
  {
    if es != [] {
      assert !About(es[0], i);
      OthersKeep(Next(s, es[0]), es[1..], i);
    }
  }
}
