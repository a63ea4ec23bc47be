/** Where every stream the idle pool dials ends up, and how every fill task ends, in every
    interleaving of fills, takes and the clock. */
module IdleStreams {
  import opened Bytes
  import opened IdlePool

  // ----- The events -----

  // A fill's dial succeeds and brings stream x; its push puts x into the queue; it finds the queue at
  // the limit and drops x.
  predicate Dials(s: State, e: Event, x: nat) {
    e.Proceed? && e.ok && e.t in s.fills && s.fills[e.t].Dial? && x == s.dialled
  }

  predicate Queues(s: State, e: Event, x: nat) {
    e.Proceed? && e.t in s.fills && s.fills[e.t] == Push(x) && |s.idle| < s.max
  }

  predicate Rejects(s: State, e: Event, x: nat) {
    e.Proceed? && e.t in s.fills && s.fills[e.t] == Push(x) && |s.idle| >= s.max
  }

  predicate FirstFresh(s: State, i: nat) {
    i < |s.idle| && Fresh(s.idle[i], s.now) && forall j :: 0 <= j < i ==> !Fresh(s.idle[j], s.now)
  }

  // A take hands x out, as the first fresh stream of the queue or because it found none and dialled.
  predicate HandsOut(s: State, e: Event, x: nat) {
    e.Take? && (PopsFresh(s, x) || (e.ok && x == s.dialled && AllStale(s)))
  }

  predicate PopsFresh(s: State, x: nat) {
    exists i :: 0 <= i < |s.idle| && FirstFresh(s, i) && s.idle[i].stream == x
  }

  predicate AllStale(s: State) { forall i :: 0 <= i < |s.idle| ==> !Fresh(s.idle[i], s.now) }

  // A take finds x too old and drops it.
  predicate Expires(s: State, e: Event, x: nat) {
    e.Take? && exists i :: 0 <= i < |s.idle| && s.idle[i].stream == x && !Fresh(s.idle[i], s.now)
  }

  // ----- The places -----

  predicate Queued(s: State, x: nat) { exists i :: 0 <= i < |s.idle| && s.idle[i].stream == x }

  predicate OnOffer(s: State, x: nat) { exists t :: t in s.fills && s.fills[t] == Push(x) }

  predicate Out(s: State, x: nat) { x in s.handed }

  // What a take pops is everything too old and the first fresh entry.
  lemma PoppedParts(s: State) returns (k: nat)
    requires Sorted(s.idle, s.now)
    ensures var (hit, rest) := Popped(s.idle, s.now);
            && k <= |s.idle| && rest == s.idle[k..]
            && (hit.Some? ==> k > 0 && hit.value == s.idle[k - 1] && FirstFresh(s, k - 1))
            && (hit.Some? ==> forall i :: k - 1 <= i < |s.idle| ==> Fresh(s.idle[i], s.now))
            && (hit.None? ==> k == |s.idle| && AllStale(s))
  {
    k := PoppedSuffix(s.idle, s.now);
    if Popped(s.idle, s.now).0.Some? {
      forall i | k - 1 <= i < |s.idle| ensures Fresh(s.idle[i], s.now) {
        assert s.idle[k - 1].at <= s.idle[i].at;
      }
    }
  }

  lemma QueuedRest(s: State, s': State, k: nat, x: nat)
    requires k <= |s.idle| && s'.idle == s.idle[k..]
    ensures Queued(s', x) <==> exists i :: k <= i < |s.idle| && s.idle[i].stream == x
  {
    assert forall i :: 0 <= i < |s'.idle| ==> s'.idle[i] == s.idle[k + i];
    assert forall i :: k <= i < |s.idle| ==> s.idle[i] == s'.idle[i - k];
  }

  lemma TakeHit(s: State, ok: bool, x: nat, k: nat)
    requires Inv(s) && 0 < k <= |s.idle| && Popped(s.idle, s.now) == (Some(s.idle[k - 1]), s.idle[k..])
    requires FirstFresh(s, k - 1) && forall i :: k - 1 <= i < |s.idle| ==> Fresh(s.idle[i], s.now)
    ensures var e := Event.Take(ok);
            && (Queued(Next(s, e), x) <==> Queued(s, x) && !Expires(s, e, x) && !HandsOut(s, e, x))
            && (HandsOut(s, e, x) <==> x == s.idle[k - 1].stream)
  {
    var e := Event.Take(ok);
    QueuedRest(s, Next(s, e), k, x);
    assert forall i :: 0 <= i < |s.idle| && FirstFresh(s, i) ==> i == k - 1;
    assert !AllStale(s);
  }

  lemma TakeMiss(s: State, ok: bool, x: nat)
    requires Inv(s) && Popped(s.idle, s.now) == (None, []) && AllStale(s)
    ensures var e := Event.Take(ok);
            && !Queued(Next(s, e), x) && (Queued(s, x) <==> Expires(s, e, x))
            && (HandsOut(s, e, x) <==> ok && x == s.dialled)
  {
  }

  lemma TakeMoves(s: State, e: Event, x: nat)
    requires Inv(s) && e.Take?
    ensures Queued(Next(s, e), x) <==> Queued(s, x) && !Expires(s, e, x) && !HandsOut(s, e, x)
    ensures Out(Next(s, e), x) <==> Out(s, x) || HandsOut(s, e, x)
  {
    var k := PoppedParts(s);
    if Popped(s.idle, s.now).0.Some? {
      TakeHit(s, e.ok, x, k);
    } else {
      assert s.idle[k..] == [];
      TakeMiss(s, e.ok, x);
    }
  }

  lemma QueuedMore(s: State, s': State, entry: Entry, x: nat)
    requires s'.idle == s.idle + [entry]
    ensures Queued(s', x) <==> Queued(s, x) || entry.stream == x
  {
    assert forall i :: 0 <= i < |s.idle| ==> s'.idle[i] == s.idle[i];
    assert s'.idle[|s.idle|] == entry;
  }

  lemma FillMoves(s: State, e: Event, x: nat)
    requires !e.Take?
    ensures Queued(Next(s, e), x) <==> Queued(s, x) || Queues(s, e, x)
    ensures Out(Next(s, e), x) <==> Out(s, x)
  {
    if e.Proceed? && e.t in s.fills && s.fills[e.t].Push? && |s.idle| < s.max {
      QueuedMore(s, Next(s, e), Entry(s.now, s.fills[e.t].stream), x);
    } else {
      assert Next(s, e).idle == s.idle;
    }
  }

  lemma OfferMoves(s: State, e: Event, x: nat)
    requires Apart(s)
    ensures OnOffer(Next(s, e), x) <==> (OnOffer(s, x) && !Queues(s, e, x) && !Rejects(s, e, x)) || Dials(s, e, x)
  {
    var s' := Next(s, e);
    if OnOffer(s, x) {
      var t :| t in s.fills && s.fills[t] == Push(x);
      assert (e.Proceed? && e.t == t) || (t in s'.fills && s'.fills[t] == Push(x));
    }
    if Dials(s, e, x) {
      assert e.t in s'.fills && s'.fills[e.t] == Push(x);
    }
  }

  // ----- Conservation -----

  // The state before event j of a run.
  function At(size: nat, es: seq<Event>, j: nat): State
    requires j <= |es|
  {
    Run(Init(size), es[..j])
  }

  // Some event of the run, in the state it found, is such.
  ghost predicate Once(such: (State, Event) -> bool, size: nat, es: seq<Event>) {
    exists n :: 0 <= n < |es| && such(At(size, es, n), es[n])
  }

  lemma OnceStep(such: (State, Event) -> bool, size: nat, es: seq<Event>)
    requires es != []
    ensures var n := |es| - 1; Once(such, size, es) <==> Once(such, size, es[..n]) || such(At(size, es, n), es[n])
  {
    var n := |es| - 1;
    forall j | 0 <= j < n ensures At(size, es[..n], j) == At(size, es, j) && es[..n][j] == es[j] {
      assert es[..n][..j] == es[..j];
    }
  }

  lemma RunLast(size: nat, es: seq<Event>)
    requires es != []
    ensures var n := |es| - 1; Run(Init(size), es) == Next(At(size, es, n), es[n]) && Inv(At(size, es, n))
  {
    var n := |es| - 1;
    InitInv(size);
    RunKeepsInv(Init(size), es[..n]);
    RunOne(Init(size), es[..n], es[n]);
    assert es == es[..n] + [es[n]];
  }

  function Expiry(x: nat): (State, Event) -> bool { (s, e) => Expires(s, e, x) }

  function Rejection(x: nat): (State, Event) -> bool { (s, e) => Rejects(s, e, x) }

  // A take of the run dropped stream x as too old; a push dropped it because of the limit.
  ghost predicate Expired(size: nat, es: seq<Event>, x: nat) { Once(Expiry(x), size, es) }

  ghost predicate Rejected(size: nat, es: seq<Event>, x: nat) { Once(Rejection(x), size, es) }

  function One(b: bool): nat { if b then 1 else 0 }

  // Stream x is in exactly one of five places if it was ever dialled, and in none otherwise.
  predicate InOnePlace(s: State, x: nat, expired: bool, rejected: bool) {
    One(Queued(s, x)) + One(OnOffer(s, x)) + One(Out(s, x)) + One(expired) + One(rejected) == One(x < s.dialled)
  }

  lemma DialledNext(s: State, e: Event, x: nat)
    requires Sorted(s.idle, s.now)
    ensures x < Next(s, e).dialled <==>
            x < s.dialled || Dials(s, e, x) || (e.Take? && e.ok && AllStale(s) && x == s.dialled)
  {
    if e.Take? {
      var k := PoppedParts(s);
      assert Popped(s.idle, s.now).0.Some? ==> Fresh(s.idle[k - 1], s.now);
    }
  }

  lemma StaysInOnePlace(s: State, e: Event, x: nat, expired: bool, rejected: bool)
    requires Inv(s) && InOnePlace(s, x, expired, rejected)
    ensures InOnePlace(Next(s, e), x, expired || Expires(s, e, x), rejected || Rejects(s, e, x))
  {
    DialledNext(s, e, x);
    OfferMoves(s, e, x);
    if e.Take? {
      TakeMoves(s, e, x);
    } else {
      FillMoves(s, e, x);
    }
  }

  // In every run every stream ever dialled is queued, or on offer by the fill that dialled it, or
  // handed out, or was dropped by a take that found it too old or by a push that found the queue at
  // the limit: exactly one of these.
  lemma {:induction false} EveryStreamIsSomewhere(size: nat, es: seq<Event>, x: nat)
    ensures InOnePlace(Run(Init(size), es), x, Expired(size, es, x), Rejected(size, es, x))
    decreases |es|
  {
    if es != [] {
      var n := |es| - 1;
      EveryStreamIsSomewhere(size, es[..n], x);
      RunLast(size, es);
      StaysInOnePlace(At(size, es, n), es[n], x, Expired(size, es[..n], x), Rejected(size, es[..n], x));
      OnceStep(Expiry(x), size, es);
      OnceStep(Rejection(x), size, es);
    }
  }

  // ----- How a fill ends -----

  // The step at which fill t stops: the queue is full, there are as many fills in progress as the
  // limit, its dial fails, or it offers its stream.
  predicate Stops(s: State, e: Event, t: nat) {
    e.Proceed? && e.t == t && t in s.fills &&
    match s.fills[t]
    case Check => |s.idle| >= s.max
    case Count => s.filling >= s.max
    case Dial => !e.ok
    case Push(_) => true
    case _ => false
  }

  function Stop(t: nat): (State, Event) -> bool { (s, e) => Stops(s, e, t) }

  predicate Stopped(s: State, t: nat) { t in s.fills && (s.fills[t].Undo? || s.fills[t].Ended?) }

  lemma StopsNext(s: State, e: Event, t: nat)
    ensures Stopped(Next(s, e), t) <==> Stopped(s, t) || Stops(s, e, t)
  {
  }

  // A fill has stopped exactly when one of its steps was of that sort.
  lemma {:induction false} StoppedIff(size: nat, es: seq<Event>, t: nat)
    ensures Stopped(Run(Init(size), es), t) <==> Once(Stop(t), size, es)
    decreases |es|
  {
    if es != [] {
      var n := |es| - 1;
      StoppedIff(size, es[..n], t);
      RunLast(size, es);
      StopsNext(At(size, es, n), es[n], t);
      OnceStep(Stop(t), size, es);
    }
  }
}
