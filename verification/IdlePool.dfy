/** The pool of already opened transports: fill tasks, takers and the clock interleave over a
    queue behind a lock and an atomic counter of fills in progress. */
module IdlePool {
  import opened Bytes

  const MAX_IDLE_AGE := 25_000 // milliseconds

  // A pooled stream and when it was put in. Streams are told apart by a number.
  datatype Entry = Entry(at: nat, stream: nat)

  predicate Fresh(e: Entry, now: nat) { now - e.at < MAX_IDLE_AGE }

  // What popping from the front until a fresh entry turns up yields, and what it leaves.
  function Popped(q: seq<Entry>, now: nat): (r: (Option<Entry>, seq<Entry>)) {
    if q == [] then (None, [])
    else if Fresh(q[0], now) then (Some(q[0]), q[1..])
    else Popped(q[1..], now)
  }

  // ----- All interleavings -----

  datatype Fill = Check | Count | Dial | Undo | Push(stream: nat) | Ended

  datatype State = State(
    max: nat, idle: seq<Entry>, filling: int, fills: map<nat, Fill>,
    now: nat, dialled: nat, handed: seq<nat>)

  // A take that finds nothing pooled dials itself; `ok` is the outcome of a dial.
  datatype Event = Spawn(t: nat) | Proceed(t: nat, ok: bool) | Take(ok: bool) | Tick(ms: nat)

  function Init(maxIdle: nat): State {
    State(if maxIdle == 0 then 1 else maxIdle, [], 0, map[], 0, 0, [])
  }

  function Work(s: State, t: nat, ok: bool): State
    requires t in s.fills
  {
    match s.fills[t]
    case Check => s.(fills := s.fills[t := if |s.idle| >= s.max then Ended else Count])
    case Count => s.(filling := s.filling + 1, fills := s.fills[t := if s.filling >= s.max then Undo else Dial])
    case Undo => s.(filling := s.filling - 1, fills := s.fills[t := Ended])
    case Dial =>
      if ok then s.(filling := s.filling - 1, dialled := s.dialled + 1, fills := s.fills[t := Push(s.dialled)])
      else s.(filling := s.filling - 1, fills := s.fills[t := Ended])
    case Push(stream) =>
      s.(idle := if |s.idle| < s.max then s.idle + [Entry(s.now, stream)] else s.idle, fills := s.fills[t := Ended])
    case Ended => s
  }

  function Next(s: State, e: Event): State {
    match e
    case Spawn(t) => if t in s.fills then s else s.(fills := s.fills[t := Check])
    case Proceed(t, ok) => if t in s.fills then Work(s, t, ok) else s
    case Take(ok) =>
      var (hit, rest) := Popped(s.idle, s.now);
      if hit.Some? then s.(idle := rest, handed := s.handed + [hit.value.stream])
      else if ok then s.(idle := rest, dialled := s.dialled + 1, handed := s.handed + [s.dialled])
      else s.(idle := rest)
    case Tick(ms) => s.(now := s.now + ms)
  }

  function Run(s: State, es: seq<Event>): State
    decreases |es|
  {
    if es == [] then s else Run(Next(s, es[0]), es[1..])
  }

  // ----- The counter -----

  function Dialling(fills: map<nat, Fill>): set<nat> { set t | t in fills && fills[t].Dial? }

  function BackingOut(fills: map<nat, Fill>): set<nat> { set t | t in fills && fills[t].Undo? }

  ghost predicate Counted(s: State) {
    && s.max > 0
    && s.filling == |Dialling(s.fills)| + |BackingOut(s.fills)|
    && |Dialling(s.fills)| <= s.max
    && |s.idle| <= s.max
  }

  // Moving one task in or out of a counted place moves the count with it.
  lemma RecountDialling(fills: map<nat, Fill>, t: nat, f: Fill)
    ensures |Dialling(fills[t := f])| ==
            |Dialling(fills)| + (if f.Dial? then 1 else 0) - (if t in fills && fills[t].Dial? then 1 else 0)
  {
    var others := Dialling(fills) - {t};
    assert Dialling(fills) == if t in fills && fills[t].Dial? then others + {t} else others;
    assert Dialling(fills[t := f]) == if f.Dial? then others + {t} else others;
  }

  lemma RecountBackingOut(fills: map<nat, Fill>, t: nat, f: Fill)
    ensures |BackingOut(fills[t := f])| ==
            |BackingOut(fills)| + (if f.Undo? then 1 else 0) - (if t in fills && fills[t].Undo? then 1 else 0)
  {
    var others := BackingOut(fills) - {t};
    assert BackingOut(fills) == if t in fills && fills[t].Undo? then others + {t} else others;
    assert BackingOut(fills[t := f]) == if f.Undo? then others + {t} else others;
  }

  lemma {:induction false} PoppedShrinks(q: seq<Entry>, now: nat)
    ensures |Popped(q, now).1| <= |q|
  {
    if q != [] && !Fresh(q[0], now) {
      PoppedShrinks(q[1..], now);
    }
  }

  lemma NextKeepsCounted(s: State, e: Event)
    requires Counted(s)
    ensures Counted(Next(s, e))
  {
    match e
    case Spawn(t) =>
      RecountDialling(s.fills, t, Check);
      RecountBackingOut(s.fills, t, Check);
    case Proceed(t, ok) =>
      if t in s.fills {
        var f := Work(s, t, ok).fills[t];
        RecountDialling(s.fills, t, f);
        RecountBackingOut(s.fills, t, f);
        assert Work(s, t, ok).fills == s.fills[t := f];
      }
    case Take(_) => PoppedShrinks(s.idle, s.now);
    case Tick(_) =>
  }

  // ----- The streams -----

  predicate Sorted(q: seq<Entry>, now: nat) {
    && (forall i :: 0 <= i < |q| ==> q[i].at <= now)
    && (forall i, j :: 0 <= i < j < |q| ==> q[i].at <= q[j].at)
  }

  // Every stream is in one place at most.
  ghost predicate Apart(s: State) {
    && (forall i :: 0 <= i < |s.idle| ==> s.idle[i].stream < s.dialled && s.idle[i].stream !in s.handed)
    && (forall i, j :: 0 <= i < j < |s.idle| ==> s.idle[i].stream != s.idle[j].stream)
    && (forall i :: 0 <= i < |s.handed| ==> s.handed[i] < s.dialled)
    && (forall i, j :: 0 <= i < j < |s.handed| ==> s.handed[i] != s.handed[j])
    && (forall t :: t in s.fills && s.fills[t].Push? ==> Offered(s, s.fills[t].stream))
    && (forall t, u :: t in s.fills && u in s.fills && s.fills[t].Push? && s.fills[t] == s.fills[u] ==> t == u)
  }

  // A stream on its way into the pool is nowhere else.
  predicate Offered(s: State, stream: nat) {
    && stream < s.dialled && stream !in s.handed
    && forall i :: 0 <= i < |s.idle| ==> s.idle[i].stream != stream
  }

  // The entry popped and the rest are a suffix of the queue.
  lemma {:induction false} PoppedSuffix(q: seq<Entry>, now: nat) returns (k: nat)
    ensures var (hit, rest) := Popped(q, now);
            && k <= |q| && rest == q[k..]
            && (hit.Some? ==> k > 0 && hit.value == q[k - 1] && Fresh(q[k - 1], now))
            && (hit.None? ==> rest == [])
            && (forall i :: 0 <= i < (if hit.Some? then k - 1 else k) ==> !Fresh(q[i], now))
  {
    if q == [] {
      k := 0;
    } else if Fresh(q[0], now) {
      k := 1;
    } else {
      var j := PoppedSuffix(q[1..], now);
      k := j + 1;
      assert forall i :: 0 < i < |q| ==> q[i] == q[1..][i - 1];
    }
  }

  lemma NextKeepsSorted(s: State, e: Event)
    requires Sorted(s.idle, s.now)
    ensures Sorted(Next(s, e).idle, Next(s, e).now)
  {
    if e.Take? {
      var k := PoppedSuffix(s.idle, s.now);
    }
  }

  // The front of the queue is dropped.
  lemma DropKeepsApart(s: State, k: nat)
    requires Apart(s) && k <= |s.idle|
    ensures Apart(s.(idle := s.idle[k..]))
  {
    var s' := s.(idle := s.idle[k..]);
    assert forall i :: 0 <= i < |s'.idle| ==> s'.idle[i] == s.idle[k + i];
    forall t | t in s'.fills && s'.fills[t].Push? ensures Offered(s', s'.fills[t].stream) {
      assert Offered(s, s.fills[t].stream);
    }
  }

  // A stream that is neither queued nor on offer is handed out.
  lemma HandKeepsApart(s: State, stream: nat, dialled: nat)
    requires Apart(s) && Offered(s.(dialled := dialled), stream) && s.dialled <= dialled
    requires forall t :: t in s.fills ==> s.fills[t] != Push(stream)
    ensures Apart(s.(handed := s.handed + [stream], dialled := dialled))
  {
    var s' := s.(handed := s.handed + [stream], dialled := dialled);
    forall t | t in s'.fills && s'.fills[t].Push? ensures Offered(s', s'.fills[t].stream) {
      assert Offered(s, s.fills[t].stream);
    }
  }

  lemma TakeKeepsApart(s: State, ok: bool)
    requires Apart(s)
    ensures Apart(Next(s, Take(ok)))
  {
    var k := PoppedSuffix(s.idle, s.now);
    var s' := s.(idle := s.idle[k..]);
    DropKeepsApart(s, k);
    assert forall t :: t in s.fills && s.fills[t].Push? ==> Offered(s, s.fills[t].stream);
    if Popped(s.idle, s.now).0.Some? {
      HandKeepsApart(s', s.idle[k - 1].stream, s.dialled);
    } else if ok {
      HandKeepsApart(s', s.dialled, s.dialled + 1);
    }
  }

  lemma PushKeepsApart(s: State, t: nat, ok: bool)
    requires Apart(s) && t in s.fills && s.fills[t].Push?
    ensures Apart(Work(s, t, ok))
  {
    assert Offered(s, s.fills[t].stream);
  }

  lemma FillKeepsApart(s: State, t: nat, ok: bool)
    requires Apart(s) && t in s.fills && !s.fills[t].Push?
    ensures Apart(Work(s, t, ok))
  {
    var s' := Work(s, t, ok);
    forall u | u in s'.fills && s'.fills[u].Push?
      ensures Offered(s', s'.fills[u].stream)
    {
      assert u != t ==> Offered(s, s.fills[u].stream);
    }
  }

  lemma NextKeepsApart(s: State, e: Event)
    requires Apart(s)
    ensures Apart(Next(s, e))
  {
    match e
    case Take(ok) => TakeKeepsApart(s, ok);
    case Proceed(t, ok) =>
      if t in s.fills {
        if s.fills[t].Push? {
          PushKeepsApart(s, t, ok);
        } else {
          FillKeepsApart(s, t, ok);
        }
      }
    case Spawn(_) =>
    case Tick(_) =>
  }

  ghost predicate Inv(s: State) { Counted(s) && Sorted(s.idle, s.now) && Apart(s) }

  lemma {:induction false} RunKeepsInv(s: State, es: seq<Event>)
    requires Inv(s)
    ensures Inv(Run(s, es))
    decreases |es|
  {
    if es != [] {
      NextKeepsCounted(s, es[0]);
      NextKeepsSorted(s, es[0]);
      NextKeepsApart(s, es[0]);
      RunKeepsInv(Next(s, es[0]), es[1..]);
    }
  }

  // In every interleaving the counter is the number of tasks dialling or backing out, and
  // neither the fills in progress nor the queue exceed the limit.
  lemma LimitsHold(maxIdle: nat, es: seq<Event>)
    ensures var s := Run(Init(maxIdle), es);
            && s.filling == |Dialling(s.fills)| + |BackingOut(s.fills)|
            && |Dialling(s.fills)| <= s.max && |s.idle| <= s.max
            && s.max == if maxIdle == 0 then 1 else maxIdle
  {
    InitInv(maxIdle);
    RunKeepsInv(Init(maxIdle), es);
    MaxIsFixed(Init(maxIdle), es);
  }

  // No stream is handed out twice or while it is still pooled.
  lemma HandedOutOnce(maxIdle: nat, es: seq<Event>)
    ensures var s := Run(Init(maxIdle), es);
            && (forall i, j :: 0 <= i < j < |s.handed| ==> s.handed[i] != s.handed[j])
            && (forall i :: 0 <= i < |s.idle| ==> s.idle[i].stream !in s.handed)
  {
    InitInv(maxIdle);
    RunKeepsInv(Init(maxIdle), es);
  }

  // A pooled stream that a take returns is under 25 s old, and so is all that it leaves
  // behind; a take that returns none has emptied a queue of streams that were all too old.
  lemma TakenIsFresh(maxIdle: nat, es: seq<Event>)
    ensures var s := Run(Init(maxIdle), es);
            var (hit, rest) := Popped(s.idle, s.now);
            && (hit.Some? ==> hit.value in s.idle && s.now - hit.value.at < 25_000)
            && (forall i :: 0 <= i < |rest| ==> rest[i] in s.idle && s.now - rest[i].at < 25_000)
            && (hit.None? ==> rest == [] && forall i :: 0 <= i < |s.idle| ==> s.now - s.idle[i].at >= 25_000)
  {
    InitInv(maxIdle);
    RunKeepsInv(Init(maxIdle), es);
    var s := Run(Init(maxIdle), es);
    var k := PoppedSuffix(s.idle, s.now);
    var rest := Popped(s.idle, s.now).1;
    forall i | 0 <= i < |rest|
      ensures rest[i] in s.idle && Fresh(rest[i], s.now)
    {
      assert rest[i] == s.idle[k + i] && s.idle[k - 1].at <= s.idle[k + i].at;
    }
  }

  lemma InitInv(maxIdle: nat)
    ensures Inv(Init(maxIdle))
  {
    assert Dialling(map[]) == {} && BackingOut(map[]) == {};
  }

  lemma {:induction false} MaxIsFixed(s: State, es: seq<Event>)
    ensures Run(s, es).max == s.max
    decreases |es|
  {
    if es != [] {
      MaxIsFixed(Next(s, es[0]), es[1..]);
    }
  }

  // ----- The program -----

  // The event is a step of fill task t.
  predicate About(e: Event, t: nat) { (e.Spawn? || e.Proceed?) && e.t == t }

  lemma {:induction false} RunAppend(s: State, a: seq<Event>, b: seq<Event>)
    ensures Run(s, a + b) == Run(Run(s, a), b)
    decreases |a|
  {
    if a == [] {
      assert a + b == b;
    } else {
      assert (a + b)[1..] == a[1..] + b;
      RunAppend(Next(s, a[0]), a[1..], b);
    }
  }

  lemma RunOne(s: State, trace: seq<Event>, e: Event)
    ensures Run(s, trace + [e]) == Next(Run(s, trace), e)
  {
    RunAppend(s, trace, [e]);
    assert [e][1..] == [];
  }

  // A fill task moves only by its own events.
  lemma {:induction false} OthersKeep(s: State, es: seq<Event>, t: nat)
    requires t in s.fills && forall j :: 0 <= j < |es| ==> !About(es[j], t)
    ensures t in Run(s, es).fills && Run(s, es).fills[t] == s.fills[t]
    decreases |es|
  {
    if es != [] {
      assert !About(es[0], t);
      OthersKeep(Next(s, es[0]), es[1..], t);
    }
  }

  // How a fill ends.
  datatype Filled = Full | Crowded | Failed | Added(stream: nat) | Surplus(stream: nat)

  // Event number `at`, a step of fill t, is the reason.
  predicate Because(r: Filled, size: nat, es: seq<Event>, t: nat, at: nat)
    requires at < |es|
  {
    var s := Run(Init(size), es[..at]);
    es[at].Proceed? && es[at].t == t && t in s.fills &&
    match r
    case Full => s.fills[t].Check? && |s.idle| >= s.max
    case Crowded => s.fills[t].Count? && s.filling >= s.max
    case Failed => s.fills[t].Dial? && !es[at].ok
    case Added(x) => s.fills[t] == Push(x) && |s.idle| < s.max
    case Surplus(x) => s.fills[t] == Push(x) && |s.idle| >= s.max
  }

  // The pool as one of its users sees it, others moving wherever it waits: a fill task `me`, which
  // may also take. Its program is shown to be a run of the machine.
  class Pool {
    const size: nat
    const maxIdle: nat
    const me: nat
    // The outcome of the k-th dial, and what happens elsewhere before the k-th operation.
    const oks: nat -> bool
    const gaps: nat -> seq<Event>

    var idle: seq<Entry>
    var filling: int
    var tick: nat
    var trace: seq<Event>

    function Now(): State
      reads this
    {
      Run(Init(size), trace)
    }

    ghost predicate Placed()
      reads this
    {
      && me in Now().fills && maxIdle == Now().max
      && forall k, j :: 0 <= j < |gaps(k)| ==> !About(gaps(k)[j], me)
    }

    ghost predicate Valid()
      reads this
    {
      Placed() && Now().idle == idle && Now().filling == filling
    }

    // Where the machine has the fill task.
    ghost function Me(): Fill
      requires Placed()
      reads this
    {
      Now().fills[me]
    }

    // A fill task spawned after any run.
    constructor (size: nat, before: seq<Event>, me: nat, oks: nat -> bool, gaps: nat -> seq<Event>)
      requires me !in Run(Init(size), before).fills
      requires forall k, j :: 0 <= j < |gaps(k)| ==> !About(gaps(k)[j], me)
      ensures Valid() && Me() == Check && this.size == size
    {
      this.size, this.me, this.oks, this.gaps := size, me, oks, gaps;
      maxIdle := if size == 0 then 1 else size;
      tick, trace := 0, before + [Spawn(me)];
      var now := Run(Init(size), before + [Spawn(me)]);
      idle, filling := now.idle, now.filling;
      RunOne(Init(size), before, Spawn(me));
      MaxIsFixed(Init(size), before);
    }

    method Wait() returns (ok: bool)
      requires Valid()
      modifies `idle, `filling, `tick, `trace
      ensures Valid() && Me() == old(Me()) && old(trace) <= trace
    {
      RunAppend(Init(size), trace, gaps(tick));
      OthersKeep(Now(), gaps(tick), me);
      MaxIsFixed(Now(), gaps(tick));
      trace := trace + gaps(tick);
      idle, filling := Now().idle, Now().filling;
      ok := oks(tick);
      tick := tick + 1;
    }

    // A step of the fill is over: what it did is what the machine's step does.
    method Log(ok: bool)
      requires Placed()
      requires var w := Work(Now(), me, ok); idle == w.idle && filling == w.filling
      modifies `trace
      ensures Valid() && Me() == old(Work(Now(), me, ok).fills[me])
      ensures trace == old(trace) + [Proceed(me, ok)] && Now() == old(Work(Now(), me, ok))
    {
      RunOne(Init(size), trace, Proceed(me, ok));
      trace := trace + [Proceed(me, ok)];
    }

    // fill_one: it ends in every case, for the reason it gives, which is that of its event number
    // `at`. A stream it queues is the last one in the queue, with the time of the push.
    method FillOne() returns (r: Filled, ghost at: nat)
      requires Valid() && Me() == Check
      modifies `idle, `filling, `tick, `trace
      ensures Valid() && Me() == Ended && |idle| <= maxIdle
      ensures old(trace) <= trace && |old(trace)| <= at < |trace| && Because(r, size, trace, me, at)
      ensures r.Added? ==> at == |trace| - 1 && idle != [] && idle[|idle| - 1] == Entry(Now().now, r.stream)
    {
      var ok := Wait();
      var full := |idle| >= maxIdle;
      ghost var before := trace;
      Log(ok);
      if full {
        r, at := Full, |before|;
        assert trace[..at] == before;
      } else {
        r, at := CountAndDial();
      }
      LimitsHold(size, trace);
    }

    method CountAndDial() returns (r: Filled, ghost at: nat)
      requires Valid() && Me() == Count
      modifies `idle, `filling, `tick, `trace
      ensures Valid() && Me() == Ended
      ensures old(trace) <= trace && |old(trace)| <= at < |trace| && Because(r, size, trace, me, at)
      ensures r.Added? ==> at == |trace| - 1 && idle != [] && idle[|idle| - 1] == Entry(Now().now, r.stream)
    {
      var ok := Wait();
      var inflight := filling;
      filling := filling + 1;
      ghost var before := trace;
      Log(ok);
      if inflight >= maxIdle {
        r, at := Crowded, |before|;
        ok := Wait();
        filling := filling - 1;
        Log(ok);
        assert trace[..at] == before;
      } else {
        r, at := DialAndOffer();
      }
    }

    method DialAndOffer() returns (r: Filled, ghost at: nat)
      requires Valid() && Me() == Dial
      modifies `idle, `filling, `tick, `trace
      ensures Valid() && Me() == Ended
      ensures old(trace) <= trace && |old(trace)| <= at < |trace| && Because(r, size, trace, me, at)
      ensures r.Added? ==> at == |trace| - 1 && idle != [] && idle[|idle| - 1] == Entry(Now().now, r.stream)
    {
      var ok := Wait();
      filling := filling - 1;
      ghost var before := trace;
      Log(ok);
      if !ok {
        r, at := Failed, |before|;
        assert trace[..at] == before;
      } else {
        r, at := Offer();
      }
    }

    // The dialled stream is queued unless the queue is full.
    method Offer() returns (r: Filled, ghost at: nat)
      requires Valid() && Me().Push?
      modifies `idle, `filling, `tick, `trace
      ensures Valid() && Me() == Ended
      ensures old(trace) <= trace && |old(trace)| <= at < |trace| && Because(r, size, trace, me, at)
      ensures r.Added? ==> at == |trace| - 1 && idle != [] && idle[|idle| - 1] == Entry(Now().now, r.stream)
    {
      var ok := Wait();
      var stream := OfferedStream();
      r := Surplus(stream);
      if |idle| < maxIdle {
        r := Added(stream);
        idle := idle + [Entry(Now().now, stream)];
      }
      at := |trace|;
      ghost var before := trace;
      Log(ok);
      assert trace[..at] == before;
    }

    function OfferedStream(): nat
      requires me in Now().fills && Now().fills[me].Push?
      reads this
    {
      Now().fills[me].stream
    }

    // The part of take that runs under the lock.
    method TakePooled(now: nat) returns (hit: Option<Entry>)
      modifies `idle
      ensures (hit, idle) == Popped(old(idle), now)
    {
      while idle != []
        invariant Popped(idle, now) == Popped(old(idle), now)
        decreases |idle|
      {
        var front := idle[0];
        idle := idle[1..];
        if Fresh(front, now) {
          return Some(front);
        }
      }
      return None;
    }

    // take: `at` is the run up to its hold of the lock, `ok` whether its dial would succeed. It
    // returns the first fresh stream of the queue, or a dialled one if there is none; no stream it
    // returns was handed out before, and all that stays queued is fresh. In every case it starts
    // one more fill task, `fill`. The dial of a take touches nothing shared.
    method Take() returns (r: Option<nat>, pooled: Option<Entry>, ok: bool, fill: nat, ghost at: seq<Event>)
      requires Valid()
      modifies `idle, `filling, `tick, `trace
      ensures Valid() && Me() == old(Me())
      ensures old(trace) <= at && trace == at + [Event.Take(ok)] + [Spawn(fill)]
      ensures var s := Run(Init(size), at);
              && pooled == Popped(s.idle, s.now).0 && (pooled.Some? ==> Fresh(pooled.value, s.now))
              && r == (if pooled.Some? then Some(pooled.value.stream) else if ok then Some(s.dialled) else None)
              && Now().fills == s.fills[fill := Check] && fill !in s.fills
      ensures r.Some? ==>
                var handed := Now().handed;
                && handed != [] && handed[|handed| - 1] == r.value
                && forall i :: 0 <= i < |handed| - 1 ==> handed[i] != r.value
      ensures forall i :: 0 <= i < |idle| ==> Fresh(idle[i], Now().now)
    {
      ok := Wait();
      at := trace;
      var dialled := Now().dialled;
      TakenIsFresh(size, trace);
      pooled := TakePooled(Now().now);
      r := if pooled.Some? then Some(pooled.value.stream) else if ok then Some(dialled) else None;
      RunOne(Init(size), trace, Event.Take(ok));
      trace := trace + [Event.Take(ok)];
      HandedOutOnce(size, trace);
      fill := SpawnFill();
    }

    // spawn_fill.
    method SpawnFill() returns (fill: nat)
      requires Valid()
      modifies `trace
      ensures Valid() && Me() == old(Me()) && trace == old(trace) + [Spawn(fill)]
      ensures fill !in old(Now().fills) && Now() == old(Now()).(fills := old(Now().fills)[fill := Check])
    {
      var t := UnusedNumber(Now().fills.Keys);
      fill := t;
      RunOne(Init(size), trace, Spawn(fill));
      trace := trace + [Spawn(fill)];
    }
  }

  method UnusedNumber(used: set<nat>) returns (t: nat)
    ensures t !in used
  {
    t := 0;
    var left := used;
    while t in used
      invariant left <= used && forall k :: k in used && k >= t ==> k in left
      decreases left
    {
      left := left - {t};
      t := t + 1;
    }
  }
}
