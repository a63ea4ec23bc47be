/** The split-default route plan: the journal `build_plan` lays out, and where the kernel's
    longest-prefix lookup sends an address once that journal is installed. */
module RoutePlan {
  import opened Bytes
  import opened IpNets
  import opened RouteJournal

  datatype DefaultRoute = DefaultRoute(gateway: Option<Addr>, dev: string)

  datatype Request = Request(
    default: DefaultRoute, tun: string, servers: seq<Addr>,
    bypassPrivate: bool, extra: seq<Net>, ipv6: bool)

  // ----- The plan -----

  function ServerRoutes(q: Request, servers: seq<Addr>): (r: seq<Route>)
    ensures |r| == |servers|
  {
    if servers == [] then []
    else
      var n := |servers| - 1;
      ServerRoutes(q, servers[..n]) + [Route(Host(servers[n]), q.default.gateway, q.default.dev)]
  }

  // An IPv6 block is routed only with ipv6 on, and then only through an IPv6 gateway.
  function BypassRoute(q: Request, net: Net): seq<Route> {
    if net.family == V4 then [Route(net, q.default.gateway, q.default.dev)]
    else if q.ipv6 then [Route(net, V6Only(q.default.gateway), q.default.dev)]
    else []
  }

  function V6Only(gateway: Option<Addr>): Option<Addr> {
    if gateway.Some? && gateway.value.family == V6 then gateway else None
  }

  function BypassRoutes(q: Request, nets: seq<Net>): seq<Route> {
    if nets == [] then []
    else
      var n := |nets| - 1;
      BypassRoutes(q, nets[..n]) + BypassRoute(q, nets[n])
  }

  function TunRoutes(q: Request, nets: seq<Net>): (r: seq<Route>)
    ensures |r| == |nets|
  {
    if nets == [] then []
    else
      var n := |nets| - 1;
      TunRoutes(q, nets[..n]) + [Route(nets[n], None, q.tun)]
  }

  function Bypassed(q: Request): seq<Net> {
    if q.bypassPrivate then PRIVATE_CIDRS + q.extra else []
  }

  function Plan(q: Request): seq<Route> {
    ServerRoutes(q, q.servers) + BypassRoutes(q, Bypassed(q)) + TunRoutes(q, SPLIT_DEFAULT_V4)
    + (if q.ipv6 then TunRoutes(q, SPLIT_DEFAULT_V6) else [])
  }

  // build_plan.
  method BuildPlan(q: Request) returns (added: seq<Route>)
    ensures added == Plan(q)
  {
    added := [];
    for k := 0 to |q.servers|
      invariant added == ServerRoutes(q, q.servers[..k])
    {
      added := added + [Route(Host(q.servers[k]), q.default.gateway, q.default.dev)];
      assert q.servers[..k + 1][..k] == q.servers[..k];
    }
    assert q.servers[..|q.servers|] == q.servers;
    if q.bypassPrivate {
      added := AddBypassRoutes(q, added, PRIVATE_CIDRS + q.extra);
    }
    added := AddTunRoutes(q, added, SPLIT_DEFAULT_V4);
    if q.ipv6 {
      added := AddTunRoutes(q, added, SPLIT_DEFAULT_V6);
    }
  }

  method AddBypassRoutes(q: Request, before: seq<Route>, nets: seq<Net>) returns (added: seq<Route>)
    ensures added == before + BypassRoutes(q, nets)
  {
    added := before;
    for k := 0 to |nets|
      invariant added == before + BypassRoutes(q, nets[..k])
    {
      if nets[k].family == V4 {
        added := added + [Route(nets[k], q.default.gateway, q.default.dev)];
      } else if q.ipv6 {
        added := added + [Route(nets[k], V6Only(q.default.gateway), q.default.dev)];
      }
      assert nets[..k + 1][..k] == nets[..k];
    }
    assert nets[..|nets|] == nets;
  }

  method AddTunRoutes(q: Request, before: seq<Route>, nets: seq<Net>) returns (added: seq<Route>)
    ensures added == before + TunRoutes(q, nets)
  {
    added := before;
    for k := 0 to |nets|
      invariant added == before + TunRoutes(q, nets[..k])
    {
      added := added + [Route(nets[k], None, q.tun)];
      assert nets[..k + 1][..k] == nets[..k];
    }
    assert nets[..|nets|] == nets;
  }

  // ----- The kernel's lookup -----

  predicate Covers(k: Key, a: Addr) {
    && k.dest.family == a.family
    && k.dest.len <= Width(k.dest.family)
    && BlockIndex(k.dest, a.value) == k.dest.base
  }

  predicate Better(k: Key, l: Key) {
    k.dest.len > l.dest.len || (k.dest.len == l.dest.len && k.metric <= l.metric)
  }

  // Longest prefix first, then lowest metric.
  ghost predicate Selected(t: Table, a: Addr, k: Key) {
    k in t && Covers(k, a) && forall l :: l in t && Covers(l, a) ==> Better(k, l)
  }

  // ----- What the plan achieves -----

  // The addresses a private bypass keeps off the tunnel.
  predicate Bypasses(q: Request, a: Addr) {
    && q.bypassPrivate
    && (InPrivateRange(a) || exists i :: 0 <= i < |q.extra| && q.extra[i].len >= 1 && Contains(q.extra[i], a))
  }

  // The hop the plan lays out for an address. IPv6 is left alone, but for the servers, unless it is on.
  function Expected(q: Request, a: Addr): Option<Hop> {
    if a in q.servers then Some(Hop(q.default.gateway, q.default.dev))
    else if a.family == V6 && !q.ipv6 then None
    else if Bypasses(q, a) then
      var via := q.default.gateway;
      Some(Hop(if a.family == V6 && via.Some? && via.value.family == V4 then None else via, q.default.dev))
    else Some(Hop(None, q.tun))
  }

  // A route of the machine's own that the split default cannot override.
  ghost predicate Shadowed(t: Table, a: Addr) {
    exists k :: k in t && Covers(k, a) && (k.dest.len >= 2 || (k.dest.len == 1 && k.metric == 0))
  }

  function NoFaults(n: nat): seq<Option<string>> { seq(n, _ => None) }

  function InstalledPlan(t: Table, q: Request): Table {
    Installed(t, Plan(q), NoFaults(|Plan(q)|))
  }

  // The plan splits into routes that keep off the tunnel and routes into it.
  function OffRoutes(q: Request): seq<Route> {
    ServerRoutes(q, q.servers) + BypassRoutes(q, Bypassed(q))
  }

  function IntoRoutes(q: Request): seq<Route> {
    TunRoutes(q, SPLIT_DEFAULT_V4) + (if q.ipv6 then TunRoutes(q, SPLIT_DEFAULT_V6) else [])
  }

  lemma PlanSplits(q: Request)
    ensures Plan(q) == OffRoutes(q) + IntoRoutes(q)
  {
  }

  lemma CoversIsContains(r: Route, a: Addr)
    ensures Covers(KeyOf(r), a) <==> Contains(r.dest, a)
  {
  }

  lemma SameBlock(k: Key, l: Key, a: Addr)
    requires Covers(k, a) && Covers(l, a) && k.dest.len == l.dest.len && k.metric == l.metric
    ensures k == l
  {
  }

  // The first route planned for a free slot is the one that ends up in it.
  lemma {:induction false} FirstWins(t: Table, journal: seq<Route>, k: Key) returns (m: nat)
    requires k !in t && k in Installed(t, journal, NoFaults(|journal|))
    ensures m < |journal| && KeyOf(journal[m]) == k
    ensures forall j :: 0 <= j < m ==> KeyOf(journal[j]) != k
    ensures Installed(t, journal, NoFaults(|journal|))[k] == HopOf(journal[m])
    decreases |journal|
  {
    var n := |journal| - 1;
    assert NoFaults(|journal|)[..n] == NoFaults(n);
    if k in Installed(t, journal[..n], NoFaults(n)) {
      m := FirstWins(t, journal[..n], k);
      assert forall j :: 0 <= j < n ==> journal[..n][j] == journal[j];
    } else {
      m := n;
      forall j | 0 <= j < n
        ensures KeyOf(journal[j]) != k
      {
        InstalledSlots(t, journal[..n], NoFaults(n), k);
        assert NoFaults(n)[j].None? && journal[..n][j] == journal[j];
      }
    }
  }

  lemma {:induction false} ServerRoutesAt(q: Request, servers: seq<Addr>, i: nat)
    requires i < |servers|
    ensures ServerRoutes(q, servers)[i] == Route(Host(servers[i]), q.default.gateway, q.default.dev)
  {
    if i < |servers| - 1 {
      ServerRoutesAt(q, servers[..|servers| - 1], i);
    }
  }

  // Every bypass route stems from a listed net, and every net that is to be routed has one.
  lemma {:induction false} BypassRoutesSound(q: Request, nets: seq<Net>)
    ensures forall r :: r in BypassRoutes(q, nets) ==> r.dest in nets && r in BypassRoute(q, r.dest)
    ensures forall i :: 0 <= i < |nets| ==> forall r :: r in BypassRoute(q, nets[i]) ==> r in BypassRoutes(q, nets)
  {
    if nets != [] {
      var n := |nets| - 1;
      BypassRoutesSound(q, nets[..n]);
      forall i, r | 0 <= i < |nets| && r in BypassRoute(q, nets[i])
        ensures r in BypassRoutes(q, nets)
      {
        assert i < n ==> nets[..n][i] == nets[i];
      }
    }
  }

  // The listed nets, in address values.
  lemma BypassedIff(q: Request, a: Addr)
    ensures Bypasses(q, a) <==>
            exists i :: 0 <= i < |Bypassed(q)| && Bypassed(q)[i].len >= 1 && Contains(Bypassed(q)[i], a)
  {
    var nets := Bypassed(q);
    IsPrivateIff(a);
    if q.bypassPrivate {
      assert forall i :: 0 <= i < |PRIVATE_CIDRS| ==> nets[i] == PRIVATE_CIDRS[i] && nets[i].len >= 1;
      assert forall i :: 0 <= i < |q.extra| ==> nets[|PRIVATE_CIDRS| + i] == q.extra[i];
      assert forall i :: |PRIVATE_CIDRS| <= i < |nets| ==> nets[i] == q.extra[i - |PRIVATE_CIDRS|];
    }
  }

  // A route off the tunnel that covers an address is either a server's or a bypassed net's.
  lemma OffRoutesSound(q: Request, m: nat, a: Addr)
    requires m < |OffRoutes(q)| && Covers(KeyOf(OffRoutes(q)[m]), a) && OffRoutes(q)[m].dest.len >= 1
    ensures m < |q.servers| ==> a in q.servers && HopOf(OffRoutes(q)[m]) == Hop(q.default.gateway, q.default.dev)
    ensures m >= |q.servers| ==>
              Bypasses(q, a) && (a in q.servers || Expected(q, a) == Some(HopOf(OffRoutes(q)[m])))
  {
    var r := OffRoutes(q)[m];
    CoversIsContains(r, a);
    if m < |q.servers| {
      ServerRoutesAt(q, q.servers, m);
      HostIs(q.servers[m], a);
    } else {
      assert r in BypassRoutes(q, Bypassed(q));
      BypassRoutesSound(q, Bypassed(q));
      BypassedIff(q, a);
    }
  }

  lemma ServerRouted(q: Request, a: Addr) returns (m: nat)
    requires a in q.servers
    ensures m < |q.servers| && Covers(KeyOf(OffRoutes(q)[m]), a) && OffRoutes(q)[m].dest.len == Width(a.family)
  {
    m :| 0 <= m < |q.servers| && q.servers[m] == a;
    ServerRoutesAt(q, q.servers, m);
    HostIs(a, a);
    CoversIsContains(OffRoutes(q)[m], a);
  }

  lemma OffRoutesComplete(q: Request, a: Addr) returns (m: nat)
    requires a in q.servers || (Bypasses(q, a) && (a.family == V4 || q.ipv6))
    ensures m < |OffRoutes(q)| && Covers(KeyOf(OffRoutes(q)[m]), a) && OffRoutes(q)[m].dest.len >= 1
    ensures a in q.servers ==> m < |q.servers| && OffRoutes(q)[m].dest.len == Width(a.family)
  {
    if a in q.servers {
      m := ServerRouted(q, a);
    } else {
      var i := BypassRouted(q, Bypassed(q), a);
      m := |q.servers| + i;
    }
  }

  lemma BypassRouted(q: Request, nets: seq<Net>, a: Addr) returns (m: nat)
    requires Bypasses(q, a) && (a.family == V4 || q.ipv6) && nets == Bypassed(q)
    ensures m < |BypassRoutes(q, nets)|
    ensures Covers(KeyOf(BypassRoutes(q, nets)[m]), a) && BypassRoutes(q, nets)[m].dest.len >= 1
  {
    BypassedIff(q, a);
    var i :| 0 <= i < |nets| && nets[i].len >= 1 && Contains(nets[i], a);
    BypassRoutesSound(q, nets);
    var r := BypassRoute(q, nets[i])[0];
    assert r in BypassRoutes(q, nets);
    CoversIsContains(r, a);
    m :| 0 <= m < |BypassRoutes(q, nets)| && BypassRoutes(q, nets)[m] == r;
  }

  lemma IntoRoutesShape(q: Request)
    ensures |IntoRoutes(q)| == if q.ipv6 then 4 else 2
    ensures forall i :: 0 <= i < 2 ==> IntoRoutes(q)[i] == Route(SPLIT_DEFAULT_V4[i], None, q.tun)
    ensures q.ipv6 ==> forall i :: 0 <= i < 2 ==> IntoRoutes(q)[2 + i] == Route(SPLIT_DEFAULT_V6[i], None, q.tun)
  {
    forall i | 0 <= i < 2
      ensures TunRoutes(q, SPLIT_DEFAULT_V4)[i] == Route(SPLIT_DEFAULT_V4[i], None, q.tun)
      ensures TunRoutes(q, SPLIT_DEFAULT_V6)[i] == Route(SPLIT_DEFAULT_V6[i], None, q.tun)
    {
      TunRoutesAt(q, SPLIT_DEFAULT_V4, i);
      TunRoutesAt(q, SPLIT_DEFAULT_V6, i);
    }
  }

  lemma {:induction false} TunRoutesAt(q: Request, nets: seq<Net>, i: nat)
    requires i < |nets|
    ensures TunRoutes(q, nets)[i] == Route(nets[i], None, q.tun)
  {
    if i < |nets| - 1 {
      TunRoutesAt(q, nets[..|nets| - 1], i);
    }
  }

  // A route into the tunnel is half a family, and of a family that is tunnelled.
  lemma IntoRoutesSound(q: Request, m: nat, a: Addr)
    requires m < |IntoRoutes(q)|
    ensures HopOf(IntoRoutes(q)[m]) == Hop(None, q.tun) && IntoRoutes(q)[m].dest.len == 1
    ensures Covers(KeyOf(IntoRoutes(q)[m]), a) ==> a.family == V4 || q.ipv6
  {
    IntoRoutesShape(q);
    if m < 2 {
      assert IntoRoutes(q)[m] == Route(SPLIT_DEFAULT_V4[m], None, q.tun);
    } else {
      assert IntoRoutes(q)[2 + (m - 2)] == Route(SPLIT_DEFAULT_V6[m - 2], None, q.tun);
    }
  }

  // One half of the split default covers every address of a tunnelled family.
  lemma SplitCovers(q: Request, a: Addr) returns (r: Route)
    requires Legal(a) && (a.family == V4 || q.ipv6)
    ensures r in Plan(q) && Covers(KeyOf(r), a) && r.dest.len == 1
  {
    IntoRoutesShape(q);
    SplitDefaults(a);
    if a.family == V4 {
      r := IntoRoutes(q)[if a.value < 0x8000_0000 then 0 else 1];
    } else {
      var i := if a.value < 0x8000_0000_0000_0000_0000_0000_0000_0000 then 0 else 1;
      r := IntoRoutes(q)[2 + i];
    }
    CoversIsContains(r, a);
    PlanSplits(q);
  }

  lemma PlannedIsInstalled(t: Table, q: Request, r: Route)
    requires r in Plan(q)
    ensures KeyOf(r) in InstalledPlan(t, q)
  {
    var i :| 0 <= i < |Plan(q)| && Plan(q)[i] == r;
    assert NoFaults(|Plan(q)|)[i].None?;
    InstalledSlots(t, Plan(q), NoFaults(|Plan(q)|), KeyOf(r));
  }

  // Where the plan has a hop for an address, it has a route of length at least one.
  lemma ExpectedIsRouted(q: Request, a: Addr) returns (r: Route)
    requires Legal(a) && Expected(q, a).Some?
    ensures r in Plan(q) && Covers(KeyOf(r), a) && r.dest.len >= 1
  {
    if a.family == V4 || q.ipv6 {
      r := SplitCovers(q, a);
    } else {
      var m := OffRoutesComplete(q, a);
      PlanSplits(q);
      r := OffRoutes(q)[m];
    }
  }

  // The chosen route is at least as long as the split default.
  lemma SelectedIsLong(t: Table, q: Request, a: Addr, k: Key)
    requires Legal(a) && Expected(q, a).Some?
    requires Selected(InstalledPlan(t, q), a, k)
    ensures k.dest.len >= 2 || (k.dest.len == 1 && k.metric == 0)
  {
    var r := ExpectedIsRouted(q, a);
    PlannedIsInstalled(t, q, r);
    assert Better(k, KeyOf(r));
  }

  // A route of the plan, chosen over a route off the tunnel, is the first planned for its slot:
  // it comes no later than that route.
  lemma OffRouteTakesTheSlot(t: Table, q: Request, a: Addr, k: Key, i: nat)
    requires Selected(InstalledPlan(t, q), a, k) && k.metric == 0
    requires i < |OffRoutes(q)| && Covers(KeyOf(OffRoutes(q)[i]), a) && k.dest.len <= OffRoutes(q)[i].dest.len
    ensures KeyOf(OffRoutes(q)[i]) == k
  {
    var r := OffRoutes(q)[i];
    assert r in Plan(q) by { PlanSplits(q); }
    PlannedIsInstalled(t, q, r);
    assert Better(k, KeyOf(r));
    SameBlock(k, KeyOf(r), a);
  }

  lemma OwnRouteTakesTheSlot(t: Table, q: Request, a: Addr, k: Key)
    requires Selected(InstalledPlan(t, q), a, k)
    requires k.dest.len == 1 && k.metric == 0 && Shadowed(t, a)
    ensures k in t
  {
    var l :| l in t && Covers(l, a) && (l.dest.len >= 2 || (l.dest.len == 1 && l.metric == 0));
    InstalledSlots(t, Plan(q), NoFaults(|Plan(q)|), l);
    assert Better(k, l);
    SameBlock(k, l, a);
  }

  // A chosen route that keeps off the tunnel is the one expected...
  lemma SelectedOff(t: Table, q: Request, a: Addr, k: Key, m: nat)
    requires Legal(a) && Selected(InstalledPlan(t, q), a, k)
    requires m < |OffRoutes(q)| && KeyOf(OffRoutes(q)[m]) == k
    requires forall j :: 0 <= j < m ==> KeyOf(OffRoutes(q)[j]) != k
    ensures Expected(q, a) == Some(HopOf(OffRoutes(q)[m])) && (a in q.servers || Bypasses(q, a))
  {
    if a in q.servers {
      var i := ServerRouted(q, a);
      OffRouteTakesTheSlot(t, q, a, k, i);
      assert m <= i;
      OffRoutesSound(q, m, a);
    } else {
      if OffRoutes(q)[m].dest.len == 0 {
        ShortIsBypass(q, m, a);
        SelectedIsLong(t, q, a, k);
      }
      OffRoutesSound(q, m, a);
    }
  }

  // A default route among the routes off the tunnel is of a family that has a split default.
  lemma ShortIsBypass(q: Request, m: nat, a: Addr)
    requires m < |OffRoutes(q)| && Covers(KeyOf(OffRoutes(q)[m]), a) && OffRoutes(q)[m].dest.len == 0
    ensures Expected(q, a).Some?
  {
    var r := OffRoutes(q)[m];
    if m < |q.servers| {
      ServerRoutesAt(q, q.servers, m);
    } else {
      assert r in BypassRoutes(q, Bypassed(q));
      BypassRoutesSound(q, Bypassed(q));
    }
  }

  // ... and a route into the tunnel is chosen only when nothing else claims the address.
  lemma SelectedInto(t: Table, q: Request, a: Addr, k: Key, m: nat)
    requires Legal(a) && Selected(InstalledPlan(t, q), a, k) && k !in t
    requires m < |IntoRoutes(q)| && KeyOf(IntoRoutes(q)[m]) == k
    requires forall j :: 0 <= j < |OffRoutes(q)| ==> KeyOf(OffRoutes(q)[j]) != k
    ensures Expected(q, a) == Some(HopOf(IntoRoutes(q)[m])) && a !in q.servers && !Bypasses(q, a)
    ensures !Shadowed(t, a)
  {
    IntoRoutesSound(q, m, a);
    if a in q.servers || Bypasses(q, a) {
      var i := OffRoutesComplete(q, a);
      OffRouteTakesTheSlot(t, q, a, k, i);
    } else if Shadowed(t, a) {
      OwnRouteTakesTheSlot(t, q, a, k);
    }
  }

  // The route that took a free slot is the first planned for it.
  lemma FirstPlanned(t: Table, q: Request, k: Key, off: seq<Route>, into: seq<Route>) returns (m: nat)
    requires off == OffRoutes(q) && into == IntoRoutes(q)
    requires k in InstalledPlan(t, q) && k !in t
    ensures m < |off| + |into|
    ensures m < |off| ==> KeyOf(off[m]) == k && InstalledPlan(t, q)[k] == HopOf(off[m])
    ensures m >= |off| ==> KeyOf(into[m - |off|]) == k && InstalledPlan(t, q)[k] == HopOf(into[m - |off|])
    ensures forall j :: 0 <= j < m && j < |off| ==> KeyOf(off[j]) != k
  {
    var plan := off + into;
    PlanSplits(q);
    m := FirstWins(t, plan, k);
    assert forall j :: 0 <= j < |off| ==> plan[j] == off[j];
    assert m >= |off| ==> plan[m] == into[m - |off|];
  }

  lemma SelectedPlanned(t: Table, q: Request, a: Addr, k: Key, off: seq<Route>, into: seq<Route>)
    requires Legal(a) && off == OffRoutes(q) && into == IntoRoutes(q)
    requires Selected(InstalledPlan(t, q), a, k) && k !in t
    ensures Expected(q, a) == Some(InstalledPlan(t, q)[k])
    ensures a in q.servers || Bypasses(q, a) || !Shadowed(t, a)
  {
    var m := FirstPlanned(t, q, k, off, into);
    if m < |off| {
      SelectedOff(t, q, a, k, m);
    } else {
      SelectedInto(t, q, a, k, m - |off|);
    }
  }

  // With the plan installed over any table that does not use the tunnel device yet, an address
  // goes into the tunnel exactly when its family is tunnelled, it is no server, it is not
  // bypassed and the machine has no route of its own that beats the split default.
  lemma TunnelTakesTheRest(t: Table, q: Request, a: Addr, k: Key)
    requires Legal(a) && Selected(InstalledPlan(t, q), a, k)
    requires q.tun != q.default.dev && forall l :: l in t ==> t[l].dev != q.tun
    ensures InstalledPlan(t, q)[k].dev == q.tun <==>
            && (a.family == V4 || q.ipv6) && a !in q.servers && !Bypasses(q, a) && !Shadowed(t, a)
  {
    if k in t {
      InstalledSlots(t, Plan(q), NoFaults(|Plan(q)|), k);
      if Expected(q, a).Some? {
        SelectedIsLong(t, q, a, k);
      }
    } else {
      SelectedPlanned(t, q, a, k, OffRoutes(q), IntoRoutes(q));
    }
  }

  // Over any table, wherever the plan has a hop for an address some route is selected; unless it is
  // one the machine had, which then beats the split default, it has exactly that hop. So it is
  // for every address over a table that holds only default routes.
  lemma SplitDefault(t: Table, q: Request, a: Addr, k: Key)
    requires Legal(a)
    ensures Expected(q, a).Some? ==> exists l :: Selected(InstalledPlan(t, q), a, l)
    ensures Selected(InstalledPlan(t, q), a, k) && k !in t ==> Expected(q, a) == Some(InstalledPlan(t, q)[k])
    ensures Selected(InstalledPlan(t, q), a, k) && k in t ==>
              InstalledPlan(t, q)[k] == t[k] && (Expected(q, a).Some? ==> Shadowed(t, a))
    ensures (forall l :: l in t ==> l.dest.len == 0) ==> !Shadowed(t, a)
  {
    if Expected(q, a).Some? {
      SomeSelected(t, q, a);
    }
    if Selected(InstalledPlan(t, q), a, k) {
      if k !in t {
        SelectedPlanned(t, q, a, k, OffRoutes(q), IntoRoutes(q));
      } else {
        InstalledSlots(t, Plan(q), NoFaults(|Plan(q)|), k);
        if Expected(q, a).Some? {
          SelectedIsLong(t, q, a, k);
        }
      }
    }
  }

  lemma SomeSelected(t: Table, q: Request, a: Addr)
    requires Legal(a) && Expected(q, a).Some?
    ensures exists l :: Selected(InstalledPlan(t, q), a, l)
  {
    var table := InstalledPlan(t, q);
    var r := ExpectedIsRouted(q, a);
    PlannedIsInstalled(t, q, r);
    var fitting := set l | l in table && Covers(l, a);
    assert KeyOf(r) in fitting;
    var best := BestExists(fitting);
    assert Selected(table, a, best);
  }

  lemma {:induction false} BestExists(s: set<Key>) returns (k: Key)
    requires s != {}
    ensures k in s && forall l :: l in s ==> Better(k, l)
  {
    var x :| x in s;
    k := x;
    if s != {x} {
      var best := BestExists(s - {x});
      if Better(best, x) {
        k := best;
      }
      assert forall l :: l in s ==> l == x || l in s - {x};
    }
  }
}
