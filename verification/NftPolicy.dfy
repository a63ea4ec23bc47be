/** The helper's nftables table: what `render_table` compiles a tunnel policy into, how the
    kernel runs the two chains on the first packet of a flow, and the declared policy the
    table is proved equal to. */
module NftPolicy {
  import opened IpNets

  datatype Proto = Tcp | Udp | OtherProto

  datatype Iface = Lo | TunDev | OtherDev

  datatype Packet = Packet(oif: Iface, dst: Addr, proto: Proto, dport: nat, established: bool)

  datatype Match =
    | OnIface(iface: Iface)
    | DstIn(net: Net)
    | IsEstablished
    | FamilyIs(family: Family)
    | ProtoIs(proto: Proto)
    | ProtoPort(proto: Proto, port: nat)
    | V4Proto(proto4: Proto)
    | V4ProtoPort(proto4: Proto, port4: nat)
    | Always

  datatype Action = Return | Accept | Reject | Redirect(to: nat)

  datatype Rule = Rule(cond: Match, action: Action)

  datatype Config = Config(
    servers: seq<Addr>, bypass: seq<Net>, killSwitch: bool,
    tcpPort: nat, dnsPort: nat, ipv6: bool, udpPort: nat)

  const LOOPBACK_V4 := Net(V4, 127 * 0x100_0000, 8)
  const LOOPBACK_V6 := Net(V6, 1, 128)

  // ----- What the kernel does -----

  predicate Matches(m: Match, p: Packet) {
    match m
    case OnIface(i) => p.oif == i
    case DstIn(n) => Contains(n, p.dst)
    case IsEstablished => p.established
    case FamilyIs(f) => p.dst.family == f
    case ProtoIs(q) => p.proto == q
    case ProtoPort(q, d) => p.proto == q && p.dport == d
    case V4Proto(q) => p.dst.family == V4 && p.proto == q
    case V4ProtoPort(q, d) => p.dst.family == V4 && p.proto == q && p.dport == d
    case Always => true
  }

  // The first rule that matches decides; the policy of both chains is accept.
  function Evaluate(chain: seq<Rule>, p: Packet): Action {
    if chain == [] then Accept
    else if Matches(chain[0].cond, p) then chain[0].action
    else Evaluate(chain[1..], p)
  }

  // A redirect rewrites the destination to the loopback address of the packet's family.
  function Redirected(p: Packet, port: nat, oif: Iface): Packet {
    var here := if p.dst.family == V4 then Addr(V4, 127 * 0x100_0000 + 1) else Addr(V6, 1);
    p.(oif := oif, dst := here, dport := port)
  }

  datatype Fate = Direct | Intercepted(port: nat) | Rejected

  // The nat chain runs first, then the filter chain sees the packet as nat left it. Whether
  // the filter sees the old interface or the rerouted one is not relied on: `oif` is any.
  function FateOf(natRules: seq<Rule>, filter: seq<Rule>, p: Packet, oif: Iface): Fate {
    var n := Evaluate(natRules, p);
    if n.Redirect? then
      if Evaluate(filter, Redirected(p, n.to, oif)) == Reject then Rejected else Intercepted(n.to)
    else
      if Evaluate(filter, p) == Reject then Rejected else Direct
  }

  // ----- The declared policy -----

  predicate Exempt(c: Config, p: Packet) {
    || p.oif == Lo
    || p.oif == TunDev
    || Contains(LOOPBACK_V4, p.dst)
    || Contains(LOOPBACK_V6, p.dst)
    || (exists k :: 0 <= k < |c.servers| && Contains(Host(c.servers[k]), p.dst))
    || (exists k :: 0 <= k < |c.bypass| && Contains(c.bypass[k], p.dst))
  }

  function Policy(c: Config, p: Packet): Fate {
    if Exempt(c, p) then Direct
    else if p.dst.family == V6 && !c.ipv6 then Rejected
    else match p.proto
      case Tcp => Intercepted(c.tcpPort)
      case Udp =>
        if p.dport == 53 then Intercepted(c.dnsPort)
        else if c.udpPort != 0 then Intercepted(c.udpPort)
        else Rejected
      case OtherProto => if c.killSwitch then Rejected else Direct
  }

  // ----- The compiler -----

  function ServerRules(servers: seq<Addr>, action: Action): (r: seq<Rule>)
    ensures |r| == |servers|
  {
    if servers == [] then []
    else ServerRules(servers[..|servers| - 1], action) + [Rule(DstIn(Host(servers[|servers| - 1])), action)]
  }

  function BypassRules(bypass: seq<Net>, action: Action): (r: seq<Rule>)
    ensures |r| == |bypass|
  {
    if bypass == [] then []
    else BypassRules(bypass[..|bypass| - 1], action) + [Rule(DstIn(bypass[|bypass| - 1]), action)]
  }

  function ExemptRules(c: Config, action: Action): seq<Rule> {
    [ Rule(OnIface(Lo), action), Rule(OnIface(TunDev), action),
      Rule(DstIn(LOOPBACK_V4), action), Rule(DstIn(LOOPBACK_V6), action) ]
    + ServerRules(c.servers, action) + BypassRules(c.bypass, action)
  }

  function RedirectRules(c: Config): seq<Rule> {
    if c.ipv6 then
      [ Rule(ProtoPort(Udp, 53), Redirect(c.dnsPort)), Rule(ProtoIs(Tcp), Redirect(c.tcpPort)) ]
      + (if c.udpPort != 0 then [Rule(ProtoIs(Udp), Redirect(c.udpPort))] else [])
    else
      [ Rule(V4ProtoPort(Udp, 53), Redirect(c.dnsPort)), Rule(V4Proto(Tcp), Redirect(c.tcpPort)) ]
      + (if c.udpPort != 0 then [Rule(V4Proto(Udp), Redirect(c.udpPort))] else [])
  }

  function RejectRules(c: Config): seq<Rule> {
    (if !c.ipv6 then [Rule(FamilyIs(V6), Reject)] else [])
    + (if c.udpPort == 0 then [Rule(ProtoIs(Udp), Reject)] else [])
    + (if c.killSwitch then [Rule(Always, Reject)] else [])
  }

  function NatChain(c: Config): seq<Rule> { ExemptRules(c, Return) + RedirectRules(c) }

  function FilterChain(c: Config): seq<Rule> {
    [Rule(IsEstablished, Accept)] + ExemptRules(c, Accept) + RejectRules(c)
  }

  // render_table: both chains grow rule by rule, in this order.
  method RenderTable(c: Config) returns (natRules: seq<Rule>, filter: seq<Rule>)
    ensures natRules == NatChain(c) && filter == FilterChain(c)
  {
    natRules := [Rule(OnIface(Lo), Return)];
    natRules := natRules + [Rule(OnIface(TunDev), Return)];
    natRules := natRules + [Rule(DstIn(LOOPBACK_V4), Return)];
    natRules := natRules + [Rule(DstIn(LOOPBACK_V6), Return)];
    ghost var head := natRules;
    for k := 0 to |c.servers|
      invariant natRules == head + ServerRules(c.servers[..k], Return)
    {
      natRules := natRules + [Rule(DstIn(Host(c.servers[k])), Return)];
      assert c.servers[..k + 1][..k] == c.servers[..k];
    }
    assert c.servers[..|c.servers|] == c.servers;
    ghost var afterServers := natRules;
    for k := 0 to |c.bypass|
      invariant natRules == afterServers + BypassRules(c.bypass[..k], Return)
    {
      natRules := natRules + [Rule(DstIn(c.bypass[k]), Return)];
      assert c.bypass[..k + 1][..k] == c.bypass[..k];
    }
    assert c.bypass[..|c.bypass|] == c.bypass;
    assert natRules == ExemptRules(c, Return);
    if c.ipv6 {
      natRules := natRules + [Rule(ProtoPort(Udp, 53), Redirect(c.dnsPort))];
      natRules := natRules + [Rule(ProtoIs(Tcp), Redirect(c.tcpPort))];
      if c.udpPort != 0 {
        natRules := natRules + [Rule(ProtoIs(Udp), Redirect(c.udpPort))];
      }
    } else {
      natRules := natRules + [Rule(V4ProtoPort(Udp, 53), Redirect(c.dnsPort))];
      natRules := natRules + [Rule(V4Proto(Tcp), Redirect(c.tcpPort))];
      if c.udpPort != 0 {
        natRules := natRules + [Rule(V4Proto(Udp), Redirect(c.udpPort))];
      }
    }
    filter := RenderFilter(c);
  }

  method RenderFilter(c: Config) returns (filter: seq<Rule>)
    ensures filter == FilterChain(c)
  {
    filter := [Rule(IsEstablished, Accept)];
    filter := filter + [Rule(OnIface(Lo), Accept)];
    filter := filter + [Rule(OnIface(TunDev), Accept)];
    filter := filter + [Rule(DstIn(LOOPBACK_V4), Accept)];
    filter := filter + [Rule(DstIn(LOOPBACK_V6), Accept)];
    ghost var head := filter;
    for k := 0 to |c.servers|
      invariant filter == head + ServerRules(c.servers[..k], Accept)
    {
      filter := filter + [Rule(DstIn(Host(c.servers[k])), Accept)];
      assert c.servers[..k + 1][..k] == c.servers[..k];
    }
    assert c.servers[..|c.servers|] == c.servers;
    ghost var afterServers := filter;
    for k := 0 to |c.bypass|
      invariant filter == afterServers + BypassRules(c.bypass[..k], Accept)
    {
      filter := filter + [Rule(DstIn(c.bypass[k]), Accept)];
      assert c.bypass[..k + 1][..k] == c.bypass[..k];
    }
    assert c.bypass[..|c.bypass|] == c.bypass;
    assert filter == [Rule(IsEstablished, Accept)] + ExemptRules(c, Accept);
    if !c.ipv6 {
      filter := filter + [Rule(FamilyIs(V6), Reject)];
    }
    if c.udpPort == 0 {
      filter := filter + [Rule(ProtoIs(Udp), Reject)];
    }
    if c.killSwitch {
      filter := filter + [Rule(Always, Reject)];
    }
  }

  // ----- Correctness -----

  predicate Hit(chain: seq<Rule>, p: Packet) {
    exists k :: 0 <= k < |chain| && Matches(chain[k].cond, p)
  }

  // Rules that all carry one action act as a single test in front of the rest.
  lemma {:induction false} GuardChain(guard: seq<Rule>, rest: seq<Rule>, p: Packet, action: Action)
    requires forall k :: 0 <= k < |guard| ==> guard[k].action == action
    ensures Evaluate(guard + rest, p) == if Hit(guard, p) then action else Evaluate(rest, p)
  {
    if guard == [] {
      assert guard + rest == rest;
    } else {
      assert (guard + rest)[1..] == guard[1..] + rest;
      GuardChain(guard[1..], rest, p, action);
      if Hit(guard[1..], p) {
        var k :| 0 <= k < |guard[1..]| && Matches(guard[1..][k].cond, p);
        assert Matches(guard[k + 1].cond, p);
      }
      if Hit(guard, p) && !Matches(guard[0].cond, p) {
        var k :| 0 <= k < |guard| && Matches(guard[k].cond, p);
        assert Matches(guard[1..][k - 1].cond, p);
      }
    }
  }

  lemma {:induction false} ServerRulesAt(servers: seq<Addr>, action: Action, k: nat)
    requires k < |servers|
    ensures ServerRules(servers, action)[k] == Rule(DstIn(Host(servers[k])), action)
  {
    if k < |servers| - 1 {
      ServerRulesAt(servers[..|servers| - 1], action, k);
    }
  }

  lemma {:induction false} BypassRulesAt(bypass: seq<Net>, action: Action, k: nat)
    requires k < |bypass|
    ensures BypassRules(bypass, action)[k] == Rule(DstIn(bypass[k]), action)
  {
    if k < |bypass| - 1 {
      BypassRulesAt(bypass[..|bypass| - 1], action, k);
    }
  }

  lemma ExemptRulesDecide(c: Config, action: Action, p: Packet)
    ensures Hit(ExemptRules(c, action), p) <==> Exempt(c, p)
    ensures forall k :: 0 <= k < |ExemptRules(c, action)| ==> ExemptRules(c, action)[k].action == action
  {
    var rules := ExemptRules(c, action);
    var n := |c.servers|;
    forall k | 0 <= k < n
      ensures rules[4 + k] == Rule(DstIn(Host(c.servers[k])), action)
    {
      ServerRulesAt(c.servers, action, k);
    }
    forall k | 0 <= k < |c.bypass|
      ensures rules[4 + n + k] == Rule(DstIn(c.bypass[k]), action)
    {
      BypassRulesAt(c.bypass, action, k);
    }
    forall k | 0 <= k < |rules|
      ensures rules[k].action == action
      ensures Matches(rules[k].cond, p) ==> Exempt(c, p)
    {
      if 4 <= k < 4 + n {
        assert rules[k] == Rule(DstIn(Host(c.servers[k - 4])), action) by { assert rules[k] == rules[4 + (k - 4)]; }
      } else if 4 + n <= k {
        var m := k - 4 - n;
        assert 0 <= m < |c.bypass|;
        assert rules[k] == Rule(DstIn(c.bypass[m]), action) by { assert rules[k] == rules[4 + n + m]; }
      }
    }
    if Exempt(c, p) {
      assert rules[0].cond == OnIface(Lo) && rules[1].cond == OnIface(TunDev);
      assert rules[2].cond == DstIn(LOOPBACK_V4) && rules[3].cond == DstIn(LOOPBACK_V6);
      if k :| 0 <= k < n && Contains(Host(c.servers[k]), p.dst) {
        assert Matches(rules[4 + k].cond, p);
      } else if k :| 0 <= k < |c.bypass| && Contains(c.bypass[k], p.dst) {
        assert Matches(rules[4 + n + k].cond, p);
      }
    }
  }

  // Whatever was redirected is let through: its new destination is a loopback address.
  lemma RedirectedIsExempt(c: Config, p: Packet, port: nat, oif: Iface)
    ensures Exempt(c, Redirected(p, port, oif))
  {
    Pow2Values();
  }

  // Splitting a chain at its first rule.
  lemma Cons(r: Rule, rest: seq<Rule>, p: Packet)
    ensures Evaluate([r] + rest, p) == if Matches(r.cond, p) then r.action else Evaluate(rest, p)
  {
    assert ([r] + rest)[1..] == rest;
  }

  lemma RedirectRulesDecide(c: Config, p: Packet)
    requires !Exempt(c, p)
    ensures Evaluate(RedirectRules(c), p) ==
            if Policy(c, p).Intercepted? then Redirect(Policy(c, p).port) else Accept
  {
    var rules := RedirectRules(c);
    Cons(rules[0], rules[1..], p);
    Cons(rules[1], rules[2..], p);
    assert rules == [rules[0]] + rules[1..] && rules[1..] == [rules[1]] + rules[2..];
    if c.udpPort != 0 {
      Cons(rules[2], [], p);
      assert rules[2..] == [rules[2]] + [];
    } else {
      assert rules[2..] == [];
    }
  }

  lemma NatDecides(c: Config, p: Packet)
    ensures Evaluate(NatChain(c), p) ==
            if Exempt(c, p) then Return
            else if Policy(c, p).Intercepted? then Redirect(Policy(c, p).port)
            else Accept
  {
    ExemptRulesDecide(c, Return, p);
    GuardChain(ExemptRules(c, Return), RedirectRules(c), p, Return);
    if !Exempt(c, p) {
      RedirectRulesDecide(c, p);
    }
  }

  // Which packets the tail of the filter chain turns away.
  predicate Unwanted(c: Config, p: Packet) {
    (p.dst.family == V6 && !c.ipv6) || (p.proto == Udp && c.udpPort == 0) || c.killSwitch
  }

  lemma RejectRulesDecide(c: Config, p: Packet)
    ensures Evaluate(RejectRules(c), p) == if Unwanted(c, p) then Reject else Accept
  {
    var kill := if c.killSwitch then [Rule(Always, Reject)] else [];
    var udp := if c.udpPort == 0 then [Rule(ProtoIs(Udp), Reject)] else [];
    var v6 := if !c.ipv6 then [Rule(FamilyIs(V6), Reject)] else [];
    GuardChain(v6 + udp, kill, p, Reject);
    assert Hit(v6 + udp, p) <==> (p.dst.family == V6 && !c.ipv6) || (p.proto == Udp && c.udpPort == 0) by {
      assert c.udpPort == 0 ==> (v6 + udp)[|v6|] == udp[0];
      assert !c.ipv6 ==> (v6 + udp)[0] == v6[0];
    }
  }

  lemma FilterShape(c: Config, guard: seq<Rule>, p: Packet)
    requires !p.established && forall k :: 0 <= k < |guard| ==> guard[k].action == Accept
    ensures Evaluate([Rule(IsEstablished, Accept)] + guard + RejectRules(c), p)
            == if !Hit(guard, p) && Unwanted(c, p) then Reject else Accept
  {
    GuardChain(guard, RejectRules(c), p, Accept);
    RejectRulesDecide(c, p);
    Cons(Rule(IsEstablished, Accept), guard + RejectRules(c), p);
    assert [Rule(IsEstablished, Accept)] + guard + RejectRules(c)
        == [Rule(IsEstablished, Accept)] + (guard + RejectRules(c));
  }

  lemma FilterDecides(c: Config, p: Packet)
    requires !p.established
    ensures Evaluate(FilterChain(c), p) == if !Exempt(c, p) && Unwanted(c, p) then Reject else Accept
  {
    ExemptRulesDecide(c, Accept, p);
    FilterShape(c, ExemptRules(c, Accept), p);
  }

  // For the first packet of every flow, under every configuration, the compiled table does
  // what the policy declares.
  lemma TableImplementsPolicy(c: Config, p: Packet, oif: Iface)
    requires !p.established
    ensures FateOf(NatChain(c), FilterChain(c), p, oif) == Policy(c, p)
  {
    NatDecides(c, p);
    var n := Evaluate(NatChain(c), p);
    if !n.Redirect? {
      FilterDecides(c, p);
    } else {
      var q := Redirected(p, n.to, oif);
      RedirectedIsExempt(c, p, n.to, oif);
      FilterDecides(c, q);
    }
  }

  // A packet of a flow that is under way is let through by the filter, whatever the configuration.
  lemma EstablishedPasses(c: Config, p: Packet)
    requires p.established
    ensures Evaluate(FilterChain(c), p) == Accept
  {
    Cons(Rule(IsEstablished, Accept), ExemptRules(c, Accept) + RejectRules(c), p);
    assert FilterChain(c) == [Rule(IsEstablished, Accept)] + (ExemptRules(c, Accept) + RejectRules(c));
  }

  // No TCP or UDP flow leaves the machine directly unless it is exempt, and with the kill
  // switch no flow of any protocol does. Exempt flows are never touched.
  lemma OnlyExemptFlowsLeave(c: Config, p: Packet, oif: Iface)
    requires !p.established
    ensures FateOf(NatChain(c), FilterChain(c), p, oif) == Direct <==>
            Exempt(c, p) || (p.proto == OtherProto && !c.killSwitch && (p.dst.family == V4 || c.ipv6))
  {
    TableImplementsPolicy(c, p, oif);
  }

  // ----- The helper's bypass list -----

  function HelperBypass(extra: seq<Net>, bypassPrivate: bool): seq<Net> {
    if bypassPrivate then extra + PRIVATE_CIDRS else extra
  }

  // 127.0.0.0 to 127.255.255.255, and ::1.
  predicate InLoopbackRange(a: Addr) {
    if a.family == V4 then 0x7f00_0000 <= a.value < 0x8000_0000 else a.value == 1
  }

  lemma LoopbackIff(a: Addr)
    ensures InLoopbackRange(a) <==> Contains(LOOPBACK_V4, a) || Contains(LOOPBACK_V6, a)
  {
    Pow2Values();
    AlignedBlock(LOOPBACK_V4, 0x100_0000, 127, a);
    AlignedBlock(LOOPBACK_V6, 1, 1, a);
  }

  predicate InSome(nets: seq<Net>, a: Addr) {
    exists k :: 0 <= k < |nets| && Contains(nets[k], a)
  }

  // Exemption in address values.
  lemma ExemptIff(c: Config, p: Packet)
    ensures Exempt(c, p) <==>
            || p.oif == Lo || p.oif == TunDev || InLoopbackRange(p.dst) || p.dst in c.servers || InSome(c.bypass, p.dst)
  {
    LoopbackIff(p.dst);
    forall k | 0 <= k < |c.servers| ensures Contains(Host(c.servers[k]), p.dst) <==> c.servers[k] == p.dst {
      HostIs(c.servers[k], p.dst);
    }
  }

  lemma BypassIff(extra: seq<Net>, bypassPrivate: bool, a: Addr)
    ensures InSome(HelperBypass(extra, bypassPrivate), a) <==>
            InSome(extra, a) || (bypassPrivate && InPrivateRange(a))
  {
    var nets := HelperBypass(extra, bypassPrivate);
    IsPrivateIff(a);
    assert forall k :: 0 <= k < |extra| ==> nets[k] == extra[k];
    assert bypassPrivate ==> forall k :: 0 <= k < |PRIVATE_CIDRS| ==> nets[|extra| + k] == PRIVATE_CIDRS[k];
    assert bypassPrivate ==> forall k :: |extra| <= k < |nets| ==> nets[k] == PRIVATE_CIDRS[k - |extra|];
  }

  // With the helper's list a TCP flow that is not bound for loopback or the tunnel is left alone
  // exactly if it goes to a loopback address, a server, an extra net or, with private bypass on, a
  // private address.
  lemma PrivateBypass(c: Config, extra: seq<Net>, bypassPrivate: bool, p: Packet, oif: Iface)
    requires !p.established && c.bypass == HelperBypass(extra, bypassPrivate)
    requires p.proto == Tcp && p.oif == OtherDev && (p.dst.family == V4 || c.ipv6)
    ensures FateOf(NatChain(c), FilterChain(c), p, oif) ==
            if InLoopbackRange(p.dst) || p.dst in c.servers || InSome(extra, p.dst)
               || (bypassPrivate && InPrivateRange(p.dst))
            then Direct else Intercepted(c.tcpPort)
  {
    TableImplementsPolicy(c, p, oif);
    ExemptIff(c, p);
    BypassIff(extra, bypassPrivate, p.dst);
  }
}
