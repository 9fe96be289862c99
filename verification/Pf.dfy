/** What the anchor lets out: its ruleset under first-match `quick`
    semantics and the tables it consults, from src/pf.rs. Rules are kept as
    syntax, not as text; what pf does after a failed command is a free choice. */
module Pf {
  import opened Wrappers
  import opened Subnets
  import opened Routes

  /** The hosts the probe past the tunnel pings: 1.1.1.1, 8.8.8.8, 9.9.9.9. */
  const TARGETS: set<Ip> := {0x0101_0101, 0x0808_0808, 0x0909_0909}

  datatype Shape = Shape(
    rules: seq<Option<seq<string>>>,
    useFakeip: bool,
    endpoints: seq<Ip>,
    network: Option<(string, Ip)>)
  {
    predicate InForce(i: nat) {
      i < |rules| && rules[i].Some?
    }

    /** `iface` is a tunnel interface of rule `i`. */
    predicate Tunnel(i: nat, iface: string) {
      InForce(i) && iface in rules[i].value
    }
  }

  datatype Proto = Udp | Tcp | Echo | OtherProto

  /** An outgoing IPv4 packet, as far as the anchor looks. */
  datatype Packet = Packet(dst: Ip, iface: string, proto: Proto, port: nat)

  datatype Kind = Hosts | Nets

  datatype Target = Address(ip: Ip) | Addresses(ips: set<Ip>) | Table(kind: Kind, rule: nat)

  /** `pass` or `block drop`, always `out quick inet`; an interface list, a
      protocol list and a port only where the line names them. */
  datatype PfRule = PfRule(
    pass: bool,
    on: Option<seq<string>>,
    protos: Option<set<Proto>>,
    to: Target,
    port: Option<nat>)

  datatype Tables = Tables(hosts: map<nat, set<Ip>>, nets: map<nat, set<Subnet>>) {
    predicate HoldsHost(i: nat, ip: Ip) {
      i in hosts && ip in hosts[i]
    }

    predicate HoldsNet(i: nat, ip: Ip) {
      i in nets && exists s :: s in nets[i] && s.Contains(ip)
    }

    predicate Holds(i: nat, ip: Ip) {
      HoldsHost(i, ip) || HoldsNet(i, ip)
    }
  }

  predicate Hits(to: Target, t: Tables, ip: Ip) {
    match to
    case Address(a) => ip == a
    case Addresses(s) => ip in s
    case Table(kind, i) => if kind == Hosts then t.HoldsHost(i, ip) else t.HoldsNet(i, ip)
  }

  predicate Matches(r: PfRule, t: Tables, p: Packet) {
    (r.on.Some? ==> p.iface in r.on.value)
    && (r.protos.Some? ==> p.proto in r.protos.value)
    && (r.port.Some? ==> p.port == r.port.value)
    && Hits(r.to, t, p.dst)
  }

  /** Every rule is `quick`: the first that matches decides; without one the
      anchor lets the packet by. */
  predicate Blocked(rules: seq<PfRule>, t: Tables, p: Packet) {
    if rules == [] then false
    else if Matches(rules[0], t, p) then !rules[0].pass
    else Blocked(rules[1..], t, p)
  }

  // The lines of the anchor

  function PassServer(ip: Ip): PfRule {
    PfRule(true, None, None, Address(ip), None)
  }

  function PassDns(iface: string, dns: Ip): PfRule {
    PfRule(true, Some([iface]), Some({Udp, Tcp}), Address(dns), Some(53))
  }

  function PassProbe(iface: string): PfRule {
    PfRule(true, Some([iface]), Some({Echo}), Addresses(TARGETS), None)
  }

  function PassTunnels(on: seq<string>, kind: Kind, rule: nat): PfRule {
    PfRule(true, Some(on), None, Table(kind, rule), None)
  }

  function Block(kind: Kind, rule: nat): PfRule {
    PfRule(false, None, None, Table(kind, rule), None)
  }

  // What the anchor is for

  /** A tunnel server, the network DNS, or the probe past the tunnel. */
  predicate Exempt(s: Shape, p: Packet) {
    p.dst in s.endpoints
    || (s.network.Some? && p.iface == s.network.value.0
        && ((p.dst == s.network.value.1 && p.proto in {Udp, Tcp} && p.port == 53)
            || (p.proto == Echo && p.dst in TARGETS)))
  }

  predicate HeldFor(s: Shape, t: Tables, i: nat, ip: Ip) {
    s.InForce(i) && (t.HoldsHost(i, ip) || (!s.useFakeip && t.HoldsNet(i, ip)))
  }

  /** The destination is held back for some rule in force. */
  ghost predicate Held(s: Shape, t: Tables, ip: Ip) {
    exists i: nat :: HeldFor(s, t, i, ip)
  }

  /** The packet leaves through a tunnel of a rule in force that holds its
      destination. */
  ghost predicate ThroughOwnTunnel(s: Shape, t: Tables, p: Packet) {
    exists i: nat :: s.Tunnel(i, p.iface) && t.Holds(i, p.dst)
  }

  /** What the whole anchor decides, without its lines. */
  ghost predicate ShouldBlock(s: Shape, t: Tables, p: Packet) {
    Held(s, t, p.dst) && !Exempt(s, p) && !ThroughOwnTunnel(s, t, p)
  }

  // What the first match says of a part of the anchor

  predicate AllPass(rules: seq<PfRule>) {
    forall r :: r in rules ==> r.pass
  }

  predicate AllBlock(rules: seq<PfRule>) {
    forall r :: r in rules ==> !r.pass
  }

  ghost predicate SomeMatches(rules: seq<PfRule>, t: Tables, p: Packet) {
    exists r :: r in rules && Matches(r, t, p)
  }

  /** Passes ahead of blocks: blocked when a block matches and no pass does. */
  lemma {:induction false} PassesThenBlocks(passes: seq<PfRule>, blocks: seq<PfRule>, t: Tables, p: Packet)
    requires AllPass(passes) && AllBlock(blocks)
    ensures Blocked(passes + blocks, t, p) <==> !SomeMatches(passes, t, p) && SomeMatches(blocks, t, p)
    decreases |passes| + |blocks|
  {
    if passes != [] {
      assert (passes + blocks)[1..] == passes[1..] + blocks;
      PassesThenBlocks(passes[1..], blocks, t, p);
    } else if blocks != [] {
      assert passes + blocks == blocks && blocks[1..] == [] + blocks[1..];
      PassesThenBlocks([], blocks[1..], t, p);
    }
  }

  lemma SomeMatchesBoth(a: seq<PfRule>, b: seq<PfRule>, t: Tables, p: Packet)
    ensures SomeMatches(a + b, t, p) <==> SomeMatches(a, t, p) || SomeMatches(b, t, p)
  {
    assert forall r :: r in a + b <==> r in a || r in b;
  }

  // The lines and what they match, whatever the tables hold

  function PassServers(endpoints: seq<Ip>): seq<PfRule> {
    if endpoints == [] then []
    else PassServers(endpoints[..|endpoints| - 1]) + [PassServer(endpoints[|endpoints| - 1])]
  }

  function Exemptions(s: Shape): seq<PfRule> {
    PassServers(s.endpoints)
    + if s.network.Some? then [PassDns(s.network.value.0, s.network.value.1), PassProbe(s.network.value.0)] else []
  }

  /** Two passes for a rule with an interface. */
  function TunnelPass(s: Shape, i: nat): seq<PfRule>
    requires i < |s.rules|
  {
    if s.rules[i].Some? && s.rules[i].value != []
    then [PassTunnels(s.rules[i].value, Hosts, i), PassTunnels(s.rules[i].value, Nets, i)] else []
  }

  function TunnelPasses(s: Shape, n: nat): seq<PfRule>
    requires n <= |s.rules|
  {
    if n == 0 then [] else TunnelPasses(s, n - 1) + TunnelPass(s, n - 1)
  }

  /** The blocks of a rule in force: subnets too, but with fake addresses. */
  function BlockOf(s: Shape, i: nat): seq<PfRule>
    requires i < |s.rules|
  {
    if s.rules[i].None? then [] else [Block(Hosts, i)] + if s.useFakeip then [] else [Block(Nets, i)]
  }

  function Blocks(s: Shape, n: nat): seq<PfRule>
    requires n <= |s.rules|
  {
    if n == 0 then [] else Blocks(s, n - 1) + BlockOf(s, n - 1)
  }

  /** The whole anchor: exemptions, then every pass, then every block. */
  function RulesetOf(s: Shape): seq<PfRule> {
    Exemptions(s) + TunnelPasses(s, |s.rules|) + Blocks(s, |s.rules|)
  }

  lemma {:induction false} ServersMatch(endpoints: seq<Ip>, t: Tables, p: Packet)
    ensures AllPass(PassServers(endpoints)) && (SomeMatches(PassServers(endpoints), t, p) <==> p.dst in endpoints)
    decreases |endpoints|
  {
    if endpoints != [] {
      var n := |endpoints| - 1;
      ServersMatch(endpoints[..n], t, p);
      SomeMatchesBoth(PassServers(endpoints[..n]), [PassServer(endpoints[n])], t, p);
      assert endpoints == endpoints[..n] + [endpoints[n]];
      assert SomeMatches([PassServer(endpoints[n])], t, p) <==> Matches(PassServer(endpoints[n]), t, p);
    }
  }

  lemma ExemptionsMatch(s: Shape, t: Tables, p: Packet)
    ensures AllPass(Exemptions(s)) && (SomeMatches(Exemptions(s), t, p) <==> Exempt(s, p))
  {
    ServersMatch(s.endpoints, t, p);
    if s.network.Some? {
      var a, b := PassDns(s.network.value.0, s.network.value.1), PassProbe(s.network.value.0);
      SomeMatchesBoth(PassServers(s.endpoints), [a, b], t, p);
      assert SomeMatches([a, b], t, p) <==> Matches(a, t, p) || Matches(b, t, p) by {
        assert forall r :: r in [a, b] <==> r == a || r == b;
      }
    }
  }

  lemma TunnelMatches(s: Shape, i: nat, t: Tables, p: Packet)
    requires i < |s.rules|
    ensures AllPass(TunnelPass(s, i)) && (SomeMatches(TunnelPass(s, i), t, p) <==> s.Tunnel(i, p.iface) && t.Holds(i, p.dst))
  {
    if s.rules[i].Some? && s.rules[i].value != [] {
      var a, b := PassTunnels(s.rules[i].value, Hosts, i), PassTunnels(s.rules[i].value, Nets, i);
      assert a in TunnelPass(s, i) && b in TunnelPass(s, i);
      assert Matches(a, t, p) <==> p.iface in s.rules[i].value && t.HoldsHost(i, p.dst);
      assert Matches(b, t, p) <==> p.iface in s.rules[i].value && t.HoldsNet(i, p.dst);
    }
  }

  lemma {:induction false} TunnelsMatch(s: Shape, n: nat, t: Tables, p: Packet)
    requires n <= |s.rules|
    ensures AllPass(TunnelPasses(s, n))
    ensures SomeMatches(TunnelPasses(s, n), t, p) <==> exists j: nat :: j < n && s.Tunnel(j, p.iface) && t.Holds(j, p.dst)
  {
    if n > 0 {
      TunnelsMatch(s, n - 1, t, p);
      TunnelMatches(s, n - 1, t, p);
      SomeMatchesBoth(TunnelPasses(s, n - 1), TunnelPass(s, n - 1), t, p);
    }
  }

  lemma BlockMatches(s: Shape, i: nat, t: Tables, p: Packet)
    requires i < |s.rules|
    ensures AllBlock(BlockOf(s, i)) && (SomeMatches(BlockOf(s, i), t, p) <==> HeldFor(s, t, i, p.dst))
  {
    var a, b := Block(Hosts, i), Block(Nets, i);
    assert a in BlockOf(s, i) <==> s.InForce(i);
    assert b in BlockOf(s, i) <==> s.InForce(i) && !s.useFakeip;
    assert Matches(a, t, p) <==> t.HoldsHost(i, p.dst);
    assert Matches(b, t, p) <==> t.HoldsNet(i, p.dst);
  }

  lemma {:induction false} BlocksMatch(s: Shape, n: nat, t: Tables, p: Packet)
    requires n <= |s.rules|
    ensures AllBlock(Blocks(s, n))
    ensures SomeMatches(Blocks(s, n), t, p) <==> exists j: nat :: j < n && HeldFor(s, t, j, p.dst)
  {
    if n > 0 {
      BlocksMatch(s, n - 1, t, p);
      BlockMatches(s, n - 1, t, p);
      SomeMatchesBoth(Blocks(s, n - 1), BlockOf(s, n - 1), t, p);
    }
  }

  /** Whatever the tables hold, the anchor blocks exactly the packets it should. */
  lemma RulesetDecides(s: Shape, t: Tables, p: Packet)
    ensures Blocked(RulesetOf(s), t, p) <==> ShouldBlock(s, t, p)
  {
    var n := |s.rules|;
    ExemptionsMatch(s, t, p);
    TunnelsMatch(s, n, t, p);
    BlocksMatch(s, n, t, p);
    SomeMatchesBoth(Exemptions(s), TunnelPasses(s, n), t, p);
    PassesThenBlocks(Exemptions(s) + TunnelPasses(s, n), Blocks(s, n), t, p);
    assert Held(s, t, p.dst) <==> exists j: nat :: j < n && HeldFor(s, t, j, p.dst);
  }

  lemma RulesetBlocks(s: Shape)
    ensures forall t, p :: Blocked(RulesetOf(s), t, p) <==> ShouldBlock(s, t, p)
  {
    forall t, p ensures Blocked(RulesetOf(s), t, p) <==> ShouldBlock(s, t, p) {
      RulesetDecides(s, t, p);
    }
  }

  /** `ruleset`. */
  method Ruleset(s: Shape) returns (r: seq<PfRule>)
    ensures r == RulesetOf(s)
    ensures forall t, p :: Blocked(r, t, p) <==> ShouldBlock(s, t, p)
  {
    r := Lines(s);
    RulesetBlocks(s);
  }

  /** Line after line. */
  method Lines(s: Shape) returns (r: seq<PfRule>)
    ensures r == RulesetOf(s)
  {
    var first := Exempting(s);
    var passes := Passing(s, first);
    r := Blocking(s, passes);
  }

  /** The tunnels of each rule after these lines. */
  method Passing(s: Shape, first: seq<PfRule>) returns (r: seq<PfRule>)
    ensures r == first + TunnelPasses(s, |s.rules|)
  {
    r := first;
    for i := 0 to |s.rules|
      invariant r == first + TunnelPasses(s, i)
    {
      ghost var before := r;
      if s.rules[i].Some? && s.rules[i].value != [] {
        r := r + [PassTunnels(s.rules[i].value, Hosts, i)];
        r := r + [PassTunnels(s.rules[i].value, Nets, i)];
      }
      assert r == before + TunnelPass(s, i);
    }
  }

  /** What is blocked for each rule after these. */
  method Blocking(s: Shape, passes: seq<PfRule>) returns (r: seq<PfRule>)
    ensures r == passes + Blocks(s, |s.rules|)
  {
    r := passes;
    for i := 0 to |s.rules|
      invariant r == passes + Blocks(s, i)
    {
      ghost var before := r;
      if s.rules[i].Some? {
        r := r + [Block(Hosts, i)];
        if !s.useFakeip {
          r := r + [Block(Nets, i)];
        }
      }
      assert r == before + BlockOf(s, i);
    }
  }

  /** The lines ahead of the rules. */
  method Exempting(s: Shape) returns (r: seq<PfRule>)
    ensures r == Exemptions(s)
  {
    r := [];
    for k := 0 to |s.endpoints|
      invariant r == PassServers(s.endpoints[..k])
    {
      assert s.endpoints[..k + 1][..k] == s.endpoints[..k];
      r := r + [PassServer(s.endpoints[k])];
    }
    assert s.endpoints[..|s.endpoints|] == s.endpoints;
    if s.network.Some? {
      var (iface, dns) := s.network.value;
      r := r + [PassDns(iface, dns)];
      r := r + [PassProbe(iface)];
    }
  }

  /** What `Pf` drives: the anchor and its tables in the kernel. Which commands
      fail, by their number, is given from outside; after one that did, anchor and
      tables are whatever pf made of them. */
  class Control {
    var anchor: seq<PfRule>
    var tables: Tables
    /** Commands given so far. */
    var calls: nat
    const fails: Refusals

    constructor (anchor: seq<PfRule>, tables: Tables, fails: nat -> bool)
      ensures this.anchor == anchor && this.tables == tables && calls == 0 && this.fails == fails
    {
      this.anchor := anchor;
      this.tables := tables;
      this.fails := fails;
      calls := 0;
    }

    /** `load`: the rules and every table of a rule in force at once. */
    method Load(s: Shape, hosts: seq<set<Ip>>, nets: seq<set<Subnet>>) returns (ok: bool)
      requires |hosts| == |nets| == |s.rules|
      modifies this
      ensures calls == old(calls) + 1 && ok == !Denied(fails, old(calls))
      ensures ok ==> forall t, p :: Blocked(anchor, t, p) <==> ShouldBlock(s, t, p)
      ensures ok ==> forall i: nat :: s.InForce(i) ==>
        At(tables.hosts, i) == Some(hosts[i]) && At(tables.nets, i) == Some(nets[i])
    {
      ok := !Denied(fails, calls);
      calls := calls + 1;
      var rules := Ruleset(s);
      if !ok {
        anchor := *;
        tables := *;
        return;
      }
      anchor := rules;
      tables := Tables(map i: nat | 0 <= i < |s.rules| && s.InForce(i) :: hosts[i],
                       map i: nat | 0 <= i < |s.rules| && s.InForce(i) :: nets[i]);
    }

    /** `add`: nothing to do without addresses. */
    method Add(rule: nat, ips: set<Ip>) returns (ok: bool)
      modifies this
      ensures ips == {} ==> ok && anchor == old(anchor) && tables == old(tables) && calls == old(calls)
      ensures ips != {} ==> calls == old(calls) + 1 && ok == !Denied(fails, old(calls))
      ensures ok && ips != {} ==> anchor == old(anchor) && tables == old(tables).(
        hosts := old(tables).hosts[rule := (if rule in old(tables).hosts then old(tables).hosts[rule] else {}) + ips])
    {
      if ips == {} {
        return true;
      }
      ok := !Denied(fails, calls);
      calls := calls + 1;
      if ok {
        var was := if rule in tables.hosts then tables.hosts[rule] else {};
        tables := tables.(hosts := tables.hosts[rule := was + ips]);
      } else {
        anchor := *;
        tables := *;
      }
    }

    /** `delete`: the same the other way. */
    method Delete(rule: nat, ips: set<Ip>) returns (ok: bool)
      modifies this
      ensures ips == {} ==> ok && anchor == old(anchor) && tables == old(tables) && calls == old(calls)
      ensures ips != {} ==> calls == old(calls) + 1 && ok == !Denied(fails, old(calls))
      ensures ok && ips != {} ==> anchor == old(anchor) && tables == old(tables).(
        hosts := old(tables).hosts[rule := (if rule in old(tables).hosts then old(tables).hosts[rule] else {}) - ips])
    {
      if ips == {} {
        return true;
      }
      ok := !Denied(fails, calls);
      calls := calls + 1;
      if ok {
        var was := if rule in tables.hosts then tables.hosts[rule] else {};
        tables := tables.(hosts := tables.hosts[rule := was - ips]);
      } else {
        anchor := *;
        tables := *;
      }
    }
  }
}
