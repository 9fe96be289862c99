/** Where packets go once routes and pf are in line: into the tunnel of the rule
    that owns the route, or nowhere. */
module Traffic {
  import opened Wrappers
  import opened Subnets
  import opened TunnelChoice
  import opened Routes
  import opened ResolverCore
  import opened Steps
  import opened Books
  import opened Exactness
  import opened Cache
  import DomainLists
  import Pf

  /** The longest-prefix route of this process for an address. */
  ghost predicate Longest(t: Table, ip: Ip, k: Subnet) {
    Mine(At(t, k)) && k.Contains(ip)
    && forall o :: Mine(At(t, o)) && o.Contains(ip) ==> o.prefix <= k.prefix
  }

  /** The kernel has no choice: two routes of one length for an address are one. */
  lemma LongestIsUnique(t: Table, ip: Ip, k: Subnet, o: Subnet)
    requires Longest(t, ip, k) && Longest(t, ip, o)
    ensures k == o
  {
  }

  /** The rule whose host or subnet a destination is. */
  function RouteOwner(w: World, k: Subnet): Option<nat> {
    if IsHost(w.core, k) then Some(w.core.hosts[k.addr].rule) else w.core.NetOwner(w.nets, k)
  }

  /** Rule `i` is in force and holds the address, as a host of its or by a subnet
      that it is the first in force to list. */
  ghost predicate RuleHolds(w: World, i: nat, ip: Ip) {
    i < |w.core.rules| && w.core.rules[i].active
    && ((ip in w.core.hosts && w.core.hosts[ip].rule == i)
        || exists s :: FirstToList(w.core, w.nets, s, i) && s.Contains(ip))
  }

  /** The interface of the current tunnel of a rule. */
  function WayOut(c: Core, rule: nat): (i: Option<Iface>)
    ensures i.Some? <==> c.TargetOf(rule).Some?
    ensures i.Some? ==> i.value.index == c.TargetOf(rule).value.index
  {
    var l := c.CurrentLink(rule);
    if l.Some? then l.value.iface else None
  }

  lemma RouteOwnerMeans(w: World, k: Subnet, rule: nat)
    ensures RouteOwner(w, k) == Some(rule) <==>
            (exists ip :: ip in w.core.hosts && k == Subnet(ip, 32) && w.core.hosts[ip].rule == rule)
            || ((forall ip :: ip in w.core.hosts ==> k != Subnet(ip, 32)) && FirstToList(w.core, w.nets, k, rule))
  {
    NetOwnerMeans(w.core, w.nets, k, rule);
    if IsHost(w.core, k) {
      assert k == Subnet(k.addr, 32);
    }
  }

  lemma WayOutMeans(c: Core, rule: nat, i: Iface)
    ensures WayOut(c, rule) == Some(i) <==> exists l: nat :: AtLink(c, rule, l) && c.links[l].iface == Some(i)
  {
    if WayOut(c, rule) == Some(i) {
      assert AtLink(c, rule, c.rules[rule].current.value);
    }
  }

  /** pf holds the shape of now and every table. */
  ghost predicate PfInLine(w: World) {
    PfHolds(w, ShapeOf(w.core, w.network))
  }

  lemma NetsMean(w: World, i: nat, s: Subnet)
    ensures s in NetsOf(w.core, w.nets, i) <==> FirstToList(w.core, w.nets, s, i)
  {
    NetOwnerMeans(w.core, w.nets, s, i);
    if FirstToList(w.core, w.nets, s, i) {
      var j :| 0 <= j < |w.nets| && w.nets[j].0 == s && w.nets[j].1 in w.core.rules[i].lists;
      assert w.nets[j].0 in Entries(w.nets);
    }
  }

  lemma TableHolds(w: World, i: nat, ip: Ip)
    requires PfInLine(w) && w.core.Active(i)
    ensures w.pf.tables.Holds(i, ip) <==> RuleHolds(w, i, ip)
    ensures w.pf.tables.HoldsHost(i, ip) <==> ip in w.core.hosts && w.core.hosts[ip].rule == i
  {
    forall s ensures s in NetsOf(w.core, w.nets, i) <==> FirstToList(w.core, w.nets, s, i) {
      NetsMean(w, i, s);
    }
  }

  lemma NetOwnerLists(w: World, k: Subnet)
    requires w.core.NetOwner(w.nets, k).Some?
    ensures FirstToList(w.core, w.nets, k, w.core.NetOwner(w.nets, k).value)
  {
    NetOwnerMeans(w.core, w.nets, k, w.core.NetOwner(w.nets, k).value);
  }

  /** A route as called for leads to the current tunnel of the rule that owns
      it, and pf lets every packet for an address under it out there, whatever
      other rules hold the address too. */
  lemma RoutedIsPassed(w: World, k: Subnet, ip: Ip, proto: Pf.Proto, port: nat)
    requires Configured(w.core) && PfInLine(w)
    requires Exact(w, k) && Mine(At(w.table, k)) && k.Contains(ip)
    requires RouteOwner(w, k).Some? ==> WayOut(w.core, RouteOwner(w, k).value).Some?
    ensures RouteOwner(w, k).Some? && RuleHolds(w, RouteOwner(w, k).value, ip)
    ensures var iface := WayOut(w.core, RouteOwner(w, k).value).value;
      w.table[k].index == iface.index && !Pf.Blocked(w.pf.anchor, w.pf.tables, Pf.Packet(ip, iface.name, proto, port))
  {
    var r := RouteOwner(w, k).value;
    if IsHost(w.core, k) {
      HostContains(k.addr, ip);
    } else {
      NetOwnerLists(w, k);
    }
    assert RuleHolds(w, r, ip);
    var link := w.core.TargetOf(r).value.placed.link;
    var iface := w.core.links[link].iface.value;
    var shape := ShapeOf(w.core, w.network);
    assert link in w.core.rules[r].tunnels && Carried(w.core.links, link, iface.name);
    NamesMean(w, r, iface.name);
    assert shape.Tunnel(r, iface.name);
    TableHolds(w, r, ip);
    var p := Pf.Packet(ip, iface.name, proto, port);
    assert Pf.ThroughOwnTunnel(shape, w.pf.tables, p);
    assert Pf.Blocked(w.pf.anchor, w.pf.tables, p) <==> Pf.ShouldBlock(shape, w.pf.tables, p);
  }

  /** The address is held for rule `i`; subnets are not while they are left to the
      router. */
  ghost predicate BlocksFor(w: World, i: nat, ip: Ip) {
    RuleHolds(w, i, ip) && (w.core.useFakeip ==> ip in w.core.hosts && w.core.hosts[ip].rule == i)
  }

  /** The interface is that of one of the tunnels of a rule in force that holds the
      address. */
  ghost predicate LetsOut(w: World, i: nat, ip: Ip, iface: string) {
    RuleHolds(w, i, ip) && exists l :: l in w.core.rules[i].tunnels && Carried(w.core.links, l, iface)
  }

  /** Link `l` has an interface of that name. */
  predicate Carried(links: seq<LinkState>, l: nat, iface: string) {
    l < |links| && links[l].iface.Some? && links[l].iface.value.name == iface
  }

  /** A packet to a current tunnel server; or on the interface of the network, to
      its DNS server at port 53, or a ping of 1.1.1.1, 8.8.8.8 or 9.9.9.9. */
  predicate Exempted(w: World, p: Pf.Packet) {
    (exists l :: 0 <= l < |w.core.links| && w.core.links[l].endpoint == Some(p.dst))
    || (w.network.Some? && p.iface == w.network.value.0
        && ((p.dst == w.network.value.1 && (p.proto.Udp? || p.proto.Tcp?) && p.port == 53)
            || (p.proto.Echo? && (p.dst == 0x0101_0101 || p.dst == 0x0808_0808 || p.dst == 0x0909_0909))))
  }

  lemma ExemptMeans(w: World, p: Pf.Packet)
    ensures Pf.Exempt(ShapeOf(w.core, w.network), p) <==> Exempted(w, p)
  {
    assert p.dst in w.core.Endpoints() <==> exists l :: 0 <= l < |w.core.links| && w.core.links[l].endpoint == Some(p.dst);
  }

  lemma PfAtRule(w: World, i: nat, p: Pf.Packet)
    requires PfInLine(w)
    ensures Pf.HeldFor(ShapeOf(w.core, w.network), w.pf.tables, i, p.dst) <==> BlocksFor(w, i, p.dst)
    ensures ShapeOf(w.core, w.network).Tunnel(i, p.iface) && w.pf.tables.Holds(i, p.dst) <==> LetsOut(w, i, p.dst, p.iface)
  {
    if w.core.Active(i) {
      TableHolds(w, i, p.dst);
      NamesMean(w, i, p.iface);
    }
  }

  lemma NamesMean(w: World, i: nat, iface: string)
    requires w.core.Active(i)
    ensures ShapeOf(w.core, w.network).Tunnel(i, iface) <==> exists l :: l in w.core.rules[i].tunnels && Carried(w.core.links, l, iface)
  {
    NamesAre(w.core.rules[i].tunnels, w.core.links, iface);
  }

  lemma NamesAre(tunnels: seq<nat>, links: seq<LinkState>, iface: string)
    ensures iface in IfaceNames(tunnels, links) <==> exists l :: l in tunnels && Carried(links, l, iface)
  {
    if l :| l in tunnels && Carried(links, l, iface) {
      assert l in tunnels && HasIface(links, l) && links[l].iface.value.name == iface;
    }
    if iface in IfaceNames(tunnels, links) {
      var t :| t in tunnels && HasIface(links, t) && links[t].iface.value.name == iface;
      assert Carried(links, t, iface);
    }
  }

  /** Packets to an address some rule in force holds leave only through a tunnel
      of a rule that holds it, the exemptions aside. */
  lemma HeldStaysIn(w: World, p: Pf.Packet)
    requires PfInLine(w) && !Exempted(w, p)
    ensures Pf.Blocked(w.pf.anchor, w.pf.tables, p) <==>
      (exists i: nat :: BlocksFor(w, i, p.dst)) && !exists i: nat :: LetsOut(w, i, p.dst, p.iface)
  {
    var shape, t := ShapeOf(w.core, w.network), w.pf.tables;
    ExemptMeans(w, p);
    assert Pf.Blocked(w.pf.anchor, t, p) <==> Pf.ShouldBlock(shape, t, p);
    forall i: nat
      ensures Pf.HeldFor(shape, t, i, p.dst) <==> BlocksFor(w, i, p.dst)
      ensures shape.Tunnel(i, p.iface) && t.Holds(i, p.dst) <==> LetsOut(w, i, p.dst, p.iface)
    {
      PfAtRule(w, i, p);
    }
  }

  lemma SyncKeepsTable(w: World, w': World)
    requires SyncPf(w, true, w')
    ensures w'.core == w.core && w'.nets == w.nets && w'.table == w.table && w'.indexOf == w.indexOf && w'.gone == w.gone
  {
  }

  lemma SameExact(w: World, w': World, k: Subnet)
    requires w'.core == w.core && w'.nets == w.nets && w'.table == w.table && w'.indexOf == w.indexOf && w'.gone == w.gone
    ensures Exact(w, k) == Exact(w', k)
  {
  }

  /** After a reconcile and a sync that went through: the longest route of this
      process for any address - no orphan, out of doubt, and no message about it
      refused - leads into the current tunnel of the rule that owns it, if it has
      one, and pf passes the packet there. */
  lemma EndToEnd(w: World, r: Reconciled, m: World, w': World, ip: Ip, k: Subnet, proto: Pf.Proto, port: nat)
    requires Inv(w) && Sound(w) && !w.core.stopped
    requires Reconcile(w, r, m) && SyncPf(m, true, w')
    requires Longest(w'.table, ip, k)
    requires !Orphan(w, k) && k !in m.doubt && GrantedAt(r, k)
    requires RouteOwner(w', k).Some? ==> WayOut(w'.core, RouteOwner(w', k).value).Some?
    ensures RouteOwner(w', k).Some? && RuleHolds(w', RouteOwner(w', k).value, ip)
    ensures var iface := WayOut(w'.core, RouteOwner(w', k).value).value;
      w'.table[k].index == iface.index && !Pf.Blocked(w'.pf.anchor, w'.pf.tables, Pf.Packet(ip, iface.name, proto, port))
  {
    ReconcileKeepsInv(w, r, m);
    ReconcileKeepsSound(w, r, m);
    ReconcileIsExact(w, r, m, k);
    SyncIsReload(m, w');
    SyncKeepsTable(m, w');
    SameExact(m, w', k);
    RoutedIsPassed(w', k, ip, proto, port);
  }

  /** The kill switch: after a reconcile and a sync, a host whose rule has no
      tunnel is let out, the exemptions aside, only through a tunnel of another
      rule in force that holds its address too. */
  lemma TunnellessIsHeld(w: World, r: Reconciled, m: World, w': World, p: Pf.Packet)
    requires Inv(w) && Sound(w) && !w.core.stopped && Reconcile(w, r, m) && SyncPf(m, true, w')
    requires p.dst in w'.core.hosts && w'.core.Active(w'.core.hosts[p.dst].rule)
    requires w'.core.TargetOf(w'.core.hosts[p.dst].rule).None?
    requires !Exempted(w', p)
    ensures Pf.Blocked(w'.pf.anchor, w'.pf.tables, p) <==>
      !exists i: nat :: i != w'.core.hosts[p.dst].rule && LetsOut(w', i, p.dst, p.iface)
  {
    ReconcileKeepsInv(w, r, m);
    ReconcileKeepsSound(w, r, m);
    SyncIsReload(m, w');
    var rule := w'.core.hosts[p.dst].rule;
    NoTargetNoIface(w, r, m, rule);
    HeldStaysIn(w', p);
    assert BlocksFor(w', rule, p.dst) && !LetsOut(w', rule, p.dst, p.iface);
  }

  lemma NoTargetNoIface(w: World, r: Reconciled, m: World, rule: nat)
    requires Inv(w) && !w.core.stopped && Reconcile(w, r, m) && m.core.Active(rule) && m.core.TargetOf(rule).None?
    ensures forall l :: l in m.core.rules[rule].tunnels ==> !HasIface(m.core.links, l)
  {
    var run := w.core.rules[rule];
    assert m.core.rules[rule] == PickedRules(w.core, r.now)[rule] && m.core.links == w.core.links;
    PickStaysInOrder(run.tunnels, w.core.links, run.current, r.now);
    PickFailsIffNoIface(run.tunnels, w.core.links, run.current, r.now);
  }

  // What is never routed

  lemma FakeIsNormal()
    ensures FAKEIP.Normal()
  {
    assert Pow2(8) == 256;
    Pow2Splits(8, 8);
    Pow2Splits(16, 1);
    MultipleIsNormal(FAKEIP, 25353);
  }

  lemma BookedAfterReconcile(w: World, r: Reconciled, w': World, k: Subnet)
    requires Reconcile(w, r, w') && !w.core.stopped && HasRoute(w'.core, k)
    ensures Wanted(w'.core, w'.nets, k).Some? || (IsHost(w'.core, k) && Keep(w'.core, k.addr, w'.core.hosts[k.addr]))
  {
    NetAfterNets(r.afterHosts, r.netEnds, w', k);
    if k !in w'.core.subnets {
      HostAfterReconcile(w, r, w', k.addr);
    }
  }

  /** After every reconcile, whatever the kernel refused, no destination in the
      books covers a current tunnel server or an address of the fake range; so
      no route of this process does that is not an orphan. */
  lemma ServersStayOut(w: World, r: Reconciled, w': World, k: Subnet, ip: Ip)
    requires Reconcile(w, r, w') && !w.core.stopped && AllNormal(w.nets)
    requires k.Contains(ip)
    ensures HasRoute(w'.core, k) ==> ip !in w'.core.Endpoints() && !FAKEIP.Contains(ip)
    ensures Mine(At(w'.table, k)) && !Orphan(w', k) ==> ip !in w'.core.Endpoints() && !FAKEIP.Contains(ip)
  {
    if HasRoute(w'.core, k) {
      BookedAfterReconcile(w, r, w', k);
      if Wanted(w'.core, w'.nets, k).Some? {
        WantedIsListed(w'.core, w'.nets, k);
        FakeIsNormal();
        OverlapsIffShared(k, FAKEIP);
      } else {
        HostContains(k.addr, ip);
        assert FAKEIP in SPECIAL by {
          assert SPECIAL[8] == FAKEIP;
        }
      }
    }
  }

  /** The lists as any number of `add`s build them are normal. */
  lemma ListedServersStayOut(w: World, r: Reconciled, w': World, k: Subnet, ip: Ip, adds: seq<(string, string)>)
    requires Reconcile(w, r, w') && !w.core.stopped && w.nets == DomainLists.Built(adds).subnets
    requires HasRoute(w'.core, k) && k.Contains(ip)
    ensures ip !in w'.core.Endpoints() && !FAKEIP.Contains(ip)
  {
    DomainLists.SubnetsAreNormal(adds);
    ServersStayOut(w, r, w', k, ip);
  }
}
