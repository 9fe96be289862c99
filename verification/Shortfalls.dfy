/** Where the code falls short of what it is for, by runs from the start: one
    refused message, or one hand-over, and what is left of it. */
module Shortfalls {
  import opened Wrappers
  import opened Subnets
  import opened TunnelChoice
  import opened Routes
  import opened ResolverCore
  import opened Steps
  import opened Books
  import opened Exactness
  import Pf
  import Text

  // A reconcile can always be taken, and end as one likes

  /** The ending wished for, where there is such an ending; else all done. */
  function Wished(e: Option<Route>, to: Option<nat>, wish: Option<Ending>): (end: Ending)
    ensures Possible(e, to, end)
  {
    if wish.Some? && Possible(e, to, wish.value) then wish.value else Done
  }

  function Carried(t: Table, to: Subnet -> Option<nat>, ends: map<Subnet, Ending>): (r: Table)
    ensures forall k :: At(r, k) == LeftBy(At(t, k), to(k), At(ends, k))
  {
    map k | k in t.Keys + ends.Keys && LeftBy(At(t, k), to(k), At(ends, k)).Some? :: LeftBy(At(t, k), to(k), At(ends, k)).value
  }

  /** A kernel with which every ending there is can be had: it refuses one message
      in four. */
  const WHIMS: Refusals := (n: nat) => n % 4 == 3

  lemma WhimsGive(e: Option<Route>, to: Option<nat>, end: Ending, lo: nat, hi: nat)
    requires Possible(e, to, end) && lo + 6 <= hi
    ensures Told(WHIMS, lo, hi, e, to, end)
  {
    var m := lo + 3 - lo % 4;
    var n := if end.Done? then if m == lo + 3 then lo else m + 1
             else if end.AddAgainRefused? then if m >= lo + 2 then m - 2 else m + 2
             else if end.DeleteRefused? && to.Some? then if m >= lo + 1 then m - 1 else m + 3
             else m;
    assert WHIMS(m) && !WHIMS(m + 1) && !WHIMS(m + 2) && !WHIMS(m + 3) && WHIMS(m + 4);
    assert EndOf(WHIMS, n, to, e.Some?) == end;
  }

  /** A step with these endings sends some messages, or none. */
  function CallsAfter(w: World, ends: map<Subnet, Ending>): nat {
    if ends == map[] then w.calls else w.calls + 6
  }

  lemma AnyTold(w: World, ends: map<Subnet, Ending>, to: Subnet -> Option<nat>)
    requires w.refuses == WHIMS && forall k :: k in ends ==> Possible(At(w.table, k), to(k), ends[k])
    ensures forall k :: k in ends ==> Told(w.refuses, w.calls, CallsAfter(w, ends), At(w.table, k), to(k), ends[k])
  {
    forall k | k in ends ensures Told(w.refuses, w.calls, CallsAfter(w, ends), At(w.table, k), to(k), ends[k]) {
      WhimsGive(At(w.table, k), to(k), ends[k], w.calls, w.calls + 6);
    }
  }

  /** A message goes out about this host. */
  predicate HostAsked(c: Core, ip: Ip) {
    ip in c.hosts && if Keep(c, ip, c.hosts[ip]) then Moves(c, ip, c.hosts[ip]) else c.hosts[ip].placed.Some?
  }

  function HostEnd(w: World, wish: map<Subnet, Ending>, ip: Ip): Option<Ending> {
    if HostAsked(w.core, ip) then Some(Wished(At(w.table, Host(ip)), HostIndex(w.core, Host(ip)), At(wish, Host(ip)))) else None
  }

  function HostKept(c: Core, ip: Ip, end: Option<Ending>): Option<HostRun> {
    if ip !in c.hosts || !Keep(c, ip, c.hosts[ip]) then None
    else if Moves(c, ip, c.hosts[ip]) && end == Some(Done)
    then Some(c.hosts[ip].(placed := Some(c.TargetOf(c.hosts[ip].rule).value.placed)))
    else Some(c.hosts[ip])
  }

  lemma HostTaken(w: World, wish: map<Subnet, Ending>, ip: Ip)
    requires ip in w.core.hosts
    ensures var e, end := At(w.table, Host(ip)), HostEnd(w, wish, ip);
      HostPlaced(w.core, ip, w.core.hosts[ip], e, end, HostKept(w.core, ip, end), LeftBy(e, HostIndex(w.core, Host(ip)), end))
  {
  }

  function HostEndsOf(w: World, wish: map<Subnet, Ending>): (ends: map<Subnet, Ending>)
    ensures forall ip :: At(ends, Host(ip)) == HostEnd(w, wish, ip)
    ensures forall k :: !IsHost(w.core, k) ==> k !in ends
  {
    var asked := set ip | ip in w.core.hosts && HostAsked(w.core, ip) :: Host(ip);
    var ends := map k | k in asked :: Wished(At(w.table, k), HostIndex(w.core, k), At(wish, k));
    HostEnds(w, wish, asked, ends);
    ends
  }

  function HostsKept(w: World, wish: map<Subnet, Ending>): (hosts: map<Ip, HostRun>)
    ensures forall ip :: At(hosts, ip) == HostKept(w.core, ip, HostEnd(w, wish, ip))
  {
    map ip | ip in w.core.hosts && HostKept(w.core, ip, HostEnd(w, wish, ip)).Some? :: HostKept(w.core, ip, HostEnd(w, wish, ip)).value
  }

  /** `place_hosts`, each message ending as wished. */
  function AfterPlacing(w: World, ends: map<Subnet, Ending>, hosts: map<Ip, HostRun>, table: Table): World {
    w.(core := w.core.(hosts := hosts), table := table, calls := CallsAfter(w, ends),
       stale := w.stale || hosts.Keys != w.core.hosts.Keys,
       doubt := w.doubt - EndedBy(ends, Done) + EndedBy(ends, AddAgainRefused) + SharedNow(w.core))
  }

  lemma TakeHosts(w: World, wish: map<Subnet, Ending>) returns (ends: map<Subnet, Ending>, w': World)
    requires w.refuses == WHIMS
    ensures PlaceHosts(w, ends, w') && w'.refuses == WHIMS
    ensures forall k :: k in ends ==> ends[k] == Wished(At(w.table, k), HostIndex(w.core, k), At(wish, k))
  {
    ends := HostEndsOf(w, wish);
    var hosts := HostsKept(w, wish);
    var table := Carried(w.table, k => HostIndex(w.core, k), ends);
    HostsTaken(w, wish, ends, hosts, table);
    w' := AfterPlacing(w, ends, hosts, table);
    forall k | k in ends ensures ends[k] == Wished(At(w.table, k), HostIndex(w.core, k), At(wish, k)) {
      assert IsHost(w.core, k) && k == Host(k.addr);
      assert At(ends, k) == HostEnd(w, wish, k.addr);
    }
    AnyTold(w, ends, k => HostIndex(w.core, k));
  }

  lemma HostsTaken(w: World, wish: map<Subnet, Ending>, ends: map<Subnet, Ending>, hosts: map<Ip, HostRun>, table: Table)
    requires forall ip :: At(ends, Host(ip)) == HostEnd(w, wish, ip)
    requires forall ip :: At(hosts, ip) == HostKept(w.core, ip, HostEnd(w, wish, ip))
    requires forall k :: At(table, k) == LeftBy(At(w.table, k), HostIndex(w.core, k), At(ends, k))
    ensures forall ip :: ip in w.core.hosts ==>
      HostPlaced(w.core, ip, w.core.hosts[ip], At(w.table, Host(ip)), At(ends, Host(ip)), At(hosts, ip), At(table, Host(ip)))
    ensures forall k :: k !in ends ==> At(table, k) == At(w.table, k)
  {
    forall ip | ip in w.core.hosts
      ensures HostPlaced(w.core, ip, w.core.hosts[ip], At(w.table, Host(ip)), At(ends, Host(ip)), At(hosts, ip), At(table, Host(ip)))
    {
      HostTaken(w, wish, ip);
    }
  }

  lemma HostEnds(w: World, wish: map<Subnet, Ending>, asked: set<Subnet>, ends: map<Subnet, Ending>)
    requires asked == set ip | ip in w.core.hosts && HostAsked(w.core, ip) :: Host(ip)
    requires ends == map k | k in asked :: Wished(At(w.table, k), HostIndex(w.core, k), At(wish, k))
    ensures forall ip :: At(ends, Host(ip)) == HostEnd(w, wish, ip)
    ensures forall k :: !IsHost(w.core, k) ==> k !in ends
  {
    forall ip ensures At(ends, Host(ip)) == HostEnd(w, wish, ip) {
      assert Host(ip) in asked <==> ip in w.core.hosts && HostAsked(w.core, ip);
    }
  }

  /** A message goes out about this subnet. */
  predicate NetAsked(w: World, s: Subnet) {
    var want := Wanted(w.core, w.nets, s);
    (s in w.core.subnets || want.Some?) && !InPlace(At(w.core.subnets, s), want)
  }

  function NetEnd(w: World, wish: map<Subnet, Ending>, s: Subnet): Option<Ending> {
    if NetAsked(w, s) then Some(Wished(At(w.table, s), NetIndex(w, s), At(wish, s))) else None
  }

  function NetEndsOf(w: World, wish: map<Subnet, Ending>): (ends: map<Subnet, Ending>)
    ensures forall s :: At(ends, s) == NetEnd(w, wish, s)
  {
    WantedAreListed(w);
    map s | s in w.core.subnets.Keys + Entries(w.nets) && NetEnd(w, wish, s).Some? :: NetEnd(w, wish, s).value
  }

  lemma WantedAreListed(w: World)
    ensures forall s :: Wanted(w.core, w.nets, s).Some? ==> s in Entries(w.nets)
  {
    forall s | Wanted(w.core, w.nets, s).Some? ensures s in Entries(w.nets) {
      WantedIsListed(w.core, w.nets, s);
    }
  }

  function NetKept(w: World, s: Subnet, end: Option<Ending>): Option<NetRun> {
    var want := Wanted(w.core, w.nets, s);
    if want.None? || (end.Some? && !end.value.Done?) then None else Some(NetRun(want.value.0, want.value.1.placed))
  }

  function NetsKept(w: World, wish: map<Subnet, Ending>): (subnets: map<Subnet, NetRun>)
    ensures forall s :: At(subnets, s) == NetKept(w, s, NetEnd(w, wish, s))
  {
    WantedAreListed(w);
    map s | s in Entries(w.nets) && NetKept(w, s, NetEnd(w, wish, s)).Some? :: NetKept(w, s, NetEnd(w, wish, s)).value
  }

  lemma NetTaken(w: World, wish: map<Subnet, Ending>, s: Subnet)
    ensures var e, end := At(w.table, s), NetEnd(w, wish, s);
      NetPlaced(Wanted(w.core, w.nets, s), At(w.core.subnets, s), e, end, NetKept(w, s, end), LeftBy(e, NetIndex(w, s), end))
  {
  }

  lemma TakeNets(w: World, wish: map<Subnet, Ending>) returns (ends: map<Subnet, Ending>, w': World)
    requires w.refuses == WHIMS
    ensures PlaceSubnets(w, ends, w') && w'.refuses == WHIMS
    ensures forall k :: k in ends ==> ends[k] == Wished(At(w.table, k), NetIndex(w, k), At(wish, k))
  {
    ends := NetEndsOf(w, wish);
    var subnets := NetsKept(w, wish);
    var table := Carried(w.table, k => NetIndex(w, k), ends);
    forall s
      ensures NetPlaced(Wanted(w.core, w.nets, s), At(w.core.subnets, s), At(w.table, s), At(ends, s), At(subnets, s), At(table, s))
    {
      NetTaken(w, wish, s);
    }
    w' := w.(core := w.core.(subnets := subnets), table := table, calls := CallsAfter(w, ends),
             doubt := w.doubt - EndedBy(ends, Done) + SharedSoon(w.core, w.nets));
    forall k | k in ends ensures ends[k] == Wished(At(w.table, k), NetIndex(w, k), At(wish, k)) {
      assert At(ends, k) == NetEnd(w, wish, k);
    }
    AnyTold(w, ends, k => NetIndex(w, k));
  }

  lemma TakeReconcile(w: World, now: nat, hostWish: map<Subnet, Ending>, netWish: map<Subnet, Ending>)
    returns (r: Reconciled, w': World)
    requires !w.core.stopped && w.refuses == WHIMS
    ensures Reconcile(w, r, w') && r.now == now && w'.refuses == WHIMS
    ensures forall k :: k in r.hostEnds ==>
      r.hostEnds[k] == Wished(At(w.table, k), HostIndex(PickTunnels(w, now).core, k), At(hostWish, k))
    ensures forall k :: k in r.netEnds ==>
      r.netEnds[k] == Wished(At(r.afterHosts.table, k), NetIndex(r.afterHosts, k), At(netWish, k))
  {
    var hostEnds, m := TakeHosts(PickTunnels(w, now), hostWish);
    var netEnds;
    netEnds, w' := TakeNets(m, netWish);
    r := Reconciled(now, m, hostEnds, netEnds);
  }

  function DeleteEnds(t: Table, dsts: set<Subnet>, wish: map<Subnet, Ending>): map<Subnet, Ending> {
    map k | k in dsts :: Wished(At(t, k), None, At(wish, k))
  }

  lemma CarriedDeletes(t: Table, dsts: set<Subnet>, wish: map<Subnet, Ending>, t': Table)
    requires forall k :: At(t', k) == LeftBy(At(t, k), None, At(DeleteEnds(t, dsts, wish), k))
    ensures Deleted(dsts, t, DeleteEnds(t, dsts, wish), t')
    ensures wish == map[] ==> AllDone(DeleteEnds(t, dsts, wish))
  {
  }

  lemma TakeRemoveAll(w: World, wish: map<Subnet, Ending>) returns (ends: map<Subnet, Ending>, w': World)
    requires w.refuses == WHIMS
    ensures Next(w, RemovingAll(ends), w')
    ensures forall k :: k in ends <==> HasRoute(w.core, k)
    ensures forall k :: At(w'.table, k) == LeftBy(At(w.table, k), None, At(ends, k))
    ensures forall k :: k in ends ==> ends[k] == Wished(At(w.table, k), None, At(wish, k))
    ensures wish == map[] ==> AllDone(ends)
  {
    var c := w.core;
    ends := DeleteEnds(w.table, Booked(c), wish);
    var table := Carried(w.table, k => None, ends);
    CarriedDeletes(w.table, Booked(c), wish, table);
    AnyTold(w, ends, k => None);
    w' := w.(core := c.(hosts := Unplaced(c.hosts), subnets := map[], stopped := true), table := table, calls := CallsAfter(w, ends));
  }

  // The scene: one rule always in force, two tunnels, at most one host and one subnet

  /** The one host and the one subnet there are, and the tunnels' server. */
  datatype Cast = Cast(ip: Ip, net: Subnet, server: Ip) {
    predicate HostPlain() {
      !Special(ip) && server != ip
    }

    predicate NetPlain() {
      !net.Overlaps(FAKEIP) && !net.Contains(server)
    }

    /** Neither is kept from the tunnels, and they are apart. */
    predicate Plain() {
      HostPlain() && NetPlain() && net != Host(ip)
    }

    /** With an interface and the server; `since` set exactly when Up. */
    function Tunnel(generation: nat, index: nat, health: Health): LinkState {
      LinkState(Some(Iface("utun" + Text.Dec(index), index)), generation, health, false,
                if health == Up then Some(0) else None, Some(server))
    }

    function Listed(): NetLists {
      [(net, "l")]
    }
  }

  const EXAMPLE := Cast(0x0101_0101, Subnet(0x0101_0000, 16), 0x0202_0202)

  function Rule(active: bool, current: Option<nat>): RuleRun {
    RuleRun("r", Always, ["l"], [0, 1], active, current)
  }

  const START := World(
    Core([UNKNOWN, UNKNOWN], [Rule(false, None)], map[], map[], false, false, false),
    [], map[], 0, PfState([], Pf.Tables(map[], map[])), true, None, None, map[], {}, {}, WHIMS, 0, NO_PF)

  /** A pf that fails every command. */
  const NO_PF: Refusals := (n: nat) => true

  lemma AboveIsOutside(s: Subnet, ip: Ip)
    requires ip < s.addr
    ensures !s.Contains(ip)
  {
  }

  lemma ExampleIpIsPlain()
    ensures !Special(EXAMPLE.ip)
  {
    var low := Subnet(0, 8);
    assert Pow2(8) == 256;
    Pow2Splits(8, 8);
    Pow2Splits(16, 8);
    MultipleIsNormal(low, 0);
    ContainsIsInterval(low, EXAMPLE.ip);
    forall s | s in SPECIAL ensures !s.Contains(EXAMPLE.ip) {
      if s != low {
        AboveIsOutside(s, EXAMPLE.ip);
      }
    }
  }

  lemma ExampleNetIsPlain()
    ensures !EXAMPLE.net.Overlaps(FAKEIP) && !EXAMPLE.net.Contains(EXAMPLE.server)
  {
    var net := EXAMPLE.net;
    assert Pow2(8) == 256;
    Pow2Splits(8, 8);
    MultipleIsNormal(net, 0x101);
    ContainsIsInterval(net, FAKEIP.addr);
    ContainsIsInterval(net, EXAMPLE.server);
    AboveIsOutside(FAKEIP, net.addr);
  }

  /** Such there are: 1.1.1.1, 1.1.0.0/16 and a server at 2.2.2.2. */
  lemma ExampleIsPlain()
    ensures EXAMPLE.Plain()
  {
    ExampleIpIsPlain();
    ExampleNetIsPlain();
  }

  ghost predicate OnScene(x: Cast, w: World, current: Option<nat>) {
    w.core.rules == [Rule(true, current)] && |w.core.links| == 2
    && w.core.links[0].endpoint in {None, Some(x.server)} && w.core.links[1].endpoint in {None, Some(x.server)}
    && !w.core.useFakeip && !w.core.stopped
    && w.core.hosts.Keys <= {x.ip} && (x.ip in w.core.hosts ==> w.core.hosts[x.ip].rule == 0)
    && w.core.subnets.Keys <= {x.net} && (w.nets == x.Listed() || w.nets == [])
    && w.refuses == WHIMS && w.pfFails == NO_PF
  }

  lemma EndpointsAre(links: seq<LinkState>, ip: Ip)
    requires forall i :: 0 <= i < |links| ==> links[i].endpoint in {None, Some(ip)}
    ensures forall e :: e in EndpointsOf(links) ==> e == ip
  {
  }

  /** Where the rule goes: to the one good tunnel, or with none good nowhere else
      while its own has an interface. */
  predicate GoesTo(links: seq<LinkState>, current: Option<nat>, a: nat) {
    |links| == 2 && a < 2 && HasIface(links, a) && !Good(links, 1 - a)
    && if Good(links, a) then current.Some? ==> current.value < 2 && !Waited(links, current.value) else current == Some(a)
  }

  lemma PicksIt(links: seq<LinkState>, current: Option<nat>, now: nat, a: nat)
    requires GoesTo(links, current, a)
    ensures Pick([0, 1], links, current, now) == Some(a)
  {
    if Good(links, a) {
      PicksGood(links, current, now, a);
    } else {
      assert GoodOf([0, 1], links) == {};
    }
  }

  lemma PicksGood(links: seq<LinkState>, current: Option<nat>, now: nat, a: nat)
    requires |links| == 2 && a < 2 && Good(links, a) && !Good(links, 1 - a)
    requires current.Some? ==> current.value < 2 && !Waited(links, current.value)
    ensures Pick([0, 1], links, current, now) == Some(a)
  {
    var good := GoodOf([0, 1], links);
    assert good == {a};
    assert [0, 1][1..] == [1];
    if current == Some(a) {
      var before := Before([0, 1], a);
      assert First(before, SettledOf([0, 1], links, now)).None?;
    } else {
      assert First([0, 1], good) == Some(a);
    }
  }

  function TargetAt(c: Core, a: nat): Target
    requires a < |c.links| && c.links[a].iface.Some?
  {
    Target(Placed(a, c.links[a].generation), c.links[a].iface.value.index)
  }

  lemma FirstRuleOwns(c: Core, s: Subnet, list: string)
    requires |c.rules| > 0 && c.rules[0].active && list in c.rules[0].lists && !s.Overlaps(FAKEIP)
    ensures c.NetOwner([(s, list)], s) == Some(0)
  {
    var nets := [(s, list)];
    assert nets[0] == (s, list) && list in ListsOf(nets, s);
    assert c.Takes(0, ListsOf(nets, s));
  }

  lemma OwnedIsWanted(c: Core, nets: NetLists, s: Subnet, rule: nat, t: Target, server: Ip)
    requires c.NetOwner(nets, s) == Some(rule) && c.TargetOf(rule) == Some(t) && !c.useFakeip
    requires (forall i :: 0 <= i < |c.links| ==> c.links[i].endpoint in {None, Some(server)}) && !s.Contains(server)
    ensures Wanted(c, nets, s) == Some((rule, t))
  {
    EndpointsAre(c.links, server);
  }

  lemma TargetOnFirst(x: Cast, w: World, a: nat)
    requires OnScene(x, w, Some(a)) && a < 2 && w.core.links[a].iface.Some?
    ensures w.core.TargetOf(0) == Some(TargetAt(w.core, a))
  {
  }

  lemma RuleOnFirst(x: Cast, w: World, a: nat)
    requires OnScene(x, w, Some(a))
    ensures |w.core.rules| > 0 && w.core.rules[0].active && "l" in w.core.rules[0].lists && !w.core.useFakeip
    ensures forall i :: 0 <= i < |w.core.links| ==> w.core.links[i].endpoint in {None, Some(x.server)}
  {
  }

  lemma ListedIsWanted(x: Cast, w: World, a: nat)
    requires x.NetPlain() && OnScene(x, w, Some(a)) && a < 2 && w.core.links[a].iface.Some?
    ensures Wanted(w.core, w.nets, x.net) == if w.nets == x.Listed() then Some((0, TargetAt(w.core, a))) else None
  {
    if w.nets == [] {
      OthersUnwanted(x, w);
    } else {
      TargetOnFirst(x, w, a);
      RuleOnFirst(x, w, a);
      FirstRuleOwns(w.core, x.net, "l");
      OwnedIsWanted(w.core, w.nets, x.net, 0, TargetAt(w.core, a), x.server);
    }
  }

  lemma OthersUnwanted(x: Cast, w: World)
    requires w.nets == x.Listed() || w.nets == []
    ensures forall s :: s != x.net || w.nets == [] ==> Wanted(w.core, w.nets, s).None?
  {
    forall s | Wanted(w.core, w.nets, s).Some? ensures s in Entries(w.nets) {
      WantedIsListed(w.core, w.nets, s);
    }
  }

  lemma ScenePick(x: Cast, w: World, current: Option<nat>, a: nat)
    requires OnScene(x, w, current) && GoesTo(w.core.links, current, a)
    ensures var p := PickTunnels(w, 0);
      OnScene(x, p, Some(a)) && p.core.TargetOf(0) == Some(TargetAt(w.core, a)) && p.table == w.table
  {
    PicksIt(w.core.links, current, 0, a);
    assert PickTunnels(w, 0).core.rules == [Rule(true, Some(a))];
  }

  predicate HostThere(x: Cast, t: Target, was: World, ends: map<Subnet, Ending>, wish: map<Subnet, Ending>, now: World) {
    var k := Host(x.ip);
    x.ip in was.core.hosts && x.ip in now.core.hosts
    && At(ends, k) == (if was.core.hosts[x.ip].placed != Some(t.placed) then Some(Wished(At(was.table, k), Some(t.index), At(wish, k))) else None)
    && At(now.table, k) == LeftBy(At(was.table, k), Some(t.index), At(ends, k))
    && now.core.hosts[x.ip] == if At(ends, k) == Some(Done) then was.core.hosts[x.ip].(placed := Some(t.placed)) else was.core.hosts[x.ip]
  }

  lemma SceneKeeps(x: Cast, w: World, a: nat)
    requires x.HostPlain() && OnScene(x, w, Some(a)) && a < 2 && w.core.links[a].iface.Some? && x.ip in w.core.hosts
    ensures Keep(w.core, x.ip, w.core.hosts[x.ip]) && w.core.TargetOf(0) == Some(TargetAt(w.core, a))
  {
    RoutableOutside(w.core, x.ip, x.server);
    TargetOnFirst(x, w, a);
  }

  lemma RoutableOutside(c: Core, ip: Ip, server: Ip)
    requires !Special(ip) && ip != server && forall i :: 0 <= i < |c.links| ==> c.links[i].endpoint in {None, Some(server)}
    ensures Routable(ip, c.Endpoints())
  {
    EndpointsAre(c.links, server);
  }

  lemma KeptStays(w: World, ends: map<Subnet, Ending>, m: World, ip: Ip)
    requires PlaceHosts(w, ends, m) && ip in w.core.hosts && Keep(w.core, ip, w.core.hosts[ip])
    ensures ip in m.core.hosts
  {
    assert HostPlaced(w.core, ip, w.core.hosts[ip], At(w.table, Host(ip)), At(ends, Host(ip)), At(m.core.hosts, ip), At(m.table, Host(ip)));
  }

  lemma SceneHost(x: Cast, w: World, ends: map<Subnet, Ending>, m: World, wish: map<Subnet, Ending>, a: nat)
    requires x.Plain() && OnScene(x, w, Some(a)) && a < 2 && w.core.links[a].iface.Some? && PlaceHosts(w, ends, m) && x.ip in w.core.hosts
    requires forall k :: k in ends ==> ends[k] == Wished(At(w.table, k), HostIndex(w.core, k), At(wish, k))
    ensures HostThere(x, TargetAt(w.core, a), w, ends, wish, m) && m.core.hosts[x.ip].rule == 0
  {
    SceneKeeps(x, w, a);
    KeptStays(w, ends, m, x.ip);
    HostAfterHosts(w, ends, m, x.ip);
  }

  lemma SceneHosts(x: Cast, w: World, ends: map<Subnet, Ending>, m: World, wish: map<Subnet, Ending>, a: nat)
    requires x.Plain() && OnScene(x, w, Some(a)) && a < 2 && w.core.links[a].iface.Some? && PlaceHosts(w, ends, m)
    requires forall k :: k in ends ==> ends[k] == Wished(At(w.table, k), HostIndex(w.core, k), At(wish, k))
    ensures OnScene(x, m, Some(a)) && m.core.hosts.Keys == w.core.hosts.Keys && m.core.subnets == w.core.subnets
    ensures ends.Keys <= {Host(x.ip)} && At(m.table, x.net) == At(w.table, x.net)
    ensures x.ip in w.core.hosts ==> HostThere(x, TargetAt(w.core, a), w, ends, wish, m)
  {
    forall k | k in ends ensures k == Host(x.ip) {
      assert IsHost(w.core, k) && k == Host(k.addr);
    }
    assert !IsHost(w.core, x.net);
    if x.ip in w.core.hosts {
      SceneHost(x, w, ends, m, wish, a);
    }
  }

  predicate NetThere(x: Cast, t: Target, was: World, ends: map<Subnet, Ending>, wish: map<Subnet, Ending>, now: World) {
    var e, end, to := At(was.table, x.net), At(ends, x.net), if was.nets == x.Listed() then Some(t.index) else None;
    var there := Some(NetRun(0, t.placed));
    end == (if if to.Some? then At(was.core.subnets, x.net) == there else x.net !in was.core.subnets then None
            else Some(Wished(e, to, At(wish, x.net))))
    && At(now.table, x.net) == LeftBy(e, to, end)
    && At(now.core.subnets, x.net) == if to.Some? && (end.None? || end.value.Done?) then there else None
  }

  lemma SceneNets(x: Cast, m: World, ends: map<Subnet, Ending>, w': World, wish: map<Subnet, Ending>, a: nat)
    requires x.Plain() && OnScene(x, m, Some(a)) && a < 2 && m.core.links[a].iface.Some? && PlaceSubnets(m, ends, w')
    requires forall k :: k in ends ==> ends[k] == Wished(At(m.table, k), NetIndex(m, k), At(wish, k))
    ensures OnScene(x, w', Some(a)) && ends.Keys <= {x.net} && At(w'.table, Host(x.ip)) == At(m.table, Host(x.ip))
    ensures Wanted(w'.core, w'.nets, x.net) == if m.nets == x.Listed() then Some((0, TargetAt(m.core, a))) else None
    ensures NetThere(x, TargetAt(m.core, a), m, ends, wish, w')
  {
    ListedIsWanted(x, m, a);
    OthersUnwanted(x, m);
    forall s | s != x.net ensures s !in ends && s !in w'.core.subnets && At(w'.table, s) == At(m.table, s) {
      NetAfterNets(m, ends, w', s);
    }
    NetAfterNets(m, ends, w', x.net);
  }

  /** What a reconcile on the scene does: the rule to its good tunnel `a`, the
      host and the subnet after it, the messages ending as wished. */
  ghost predicate SceneTook(x: Cast, w: World, a: nat, hostWish: map<Subnet, Ending>, netWish: map<Subnet, Ending>, r: Reconciled, w': World)
    requires a < |w.core.links| && w.core.links[a].iface.Some?
  {
    OnScene(x, w', Some(a)) && w'.core.links == w.core.links && w'.nets == w.nets
    && w'.core.hosts.Keys == w.core.hosts.Keys && w'.indexOf == w.indexOf && w'.gone == w.gone
    && r.hostEnds.Keys <= {Host(x.ip)} && r.netEnds.Keys <= {x.net}
    && (hostWish == map[] ==> AllDone(r.hostEnds)) && (netWish == map[] ==> AllDone(r.netEnds))
    && (x.ip in w.core.hosts ==> HostThere(x, TargetAt(w.core, a), w, r.hostEnds, hostWish, w'))
    && NetThere(x, TargetAt(w.core, a), w, r.netEnds, netWish, w')
  }

  lemma SceneReconcile(x: Cast, w: World, current: Option<nat>, a: nat, hostWish: map<Subnet, Ending>, netWish: map<Subnet, Ending>)
    returns (r: Reconciled, w': World)
    requires x.Plain() && OnScene(x, w, current) && GoesTo(w.core.links, current, a)
    ensures Next(w, Reconciling(r), w') && SceneTook(x, w, a, hostWish, netWish, r, w')
  {
    ScenePick(x, w, current, a);
    r, w' := TakeReconcile(w, 0, hostWish, netWish);
    var p, m := PickTunnels(w, 0), r.afterHosts;
    SceneHosts(x, p, r.hostEnds, m, hostWish, a);
    SceneNets(x, m, r.netEnds, w', netWish, a);
  }

  // Runs

  ghost predicate EndsIn(ws: seq<World>, acts: seq<Action>, w: World) {
    Run(ws, acts) && ws[|acts|] == w
  }

  /** Some run comes to this state. */
  ghost predicate Reached(w: World) {
    exists ws, acts :: EndsIn(ws, acts, w)
  }

  lemma ReachStart()
    ensures Reached(START)
  {
    assert EndsIn([START], [], START);
  }

  lemma RunGrows(ws: seq<World>, acts: seq<Action>, a: Action, w': World)
    requires Run(ws, acts) && Next(ws[|acts|], a, w')
    ensures Run(ws + [w'], acts + [a])
  {
    var vs, bs := ws + [w'], acts + [a];
    forall i {:trigger bs[i]} | 0 <= i < |bs| ensures Next(vs[i], bs[i], vs[i + 1]) {
      if i < |acts| {
        assert Next(ws[i], acts[i], ws[i + 1]);
        assert vs[i] == ws[i] && vs[i + 1] == ws[i + 1] && bs[i] == acts[i];
      } else {
        assert vs[i] == ws[|acts|] && vs[i + 1] == w' && bs[i] == a;
      }
    }
  }

  lemma ReachNext(w: World, a: Action, w': World)
    requires Reached(w) && Next(w, a, w')
    ensures Reached(w') && (NoOrphans(w) && (forall k :: KindTo(a, k)) ==> NoOrphans(w'))
  {
    var ws, acts :| EndsIn(ws, acts, w);
    RunGrows(ws, acts, a, w');
    assert EndsIn(ws + [w'], acts + [a], w');
    if NoOrphans(w) && forall k :: KindTo(a, k) {
      UnrefusedOrphansNone(w, a, w');
    }
  }

  lemma UnrefusedOrphansNone(w: World, a: Action, w': World)
    requires Next(w, a, w') && NoOrphans(w) && forall k :: KindTo(a, k)
    ensures NoOrphans(w')
  {
    GrantedLosesNone(w, a, w');
    NoOrphansIff(w, a, w');
  }

  predicate BothBooked(x: Cast, w: World) {
    x.ip in w.core.hosts && w.core.hosts[x.ip] == HostRun(0, 0, Some(Placed(0, 1))) && At(w.table, Host(x.ip)) == Some(Route(1, true))
    && At(w.core.subnets, x.net) == Some(NetRun(0, Placed(0, 1))) && At(w.table, x.net) == Some(Route(1, true))
  }

  /** Host and subnet in the books and in the kernel, at the first tunnel. */
  ghost predicate Opened(x: Cast, w: World) {
    OnScene(x, w, Some(0)) && w.core.links == [x.Tunnel(1, 1, Up), UNKNOWN] && w.nets == x.Listed() && BothBooked(x, w)
    && w.indexOf == map[Placed(0, 1) := 1] && w.gone == {}
  }

  /** The rule in force with its list, and its first tunnel up. */
  lemma Prelude(x: Cast) returns (w: World)
    ensures Reached(w) && NoOrphans(w)
    ensures w == START.(core := START.core.(rules := [Rule(true, None)], links := [x.Tunnel(1, 1, Up), UNKNOWN]),
                        nets := x.Listed(), stale := true, indexOf := map[Placed(0, 1) := 1])
  {
    var a := SetCountry(START, "");
    assert InCountry(START.core.rules, "") == [Rule(true, None)];
    var b := SetLists(a, x.Listed());
    w := SetLink(b, 0, x.Tunnel(1, 1, Up));
    assert w.core.links == [x.Tunnel(1, 1, Up), UNKNOWN];
    ReachStart();
    ReachNext(START, SettingCountry(""), a);
    ReachNext(a, SettingLists(x.Listed()), b);
    ReachNext(b, SettingLink(0, x.Tunnel(1, 1, Up)), w);
  }

  lemma OpenedAfter(x: Cast, w: World, r: Reconciled, w': World)
    requires w.core.links == [x.Tunnel(1, 1, Up), UNKNOWN] && w.nets == x.Listed() && w.core.subnets == map[]
    requires w.core.hosts == map[x.ip := HostRun(0, 0, None)] && w.indexOf == map[Placed(0, 1) := 1] && w.gone == {}
    requires SceneTook(x, w, 0, map[], map[], r, w')
    ensures Opened(x, w') && forall k :: KindTo(Reconciling(r), k)
  {
  }

  lemma Loading(x: Cast) returns (w: World)
    requires x.Plain()
    ensures Reached(w) && NoOrphans(w) && OnScene(x, w, None)
    ensures w.core.links == [x.Tunnel(1, 1, Up), UNKNOWN] && w.nets == x.Listed() && w.core.subnets == map[]
    ensures w.core.hosts == map[x.ip := HostRun(0, 0, None)] && w.indexOf == map[Placed(0, 1) := 1] && w.gone == {}
  {
    var a := Prelude(x);
    var saved := [Saved(x.ip, 0, 0)];
    assert saved[..0] == [] && Loaded(map[], 1, saved) == map[x.ip := HostRun(0, 0, None)];
    w := LoadHosts(a, saved);
    ReachNext(a, LoadingHosts(saved), w);
  }

  /** A host read from the state file, and a reconcile. */
  lemma Opening(x: Cast) returns (w: World)
    requires x.Plain()
    ensures Reached(w) && NoOrphans(w) && Opened(x, w)
  {
    var a := Loading(x);
    var r;
    r, w := SceneReconcile(x, a, None, 0, map[], map[]);
    OpenedAfter(x, a, r, w);
    ReachNext(a, Reconciling(r), w);
  }

  // What goes wrong

  /** The first tunnel back under another generation. */
  lemma Returned(x: Cast) returns (w: World)
    requires x.Plain()
    ensures Reached(w) && NoOrphans(w) && BothBooked(x, w)
    ensures OnScene(x, w, Some(0)) && w.core.links == [x.Tunnel(2, 3, Up), UNKNOWN] && w.nets == x.Listed()
  {
    var a := Opening(x);
    w := SetLink(a, 0, x.Tunnel(2, 3, Up));
    ReachNext(a, SettingLink(0, x.Tunnel(2, 3, Up)), w);
  }

  /** The subnet's route left where it was, and the subnet out of the books. */
  predicate NetLost(x: Cast, w: World, r: Reconciled, m: World) {
    x.net in w.core.subnets && Mine(At(w.table, x.net)) && x.net !in r.hostEnds && RefusedAt(r.netEnds, x.net)
    && !HasRoute(m.core, x.net) && At(m.table, x.net) == At(w.table, x.net)
  }

  lemma NetLostIsLost(x: Cast, w: World, r: Reconciled, m: World)
    requires NetLost(x, w, r, m)
    ensures Loses(w, Reconciling(r), m, x.net)
  {
  }

  lemma AddRefusedLoses(x: Cast, w: World, r: Reconciled, m: World)
    requires x.net != Host(x.ip) && OnScene(x, w, Some(0)) && w.core.links == [x.Tunnel(2, 3, Up), UNKNOWN] && w.nets == x.Listed() && BothBooked(x, w)
    requires SceneTook(x, w, 0, map[], map[x.net := AddRefused], r, m)
    ensures NetLost(x, w, r, m) && AllDone(r.hostEnds) && r.netEnds == map[x.net := AddRefused]
  {
  }

  lemma AddRefusedAtNet(x: Cast, w: World) returns (r: Reconciled, m: World)
    requires x.Plain() && OnScene(x, w, Some(0)) && w.core.links == [x.Tunnel(2, 3, Up), UNKNOWN] && w.nets == x.Listed() && BothBooked(x, w)
    ensures Next(w, Reconciling(r), m) && NetLost(x, w, r, m) && AllDone(r.hostEnds) && r.netEnds == map[x.net := AddRefused]
  {
    r, m := SceneReconcile(x, w, Some(0), 0, map[], map[x.net := AddRefused]);
    AddRefusedLoses(x, w, r, m);
  }

  /** An orphan by a refused add. The tunnel is back under a new generation, the
      subnet is out of the books before its route is set again, the first add of
      that is refused, and the old route stands in no book: `remove_all` asks for
      everything else, is granted all of it, and leaves the route. */
  lemma RefusedAddOrphans(x: Cast) returns (w: World, r: Reconciled, m: World, ends: map<Subnet, Ending>, w': World)
    requires x.Plain()
    ensures Reached(w) && NoOrphans(w) && Next(w, Reconciling(r), m) && Next(m, RemovingAll(ends), w')
    ensures AllDone(r.hostEnds) && r.netEnds == map[x.net := AddRefused] && Loses(w, Reconciling(r), m, x.net)
    ensures AllDone(ends) && x.net !in ends && Mine(At(w'.table, x.net))
  {
    w := Returned(x);
    r, m := AddRefusedAtNet(x, w);
    NetLostIsLost(x, w, r, m);
    ends, w' := TakeRemoveAll(m, map[]);
  }

  lemma TakeExpire(w: World, now: nat, window: nat, wish: map<Subnet, Ending>) returns (ends: map<Subnet, Ending>, w': World)
    requires w.refuses == WHIMS && w.pfFails == NO_PF
    ensures Next(w, Expiring(now, window, ends, false), w') && w'.refuses == WHIMS
    ensures w'.core == w.core.(hosts := w.core.hosts - Old(w.core, now, window))
    ensures forall k :: k in ends <==> k in RoutedAmong(w.core, Old(w.core, now, window))
    ensures forall k :: At(w'.table, k) == LeftBy(At(w.table, k), None, At(ends, k))
    ensures forall k :: k in ends ==> ends[k] == Wished(At(w.table, k), None, At(wish, k))
  {
    var c, gone := w.core, Old(w.core, now, window);
    ends := DeleteEnds(w.table, RoutedAmong(c, gone), wish);
    var table := Carried(w.table, k => None, ends);
    CarriedDeletes(w.table, RoutedAmong(c, gone), wish, table);
    AnyTold(w, ends, k => None);
    assert Denied(w.pfFails, w.pfCalls);
    w' := w.(core := c.(hosts := c.hosts - gone), table := table, calls := CallsAfter(w, ends),
             pfCalls := w.pfCalls + 1, stale := true,
             doubt := w.doubt + set ip | ip in gone && Host(ip) in c.subnets :: Host(ip));
  }

  /** Host and subnet booked, and the lists emptied. */
  lemma Unlisted(x: Cast) returns (w: World)
    requires x.Plain()
    ensures Reached(w) && NoOrphans(w) && BothBooked(x, w)
    ensures OnScene(x, w, Some(0)) && w.core.links == [x.Tunnel(1, 1, Up), UNKNOWN] && w.nets == []
  {
    var a := Opening(x);
    w := SetLists(a, []);
    ReachNext(a, SettingLists([]), w);
  }

  lemma DeleteRefusedLoses(x: Cast, w: World, r: Reconciled, m: World)
    requires x.net != Host(x.ip) && OnScene(x, w, Some(0)) && w.core.links == [x.Tunnel(1, 1, Up), UNKNOWN] && w.nets == []
    requires BothBooked(x, w) && SceneTook(x, w, 0, map[], map[x.net := DeleteRefused], r, m)
    ensures NetLost(x, w, r, m) && Mine(At(m.table, x.net)) && At(m.table, Host(x.ip)) == Some(Route(1, true))
    ensures m.core.hosts == map[x.ip := HostRun(0, 0, Some(Placed(0, 1)))] && m.core.subnets == map[]
  {
    assert m.core.hosts.Keys == w.core.hosts.Keys == {x.ip};
    assert m.core.subnets.Keys == {};
  }

  /** A dropped subnet's delete refused. */
  lemma DroppedNet(x: Cast, w: World) returns (r: Reconciled, m: World)
    requires x.Plain() && OnScene(x, w, Some(0)) && w.core.links == [x.Tunnel(1, 1, Up), UNKNOWN] && w.nets == []
    requires BothBooked(x, w)
    ensures Next(w, Reconciling(r), m) && Loses(w, Reconciling(r), m, x.net) && Mine(At(m.table, x.net))
    ensures m.core.hosts == map[x.ip := HostRun(0, 0, Some(Placed(0, 1)))] && m.core.subnets == map[]
    ensures At(m.table, Host(x.ip)) == Some(Route(1, true)) && m.refuses == WHIMS && m.pfFails == NO_PF
  {
    r, m := SceneReconcile(x, w, Some(0), 0, map[], map[x.net := DeleteRefused]);
    DeleteRefusedLoses(x, w, r, m);
    NetLostIsLost(x, w, r, m);
  }

  /** An old host's delete refused. */
  lemma ExpiredHost(x: Cast, m: World) returns (ends: map<Subnet, Ending>, e: World)
    requires x.net != Host(x.ip) && m.core.hosts == map[x.ip := HostRun(0, 0, Some(Placed(0, 1)))] && m.core.subnets == map[]
    requires Mine(At(m.table, Host(x.ip))) && Mine(At(m.table, x.net)) && m.refuses == WHIMS && m.pfFails == NO_PF
    ensures Next(m, Expiring(10, 1, ends, false), e) && Loses(m, Expiring(10, 1, ends, false), e, Host(x.ip))
    ensures e.refuses == WHIMS && e.core.hosts == map[] && e.core.subnets == map[] && Mine(At(e.table, Host(x.ip))) && Mine(At(e.table, x.net))
  {
    assert Old(m.core, 10, 1) == {x.ip};
    assert IsHost(m.core, Host(x.ip)) && !IsHost(m.core, x.net);
    ends, e := TakeExpire(m, 10, 1, map[Host(x.ip) := DeleteRefused]);
  }

  /** Orphans by refused deletes, of a dropped subnet and of an old host:
      `remove_all` then asks for nothing, and both routes stand. */
  lemma RefusedDeletesOrphan(x: Cast)
    returns (w: World, r: Reconciled, m: World, expired: map<Subnet, Ending>, e: World, w': World)
    requires x.Plain()
    ensures Reached(w) && NoOrphans(w) && Next(w, Reconciling(r), m) && Loses(w, Reconciling(r), m, x.net)
    ensures Next(m, Expiring(10, 1, expired, false), e) && Loses(m, Expiring(10, 1, expired, false), e, Host(x.ip))
    ensures Next(e, RemovingAll(map[]), w') && Mine(At(w'.table, x.net)) && Mine(At(w'.table, Host(x.ip)))
  {
    w := Unlisted(x);
    r, m := DroppedNet(x, w);
    expired, e := ExpiredHost(x, m);
    var ends;
    ends, w' := TakeRemoveAll(e, map[]);
    assert ends == map[];
  }

  lemma FirstDoubtful(x: Cast) returns (w: World)
    requires x.Plain()
    ensures Reached(w) && BothBooked(x, w) && OnScene(x, w, Some(0)) && w.nets == x.Listed()
    ensures w.core.links == [x.Tunnel(1, 1, Suspect), UNKNOWN] && w.indexOf == map[Placed(0, 1) := 1] && w.gone == {}
  {
    var a := Opening(x);
    w := SetLink(a, 0, x.Tunnel(1, 1, Suspect));
    ReachNext(a, SettingLink(0, x.Tunnel(1, 1, Suspect)), w);
  }

  /** The first tunnel in doubt, the second one up. */
  lemma Doubtful(x: Cast) returns (w: World)
    requires x.Plain()
    ensures Reached(w) && BothBooked(x, w) && OnScene(x, w, Some(0)) && w.nets == x.Listed()
    ensures w.core.links == [x.Tunnel(1, 1, Suspect), x.Tunnel(1, 2, Up)]
    ensures w.indexOf == map[Placed(0, 1) := 1, Placed(1, 1) := 2] && w.gone == {}
  {
    var a := FirstDoubtful(x);
    w := SetLink(a, 1, x.Tunnel(1, 2, Up));
    ReachNext(a, SettingLink(1, x.Tunnel(1, 2, Up)), w);
  }

  lemma MoveRefusedLoses(x: Cast, w: World, r: Reconciled, m: World)
    requires x.net != Host(x.ip) && OnScene(x, w, Some(0)) && BothBooked(x, w)
    requires w.core.links == [x.Tunnel(1, 1, Suspect), x.Tunnel(1, 2, Up)]
    requires SceneTook(x, w, 1, map[Host(x.ip) := AddAgainRefused], map[], r, m)
    ensures Host(x.ip) !in m.table && x.ip in m.core.hosts && m.core.hosts[x.ip] == w.core.hosts[x.ip]
    ensures r.hostEnds == map[Host(x.ip) := AddAgainRefused] && AllDone(r.netEnds)
  {
  }

  /** The rule to the second tunnel, the last add of the host's move refused. */
  lemma MoveRefused(x: Cast) returns (w: World, r: Reconciled, m: World)
    requires x.Plain()
    ensures Reached(w) && Reached(m) && Next(w, Reconciling(r), m) && OnScene(x, m, Some(1)) && m.nets == x.Listed()
    ensures r.hostEnds == map[Host(x.ip) := AddAgainRefused] && AllDone(r.netEnds)
    ensures Host(x.ip) !in m.table && x.ip in m.core.hosts && m.core.hosts[x.ip].placed == Some(Placed(0, 1))
    ensures m.core.links == [x.Tunnel(1, 1, Suspect), x.Tunnel(1, 2, Up)]
    ensures m.indexOf == map[Placed(0, 1) := 1, Placed(1, 1) := 2] && m.gone == {}
  {
    w := Doubtful(x);
    r, m := SceneReconcile(x, w, Some(0), 1, map[Host(x.ip) := AddAgainRefused], map[]);
    MoveRefusedLoses(x, w, r, m);
    ReachNext(w, Reconciling(r), m);
  }

  lemma BackLeavesNone(x: Cast, w: World, r: Reconciled, m: World)
    requires OnScene(x, w, Some(1)) && w.core.links == [x.Tunnel(1, 1, Up), UNKNOWN]
    requires x.ip in w.core.hosts && w.core.hosts[x.ip].placed == Some(Placed(0, 1)) && Host(x.ip) !in w.table
    requires SceneTook(x, w, 0, map[], map[], r, m)
    ensures Host(x.ip) !in r.hostEnds && Host(x.ip) !in m.table && x.ip in m.core.hosts
    ensures m.core.hosts[x.ip].placed == Some(Placed(0, 1)) && m.core.TargetOf(0) == Some(Target(Placed(0, 1), 1))
    ensures !Exact(m, Host(x.ip))
  {
  }

  /** The second tunnel gone, the first one up again. */
  lemma Back(x: Cast, m: World) returns (w: World)
    requires Reached(m) && OnScene(x, m, Some(1)) && m.core.links == [x.Tunnel(1, 1, Suspect), x.Tunnel(1, 2, Up)]
    requires m.indexOf == map[Placed(0, 1) := 1, Placed(1, 1) := 2] && m.gone == {}
    ensures w == SetLink(SetLink(m, 0, x.Tunnel(1, 1, Up)), 1, UNKNOWN) && Reached(w)
    ensures OnScene(x, w, Some(1)) && w.core.links == [x.Tunnel(1, 1, Up), UNKNOWN]
    ensures w.core.hosts == m.core.hosts && w.table == m.table
  {
    var a := SetLink(m, 0, x.Tunnel(1, 1, Up));
    w := SetLink(a, 1, UNKNOWN);
    ReachNext(m, SettingLink(0, x.Tunnel(1, 1, Up)), a);
    ReachNext(a, SettingLink(1, UNKNOWN), w);
  }

  /** A host without its route, for good: the rule goes to another tunnel and the
      last add of the host's move is refused, so that nothing stands and the old
      place stays booked; when the rule comes back, the host is booked where it
      belongs, nothing is sent, and the reconcile leaves it without a route. */
  lemma RefusedMoveLosesHost(x: Cast)
    returns (w: World, r: Reconciled, m: World, back: World, again: Reconciled, w': World)
    requires x.Plain()
    ensures Reached(w) && Next(w, Reconciling(r), m) && r.hostEnds == map[Host(x.ip) := AddAgainRefused] && AllDone(r.netEnds)
    ensures back == SetLink(SetLink(m, 0, x.Tunnel(1, 1, Up)), 1, UNKNOWN) && Reached(back)
    ensures Next(back, Reconciling(again), w') && Host(x.ip) !in again.hostEnds && Host(x.ip) !in w'.table
    ensures !Exact(w', Host(x.ip))
  {
    w, r, m := MoveRefused(x);
    back := Back(x, m);
    again, w' := SceneReconcile(x, back, Some(1), 0, map[], map[]);
    BackLeavesNone(x, back, again, w');
  }

  lemma TargetOnScene(x: Cast, w: World, t: LinkState)
    requires x.Plain() && OnScene(x, w, Some(0)) && w.core.links == [t, UNKNOWN] && t.iface.Some? && w.nets == x.Listed()
    ensures w.core.TargetOf(0) == Some(Target(Placed(0, t.generation), t.iface.value.index))
    ensures Wanted(w.core, w.nets, x.net) == Some((0, Target(Placed(0, t.generation), t.iface.value.index)))
  {
    ListedIsWanted(x, w, 0);
  }

  /** The books and lists of the opening, in the words of the hand-over. */
  predicate Ready(x: Cast, w: World) {
    x.ip in w.core.hosts && w.core.hosts[x.ip].placed == Some(Placed(0, 1)) && x.net in w.core.subnets
    && w.core.subnets[x.net].placed == Placed(0, 1) && !IsHost(w.core, x.net)
    && Host(x.ip) !in w.core.subnets && Host(x.ip) !in Entries(w.nets)
  }

  lemma BookedIsReady(x: Cast, w: World)
    requires x.net != Host(x.ip) && BothBooked(x, w) && OnScene(x, w, Some(0)) && w.nets == x.Listed()
    ensures Ready(x, w)
  {
    assert x.Listed()[0].0 == x.net && Entries(x.Listed()) == {x.net};
  }

  /** Where the host and the subnet belong, at the one tunnel. */
  predicate OnFirst(x: Cast, w: World, t: LinkState) {
    x.ip in w.core.hosts && w.core.hosts[x.ip].rule == 0 && t.iface.Some?
    && w.core.TargetOf(0) == Some(Target(Placed(0, t.generation), t.iface.value.index))
    && Wanted(w.core, w.nets, x.net) == Some((0, Target(Placed(0, t.generation), t.iface.value.index)))
  }

  lemma HostHandedOver(x: Cast, w: World, r: Reconciled, m: World, again: Reconciled, w': World)
    requires Ready(x, w) && HandsOver(w, 0, x.Tunnel(2, 1, Down), r, m, x.Tunnel(2, 2, Down), again, w')
    requires OnFirst(x, m, x.Tunnel(2, 1, Down)) && OnFirst(x, w', x.Tunnel(2, 2, Down))
    ensures !Exact(w', Host(x.ip))
  {
    HandOverLeavesHosts(w, 0, x.Tunnel(2, 1, Down), r, m, x.Tunnel(2, 2, Down), again, w', x.ip);
  }

  lemma NetHandedOver(x: Cast, w: World, r: Reconciled, m: World, again: Reconciled, w': World)
    requires Ready(x, w) && HandsOver(w, 0, x.Tunnel(2, 1, Down), r, m, x.Tunnel(2, 2, Down), again, w')
    requires OnFirst(x, m, x.Tunnel(2, 1, Down)) && OnFirst(x, w', x.Tunnel(2, 2, Down))
    ensures !Exact(w', x.net)
  {
    HandOverLeavesSubnets(w, 0, x.Tunnel(2, 1, Down), r, m, x.Tunnel(2, 2, Down), again, w', x.net, 0);
  }

  /** The first tunnel lost, with nothing moved: the rule stays on it. */
  lemma Lost(x: Cast) returns (w: World)
    requires x.Plain()
    ensures Reached(w) && BothBooked(x, w) && OnScene(x, w, Some(0)) && w.nets == x.Listed()
    ensures w.core.links == [x.Tunnel(1, 1, Down), UNKNOWN]
  {
    var a := Opening(x);
    var b := SetLink(a, 0, x.Tunnel(1, 1, Down));
    ReachNext(a, SettingLink(0, x.Tunnel(1, 1, Down)), b);
    var r;
    r, w := SceneReconcile(x, b, Some(0), 0, map[], map[]);
    LostMovesNone(x, b, r, w);
    ReachNext(b, Reconciling(r), w);
  }

  lemma LostMovesNone(x: Cast, w: World, r: Reconciled, m: World)
    requires OnScene(x, w, Some(0)) && w.core.links == [x.Tunnel(1, 1, Down), UNKNOWN] && w.nets == x.Listed() && BothBooked(x, w)
    requires SceneTook(x, w, 0, map[], map[], r, m)
    ensures BothBooked(x, m)
  {
  }

  lemma HandOverScene(x: Cast, w: World) returns (r: Reconciled, m: World, again: Reconciled, w': World)
    requires x.Plain() && BothBooked(x, w) && OnScene(x, w, Some(0)) && w.nets == x.Listed()
    requires w.core.links == [x.Tunnel(1, 1, Down), UNKNOWN]
    ensures HandsOver(w, 0, x.Tunnel(2, 1, Down), r, m, x.Tunnel(2, 2, Down), again, w') && again.Granted()
    ensures OnFirst(x, m, x.Tunnel(2, 1, Down)) && OnFirst(x, w', x.Tunnel(2, 2, Down))
  {
    r, m := Published(x, w, x.Tunnel(2, 1, Down));
    again, w' := Published(x, m, x.Tunnel(2, 2, Down));
  }

  /** The first tunnel told anew, and a reconcile. */
  lemma Published(x: Cast, w: World, t: LinkState) returns (r: Reconciled, m: World)
    requires x.Plain() && OnScene(x, w, Some(0)) && w.nets == x.Listed() && x.ip in w.core.hosts && |w.core.links| == 2
    requires w.core.links[1] == UNKNOWN && t.iface.Some? && t.health == Down && t.endpoint == Some(x.server)
    ensures Reconcile(SetLink(w, 0, t), r, m) && r.Granted() && OnFirst(x, m, t)
    ensures OnScene(x, m, Some(0)) && m.core.links == [t, UNKNOWN] && m.nets == w.nets
  {
    var v := SetLink(w, 0, t);
    assert v.core.links == [t, UNKNOWN];
    r, m := SceneReconcile(x, v, Some(0), 0, map[], map[]);
    TargetOnScene(x, m, t);
  }

  lemma HandOverReached(w: World, l: nat, first: LinkState, r: Reconciled, m: World, second: LinkState, again: Reconciled, w': World)
    requires Reached(w) && HandsOver(w, l, first, r, m, second, again, w')
    ensures Reached(w')
  {
    ReachNext(w, SettingLink(l, first), SetLink(w, l, first));
    ReachNext(SetLink(w, l, first), Reconciling(r), m);
    ReachNext(m, SettingLink(l, second), SetLink(m, l, second));
    ReachNext(SetLink(m, l, second), Reconciling(again), w');
  }

  /** A hand-over as `Links.Link.Connect` tells it, Down both times, from interface
      1 to interface 2, everything granted: host and subnet are left on the old
      interface. */
  lemma HandOverLeavesBoth(x: Cast) returns (w: World, r: Reconciled, m: World, again: Reconciled, w': World)
    requires x.Plain()
    ensures Reached(w) && HandsOver(w, 0, x.Tunnel(2, 1, Down), r, m, x.Tunnel(2, 2, Down), again, w') && again.Granted()
    ensures Reached(w') && !Exact(w', Host(x.ip)) && !Exact(w', x.net)
  {
    w := Lost(x);
    BookedIsReady(x, w);
    r, m, again, w' := HandOverScene(x, w);
    HandOverReached(w, 0, x.Tunnel(2, 1, Down), r, m, x.Tunnel(2, 2, Down), again, w');
    HostHandedOver(x, w, r, m, again, w');
    NetHandedOver(x, w, r, m, again, w');
  }
}
