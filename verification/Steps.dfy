/** The resolver together with what it drives - the kernel route table and the
    pf anchor - as one value, and every step it takes as a relation between two
    such values. The class `Resolver` is proved to take these steps. */
module Steps {
  import opened Wrappers
  import opened Subnets
  import opened TunnelChoice
  import opened Routes
  import opened ResolverCore
  import Pf

  /** What pf has: the anchor's lines and the tables. */
  datatype PfState = PfState(anchor: seq<Pf.PfRule>, tables: Pf.Tables)

  /** `indexOf`, `gone` and `doubt` are history, not state of the program: the
      interface index each generation was published with, the generations whose
      interface has vanished, and the destinations the books may misstate (the
      last add of a host's move was refused, a host and a /32 of a list share
      the destination, or the generation it is booked at was published again
      with another interface). `refuses` and `pfFails` are the surroundings: which
      messages the kernel refuses and which commands pf fails, by number. */
  datatype World = World(
    core: Core,
    nets: NetLists,
    table: Table,
    calls: nat,
    pf: PfState,
    stale: bool,
    last: Option<Pf.Shape>,
    network: Option<(string, Ip)>,
    indexOf: map<Placed, nat>,
    gone: set<Placed>,
    doubt: set<Subnet>,
    refuses: Refusals,
    pfCalls: nat,
    pfFails: Refusals)

  // Steps that touch neither the kernel nor pf

  /** The interface, if there is one, is the one its generation was published
      with before. */
  predicate Publishable(w: World, l: nat, s: LinkState) {
    s.iface.Some? ==>
      var p := Placed(l, s.generation);
      p in w.indexOf ==> w.indexOf[p] == s.iface.value.index
  }

  /** The destinations booked at `p`. */
  function BookedAt(c: Core, p: Placed): set<Subnet> {
    (set ip | ip in c.hosts && c.hosts[ip].placed == Some(p) :: Host(ip)) + set s | s in c.subnets && c.subnets[s].placed == p
  }

  /** `set_link`. With another interface under a generation known before, what is
      booked at that generation is not where the books have it. */
  function SetLink(w: World, l: nat, s: LinkState): World {
    if l < |w.core.links| then
      w.(core := w.core.(links := w.core.links[l := s]),
         indexOf := if s.iface.Some? then w.indexOf[Placed(l, s.generation) := s.iface.value.index] else w.indexOf,
         doubt := if Publishable(w, l, s) then w.doubt else w.doubt + BookedAt(w.core, Placed(l, s.generation)))
    else w
  }

  function InCountry(rules: seq<RuleRun>, here: string): (r: seq<RuleRun>)
    ensures |r| == |rules|
    ensures forall i :: 0 <= i < |rules| ==> r[i] == rules[i].(active := rules[i].when.Holds(here))
  {
    seq(|rules|, i requires 0 <= i < |rules| => rules[i].(active := rules[i].when.Holds(here)))
  }

  function SetCountry(w: World, here: string): World {
    var rules := InCountry(w.core.rules, here);
    w.(core := w.core.(rules := rules), stale := w.stale || rules != w.core.rules)
  }

  function SetLists(w: World, nets: NetLists): World {
    w.(nets := nets, stale := true)
  }

  datatype Saved = Saved(ip: Ip, rule: nat, last: nat)

  /** Hosts taken in, the first mention of an address winning. */
  function Loaded(hosts: map<Ip, HostRun>, rules: nat, saved: seq<Saved>): map<Ip, HostRun> {
    if saved == [] then hosts
    else
      var s := saved[|saved| - 1];
      var rest := Loaded(hosts, rules, saved[..|saved| - 1]);
      if s.rule < rules && s.ip !in rest then rest[s.ip := HostRun(s.rule, s.last, None)] else rest
  }

  function LoadHosts(w: World, saved: seq<Saved>): World {
    w.(core := w.core.(hosts := Loaded(w.core.hosts, |w.core.rules|, saved)), stale := true)
  }

  /** `Pick` at every rule, by what the links say. */
  function PickedRules(c: Core, now: nat): (r: seq<RuleRun>)
    ensures |r| == |c.rules|
    ensures forall i :: 0 <= i < |r| ==> r[i] == c.rules[i].(current :=
        if c.rules[i].active then Pick(c.rules[i].tunnels, c.links, c.rules[i].current, now) else None)
  {
    seq(|c.rules|, i requires 0 <= i < |c.rules| => c.rules[i].(current :=
        if c.rules[i].active then Pick(c.rules[i].tunnels, c.links, c.rules[i].current, now) else None))
  }

  function PickTunnels(w: World, now: nat): World {
    w.(core := w.core.(rules := PickedRules(w.core, now)))
  }

  // Hosts

  /** How a `route_host` came out: refused, with the message that was, if any was
      sent; or whether pf has yet to hear of it. */
  datatype Routed = Refused(sent: Option<Ending>) | NotNew | New

  /** The asker comes too late: the owner is ahead of it and carries. */
  predicate StaysWithEarlier(c: Core, ip: Ip, rule: nat) {
    ip in c.hosts && c.hosts[ip].rule < rule && c.Carries(c.hosts[ip].rule)
  }

  ghost predicate RouteHost(w: World, ip: Ip, rule: nat, now: nat, r: Routed, w': World) {
    var c := w.core;
    var t := c.TargetOf(rule);
    if c.stopped then r == Refused(None) && w' == w
    else if StaysWithEarlier(c, ip, rule) then
      r == NotNew && w' == w.(core := c.(hosts := c.hosts[ip := c.hosts[ip].(last := now)]))
    else if t.None? then r == Refused(None) && w' == w
    else Attempted(w, ip, rule, now, t.value, r, w')
  }

  /** The route asked for: refused, the route there before perhaps lost; or made. */
  ghost predicate Attempted(w: World, ip: Ip, rule: nat, now: nat, t: Target, r: Routed, w': World) {
    var there, to := Host(ip) in w.table, Some(t.index);
    var end := EndOf(w.refuses, w.calls, to, there);
    var calls := w.calls + Messages(w.refuses, w.calls, to, there);
    if end.AddAgainRefused? then
      r == Refused(Some(end)) && w' == w.(table := w.table - {Host(ip)}, calls := calls, doubt := w.doubt + {Host(ip)})
    else if !end.Done? then r == Refused(Some(end)) && w' == w.(calls := calls)
    else
      r == (if ip in w.core.hosts && w.core.hosts[ip].rule == rule then NotNew else New)
      && w' == HostRouted(w, ip, rule, now, t, calls)
  }

  /** The host is the rule's, on its target; pf is behind when it was another's. */
  function HostRouted(w: World, ip: Ip, rule: nat, now: nat, t: Target, calls: nat): World {
    var c := w.core;
    w.(core := c.(hosts := c.hosts[ip := HostRun(rule, now, Some(t.placed))]),
       table := w.table[Host(ip) := Route(t.index, true)],
       calls := calls,
       stale := w.stale || (ip in c.hosts && c.hosts[ip].rule != rule),
       doubt := if Host(ip) in c.subnets then w.doubt + {Host(ip)} else w.doubt - {Host(ip)})
  }

  predicate Keep(c: Core, ip: Ip, h: HostRun) {
    c.Active(h.rule) && Routable(ip, c.Endpoints())
  }

  /** A host kept, with a target its route does not have yet. */
  predicate Moves(c: Core, ip: Ip, h: HostRun) {
    Keep(c, ip, h) && c.TargetOf(h.rule).Some? && h.placed != Some(c.TargetOf(h.rule).value.placed)
  }

  /** What `place_hosts` makes of one host and of its destination: dropped, and
      the route deleted if it has one; left; or moved, the books as they were
      when a message of the move is refused. */
  predicate HostPlaced(c: Core, ip: Ip, h: HostRun, e: Option<Route>, end: Option<Ending>, h': Option<HostRun>, e': Option<Route>) {
    if !Keep(c, ip, h) then
      h'.None? && if h.placed.Some? then Sent(e, None, end, e') else end.None? && e' == e
    else if !Moves(c, ip, h) then h' == Some(h) && end.None? && e' == e
    else
      var t := c.TargetOf(h.rule).value;
      Sent(e, Some(t.index), end, e') && h' == Some(if end.value.Done? then h.(placed := Some(t.placed)) else h)
  }

  /** The destinations whose messages ended so. */
  function EndedBy(ends: map<Subnet, Ending>, end: Ending): set<Subnet> {
    set k | k in ends && ends[k] == end
  }

  predicate AllDone(ends: map<Subnet, Ending>) {
    forall k :: k in ends ==> ends[k].Done?
  }

  /** Destinations that are both a host's and a subnet route's. */
  function SharedNow(c: Core): set<Subnet> {
    set ip | ip in c.hosts && Host(ip) in c.subnets :: Host(ip)
  }

  predicate IsHost(c: Core, k: Subnet) {
    k.prefix == 32 && k.addr in c.hosts
  }

  /** The interface a host is to have, if it is kept and its rule has a tunnel. */
  function HostIndex(c: Core, k: Subnet): Option<nat> {
    if IsHost(c, k) && Keep(c, k.addr, c.hosts[k.addr]) && c.TargetOf(c.hosts[k.addr].rule).Some?
    then Some(c.TargetOf(c.hosts[k.addr].rule).value.index) else None
  }

  ghost predicate PlaceHosts(w: World, ends: map<Subnet, Ending>, w': World) {
    var c, hosts' := w.core, w'.core.hosts;
    hosts'.Keys <= c.hosts.Keys
    && (forall ip :: ip in c.hosts ==>
          HostPlaced(c, ip, c.hosts[ip], At(w.table, Host(ip)), At(ends, Host(ip)), At(hosts', ip), At(w'.table, Host(ip))))
    && (forall k :: !IsHost(c, k) ==> k !in ends && At(w'.table, k) == At(w.table, k))
    && (forall k {:trigger Told(w.refuses, w.calls, w'.calls, At(w.table, k), HostIndex(c, k), ends[k])} :: k in ends ==>
          Told(w.refuses, w.calls, w'.calls, At(w.table, k), HostIndex(c, k), ends[k]))
    && (ends == map[] ==> w'.calls == w.calls)
    && w' == w.(
      core := c.(hosts := hosts'), table := w'.table, calls := w'.calls,
      stale := w.stale || hosts'.Keys != c.hosts.Keys,
      doubt := w.doubt - EndedBy(ends, Done) + EndedBy(ends, AddAgainRefused) + SharedNow(c))
  }

  // Subnets

  /** Where the route of a subnet belongs, if it is to have one: to its rule's
      tunnel, but not with a tunnel server inside, and not while it is left to
      the router. */
  function Wanted(c: Core, nets: NetLists, s: Subnet): (r: Option<(nat, Target)>)
    ensures r.Some? ==> c.NetOwner(nets, s) == Some(r.value.0) && c.TargetOf(r.value.0) == Some(r.value.1)
    ensures r.Some? ==> forall e :: e in c.Endpoints() ==> !s.Contains(e)
  {
    var o := c.NetOwner(nets, s);
    if o.None? || exists e :: e in c.Endpoints() && s.Contains(e) then None
    else if c.useFakeip && c.ReasonsOf(o.value).tunnel then None
    else
      var t := c.TargetOf(o.value);
      if t.Some? then Some((o.value, t.value)) else None
  }

  predicate InPlace(rec: Option<NetRun>, want: Option<(nat, Target)>) {
    rec.Some? && want.Some? && rec.value == NetRun(want.value.0, want.value.1.placed)
  }

  /** What `place_subnets` makes of one subnet and of its destination. A subnet
      whose place changed is out of the books before its route is set. */
  predicate NetPlaced(want: Option<(nat, Target)>, rec: Option<NetRun>, e: Option<Route>, end: Option<Ending>,
                      rec': Option<NetRun>, e': Option<Route>) {
    if want.None? then
      rec'.None? && if rec.Some? then Sent(e, None, end, e') else end.None? && e' == e
    else if InPlace(rec, want) then rec' == rec && end.None? && e' == e
    else
      var (r, t) := want.value;
      Sent(e, Some(t.index), end, e') && rec' == if end.value.Done? then Some(NetRun(r, t.placed)) else None
  }

  function Entries(nets: NetLists): set<Subnet> {
    set i | 0 <= i < |nets| :: nets[i].0
  }

  function SharedSoon(c: Core, nets: NetLists): set<Subnet> {
    set ip | ip in c.hosts && (Host(ip) in c.subnets || Wanted(c, nets, Host(ip)).Some?) :: Host(ip)
  }

  /** The interface the subnet routed at `k` is to have, if any is. */
  function NetIndex(w: World, k: Subnet): Option<nat> {
    var want := Wanted(w.core, w.nets, k);
    if want.Some? then Some(want.value.1.index) else None
  }

  ghost predicate PlaceSubnets(w: World, ends: map<Subnet, Ending>, w': World) {
    var c, subnets' := w.core, w'.core.subnets;
    (forall s :: NetPlaced(Wanted(c, w.nets, s), At(c.subnets, s), At(w.table, s), At(ends, s), At(subnets', s), At(w'.table, s)))
    && (forall k {:trigger Told(w.refuses, w.calls, w'.calls, At(w.table, k), NetIndex(w, k), ends[k])} :: k in ends ==>
          Told(w.refuses, w.calls, w'.calls, At(w.table, k), NetIndex(w, k), ends[k]))
    && (ends == map[] ==> w'.calls == w.calls)
    && w' == w.(
      core := c.(subnets := subnets'), table := w'.table, calls := w'.calls,
      doubt := w.doubt - EndedBy(ends, Done) + SharedSoon(c, w.nets))
  }

  /** `reconcile`: tunnels picked, then hosts, then subnets; nothing once every
      route was taken back. */
  datatype Reconciled = Reconciled(now: nat, afterHosts: World, hostEnds: map<Subnet, Ending>, netEnds: map<Subnet, Ending>) {
    predicate Granted() {
      AllDone(hostEnds) && AllDone(netEnds)
    }
  }

  ghost predicate Reconcile(w: World, r: Reconciled, w': World) {
    if w.core.stopped then w' == w && r.hostEnds == map[] && r.netEnds == map[]
    else
      PlaceHosts(PickTunnels(w, r.now), r.hostEnds, r.afterHosts) && PlaceSubnets(r.afterHosts, r.netEnds, w')
  }

  // Taking routes back

  predicate RoutedHost(c: Core, k: Subnet) {
    IsHost(c, k) && c.hosts[k.addr].placed.Some?
  }

  predicate HasRoute(c: Core, k: Subnet) {
    k in c.subnets || RoutedHost(c, k)
  }

  function Unplaced(hosts: map<Ip, HostRun>): (r: map<Ip, HostRun>) {
    map ip | ip in hosts :: hosts[ip].(placed := None)
  }

  /** The routes of `dsts` deleted, one by one. */
  ghost predicate Deleted(dsts: set<Subnet>, t: Table, ends: map<Subnet, Ending>, t': Table) {
    forall k :: if k in dsts then Sent(At(t, k), None, At(ends, k), At(t', k))
                else k !in ends && At(t', k) == At(t, k)
  }

  /** Every delete ended so by a message of this step. */
  ghost predicate DeletesTold(w: World, ends: map<Subnet, Ending>, calls: nat) {
    AllTold(w.refuses, w.calls, calls, w.table, map[], ends)
  }

  /** The destinations of the routed hosts among `ips`. */
  function RoutedAmong(c: Core, ips: set<Ip>): (r: set<Subnet>)
    ensures forall k :: k in r <==> RoutedHost(c, k) && k.addr in ips
  {
    var r := set ip | ip in ips && ip in c.hosts && c.hosts[ip].placed.Some? :: Host(ip);
    assert forall k :: IsHost(c, k) ==> k == Host(k.addr);
    r
  }

  /** Every destination in the books. */
  function Booked(c: Core): (r: set<Subnet>)
    ensures forall k :: k in r <==> HasRoute(c, k)
  {
    c.subnets.Keys + RoutedAmong(c, c.hosts.Keys)
  }

  ghost predicate RemoveAll(w: World, ends: map<Subnet, Ending>, w': World) {
    var c := w.core;
    Deleted(Booked(c), w.table, ends, w'.table) && DeletesTold(w, ends, w'.calls)
    && (ends == map[] ==> w'.calls == w.calls)
    && w' == w.(core := c.(hosts := Unplaced(c.hosts), subnets := map[], stopped := true),
                table := w'.table, calls := w'.calls)
  }

  function Old(c: Core, now: nat, window: nat): set<Ip> {
    set ip | ip in c.hosts && now > c.hosts[ip].last + window
  }

  function OfRule(c: Core, ips: set<Ip>, rule: nat): set<Ip> {
    set ip | ip in ips && ip in c.hosts && c.hosts[ip].rule == rule
  }

  /** What a table held is without the addresses of `rule` among `gone`. */
  function WithoutOld(t: Pf.Tables, c: Core, gone: set<Ip>, rule: nat): Option<set<Ip>> {
    if OfRule(c, gone, rule) == {} then At(t.hosts, rule)
    else Some((if rule in t.hosts then t.hosts[rule] else {}) - OfRule(c, gone, rule))
  }

  ghost predicate Expire(w: World, now: nat, window: nat, ends: map<Subnet, Ending>, pfOk: bool, w': World) {
    var c, gone := w.core, Old(w.core, now, window);
    Deleted(RoutedAmong(c, gone), w.table, ends, w'.table) && DeletesTold(w, ends, w'.calls)
    && w.pfCalls <= w'.pfCalls && (pfOk <==> NoneDenied(w.pfFails, w.pfCalls, w'.pfCalls))
    && (pfOk ==> w'.pf.anchor == w.pf.anchor && w'.pf.tables.nets == w.pf.tables.nets
                 && forall r :: At(w'.pf.tables.hosts, r) == WithoutOld(w.pf.tables, c, gone, r))
    && w' == w.(core := c.(hosts := c.hosts - gone), table := w'.table, calls := w'.calls,
                pf := w'.pf, pfCalls := w'.pfCalls, stale := w.stale || !pfOk,
                doubt := w.doubt + set ip | ip in gone && Host(ip) in c.subnets :: Host(ip))
  }

  // pf

  function ShapeOf(c: Core, network: Option<(string, Ip)>): Pf.Shape {
    Pf.Shape(
      seq(|c.rules|, i requires 0 <= i < |c.rules| =>
        if c.rules[i].active then Some(IfaceNames(c.rules[i].tunnels, c.links)) else None),
      c.useFakeip, c.Endpoints(), network)
  }

  function HostsOf(c: Core, rule: nat): set<Ip> {
    set ip | ip in c.hosts && c.hosts[ip].rule == rule
  }

  function NetsOf(c: Core, nets: NetLists, rule: nat): set<Subnet> {
    set s | s in Entries(nets) && c.NetOwner(nets, s) == Some(rule)
  }

  /** The anchor decides as the ruleset of `shape` does. */
  ghost predicate AnchorOf(anchor: seq<Pf.PfRule>, shape: Pf.Shape) {
    forall t, p :: Pf.Blocked(anchor, t, p) <==> Pf.ShouldBlock(shape, t, p)
  }

  /** pf agrees with the resolver on every rule in force, except that the hosts of
      `rule` still lack `owing`. */
  predicate TablesBut(w: World, rule: nat, owing: set<Ip>) {
    forall i :: 0 <= i < |w.core.rules| && w.core.rules[i].active ==>
      i in w.pf.tables.hosts && i in w.pf.tables.nets
      && w.pf.tables.nets[i] == NetsOf(w.core, w.nets, i)
      && (if i == rule then w.pf.tables.hosts[i] + owing else w.pf.tables.hosts[i]) == HostsOf(w.core, i)
  }

  predicate SameInForce(s: Pf.Shape, c: Core) {
    |s.rules| == |c.rules| && forall i :: 0 <= i < |c.rules| ==> s.rules[i].Some? == c.rules[i].active
  }

  /** What a load leaves in pf: the ruleset of a shape, and every table. */
  ghost predicate PfHolds(w: World, shape: Pf.Shape) {
    AnchorOf(w.pf.anchor, shape) && SameInForce(shape, w.core) && TablesBut(w, 0, {})
  }

  /** `sync_pf`: nothing while the shape is the last one and nothing is stale;
      else a load, after which pf is as loaded or, failing, unknown. */
  ghost predicate SyncPf(w: World, ok: bool, w': World) {
    var shape := ShapeOf(w.core, w.network);
    if !w.stale && w.last == Some(shape) then ok && w' == w
    else
      ok == !Denied(w.pfFails, w.pfCalls)
      && w' == w.(pf := w'.pf, pfCalls := w.pfCalls + 1, stale := !ok, last := if ok then Some(shape) else None)
      && (ok ==> PfHolds(w', shape))
  }

  /** `pf.add`: the addresses are in the rule's table, or pf is unknown. */
  ghost predicate PfAdd(w: World, rule: nat, ips: set<Ip>, ok: bool, w': World) {
    if ips == {} then ok && w' == w
    else
      ok == !Denied(w.pfFails, w.pfCalls)
      && if ok then
           var was := if rule in w.pf.tables.hosts then w.pf.tables.hosts[rule] else {};
           w' == w.(pfCalls := w.pfCalls + 1, pf := w.pf.(tables := w.pf.tables.(hosts := w.pf.tables.hosts[rule := was + ips])))
         else w' == w.(pfCalls := w.pfCalls + 1, pf := w'.pf, stale := true)
  }

  /** An interface vanishes, and the kernel drops the routes that point at it. */
  function InterfaceGone(w: World, index: nat): World {
    w.(table := map k | k in w.table && w.table[k].index != index :: w.table[k],
       gone := w.gone + set p | p in w.indexOf && w.indexOf[p] == index)
  }
}
