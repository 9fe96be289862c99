/** What the books say of the kernel table, over every run: every route booked
    outside the doubtful destinations stands where its generation's interface
    is, and exactly which messages refused make an orphan. */
module Books {
  import opened Wrappers
  import opened Subnets
  import opened TunnelChoice
  import opened Routes
  import opened ResolverCore
  import opened Steps
  import Pf

  /** Every step of the resolver and of its surroundings. */
  datatype Action =
    | SettingLink(link: nat, state: LinkState)
    | SettingCountry(here: string)
    | SettingLists(nets: NetLists)
    | SettingOwner(on: bool)
    | SettingFakeip(on: bool)
    | SettingNetwork(network: Option<(string, Ip)>)
    | LoadingHosts(saved: seq<Saved>)
    | RoutingHost(ip: Ip, rule: nat, now: nat, routed: Routed)
    | Reconciling(how: Reconciled)
    | RemovingAll(ends: map<Subnet, Ending>)
    | Expiring(now: nat, window: nat, ends: map<Subnet, Ending>, ok: bool)
    | SyncingPf(ok: bool)
    | AddingToPf(rule: nat, ips: set<Ip>, ok: bool)
    | LosingInterface(index: nat)

  ghost predicate Next(w: World, a: Action, w': World) {
    match a
    case SettingLink(l, s) => w' == SetLink(w, l, s)
    case SettingCountry(here) => w' == SetCountry(w, here)
    case SettingLists(nets) => w' == SetLists(w, nets)
    case SettingOwner(on) => w' == w.(core := w.core.(owner := on))
    case SettingFakeip(on) => w' == w.(core := w.core.(useFakeip := on))
    case SettingNetwork(n) => w' == w.(network := n)
    case LoadingHosts(saved) => w' == LoadHosts(w, saved)
    case RoutingHost(ip, rule, now, r) => RouteHost(w, ip, rule, now, r, w')
    case Reconciling(r) => Reconcile(w, r, w')
    case RemovingAll(ends) => RemoveAll(w, ends, w')
    case Expiring(now, window, ends, ok) => Expire(w, now, window, ends, ok, w')
    case SyncingPf(ok) => SyncPf(w, ok, w')
    case AddingToPf(rule, ips, ok) => PfAdd(w, rule, ips, ok, w')
    case LosingInterface(index) => w' == InterfaceGone(w, index)
  }

  /** The settings make sense: tunnels of rules are links, and a rule is only
      ever at one of its own. */
  predicate Configured(c: Core) {
    forall r :: 0 <= r < |c.rules| ==>
      (forall t :: t in c.rules[r].tunnels ==> t < |c.links|)
      && (c.rules[r].current.Some? ==> c.rules[r].current.value in c.rules[r].tunnels)
  }

  /** Every interface published is the one its generation was published with. */
  ghost predicate Numbered(w: World) {
    forall l: nat :: HasIface(w.core.links, l) ==>
      At(w.indexOf, Placed(l, w.core.links[l].generation)) == Some(w.core.links[l].iface.value.index)
  }

  /** A booked route stands, on the interface of its generation; with that
      interface it may be gone, but no other has taken its place. */
  predicate Stands(w: World, p: Placed, e: Option<Route>) {
    p in w.indexOf && (e == Some(Route(w.indexOf[p], true)) || (p in w.gone && e.None?))
  }

  ghost predicate HostsStand(w: World) {
    forall ip :: ip in w.core.hosts && w.core.hosts[ip].placed.Some? && Host(ip) !in w.doubt ==>
      Stands(w, w.core.hosts[ip].placed.value, At(w.table, Host(ip)))
  }

  ghost predicate NetsStand(w: World) {
    forall s :: s in w.core.subnets && s !in w.doubt ==> Stands(w, w.core.subnets[s].placed, At(w.table, s))
  }

  /** A route this process put there. */
  predicate Mine(e: Option<Route>) {
    e.Some? && e.value.mine
  }

  /** A route this process put there and has no record of. */
  predicate Orphan(w: World, k: Subnet) {
    Mine(At(w.table, k)) && !HasRoute(w.core, k)
  }

  ghost predicate NoOrphans(w: World) {
    forall k :: !Orphan(w, k)
  }

  /** Once every route was taken back, none is booked. */
  ghost predicate StopIsFinal(w: World) {
    w.core.stopped ==> forall k :: !HasRoute(w.core, k)
  }

  ghost predicate Inv(w: World) {
    Configured(w.core) && Numbered(w) && HostsStand(w) && NetsStand(w) && StopIsFinal(w)
  }

  lemma TargetIsNumbered(w: World, rule: nat)
    requires Numbered(w)
    ensures var t := w.core.TargetOf(rule); t.Some? ==> At(w.indexOf, t.value.placed) == Some(t.value.index)
  {
  }

  lemma LoadedKeeps(hosts: map<Ip, HostRun>, rules: nat, saved: seq<Saved>)
    ensures var r := Loaded(hosts, rules, saved);
      forall ip :: if ip in hosts then ip in r && r[ip] == hosts[ip]
                   else ip in r ==> r[ip].placed.None? && r[ip].rule < rules
  {
  }

  lemma RouteHostKeepsInv(w: World, ip: Ip, rule: nat, now: nat, r: Routed, w': World)
    requires Inv(w) && RouteHost(w, ip, rule, now, r, w')
    ensures Inv(w')
  {
    RoutedHostsStand(w, ip, rule, now, r, w');
    RoutedNetsStand(w, ip, rule, now, r, w');
    RoutingKeepsRest(w, ip, rule, now, r, w');
  }

  lemma RoutingKeepsRest(w: World, ip: Ip, rule: nat, now: nat, r: Routed, w': World)
    requires RouteHost(w, ip, rule, now, r, w')
    ensures w'.core.links == w.core.links && w'.core.rules == w.core.rules && w'.core.subnets == w.core.subnets
    ensures w'.core.stopped == w.core.stopped && w'.indexOf == w.indexOf && w'.gone == w.gone && (w.core.stopped ==> w' == w)
  {
  }

  lemma RoutedNetsStand(w: World, ip: Ip, rule: nat, now: nat, r: Routed, w': World)
    requires Inv(w) && RouteHost(w, ip, rule, now, r, w')
    ensures NetsStand(w')
  {
    RoutingKeepsRest(w, ip, rule, now, r, w');
    forall s | s in w'.core.subnets && s !in w'.doubt ensures Stands(w', w'.core.subnets[s].placed, At(w'.table, s)) {
      RoutedNetStands(w, ip, rule, now, r, w', s);
    }
  }

  lemma RoutedNetStands(w: World, ip: Ip, rule: nat, now: nat, r: Routed, w': World, s: Subnet)
    requires RouteHost(w, ip, rule, now, r, w') && s in w.core.subnets && s !in w'.doubt
    ensures At(w'.table, s) == At(w.table, s) && s !in w.doubt
  {
  }

  lemma RoutedHostsStand(w: World, ip: Ip, rule: nat, now: nat, r: Routed, w': World)
    requires Inv(w) && RouteHost(w, ip, rule, now, r, w')
    ensures HostsStand(w')
  {
    TargetIsNumbered(w, rule);
    assert forall k :: k != Host(ip) ==> At(w'.table, k) == At(w.table, k);
  }

  lemma HostAfterHosts(w: World, ends: map<Subnet, Ending>, w': World, ip: Ip)
    requires PlaceHosts(w, ends, w') && ip in w'.core.hosts
    ensures ip in w.core.hosts && w'.core.hosts[ip].rule == w.core.hosts[ip].rule
    ensures Keep(w.core, ip, w.core.hosts[ip])
    ensures Host(ip) in ends <==> Moves(w.core, ip, w.core.hosts[ip])
    ensures var t := w.core.TargetOf(w.core.hosts[ip].rule);
      At(w'.table, Host(ip)) == if Host(ip) in ends then Left(At(w.table, Host(ip)), Some(t.value.index), ends[Host(ip)])
                                else At(w.table, Host(ip))
    ensures w'.core.hosts[ip] ==
            if Host(ip) in ends && ends[Host(ip)].Done?
            then w.core.hosts[ip].(placed := Some(w.core.TargetOf(w.core.hosts[ip].rule).value.placed))
            else w.core.hosts[ip]
  {
    assert HostPlaced(w.core, ip, w.core.hosts[ip], At(w.table, Host(ip)), At(ends, Host(ip)), At(w'.core.hosts, ip), At(w'.table, Host(ip)));
  }

  lemma HostStandsAfter(w: World, ends: map<Subnet, Ending>, w': World, ip: Ip)
    requires Inv(w) && PlaceHosts(w, ends, w')
    requires ip in w'.core.hosts && w'.core.hosts[ip].placed.Some? && Host(ip) !in w'.doubt
    ensures Stands(w', w'.core.hosts[ip].placed.value, At(w'.table, Host(ip)))
  {
    var h := w.core.hosts[ip];
    TargetIsNumbered(w, h.rule);
    HostAfterHosts(w, ends, w', ip);
  }

  lemma PlaceHostsKeepsInv(w: World, ends: map<Subnet, Ending>, w': World)
    requires Inv(w) && !w.core.stopped && PlaceHosts(w, ends, w')
    ensures Inv(w') && !w'.core.stopped
  {
    forall ip | ip in w'.core.hosts && w'.core.hosts[ip].placed.Some? && Host(ip) !in w'.doubt
      ensures Stands(w', w'.core.hosts[ip].placed.value, At(w'.table, Host(ip)))
    {
      HostStandsAfter(w, ends, w', ip);
    }
    forall s | s in w'.core.subnets && s !in w'.doubt
      ensures Stands(w', w'.core.subnets[s].placed, At(w'.table, s))
    {
      NetStandsAfterHosts(w, ends, w', s);
    }
    PlacingKeepsRest(w, ends, w');
  }

  lemma PlacingKeepsRest(w: World, ends: map<Subnet, Ending>, w': World)
    requires PlaceHosts(w, ends, w')
    ensures w'.core.links == w.core.links && w'.core.rules == w.core.rules && w'.core.subnets == w.core.subnets
    ensures w'.core.stopped == w.core.stopped && w'.indexOf == w.indexOf && w'.gone == w.gone
  {
  }

  lemma NetStandsAfterHosts(w: World, ends: map<Subnet, Ending>, w': World, s: Subnet)
    requires Inv(w) && PlaceHosts(w, ends, w') && s in w'.core.subnets && s !in w'.doubt
    ensures Stands(w', w'.core.subnets[s].placed, At(w'.table, s))
  {
    if IsHost(w.core, s) {
      SharedIsDoubted(w, ends, w', s);
    } else {
      OthersStay(w, ends, w', s);
    }
  }

  lemma SharedIsDoubted(w: World, ends: map<Subnet, Ending>, w': World, s: Subnet)
    requires PlaceHosts(w, ends, w') && s in w'.core.subnets && IsHost(w.core, s)
    ensures s in w'.doubt
  {
    assert s == Host(s.addr) && s in SharedNow(w.core);
  }

  lemma OthersStay(w: World, ends: map<Subnet, Ending>, w': World, k: Subnet)
    requires PlaceHosts(w, ends, w') && !IsHost(w.core, k)
    ensures At(w'.table, k) == At(w.table, k) && (k in w'.doubt <==> k in w.doubt)
    ensures w'.core.subnets == w.core.subnets && w'.indexOf == w.indexOf && w'.gone == w.gone
  {
    assert k !in ends;
    if k in SharedNow(w.core) {
      assert IsHost(w.core, k);
    }
  }

  lemma NetStandsAfter(w: World, ends: map<Subnet, Ending>, w': World, s: Subnet)
    requires Inv(w) && PlaceSubnets(w, ends, w')
    requires s in w'.core.subnets && s !in w'.doubt
    ensures Stands(w', w'.core.subnets[s].placed, At(w'.table, s))
  {
    var want := Wanted(w.core, w.nets, s);
    assert NetPlaced(want, At(w.core.subnets, s), At(w.table, s), At(ends, s), At(w'.core.subnets, s), At(w'.table, s));
    if !InPlace(At(w.core.subnets, s), want) {
      TargetIsNumbered(w, want.value.0);
    }
  }

  lemma HostStandsAfterNets(w: World, ends: map<Subnet, Ending>, w': World, ip: Ip)
    requires Inv(w) && PlaceSubnets(w, ends, w')
    requires ip in w'.core.hosts && w'.core.hosts[ip].placed.Some? && Host(ip) !in w'.doubt
    ensures Stands(w', w'.core.hosts[ip].placed.value, At(w'.table, Host(ip)))
  {
    assert Host(ip) !in SharedSoon(w.core, w.nets);
    assert NetPlaced(Wanted(w.core, w.nets, Host(ip)), At(w.core.subnets, Host(ip)), At(w.table, Host(ip)), At(ends, Host(ip)),
                     At(w'.core.subnets, Host(ip)), At(w'.table, Host(ip)));
  }

  lemma PlaceSubnetsKeepsInv(w: World, ends: map<Subnet, Ending>, w': World)
    requires Inv(w) && !w.core.stopped && PlaceSubnets(w, ends, w')
    ensures Inv(w')
  {
    forall s | s in w'.core.subnets && s !in w'.doubt
      ensures Stands(w', w'.core.subnets[s].placed, At(w'.table, s))
    {
      NetStandsAfter(w, ends, w', s);
    }
    forall ip | ip in w'.core.hosts && w'.core.hosts[ip].placed.Some? && Host(ip) !in w'.doubt
      ensures Stands(w', w'.core.hosts[ip].placed.value, At(w'.table, Host(ip)))
    {
      HostStandsAfterNets(w, ends, w', ip);
    }
  }

  lemma PickTunnelsKeepsInv(w: World, now: nat)
    requires Inv(w)
    ensures Inv(PickTunnels(w, now))
  {
    var w' := PickTunnels(w, now);
    forall i | 0 <= i < |w.core.rules| {
      PickStaysInOrder(w.core.rules[i].tunnels, w.core.links, w.core.rules[i].current, now);
    }
    assert forall k :: HasRoute(w.core, k) <==> HasRoute(w'.core, k);
  }

  lemma ReconcileKeepsInv(w: World, r: Reconciled, w': World)
    requires Inv(w) && Reconcile(w, r, w')
    ensures Inv(w')
  {
    if !w.core.stopped {
      PickTunnelsKeepsInv(w, r.now);
      PlaceHostsKeepsInv(PickTunnels(w, r.now), r.hostEnds, r.afterHosts);
      PlaceSubnetsKeepsInv(r.afterHosts, r.netEnds, w');
    }
  }

  lemma ExpireKeepsInv(w: World, now: nat, window: nat, ends: map<Subnet, Ending>, ok: bool, w': World)
    requires Inv(w) && Expire(w, now, window, ends, ok, w')
    ensures Inv(w')
  {
    var gone := Old(w.core, now, window);
    forall ip | ip in w'.core.hosts && w'.core.hosts[ip].placed.Some? && Host(ip) !in w'.doubt
      ensures Stands(w', w'.core.hosts[ip].placed.value, At(w'.table, Host(ip)))
    {
      assert At(w'.table, Host(ip)) == At(w.table, Host(ip));
    }
    forall s | s in w'.core.subnets && s !in w'.doubt
      ensures Stands(w', w'.core.subnets[s].placed, At(w'.table, s))
    {
      assert IsHost(w.core, s) ==> s == Host(s.addr);
      assert At(w'.table, s) == At(w.table, s);
    }
    assert forall k :: HasRoute(w'.core, k) ==> HasRoute(w.core, k);
  }

  lemma RemoveAllKeepsInv(w: World, ends: map<Subnet, Ending>, w': World)
    requires Inv(w) && RemoveAll(w, ends, w')
    ensures Inv(w') && w'.core.stopped
  {
    assert forall k :: !HasRoute(w'.core, k);
  }

  lemma LosingInterfaceKeepsInv(w: World, index: nat)
    requires Inv(w)
    ensures Inv(InterfaceGone(w, index))
  {
  }

  lemma SetLinkKeepsInv(w: World, l: nat, s: LinkState)
    requires Inv(w)
    ensures Inv(SetLink(w, l, s))
  {
    var w' := SetLink(w, l, s);
    forall i: nat | HasIface(w'.core.links, i)
      ensures At(w'.indexOf, Placed(i, w'.core.links[i].generation)) == Some(w'.core.links[i].iface.value.index)
    {
      assert i != l ==> HasIface(w.core.links, i);
    }
    assert forall k :: HasRoute(w.core, k) <==> HasRoute(w'.core, k);
  }

  /** Steps that leave links, tunnels and routes alone. */
  lemma OthersKeepInv(w: World, w': World)
    requires Inv(w) && Configured(w'.core) && w'.core.links == w.core.links && w'.core.stopped == w.core.stopped
    requires w'.core.hosts == w.core.hosts && w'.core.subnets == w.core.subnets && w'.table == w.table
    requires w'.indexOf == w.indexOf && w'.gone == w.gone && w'.doubt == w.doubt
    ensures Inv(w')
  {
    assert forall k :: HasRoute(w.core, k) <==> HasRoute(w'.core, k);
  }

  lemma LoadHostsKeepsInv(w: World, saved: seq<Saved>)
    requires Inv(w)
    ensures Inv(LoadHosts(w, saved))
  {
    LoadedKeeps(w.core.hosts, |w.core.rules|, saved);
    assert forall k :: HasRoute(w.core, k) <==> HasRoute(LoadHosts(w, saved).core, k);
  }

  lemma RouteStepKeepsInv(w: World, a: Action, w': World)
    requires Inv(w) && Next(w, a, w')
    requires a.RoutingHost? || a.Reconciling? || a.RemovingAll? || a.Expiring? || a.LosingInterface?
    ensures Inv(w')
  {
    match a
    case RoutingHost(ip, rule, now, routed) => RouteHostKeepsInv(w, ip, rule, now, routed, w');
    case Reconciling(how) => ReconcileKeepsInv(w, how, w');
    case RemovingAll(ends) => RemoveAllKeepsInv(w, ends, w');
    case Expiring(now, window, ends, ok) => ExpireKeepsInv(w, now, window, ends, ok, w');
    case LosingInterface(index) => LosingInterfaceKeepsInv(w, index);
  }

  lemma StepKeepsInv(w: World, a: Action, w': World)
    requires Inv(w) && Next(w, a, w')
    ensures Inv(w')
  {
    if a.RoutingHost? || a.Reconciling? || a.RemovingAll? || a.Expiring? || a.LosingInterface? {
      RouteStepKeepsInv(w, a, w');
    } else if a.SettingLink? {
      SetLinkKeepsInv(w, a.link, a.state);
    } else if a.LoadingHosts? {
      LoadHostsKeepsInv(w, a.saved);
    } else {
      OthersKeepInv(w, w');
    }
  }

  lemma StopPersists(w: World, a: Action, w': World)
    requires Next(w, a, w') && (w.core.stopped || a.RemovingAll?)
    ensures w'.core.stopped
  {
    assert a.RoutingHost? && w.core.stopped ==> w' == w;
  }

  /** The resolver as the daemon makes it, over a kernel with routes of others. */
  ghost predicate Started(w: World) {
    Configured(w.core) && w.core.hosts == map[] && w.core.subnets == map[] && !w.core.stopped
    && (forall l: nat :: !HasIface(w.core.links, l))
    && (forall k :: k in w.table ==> !w.table[k].mine)
    && w.stale && w.doubt == {} && w.gone == {}
  }

  ghost predicate Run(ws: seq<World>, acts: seq<Action>) {
    |ws| == |acts| + 1 && Started(ws[0])
    && forall i {:trigger acts[i]} :: 0 <= i < |acts| ==> Next(ws[i], acts[i], ws[i + 1])
  }

  /** Every state of every run keeps the books straight, whatever messages the
      kernel refuses. */
  lemma {:induction false} BooksHold(ws: seq<World>, acts: seq<Action>, i: nat)
    requires Run(ws, acts) && i < |ws|
    ensures Inv(ws[i])
    decreases i
  {
    if i > 0 {
      BooksHold(ws, acts, i - 1);
      StepKeepsInv(ws[i - 1], acts[i - 1], ws[i]);
    }
  }

  lemma {:induction false} StaysStopped(ws: seq<World>, acts: seq<Action>, i: nat, j: nat)
    requires Run(ws, acts) && i <= j < |ws| && ws[i].core.stopped
    ensures ws[j].core.stopped
    decreases j
  {
    if i < j {
      StaysStopped(ws, acts, i, j - 1);
      StopPersists(ws[j - 1], acts[j - 1], ws[j]);
    }
  }

  // Orphans

  /** An ending in which a destination lost what it held, if a message about it
      was sent at all. */
  predicate TookAt(ends: map<Subnet, Ending>, k: Subnet) {
    k in ends && ends[k].Took()
  }

  /** The step took away what stood at `k`: by a message that was not refused, or
      with the interface. */
  predicate TookAway(w: World, a: Action, k: Subnet) {
    match a
    case RoutingHost(ip, _, _, r) => k == Host(ip) && r == Refused(Some(AddAgainRefused))
    case Reconciling(how) => TookAt(how.hostEnds, k) || TookAt(how.netEnds, k)
    case RemovingAll(ends) => TookAt(ends, k)
    case Expiring(_, _, ends, _) => TookAt(ends, k)
    case LosingInterface(index) => k in w.table && w.table[k].index == index
    case _ => false
  }

  /** A message about `k` was refused, and what stood there still stands. */
  predicate RefusedAt(ends: map<Subnet, Ending>, k: Subnet) {
    k in ends && !ends[k].Took()
  }

  /** Every message of the step about `k` that could have taken its route away
      was refused. */
  predicate LeftStanding(a: Action, k: Subnet) {
    match a
    case Reconciling(how) =>
      (RefusedAt(how.hostEnds, k) || RefusedAt(how.netEnds, k)) && !TookAt(how.hostEnds, k) && !TookAt(how.netEnds, k)
    case RemovingAll(ends) => RefusedAt(ends, k)
    case Expiring(_, _, ends, _) => RefusedAt(ends, k)
    case _ => false
  }

  lemma PlacedOrLeft(c: Core, ip: Ip, h: HostRun, e: Option<Route>, end: Option<Ending>, h': Option<HostRun>, e': Option<Route>)
    requires HostPlaced(c, ip, h, e, end, h', e')
    ensures var booked := h'.Some? && h'.value.placed.Some?;
      (if end.Some? && end.value.Took() then booked || e'.None? else e' == e && (booked ==> h.placed.Some?))
      && (h.placed.Some? && !booked ==> end.Some?)
  {
  }

  lemma AfterHosts(w: World, ends: map<Subnet, Ending>, w': World, k: Subnet)
    requires PlaceHosts(w, ends, w')
    ensures TookAt(ends, k) ==> RoutedHost(w'.core, k) || At(w'.table, k).None?
    ensures !TookAt(ends, k) ==> At(w'.table, k) == At(w.table, k) && (RoutedHost(w'.core, k) ==> RoutedHost(w.core, k))
    ensures RoutedHost(w.core, k) && !RoutedHost(w'.core, k) ==> k in ends
    ensures w'.core.subnets == w.core.subnets
  {
    if IsHost(w.core, k) {
      assert k == Host(k.addr);
      PlacedOrLeft(w.core, k.addr, w.core.hosts[k.addr], At(w.table, k), At(ends, k), At(w'.core.hosts, k.addr), At(w'.table, k));
    }
  }

  lemma AfterNets(w: World, ends: map<Subnet, Ending>, w': World, k: Subnet)
    requires PlaceSubnets(w, ends, w')
    ensures TookAt(ends, k) ==> k in w'.core.subnets || At(w'.table, k).None?
    ensures !TookAt(ends, k) ==> At(w'.table, k) == At(w.table, k) && (k in w'.core.subnets ==> k in w.core.subnets)
    ensures k in w.core.subnets && k !in w'.core.subnets ==> k in ends
    ensures w'.core.hosts == w.core.hosts
  {
    assert NetPlaced(Wanted(w.core, w.nets, k), At(w.core.subnets, k), At(w.table, k), At(ends, k), At(w'.core.subnets, k), At(w'.table, k));
  }

  lemma ReconcileOrphans(w: World, r: Reconciled, w': World, k: Subnet)
    requires Reconcile(w, r, w')
    ensures Orphan(w', k) <==> Mine(At(w.table, k)) && !HasRoute(w'.core, k) && !TookAt(r.hostEnds, k) && !TookAt(r.netEnds, k)
    ensures HasRoute(w.core, k) && !HasRoute(w'.core, k) ==> k in r.hostEnds || k in r.netEnds
  {
    if !w.core.stopped {
      AfterHosts(PickTunnels(w, r.now), r.hostEnds, r.afterHosts, k);
      AfterNets(r.afterHosts, r.netEnds, w', k);
    }
  }

  lemma RoutingOrphans(w: World, ip: Ip, rule: nat, now: nat, r: Routed, w': World, k: Subnet)
    requires RouteHost(w, ip, rule, now, r, w')
    ensures Orphan(w', k) <==>
            Mine(At(w.table, k)) && !HasRoute(w'.core, k) && !(k == Host(ip) && r == Refused(Some(AddAgainRefused)))
    ensures HasRoute(w.core, k) ==> HasRoute(w'.core, k)
  {
  }

  lemma DeletedOrphans(w: World, dsts: set<Subnet>, ends: map<Subnet, Ending>, w': World, k: Subnet)
    requires Deleted(dsts, w.table, ends, w'.table)
    ensures Orphan(w', k) <==> Mine(At(w.table, k)) && !HasRoute(w'.core, k) && !TookAt(ends, k)
    ensures k in dsts <==> k in ends
  {
  }

  /** Steps that leave the table be, and no destination out of the books. */
  lemma QuietOrphans(w: World, a: Action, w': World, k: Subnet)
    requires Next(w, a, w')
    requires !a.RoutingHost? && !a.Reconciling? && !a.RemovingAll? && !a.Expiring? && !a.LosingInterface?
    ensures w'.table == w.table && (HasRoute(w'.core, k) <==> HasRoute(w.core, k))
  {
    if a.LoadingHosts? {
      LoadedKeeps(w.core.hosts, |w.core.rules|, a.saved);
    }
  }

  /** Which routes are orphans after a step, from any state: those of this
      process that stood, that no book has after it, and that the step did not
      take away. A destination leaves the books by messages only. */
  lemma OrphansAfter(w: World, a: Action, w': World, k: Subnet)
    requires Next(w, a, w')
    ensures Orphan(w', k) <==> Mine(At(w.table, k)) && !HasRoute(w'.core, k) && !TookAway(w, a, k)
    ensures HasRoute(w.core, k) && !HasRoute(w'.core, k) ==> (TookAway(w, a, k) <==> !LeftStanding(a, k))
  {
    if a.Reconciling? {
      ReconcileOrphans(w, a.how, w', k);
    } else if a.RoutingHost? {
      RoutingOrphans(w, a.ip, a.rule, a.now, a.routed, w', k);
    } else if a.RemovingAll? {
      DeletedOrphans(w, Booked(w.core), a.ends, w', k);
    } else if a.Expiring? {
      DeletedOrphans(w, RoutedAmong(w.core, Old(w.core, a.now, a.window)), a.ends, w', k);
    } else if !a.LosingInterface? {
      QuietOrphans(w, a, w', k);
    }
  }

  /** The step makes an orphan of `k`: its route of this process stands, it
      leaves the books, and whatever was sent about it was refused. */
  predicate Loses(w: World, a: Action, w': World, k: Subnet) {
    Mine(At(w.table, k)) && HasRoute(w.core, k) && !HasRoute(w'.core, k) && LeftStanding(a, k)
  }

  ghost predicate LosesNone(w: World, a: Action, w': World) {
    forall k :: !Loses(w, a, w', k)
  }

  /** From straight books a step keeps every route of this process in them exactly
      when it loses none. */
  lemma NoOrphansIff(w: World, a: Action, w': World)
    requires NoOrphans(w) && Next(w, a, w')
    ensures NoOrphans(w') <==> LosesNone(w, a, w')
  {
    forall k ensures Orphan(w', k) <==> Loses(w, a, w', k) {
      assert !Orphan(w, k);
      OrphansAfter(w, a, w', k);
    }
  }

  /** `place_hosts` orphans nothing exactly when no delete of a dropped host is
      refused while a route of this process stands there, but for destinations
      that are a subnet's too. */
  lemma HostsOrphanIff(w: World, ends: map<Subnet, Ending>, w': World)
    requires NoOrphans(w) && PlaceHosts(w, ends, w')
    ensures NoOrphans(w') <==> forall ip ::
        ip in w.core.hosts && !Keep(w.core, ip, w.core.hosts[ip]) && Mine(At(w.table, Host(ip))) && Host(ip) !in w.core.subnets
        ==> At(ends, Host(ip)) != Some(DeleteRefused)
  {
    forall k ensures Orphan(w', k) <==>
        IsHost(w.core, k) && !Keep(w.core, k.addr, w.core.hosts[k.addr]) && At(ends, k) == Some(DeleteRefused)
        && Mine(At(w.table, k)) && k !in w.core.subnets
    {
      assert !Orphan(w, k);
      AfterHosts(w, ends, w', k);
      if IsHost(w.core, k) {
        assert k == Host(k.addr);
        assert HostPlaced(w.core, k.addr, w.core.hosts[k.addr], At(w.table, k), At(ends, k), At(w'.core.hosts, k.addr), At(w'.table, k));
      }
    }
    forall ip | ip in w.core.hosts ensures IsHost(w.core, Host(ip)) {
    }
  }

  /** `place_subnets` orphans nothing exactly when no first add of a re-placed
      subnet is refused while its old route stands, and no delete of a re-placed
      or dropped one, but for destinations that are a routed host's too. */
  lemma NetsOrphanIff(w: World, ends: map<Subnet, Ending>, w': World)
    requires NoOrphans(w) && PlaceSubnets(w, ends, w')
    ensures NoOrphans(w') <==> forall s ::
        s in w.core.subnets && Mine(At(w.table, s)) && !RoutedHost(w.core, s)
        ==> At(ends, s) !in {Some(AddRefused), Some(DeleteRefused)}
  {
    forall k ensures Orphan(w', k) <==>
        k in w.core.subnets && At(ends, k) in {Some(AddRefused), Some(DeleteRefused)} && Mine(At(w.table, k)) && !RoutedHost(w.core, k)
    {
      assert !Orphan(w, k);
      AfterNets(w, ends, w', k);
      assert NetPlaced(Wanted(w.core, w.nets, k), At(w.core.subnets, k), At(w.table, k), At(ends, k), At(w'.core.subnets, k), At(w'.table, k));
    }
  }

  /** A run that loses nothing before `j` has no orphan at `j`. */
  lemma {:induction false} NoneLost(ws: seq<World>, acts: seq<Action>, j: nat)
    requires Run(ws, acts) && j < |ws|
    requires forall i {:trigger acts[i]} :: 0 <= i < j ==> LosesNone(ws[i], acts[i], ws[i + 1])
    ensures NoOrphans(ws[j])
    decreases j
  {
    if j > 0 {
      NoneLost(ws, acts, j - 1);
      NoOrphansIff(ws[j - 1], acts[j - 1], ws[j]);
    }
  }

  /** Once stopped, the program sends nothing that changes a route. */
  lemma StoppedStep(w: World, a: Action, w': World, k: Subnet)
    requires Inv(w) && w.core.stopped && Next(w, a, w')
    ensures At(w'.table, k) == if a.LosingInterface? && TookAway(w, a, k) then None else At(w.table, k)
  {
    assert !HasRoute(w.core, k);
  }

  /** No interface `index` vanishes between the two. */
  ghost predicate Outlasts(acts: seq<Action>, from: nat, to: nat, index: nat) {
    forall i {:trigger acts[i]} :: from < i < to && i < |acts| && acts[i].LosingInterface? ==> acts[i].index != index
  }

  /** A route that a `remove_all` leaves: not in the books, or its delete refused. */
  predicate Spared(w: World, ends: map<Subnet, Ending>, k: Subnet) {
    HasRoute(w.core, k) ==> At(ends, k) == Some(DeleteRefused)
  }

  lemma RemoveAllLeaves(w: World, ends: map<Subnet, Ending>, w': World, k: Subnet)
    requires RemoveAll(w, ends, w')
    ensures At(w'.table, k) == if Spared(w, ends, k) then At(w.table, k) else None
  {
  }

  /** What stands after `remove_all`, ever: what stood before it and was not in
      the books, or its delete refused, while its interface lasts. */
  lemma {:induction false} AfterStop(ws: seq<World>, acts: seq<Action>, stop: nat, j: nat, k: Subnet)
    requires Run(ws, acts) && stop < |acts| && acts[stop].RemovingAll? && stop < j < |ws|
    ensures At(ws[j].table, k) ==
            var e := At(ws[stop].table, k);
            if e.Some? && Spared(ws[stop], acts[stop].ends, k) && Outlasts(acts, stop, j, e.value.index) then e else None
    decreases j
  {
    if j == stop + 1 {
      assert Next(ws[stop], acts[stop], ws[j]);
      RemoveAllLeaves(ws[stop], acts[stop].ends, ws[j], k);
    } else {
      AfterStop(ws, acts, stop, j - 1, k);
      BooksHold(ws, acts, j - 1);
      StopPersists(ws[stop], acts[stop], ws[stop + 1]);
      StaysStopped(ws, acts, stop + 1, j - 1);
      StoppedStep(ws[j - 1], acts[j - 1], ws[j], k);
      OutlastsNext(acts, stop, j - 1);
    }
  }

  lemma OutlastsNext(acts: seq<Action>, from: nat, to: nat)
    requires from < to < |acts|
    ensures forall index: nat :: Outlasts(acts, from, to + 1, index) <==>
      Outlasts(acts, from, to, index) && (acts[to].LosingInterface? ==> acts[to].index != index)
  {
  }

  /** So in a run that loses nothing up to a `remove_all`, that one included, no
      route of this process stands from then on. */
  lemma NothingAfterStop(ws: seq<World>, acts: seq<Action>, stop: nat, j: nat, k: Subnet)
    requires Run(ws, acts) && stop < |acts| && acts[stop].RemovingAll? && stop < j < |ws|
    requires forall i {:trigger acts[i]} :: 0 <= i <= stop ==> LosesNone(ws[i], acts[i], ws[i + 1])
    ensures !Mine(At(ws[j].table, k))
  {
    NoneLost(ws, acts, stop);
    AfterStop(ws, acts, stop, j, k);
    assert !Orphan(ws[stop], k);
    assert Next(ws[stop], acts[stop], ws[stop + 1]) && !HasRoute(ws[stop + 1].core, k);
    assert LosesNone(ws[stop], acts[stop], ws[stop + 1]) && !Loses(ws[stop], acts[stop], ws[stop + 1], k);
  }

  // Destinations with which nothing goes wrong

  predicate DoneAt(ends: map<Subnet, Ending>, k: Subnet) {
    k in ends ==> ends[k].Done?
  }

  /** No message of the step about `k` is refused. */
  predicate KindTo(a: Action, k: Subnet) {
    match a
    case RoutingHost(ip, _, _, r) => k == Host(ip) && r.Refused? ==> r.sent.None?
    case Reconciling(how) => DoneAt(how.hostEnds, k) && DoneAt(how.netEnds, k)
    case RemovingAll(ends) => DoneAt(ends, k)
    case Expiring(_, _, ends, _) => DoneAt(ends, k)
    case _ => true
  }

  /** `k` is not a host's and at once a subnet's of the lists or of the books. */
  predicate ApartAt(w: World, k: Subnet) {
    IsHost(w.core, k) ==> k !in w.core.subnets && k !in Entries(w.nets)
  }

  /** The step does not publish the generation `k` is booked at with another
      interface. */
  predicate ToldAt(w: World, a: Action, k: Subnet) {
    a.SettingLink? ==> Publishable(w, a.link, a.state) || k !in BookedAt(w.core, Placed(a.link, a.state.generation))
  }

  lemma WantedIsListed(c: Core, nets: NetLists, s: Subnet)
    requires Wanted(c, nets, s).Some?
    ensures s in Entries(nets)
  {
    var r := Wanted(c, nets, s).value.0;
    var l :| l in ListsOf(nets, s);
  }

  lemma ReconcileKeepsTrust(w: World, r: Reconciled, w': World, k: Subnet)
    requires Reconcile(w, r, w') && DoneAt(r.hostEnds, k) && DoneAt(r.netEnds, k) && ApartAt(w, k) && k !in w.doubt
    ensures k !in w'.doubt
  {
    if !w.core.stopped {
      var p, m := PickTunnels(w, r.now), r.afterHosts;
      assert k !in SharedNow(p.core) && k !in m.doubt;
      if k in SharedSoon(m.core, m.nets) {
        assert k == Host(k.addr) && k.addr in m.core.hosts && IsHost(w.core, k);
        if Wanted(m.core, m.nets, k).Some? {
          WantedIsListed(m.core, m.nets, k);
        }
        assert false;
      }
    }
  }

  lemma ExpireKeepsTrust(w: World, now: nat, window: nat, ends: map<Subnet, Ending>, ok: bool, w': World, k: Subnet)
    requires Expire(w, now, window, ends, ok, w') && ApartAt(w, k) && k !in w.doubt
    ensures k !in w'.doubt
  {
  }

  /** Out of doubt, a destination stays so. */
  lemma StepKeepsTrust(w: World, a: Action, w': World, k: Subnet)
    requires Next(w, a, w') && KindTo(a, k) && ToldAt(w, a, k) && ApartAt(w, k) && ApartAt(w', k) && k !in w.doubt
    ensures k !in w'.doubt
  {
    if a.Reconciling? {
      ReconcileKeepsTrust(w, a.how, w', k);
    } else if a.Expiring? {
      ExpireKeepsTrust(w, a.now, a.window, a.ends, a.ok, w', k);
    } else if a.RoutingHost? {
      RoutingKeepsTrust(w, a.ip, a.rule, a.now, a.routed, w', k);
    }
  }

  lemma RoutingKeepsTrust(w: World, ip: Ip, rule: nat, now: nat, r: Routed, w': World, k: Subnet)
    requires RouteHost(w, ip, rule, now, r, w') && (k == Host(ip) && r.Refused? ==> r.sent.None?)
    requires (IsHost(w'.core, k) ==> k !in w'.core.subnets) && k !in w.doubt
    ensures k !in w'.doubt
  {
  }

  /** And no orphan is made where no message is refused, shared or not, whatever
      is published. */
  lemma KindOrphansNone(w: World, a: Action, w': World, k: Subnet)
    requires Next(w, a, w') && KindTo(a, k) && !Orphan(w, k)
    ensures !Orphan(w', k)
  {
    OrphansAfter(w, a, w', k);
  }

  ghost predicate KindRun(ws: seq<World>, acts: seq<Action>, k: Subnet) {
    Run(ws, acts) && forall i {:trigger acts[i]} :: 0 <= i < |acts| ==> KindTo(acts[i], k)
  }

  lemma {:induction false} KindRunsOrphanNone(ws: seq<World>, acts: seq<Action>, i: nat, k: Subnet)
    requires KindRun(ws, acts, k) && i < |ws|
    ensures !Orphan(ws[i], k)
    decreases i
  {
    if i > 0 {
      KindRunsOrphanNone(ws, acts, i - 1, k);
      KindOrphansNone(ws[i - 1], acts[i - 1], ws[i], k);
    }
  }

  /** A destination that no refused message is about, that no host ever shares
      with a subnet, and whose generation keeps its interface while booked, is
      never in doubt, whatever becomes of the others. */
  lemma {:induction false} SmoothRunsAreTrusted(ws: seq<World>, acts: seq<Action>, i: nat, k: Subnet)
    requires KindRun(ws, acts, k) && i < |ws|
    requires forall j :: 0 <= j < |ws| ==> ApartAt(ws[j], k)
    requires forall j {:trigger acts[j]} :: 0 <= j < |acts| ==> ToldAt(ws[j], acts[j], k)
    ensures k !in ws[i].doubt && Inv(ws[i])
    decreases i
  {
    BooksHold(ws, acts, i);
    if i > 0 {
      SmoothRunsAreTrusted(ws, acts, i - 1, k);
      StepKeepsTrust(ws[i - 1], acts[i - 1], ws[i], k);
    }
  }

  /** A step in which no message is refused loses nothing. */
  lemma GrantedLosesNone(w: World, a: Action, w': World)
    requires forall k :: KindTo(a, k)
    ensures LosesNone(w, a, w')
  {
    forall k ensures !Loses(w, a, w', k) {
      assert KindTo(a, k);
    }
  }
}
