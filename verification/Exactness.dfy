/** What a reconcile leaves in the kernel: exactly the table the rules, tunnels
    and lists call for, and nothing for a second reconcile to do. */
module Exactness {
  import opened Wrappers
  import opened Subnets
  import opened TunnelChoice
  import opened Routes
  import opened ResolverCore
  import opened Steps
  import opened Books

  /** A destination holds what the books say of it: nothing of this process when
      they say nothing. */
  predicate AsBooked(w: World, placed: Option<Placed>, e: Option<Route>) {
    if placed.Some? then Stands(w, placed.value, e) else !Mine(e)
  }

  /** A destination holds what is called for: a kept host's route at its rule's
      tunnel, or as booked while the rule has none; a subnet's at the tunnel of
      the first rule in force that has it; else no route of this process. */
  ghost predicate Exact(w: World, k: Subnet) {
    var e := At(w.table, k);
    if IsHost(w.core, k) then
      var h := w.core.hosts[k.addr];
      var t := w.core.TargetOf(h.rule);
      Keep(w.core, k.addr, h)
      && if t.Some? then e == Some(Route(t.value.index, true)) else AsBooked(w, h.placed, e)
    else
      var want := Wanted(w.core, w.nets, k);
      if want.Some? then e == Some(Route(want.value.1.index, true)) else !Mine(e)
  }

  /** The target called for at a destination, if any is. */
  function CalledFor(w: World, k: Subnet): Option<Target> {
    if IsHost(w.core, k) then w.core.TargetOf(w.core.hosts[k.addr].rule)
    else
      var want := Wanted(w.core, w.nets, k);
      if want.Some? then Some(want.value.1) else None
  }

  /** The route called for at `k` fell with its interface. */
  predicate Fallen(w: World, k: Subnet) {
    CalledFor(w, k).Some? && CalledFor(w, k).value.placed in w.gone && At(w.table, k).None?
  }

  /** The rules agree on what is in force and on the lists. */
  predicate SameRules(c: Core, d: Core) {
    |c.rules| == |d.rules|
    && forall i :: 0 <= i < |c.rules| ==> c.rules[i].active == d.rules[i].active && c.rules[i].lists == d.rules[i].lists
  }

  lemma {:induction false} SameFirst(c: Core, d: Core, lists: set<string>, i: nat)
    requires SameRules(c, d)
    ensures c.FirstTaking(lists, i) == d.FirstTaking(lists, i)
    decreases |c.rules| - i
  {
    if i < |c.rules| {
      assert c.Takes(i, lists) <==> d.Takes(i, lists);
      SameFirst(c, d, lists, i + 1);
    }
  }

  lemma SameOwner(c: Core, d: Core, nets: NetLists, s: Subnet)
    requires SameRules(c, d)
    ensures c.NetOwner(nets, s) == d.NetOwner(nets, s)
  {
    SameFirst(c, d, ListsOf(nets, s), 0);
  }

  lemma SameWanted(c: Core, d: Core, nets: NetLists, s: Subnet)
    requires c.rules == d.rules && c.links == d.links && c.useFakeip == d.useFakeip
    ensures Wanted(c, nets, s) == Wanted(d, nets, s)
  {
    SameOwner(c, d, nets, s);
    assert forall r: nat :: c.TargetOf(r) == d.TargetOf(r) && c.ReasonsOf(r).tunnel == d.ReasonsOf(r).tunnel;
  }

  lemma NetAfterNets(w: World, ends: map<Subnet, Ending>, w': World, k: Subnet)
    requires PlaceSubnets(w, ends, w')
    ensures Wanted(w'.core, w'.nets, k) == Wanted(w.core, w.nets, k)
    ensures var want := Wanted(w.core, w.nets, k);
      (k in ends <==> !InPlace(At(w.core.subnets, k), want) && (k in w.core.subnets || want.Some?))
      && At(w'.table, k) == (if k in ends then Left(At(w.table, k), if want.Some? then Some(want.value.1.index) else None, ends[k])
                            else At(w.table, k))
      && (k in w'.core.subnets <==> want.Some? && (k in ends ==> ends[k].Done?))
      && (k in w'.core.subnets ==> InPlace(At(w'.core.subnets, k), want))
  {
    SameWanted(w.core, w'.core, w.nets, k);
    assert NetPlaced(Wanted(w.core, w.nets, k), At(w.core.subnets, k), At(w.table, k), At(ends, k), At(w'.core.subnets, k), At(w'.table, k));
  }

  /** What a destination holds after one ending, if a message was sent. */
  function LeftBy(e: Option<Route>, to: Option<nat>, end: Option<Ending>): Option<Route> {
    if end.Some? then Left(e, to, end.value) else e
  }

  /** A host's destination, the host kept, after both halves of a reconcile. */
  lemma HostAfterReconcile(w: World, r: Reconciled, w': World, ip: Ip)
    requires Reconcile(w, r, w') && !w.core.stopped && ip in w'.core.hosts
    ensures ip in w.core.hosts && w'.core.hosts[ip].rule == w.core.hosts[ip].rule && Keep(w'.core, ip, w'.core.hosts[ip])
    ensures var k, t := Host(ip), w'.core.TargetOf(w'.core.hosts[ip].rule);
      (k in r.hostEnds <==> t.Some? && w.core.hosts[ip].placed != Some(t.value.placed))
      && (k in r.netEnds ==> k in w.core.subnets || k in Entries(w.nets))
      && At(w'.table, k) ==
         LeftBy(LeftBy(At(w.table, k), if t.Some? then Some(t.value.index) else None, At(r.hostEnds, k)),
                NetIndex(w', k), At(r.netEnds, k))
  {
    var p, m := PickTunnels(w, r.now), r.afterHosts;
    SameTargets(p, m);
    SameTargets(m, w');
    HostAfterHosts(p, r.hostEnds, m, ip);
    NetAfterNets(m, r.netEnds, w', Host(ip));
    if Wanted(m.core, m.nets, Host(ip)).Some? {
      WantedIsListed(m.core, m.nets, Host(ip));
    }
  }

  lemma SameTargets(w: World, w': World)
    requires w.core.rules == w'.core.rules && w.core.links == w'.core.links
    ensures forall r: nat :: w.core.TargetOf(r) == w'.core.TargetOf(r)
  {
    forall r: nat ensures w.core.TargetOf(r) == w'.core.TargetOf(r) {
    }
  }

  lemma SameKeep(c: Core, d: Core, ip: Ip, h: HostRun)
    requires c.rules == d.rules && c.links == d.links
    ensures Keep(c, ip, h) == Keep(d, ip, h) && Moves(c, ip, h) == Moves(d, ip, h)
  {
  }

  /** No message about `k` was refused. */
  predicate GrantedAt(r: Reconciled, k: Subnet) {
    DoneAt(r.hostEnds, k) && DoneAt(r.netEnds, k)
  }

  lemma NotShared(w: World, r: Reconciled, w': World, ip: Ip)
    requires Reconcile(w, r, w') && !w.core.stopped && ip in w'.core.hosts && Host(ip) !in w'.doubt
    ensures Host(ip) !in r.netEnds && Host(ip) !in w'.core.subnets && Host(ip) !in r.afterHosts.doubt
    ensures Host(ip) !in r.hostEnds ==> Host(ip) !in w.doubt
  {
    var m := r.afterHosts;
    UnsharedIsUnasked(m, r.netEnds, w', ip);
    if Host(ip) !in r.hostEnds {
      DoubtAfterHosts(PickTunnels(w, r.now), r.hostEnds, m, Host(ip));
    }
  }

  lemma UnsharedIsUnasked(m: World, ends: map<Subnet, Ending>, w': World, ip: Ip)
    requires PlaceSubnets(m, ends, w') && ip in m.core.hosts && Host(ip) !in w'.doubt
    ensures Host(ip) !in ends && Host(ip) !in w'.core.subnets && Host(ip) !in m.doubt
  {
    assert Host(ip) !in SharedSoon(m.core, m.nets);
    NetAfterNets(m, ends, w', Host(ip));
  }

  lemma DoubtAfterHosts(w: World, ends: map<Subnet, Ending>, m: World, k: Subnet)
    requires PlaceHosts(w, ends, m) && k !in m.doubt && k !in ends
    ensures k !in w.doubt
  {
  }

  /** A kept host with a tunnel, out of doubt, is on it, moved there or booked
      there and standing; or its route fell. */
  lemma HostIsExact(w: World, r: Reconciled, w': World, ip: Ip)
    requires Inv(w) && Reconcile(w, r, w') && !w.core.stopped
    requires ip in w'.core.hosts && Host(ip) !in w'.doubt && GrantedAt(r, Host(ip))
    ensures var t := w'.core.TargetOf(w'.core.hosts[ip].rule);
      t.Some? ==> Fallen(w', Host(ip)) || At(w'.table, Host(ip)) == Some(Route(t.value.index, true))
  {
    NotShared(w, r, w', ip);
    HostAfterReconcile(w, r, w', ip);
    PickTunnelsKeepsInv(w, r.now);
    var p := PickTunnels(w, r.now);
    SameTargets(p, r.afterHosts);
    SameTargets(r.afterHosts, w');
    TargetIsNumbered(p, w'.core.hosts[ip].rule);
  }

  lemma OtherIsExact(w: World, r: Reconciled, w': World, k: Subnet)
    requires Inv(w) && Reconcile(w, r, w') && !w.core.stopped
    requires !IsHost(w'.core, k) && k !in w'.doubt && GrantedAt(r, k) && !Orphan(w', k)
    ensures Exact(w', k) || Fallen(w', k)
  {
    var p, m := PickTunnels(w, r.now), r.afterHosts;
    PickTunnelsKeepsInv(w, r.now);
    PlaceHostsKeepsInv(p, r.hostEnds, m);
    SameTargets(m, w');
    NetAfterNets(m, r.netEnds, w', k);
    var want := Wanted(m.core, m.nets, k);
    if want.Some? {
      TargetIsNumbered(m, want.value.0);
    }
  }

  lemma FallenIsNotExact(w: World, k: Subnet)
    requires Fallen(w, k)
    ensures !Exact(w, k)
  {
  }

  /** From any state with straight books, a reconcile leaves every destination
      outside the doubtful ones exactly as called for, unless a message about
      that very one was refused, or it was orphaned before, or its own route
      fell with the interface it belongs on. */
  lemma ReconcileIsExact(w: World, r: Reconciled, w': World, k: Subnet)
    requires Inv(w) && !Orphan(w, k) && Reconcile(w, r, w') && !w.core.stopped
    requires k !in w'.doubt && GrantedAt(r, k)
    ensures (Exact(w', k) <==> !Fallen(w', k)) && !Orphan(w', k)
    ensures IsHost(w'.core, k) && w'.core.TargetOf(w'.core.hosts[k.addr].rule).None? ==> At(w'.table, k) == At(w.table, k)
  {
    ReconcileKeepsInv(w, r, w');
    ReconcileOrphans(w, r, w', k);
    if Fallen(w', k) {
      FallenIsNotExact(w', k);
    } else if !IsHost(w'.core, k) {
      OtherIsExact(w, r, w', k);
    }
    if IsHost(w'.core, k) {
      assert k == Host(k.addr);
      HostIsExact(w, r, w', k.addr);
      NotShared(w, r, w', k.addr);
      HostAfterReconcile(w, r, w', k.addr);
    }
  }

  // A second reconcile

  /** Every host is kept and on its rule's tunnel, if that has one. */
  predicate HostsSettled(c: Core) {
    forall ip :: ip in c.hosts ==> Keep(c, ip, c.hosts[ip]) && !Moves(c, ip, c.hosts[ip])
  }

  ghost predicate NetsSettled(c: Core, nets: NetLists) {
    forall s :: s in c.subnets || Wanted(c, nets, s).Some? ==> InPlace(At(c.subnets, s), Wanted(c, nets, s))
  }

  predicate RulesSettled(c: Core, now: nat) {
    PickedRules(c, now) == c.rules
  }

  lemma PickingSettles(c: Core, now: nat)
    ensures RulesSettled(c.(rules := PickedRules(c, now)), now)
  {
    var d := c.(rules := PickedRules(c, now));
    forall i | 0 <= i < |c.rules| ensures PickedRules(d, now)[i] == d.rules[i] {
      PickIsIdempotent(c.rules[i].tunnels, c.links, c.rules[i].current, now);
    }
  }

  lemma PlacingSettlesHosts(w: World, ends: map<Subnet, Ending>, w': World)
    requires PlaceHosts(w, ends, w') && AllDone(ends)
    ensures HostsSettled(w'.core)
  {
    var c, d := w.core, w'.core;
    forall ip | ip in d.hosts ensures Keep(d, ip, d.hosts[ip]) && !Moves(d, ip, d.hosts[ip]) {
      HostAfterHosts(w, ends, w', ip);
      SameKeep(c, d, ip, d.hosts[ip]);
    }
  }

  lemma PlacingSettlesNets(w: World, ends: map<Subnet, Ending>, w': World)
    requires PlaceSubnets(w, ends, w') && AllDone(ends)
    ensures NetsSettled(w'.core, w'.nets)
  {
    forall s | s in w'.core.subnets || Wanted(w'.core, w'.nets, s).Some?
      ensures InPlace(At(w'.core.subnets, s), Wanted(w'.core, w'.nets, s))
    {
      NetAfterNets(w, ends, w', s);
    }
  }

  lemma SettledHostsStay(w: World, ends: map<Subnet, Ending>, w': World)
    requires HostsSettled(w.core) && PlaceHosts(w, ends, w')
    ensures w'.core == w.core && w'.table == w.table && w'.calls == w.calls && w'.stale == w.stale
  {
    var hosts, hosts' := w.core.hosts, w'.core.hosts;
    forall ip | ip in hosts
      ensures At(hosts', ip) == At(hosts, ip) && At(w'.table, Host(ip)) == At(w.table, Host(ip)) && Host(ip) !in ends
    {
      assert HostPlaced(w.core, ip, hosts[ip], At(w.table, Host(ip)), At(ends, Host(ip)), At(hosts', ip), At(w'.table, Host(ip)));
    }
    NoEnds(w.core, ends);
    assert hosts'.Keys == hosts.Keys && hosts' == hosts;
    SameTable(w.table, w'.table, w.core);
  }

  lemma NoEnds(c: Core, ends: map<Subnet, Ending>)
    requires forall ip :: ip in c.hosts ==> Host(ip) !in ends
    requires forall k :: !IsHost(c, k) ==> k !in ends
    ensures ends == map[]
  {
    forall k ensures k !in ends {
      if IsHost(c, k) {
        assert k == Host(k.addr);
      }
    }
  }

  lemma SameTable(t: Table, t': Table, c: Core)
    requires forall ip :: ip in c.hosts ==> At(t', Host(ip)) == At(t, Host(ip))
    requires forall k :: !IsHost(c, k) ==> At(t', k) == At(t, k)
    ensures t' == t
  {
    forall k ensures At(t', k) == At(t, k) {
      if IsHost(c, k) {
        assert k == Host(k.addr);
      }
    }
    forall k ensures k in t' <==> k in t {
      assert At(t', k) == At(t, k);
    }
    forall k | k in t ensures t'[k] == t[k] {
      assert At(t', k) == At(t, k);
    }
  }

  lemma SettledNetsStay(w: World, ends: map<Subnet, Ending>, w': World)
    requires NetsSettled(w.core, w.nets) && PlaceSubnets(w, ends, w')
    ensures w'.core == w.core && w'.table == w.table && w'.calls == w.calls
  {
    var subnets, subnets' := w.core.subnets, w'.core.subnets;
    forall s ensures At(subnets', s) == At(subnets, s) && At(w'.table, s) == At(w.table, s) && s !in ends {
      assert NetPlaced(Wanted(w.core, w.nets, s), At(subnets, s), At(w.table, s), At(ends, s), At(subnets', s), At(w'.table, s));
    }
    assert ends == map[];
    SameMap(subnets, subnets');
    SameMap(w.table, w'.table);
  }

  lemma SameMap<K, V>(m: map<K, V>, m': map<K, V>)
    requires forall k :: At(m', k) == At(m, k)
    ensures m' == m
  {
    forall k ensures k in m' <==> k in m {
      assert At(m', k) == At(m, k);
    }
    forall k | k in m ensures m'[k] == m[k] {
      assert At(m', k) == At(m, k);
    }
  }

  lemma ReconcileSettles(w: World, r: Reconciled, w': World)
    requires Reconcile(w, r, w') && !w.core.stopped && r.Granted()
    ensures RulesSettled(w'.core, r.now) && HostsSettled(w'.core) && NetsSettled(w'.core, w'.nets)
  {
    var c := PickTunnels(w, r.now).core;
    PickingSettles(w.core, r.now);
    PlacingSettlesHosts(PickTunnels(w, r.now), r.hostEnds, r.afterHosts);
    PlacingSettlesNets(r.afterHosts, r.netEnds, w');
    assert PickedRules(w'.core, r.now) == PickedRules(c, r.now);
    HostsStaySettled(r.afterHosts.core, w'.core);
  }

  lemma HostsStaySettled(c: Core, d: Core)
    requires c.rules == d.rules && c.links == d.links && c.hosts == d.hosts && HostsSettled(c)
    ensures HostsSettled(d)
  {
  }

  lemma SettledIsQuiet(w: World, r: Reconciled, w': World)
    requires Reconcile(w, r, w')
    requires RulesSettled(w.core, r.now) && HostsSettled(w.core) && NetsSettled(w.core, w.nets)
    ensures w'.core == w.core && w'.table == w.table && w'.calls == w.calls && w'.stale == w.stale
  {
    if !w.core.stopped {
      var p := PickTunnels(w, r.now);
      assert p.core == w.core;
      SettledHostsStay(p, r.hostEnds, r.afterHosts);
      SettledNetsStay(r.afterHosts, r.netEnds, w');
    }
  }

  /** A second reconcile at the same instant, after one whose calls succeeded,
      sends the kernel nothing and changes nothing. */
  lemma SecondReconcileIsQuiet(w: World, r: Reconciled, w': World, again: Reconciled, w'': World)
    requires Reconcile(w, r, w') && r.Granted()
    requires Reconcile(w', again, w'') && again.now == r.now
    ensures w''.core == w'.core && w''.table == w'.table && w''.calls == w'.calls && w''.stale == w'.stale
  {
    if !w.core.stopped {
      ReconcileSettles(w, r, w');
      SettledIsQuiet(w', again, w'');
    }
  }

  // Where the table falls short

  /** A host's route and then a subnet's: who has the destination in the end. */
  predicate HostServed(e: Option<Route>, hostEnd: Option<Ending>, netEnd: Option<Ending>, index: nat, netIndex: Option<nat>) {
    if netEnd.Some? && netEnd.value.Took() then netEnd.value.Done? && netIndex == Some(index)
    else if hostEnd.Some? && hostEnd.value.Took() then hostEnd.value.Done?
    else e == Some(Route(index, true))
  }

  lemma HostServedIff(e: Option<Route>, hostEnd: Option<Ending>, netEnd: Option<Ending>, index: nat, netIndex: Option<nat>)
    ensures LeftBy(LeftBy(e, Some(index), hostEnd), netIndex, netEnd) == Some(Route(index, true))
            <==> HostServed(e, hostEnd, netEnd, index, netIndex)
  {
  }

  /** When a host with a tunnel is as called for, from any state and whatever is
      refused: the subnet half of the reconcile set its destination to the same
      interface; or took nothing from it, and the host was moved; or nothing was
      taken at all, and the kernel had the route before. */
  lemma HostExactIff(w: World, r: Reconciled, w': World, ip: Ip)
    requires Reconcile(w, r, w') && !w.core.stopped && ip in w'.core.hosts
    requires w'.core.TargetOf(w'.core.hosts[ip].rule).Some?
    ensures var k, index := Host(ip), w'.core.TargetOf(w'.core.hosts[ip].rule).value.index;
      Exact(w', k) <==> HostServed(At(w.table, k), At(r.hostEnds, k), At(r.netEnds, k), index, NetIndex(w', k))
  {
    var k, index := Host(ip), w'.core.TargetOf(w'.core.hosts[ip].rule).value.index;
    HostAfterReconcile(w, r, w', ip);
    HostExactMeans(w', ip);
    HostServedIff(At(w.table, k), At(r.hostEnds, k), At(r.netEnds, k), index, NetIndex(w', k));
  }

  lemma HostExactMeans(w: World, ip: Ip)
    requires ip in w.core.hosts && Keep(w.core, ip, w.core.hosts[ip]) && w.core.TargetOf(w.core.hosts[ip].rule).Some?
    ensures Exact(w, Host(ip))
            <==> At(w.table, Host(ip)) == Some(Route(w.core.TargetOf(w.core.hosts[ip].rule).value.index, true))
  {
  }

  /** When any other destination is, from any state: a wanted subnet's route was
      set, or stood as wanted and nothing was taken; what nobody wants was taken
      away, or was never this process's. */
  lemma OtherExactIff(w: World, r: Reconciled, w': World, k: Subnet)
    requires Reconcile(w, r, w') && !w.core.stopped && !IsHost(w'.core, k)
    ensures var index := NetIndex(w', k);
      Exact(w', k) <==>
      if index.None? then TookAt(r.hostEnds, k) || TookAt(r.netEnds, k) || !Mine(At(w.table, k))
      else if TookAt(r.netEnds, k) then r.netEnds[k].Done?
      else !TookAt(r.hostEnds, k) && At(w.table, k) == Some(Route(index.value, true))
  {
    AfterHosts(PickTunnels(w, r.now), r.hostEnds, r.afterHosts, k);
    NetAfterNets(r.afterHosts, r.netEnds, w', k);
  }

  /** A host booked at its rule's tunnel, by link and generation, is taken at its
      word: a reconcile leaves its destination alone, and it is as called for
      exactly when the kernel happens to have the route already. */
  lemma BookedIsTrusted(w: World, r: Reconciled, w': World, ip: Ip)
    requires Reconcile(w, r, w') && !w.core.stopped && ip in w'.core.hosts
    requires Host(ip) !in w.core.subnets && Host(ip) !in Entries(w.nets)
    requires w'.core.TargetOf(w'.core.hosts[ip].rule).Some?
    requires w.core.hosts[ip].placed == Some(w'.core.TargetOf(w'.core.hosts[ip].rule).value.placed)
    ensures At(w'.table, Host(ip)) == At(w.table, Host(ip))
    ensures Exact(w', Host(ip))
            <==> At(w.table, Host(ip)) == Some(Route(w'.core.TargetOf(w'.core.hosts[ip].rule).value.index, true))
  {
    HostAfterReconcile(w, r, w', ip);
  }

  /** The hand-over as `connect` tells it: the old interface under the new
      generation, then the new interface under the same generation, a reconcile
      after each, the first one granted. */
  ghost predicate HandsOver(w: World, l: nat, first: LinkState, r: Reconciled, m: World,
                            second: LinkState, again: Reconciled, w': World) {
    !w.core.stopped && l < |w.core.links|
    && first.iface.Some? && second.iface.Some? && first.generation == second.generation
    && Reconcile(SetLink(w, l, first), r, m) && r.Granted()
    && Reconcile(SetLink(m, l, second), again, w')
  }

  /** The second reconcile moves nothing that the first one moved to the new
      generation: a host is left on the interface that is about to go, and so is
      as called for exactly when the two share an index. */
  lemma HandOverLeavesHosts(w: World, l: nat, first: LinkState, r: Reconciled, m: World,
                            second: LinkState, again: Reconciled, w': World, ip: Ip)
    requires HandsOver(w, l, first, r, m, second, again, w') && ip in w'.core.hosts
    requires Host(ip) !in w.core.subnets && Host(ip) !in Entries(w.nets)
    requires ip in w.core.hosts ==> w.core.hosts[ip].placed != Some(Placed(l, first.generation))
    requires var rule := w'.core.hosts[ip].rule;
      m.core.TargetOf(rule) == Some(Target(Placed(l, first.generation), first.iface.value.index))
      && w'.core.TargetOf(rule) == Some(Target(Placed(l, second.generation), second.iface.value.index))
    ensures At(w'.table, Host(ip)) == Some(Route(first.iface.value.index, true))
    ensures Exact(w', Host(ip)) <==> first.iface.value.index == second.iface.value.index
  {
    var v, x := SetLink(w, l, first), SetLink(m, l, second);
    HostAfterReconcile(x, again, w', ip);
    HostAfterReconcile(v, r, m, ip);
    HostAfterHosts(PickTunnels(v, r.now), r.hostEnds, r.afterHosts, ip);
    SameTargets(r.afterHosts, m);
    SameTargets(PickTunnels(v, r.now), m);
    NetAfterNets(r.afterHosts, r.netEnds, m, Host(ip));
    BookedIsTrusted(x, again, w', ip);
  }

  /** And so are subnets, compared the same way. */
  lemma HandOverLeavesSubnets(w: World, l: nat, first: LinkState, r: Reconciled, m: World,
                              second: LinkState, again: Reconciled, w': World, s: Subnet, rule: nat)
    requires HandsOver(w, l, first, r, m, second, again, w') && !IsHost(w.core, s)
    requires s in w.core.subnets ==> w.core.subnets[s].placed != Placed(l, first.generation)
    requires Wanted(m.core, m.nets, s) == Some((rule, Target(Placed(l, first.generation), first.iface.value.index)))
    requires Wanted(w'.core, w'.nets, s) == Some((rule, Target(Placed(l, second.generation), second.iface.value.index)))
    ensures At(w'.table, s) == Some(Route(first.iface.value.index, true))
    ensures Exact(w', s) <==> first.iface.value.index == second.iface.value.index
  {
    NetAfterNets(r.afterHosts, r.netEnds, m, s);
    NetAfterNets(again.afterHosts, again.netEnds, w', s);
    AfterHosts(PickTunnels(SetLink(m, l, second), again.now), again.hostEnds, again.afterHosts, s);
  }

  /** A host and a /32 of a list at one destination, when the reconcile sets the
      subnet: it is the subnet that is served, and both are in line only when
      they lead to one interface. */
  lemma SharedFollowsSubnet(w: World, r: Reconciled, w': World, ip: Ip)
    requires Reconcile(w, r, w') && !w.core.stopped && ip in w'.core.hosts
    requires w'.core.TargetOf(w'.core.hosts[ip].rule).Some? && Wanted(w'.core, w'.nets, Host(ip)).Some?
    requires At(r.netEnds, Host(ip)) == Some(Done)
    ensures At(w'.table, Host(ip)) == Some(Route(Wanted(w'.core, w'.nets, Host(ip)).value.1.index, true))
    ensures Exact(w', Host(ip))
            <==> Wanted(w'.core, w'.nets, Host(ip)).value.1.index == w'.core.TargetOf(w'.core.hosts[ip].rule).value.index
  {
    HostAfterReconcile(w, r, w', ip);
  }

  lemma InPlaceIsUnasked(w: World, r: Reconciled, w': World, k: Subnet)
    requires Reconcile(w, r, w') && !w.core.stopped && InPlace(At(w.core.subnets, k), Wanted(w'.core, w'.nets, k))
    ensures k !in r.netEnds
  {
    NetAfterNets(r.afterHosts, r.netEnds, w', k);
  }

  /** When the subnet is in the books already, in its place, it is whoever was
      set last: the host, if this reconcile moved it, else whatever the kernel
      has - the route of a host routed after the subnet, say. */
  lemma SharedFollowsLast(w: World, r: Reconciled, w': World, ip: Ip)
    requires Reconcile(w, r, w') && !w.core.stopped && ip in w'.core.hosts
    requires w'.core.TargetOf(w'.core.hosts[ip].rule).Some?
    requires InPlace(At(w.core.subnets, Host(ip)), Wanted(w'.core, w'.nets, Host(ip)))
    ensures var k, index := Host(ip), w'.core.TargetOf(w'.core.hosts[ip].rule).value.index;
      At(w'.table, k) == LeftBy(At(w.table, k), Some(index), At(r.hostEnds, k))
  {
    InPlaceIsUnasked(w, r, w', Host(ip));
    HostAfterReconcile(w, r, w', ip);
  }
}
