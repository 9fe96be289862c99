/** More of what falls short, shown from the start with two rules in force, each at
    a tunnel of its own and pf in line with both. */
module TwoRules {
  import opened Wrappers
  import opened Subnets
  import opened TunnelChoice
  import opened Routes
  import opened ResolverCore
  import opened Steps
  import opened Books
  import opened Exactness
  import opened Cache
  import opened Answers
  import opened Shortfalls
  import Pf

  const SERVER: Ip := 0x0202_0202

  function First(active: bool, current: Option<nat>): RuleRun {
    RuleRun("first", Always, ["l"], [0], active, current)
  }

  function Second(active: bool, current: Option<nat>): RuleRun {
    RuleRun("second", Always, ["m"], [1], active, current)
  }

  function Alive(index: nat): LinkState {
    LinkState(Some(Iface(if index == 1 then "utun1" else "utun2", index)), 1, Up, false, Some(0), Some(SERVER))
  }

  /** What the kernel refuses and where pf fails. */
  datatype Luck = Luck(refuses: Refusals, pfFails: Refusals)

  function Made(luck: Luck, links: seq<LinkState>, rules: seq<RuleRun>, stale: bool): World {
    World(Core(links, rules, map[], map[], false, false, false), [], map[], 0,
          PfState([], Pf.Tables(map[], map[])), stale, None, None, map[], {}, {}, luck.refuses, 0, luck.pfFails)
  }

  const LINKS := [Alive(1), Alive(2)]

  const RULES := [First(true, Some(0)), Second(true, Some(1))]

  /** Both rules at their tunnels, nothing routed yet. */
  function Ready(luck: Luck): World {
    Made(luck, LINKS, RULES, true)
      .(indexOf := map[Placed(0, 1) := 1, Placed(1, 1) := 2])
  }

  lemma ReachMade(luck: Luck)
    ensures Reached(Made(luck, [UNKNOWN, UNKNOWN], [First(false, None), Second(false, None)], true))
  {
    var w := Made(luck, [UNKNOWN, UNKNOWN], [First(false, None), Second(false, None)], true);
    assert Started(w);
    assert EndsIn([w], [], w);
  }

  lemma BothUp(luck: Luck) returns (w: World)
    ensures Reached(w)
    ensures w == Ready(luck).(core := Ready(luck).core.(rules := [First(true, None), Second(true, None)]))
  {
    var a := Made(luck, [UNKNOWN, UNKNOWN], [First(false, None), Second(false, None)], true);
    var b := SetCountry(a, "");
    assert InCountry(a.core.rules, "") == [First(true, None), Second(true, None)];
    var c := SetLink(b, 0, Alive(1));
    w := SetLink(c, 1, Alive(2));
    assert w.core.links == [Alive(1), Alive(2)];
    ReachMade(luck);
    ReachNext(a, SettingCountry(""), b);
    ReachNext(b, SettingLink(0, Alive(1)), c);
    ReachNext(c, SettingLink(1, Alive(2)), w);
  }

  lemma BothPicked(luck: Luck, w: World)
    requires w == Ready(luck).(core := Ready(luck).core.(rules := [First(true, None), Second(true, None)]))
    ensures PickTunnels(w, 0) == Ready(luck)
  {
    var links := w.core.links;
    assert GoodOf([0], links) == {0} && GoodOf([1], links) == {1};
    assert Pick([0], links, None, 0) == Some(0) && Pick([1], links, None, 0) == Some(1);
    assert PickedRules(w.core, 0) == [First(true, Some(0)), Second(true, Some(1))];
  }

  /** A reconcile with no host and no list changes no route. */
  lemma NothingToPlace(w: World)
    requires w.core.hosts == map[] && w.core.subnets == map[] && w.nets == []
    ensures PlaceHosts(w, map[], w) && PlaceSubnets(w, map[], w)
  {
    assert SharedNow(w.core) == {} && SharedSoon(w.core, w.nets) == {};
    assert EndedBy(map[], Done) == {} && EndedBy(map[], AddAgainRefused) == {};
    forall s ensures Wanted(w.core, w.nets, s).None? {
      if Wanted(w.core, w.nets, s).Some? {
        WantedIsListed(w.core, w.nets, s);
      }
    }
  }

  lemma ReachReady(luck: Luck)
    ensures Reached(Ready(luck))
  {
    var a := BothUp(luck);
    var r := Reconciled(0, Ready(luck), map[], map[]);
    BothPicked(luck, a);
    NothingToPlace(Ready(luck));
    assert Next(a, Reconciling(r), Ready(luck));
    ReachNext(a, Reconciling(r), Ready(luck));
  }

  /** pf loaded: for any state there is an anchor of its shape, and tables. */
  lemma TakeSync(w: World) returns (w': World)
    ensures w' == w.(pf := w'.pf, pfCalls := w.pfCalls + 1, stale := false, last := Some(ShapeOf(w.core, w.network)))
    ensures w.stale && !Denied(w.pfFails, w.pfCalls) ==> Next(w, SyncingPf(true), w')
    ensures Sound(w')
  {
    var shape, n := ShapeOf(w.core, w.network), |w.core.rules|;
    var tables := Pf.Tables(map i: nat | i < n :: HostsOf(w.core, i), map i: nat | i < n :: NetsOf(w.core, w.nets, i));
    w' := w.(pf := PfState(Pf.RulesetOf(shape), tables), pfCalls := w.pfCalls + 1, stale := false, last := Some(shape));
    Pf.RulesetBlocks(shape);
    assert PfHolds(w', shape);
  }

  /** Both rules at their tunnels and pf in line. */
  lemma InLine(luck: Luck) returns (w: World)
    requires !Denied(luck.pfFails, 0)
    ensures Reached(w) && Sound(w) && w == Ready(luck).(pf := w.pf, pfCalls := 1, stale := false, last := w.last)
  {
    w := TakeSync(Ready(luck));
    ReachReady(luck);
    ReachNext(Ready(luck), SyncingPf(true), w);
  }

  lemma BothCarry(luck: Luck, w: World)
    requires w.core == Ready(luck).core
    ensures w.core.Active(0) && w.core.Active(1) && w.core.Carries(0) && w.core.Carries(1)
    ensures w.core.TargetOf(0) == Some(Target(Placed(0, 1), 1)) && w.core.TargetOf(1) == Some(Target(Placed(1, 1), 2))
  {
  }

  lemma IsRoutable(w: World, ip: Ip)
    requires w.core.links == LINKS && !Special(ip) && ip != SERVER
    ensures Routable(ip, w.core.Endpoints())
  {
    RoutableOutside(w.core, ip, SERVER);
  }

  /** An answer of two new addresses, the second one refused, from a state with pf
      in line. */
  lemma RefusedAnswerHappens(a: Ip, b: Ip) returns (w: World, hops: seq<Hop>, w': World)
    requires a != b && !Special(a) && !Special(b) && a != SERVER && b != SERVER
    ensures Reached(w) && Sound(w) && Routable(a, w.core.Endpoints()) && Routable(b, w.core.Endpoints())
    ensures Happens(w, Answering(0, [a, b], hops, true), w') && !w'.stale && !Sound(w')
  {
    var luck := Luck(n => n == 1, n => false);
    w := InLine(luck);
    BothCarry(luck, w);
    IsRoutable(w, a);
    IsRoutable(w, b);
    hops, w' := RefusedAnswerLosesAddress(w, 0, a, b, 0);
  }

  /** An answer refused by pf, and the same one again. */
  lemma RetryHappens(ip: Ip) returns (w: World, first: seq<Hop>, m: World, second: seq<Hop>, w': World)
    requires !Special(ip) && ip != SERVER
    ensures Reached(w) && Sound(w) && Routable(ip, w.core.Endpoints())
    ensures Happens(w, Answering(0, [ip], first, false), m) && Happens(m, Answering(0, [ip], second, true), w')
    ensures !Stopped(second) && !w'.pf.tables.HoldsHost(0, ip)
  {
    var luck := Luck(n => false, n => n == 1);
    w := InLine(luck);
    BothCarry(luck, w);
    IsRoutable(w, ip);
    first, m, second, w' := RetryIsNotHeld(w, 0, ip, 0, 0);
    HopsKeepRules(w, 0, [ip], first);
  }

  lemma {:induction false} HopsKeepRules(w: World, rule: nat, ips: seq<Ip>, hops: seq<Hop>)
    requires Hops(w, rule, ips, hops)
    ensures End(w, hops).core.rules == w.core.rules
    decreases |hops|
  {
    if hops != [] {
      var n := |hops| - 1;
      HopsKeepRules(w, rule, ips, hops[..n]);
      RoutingDecidesOwner(End(w, hops[..n]), ips[n], rule, hops[n].now, hops[n].routed, hops[n].after);
    }
  }

  /** A host of the first rule read from the state file, asked for by the second. */
  lemma LoadedHappens(ip: Ip) returns (w: World, hops: seq<Hop>, w': World)
    requires !Special(ip) && ip != SERVER
    ensures Reached(w) && Routable(ip, w.core.Endpoints())
    ensures Happens(w, Answering(1, [ip], hops, true), w') && !Stopped(hops) && Host(ip) !in w'.table
  {
    var luck := Luck(n => false, n => false);
    var a := InLine(luck);
    BothCarry(luck, a);
    var saved := [Saved(ip, 0, 0)];
    assert saved[..0] == [] && Loaded(map[], 2, saved) == map[ip := HostRun(0, 0, None)];
    w := LoadHosts(a, saved);
    ReachNext(a, LoadingHosts(saved), w);
    IsRoutable(w, ip);
    assert w.core.Carries(0) == a.core.Carries(0);
    hops, w' := LoadedHostIsHandedOut(w, 1, ip, 0);
  }

  // A host and a /32 of a list

  lemma HostOffFake(ip: Ip)
    requires !Special(ip)
    ensures !Host(ip).Overlaps(FAKEIP)
  {
    HostContains(ip, FAKEIP.addr);
    assert SPECIAL[8] == FAKEIP;
    FakeHoldsItsFirst();
  }

  lemma FakeHoldsItsFirst()
    ensures FAKEIP.Contains(FAKEIP.addr)
  {
    assert Pow2(8) == 256;
    Pow2Splits(8, 8);
    Pow2Splits(16, 1);
    MultipleIsNormal(FAKEIP, 25353);
  }

  /** A host of the second rule, its address a subnet of the first rule's list. */
  lemma Sharing(luck: Luck, ip: Ip) returns (w: World)
    requires !Special(ip) && ip != SERVER && !Denied(luck.pfFails, 0)
    ensures Reached(w) && !w.core.stopped
    ensures w == Ready(luck).(core := Ready(luck).core.(hosts := map[ip := HostRun(1, 0, None)]), nets := [(Host(ip), "l")],
                          pf := w.pf, pfCalls := 1, stale := w.stale, last := w.last)
  {
    var a := InLine(luck);
    var b := SetLists(a, [(Host(ip), "l")]);
    var saved := [Saved(ip, 1, 0)];
    assert saved[..0] == [] && Loaded(map[], 2, saved) == map[ip := HostRun(1, 0, None)];
    w := LoadHosts(b, saved);
    ReachNext(a, SettingLists([(Host(ip), "l")]), b);
    ReachNext(b, LoadingHosts(saved), w);
  }

  lemma SharedIsWanted(c: Core, ip: Ip)
    requires c.rules == RULES && c.links == LINKS && !c.useFakeip && !Special(ip) && ip != SERVER
    ensures Wanted(c, [(Host(ip), "l")], Host(ip)) == Some((0, Target(Placed(0, 1), 1)))
    ensures c.TargetOf(1) == Some(Target(Placed(1, 1), 2))
  {
    HostOffFake(ip);
    HostContains(ip, SERVER);
    FirstRuleOwns(c, Host(ip), "l");
    ReadyTargets(c);
    OwnedIsWanted(c, [(Host(ip), "l")], Host(ip), 0, Target(Placed(0, 1), 1), SERVER);
  }

  lemma ReadyTargets(c: Core)
    requires c.rules == RULES && c.links == LINKS
    ensures c.TargetOf(0) == Some(Target(Placed(0, 1), 1)) && c.TargetOf(1) == Some(Target(Placed(1, 1), 2))
  {
  }

  lemma PicksStay(w: World)
    requires w.core.rules == RULES && w.core.links == LINKS
    ensures PickTunnels(w, 0).core == w.core
  {
    var links := w.core.links;
    assert Pick([0], links, Some(0), 0) == Some(0) && Pick([1], links, Some(1), 0) == Some(1);
    assert PickedRules(w.core, 0) == w.core.rules;
  }

  lemma SharedHostStays(w: World, r: Reconciled, w': World, ip: Ip)
    requires Reconcile(w, r, w') && !w.core.stopped && r.now == 0 && !Special(ip) && ip != SERVER
    requires w.core.rules == RULES && w.core.links == LINKS && !w.core.useFakeip
    requires w.core.hosts == map[ip := HostRun(1, 0, None)] && w.core.subnets == map[] && w.nets == [(Host(ip), "l")]
    ensures ip in w'.core.hosts && w'.core.hosts[ip].rule == 1 && Host(ip) in r.netEnds
    ensures w'.core.rules == w.core.rules && w'.core.links == w.core.links && !w'.core.useFakeip && w'.nets == w.nets
  {
    PicksStay(w);
    var p, m := PickTunnels(w, 0), r.afterHosts;
    IsRoutable(w, ip);
    KeptStays(p, r.hostEnds, m, ip);
    HostAfterHosts(p, r.hostEnds, m, ip);
    SharedIsWanted(m.core, ip);
    NetAfterNets(m, r.netEnds, w', Host(ip));
  }

  /** Nothing is refused, and the host is on the tunnel of the other rule. */
  lemma SharedIsTorn(ip: Ip) returns (w: World, r: Reconciled, w': World)
    requires !Special(ip) && ip != SERVER
    ensures Reached(w) && Next(w, Reconciling(r), w') && r.Granted()
    ensures ip in w'.core.hosts && w'.core.hosts[ip].rule == 1 && w'.core.TargetOf(1) == Some(Target(Placed(1, 1), 2))
    ensures At(w'.table, Host(ip)) == Some(Route(1, true)) && !Exact(w', Host(ip))
  {
    w := Sharing(Luck(WHIMS, n => false), ip);
    r, w' := TakeReconcile(w, 0, map[], map[]);
    SharedHostStays(w, r, w', ip);
    SharedIsWanted(w'.core, ip);
    SharedFollowsSubnet(w, r, w', ip);
  }
}
