/** pf as a cache of the resolver: when skipping a reload is sound, over runs in
    which an answer is one step. */
module Cache {
  import opened Wrappers
  import opened Subnets
  import opened TunnelChoice
  import opened Routes
  import opened ResolverCore
  import opened Steps
  import opened Books
  import opened Exactness
  import Pf

  /** While nothing is stale, pf is as the last load of its shape would leave
      it now, but for the addresses still owed to the table of `rule`. */
  ghost predicate SoundBut(w: World, rule: nat, owing: set<Ip>) {
    !w.stale ==>
      w.last.Some? && AnchorOf(w.pf.anchor, w.last.value) && SameInForce(w.last.value, w.core) && TablesBut(w, rule, owing)
  }

  ghost predicate Sound(w: World) {
    SoundBut(w, 0, {})
  }

  // One answer: every routable address routed, then the new ones told to pf

  datatype Hop = Hop(now: nat, routed: Routed, after: World)

  /** Where the hops lead. */
  function End(w: World, hops: seq<Hop>): World {
    if hops == [] then w else hops[|hops| - 1].after
  }

  predicate Stopped(hops: seq<Hop>) {
    hops != [] && hops[|hops| - 1].routed.Refused?
  }

  /** The first addresses routed one after the other, none after a refusal. */
  ghost predicate Hops(w: World, rule: nat, ips: seq<Ip>, hops: seq<Hop>)
    decreases |hops|
  {
    |hops| <= |ips|
    && (hops == [] ||
        var n := |hops| - 1;
        Hops(w, rule, ips, hops[..n]) && !Stopped(hops[..n])
        && RouteHost(End(w, hops[..n]), ips[n], rule, hops[n].now, hops[n].routed, hops[n].after))
  }

  /** The addresses go in order until one is refused. */
  ghost predicate RouteAll(w: World, rule: nat, ips: seq<Ip>, hops: seq<Hop>) {
    Hops(w, rule, ips, hops) && (|hops| < |ips| ==> Stopped(hops))
  }

  function NewOf(ips: seq<Ip>, hops: seq<Hop>): set<Ip>
    requires |hops| <= |ips|
  {
    set i | 0 <= i < |hops| && hops[i].routed == New :: ips[i]
  }

  /** The state half of `listed`: refused on the way, it returns before the
      addresses already routed are told to pf. */
  ghost predicate Answer(w: World, rule: nat, ips: seq<Ip>, hops: seq<Hop>, pfOk: bool, w': World) {
    RouteAll(w, rule, ips, hops)
    && if Stopped(hops) then w' == End(w, hops)
       else PfAdd(End(w, hops), rule, NewOf(ips, hops), pfOk, w')
  }

  lemma SameNets(w: World, w': World)
    requires SameRules(w.core, w'.core) && w.nets == w'.nets
    ensures forall i: nat :: NetsOf(w'.core, w'.nets, i) == NetsOf(w.core, w.nets, i)
  {
    forall s ensures w'.core.NetOwner(w.nets, s) == w.core.NetOwner(w.nets, s) {
      SameOwner(w.core, w'.core, w.nets, s);
    }
  }

  /** Soundness rests on pf, the rules in force, the lists and who owns which
      host; `more` is what the table of `rule` came to owe. */
  lemma SoundStays(w: World, w': World, rule: nat, owing: set<Ip>, more: set<Ip>)
    requires SoundBut(w, rule, owing)
    requires SameRules(w.core, w'.core) && w'.nets == w.nets && w'.pf == w.pf && w'.last == w.last && (w.stale ==> w'.stale)
    requires !w'.stale ==> forall i: nat :: HostsOf(w'.core, i) == HostsOf(w.core, i) + if i == rule then more else {}
    ensures SoundBut(w', rule, owing + more)
  {
    SameNets(w, w');
  }

  lemma HopHosts(w: World, ip: Ip, rule: nat, now: nat, r: Routed, w': World)
    requires RouteHost(w, ip, rule, now, r, w') && !w'.stale
    ensures var more := if r == New then {ip} else {};
      forall i: nat :: HostsOf(w'.core, i) == HostsOf(w.core, i) + if i == rule then more else {}
    ensures r == New ==> ip !in HostsOf(w.core, rule)
  {
  }

  lemma HopOwes(w: World, ip: Ip, rule: nat, now: nat, r: Routed, w': World, owing: set<Ip>)
    requires SoundBut(w, rule, owing) && RouteHost(w, ip, rule, now, r, w')
    ensures SoundBut(w', rule, owing + if r == New then {ip} else {})
    ensures w'.pf == w.pf && w'.last == w.last && (w.stale ==> w'.stale)
    ensures SameRules(w'.core, w.core) && w'.nets == w.nets
    ensures !w'.stale && r == New ==> ip !in HostsOf(w.core, rule)
    ensures !w'.stale ==> HostsOf(w.core, rule) <= HostsOf(w'.core, rule)
  {
    if !w'.stale {
      HopHosts(w, ip, rule, now, r, w');
    }
    SoundStays(w, w', rule, owing, if r == New then {ip} else {});
  }

  /** From `w`, an answer of `rule` has come to `m`, owing pf these addresses,
      none of which its table had. */
  ghost predicate Owes(w: World, m: World, rule: nat, owing: set<Ip>) {
    SoundBut(m, rule, owing) && (w.stale ==> m.stale) && m.pf == w.pf && SameRules(m.core, w.core)
    && (!m.stale ==> owing !! HostsOf(w.core, rule) && HostsOf(w.core, rule) <= HostsOf(m.core, rule))
  }

  lemma OwesNext(w: World, m: World, rule: nat, owing: set<Ip>, ip: Ip, now: nat, r: Routed, m': World)
    requires Owes(w, m, rule, owing) && RouteHost(m, ip, rule, now, r, m')
    ensures Owes(w, m', rule, owing + if r == New then {ip} else {})
  {
    HopOwes(m, ip, rule, now, r, m', owing);
  }

  /** What an answer owes pf when its loop ends. */
  lemma {:induction false} HopsOwe(w: World, rule: nat, ips: seq<Ip>, hops: seq<Hop>)
    requires Sound(w) && Hops(w, rule, ips, hops)
    ensures Owes(w, End(w, hops), rule, NewOf(ips, hops))
    decreases |hops|
  {
    if hops != [] {
      var n := |hops| - 1;
      HopsOwe(w, rule, ips, hops[..n]);
      NewOfLast(ips, hops);
      var h := hops[n];
      OwesNext(w, End(w, hops[..n]), rule, NewOf(ips, hops[..n]), ips[n], h.now, h.routed, h.after);
    }
  }

  lemma NewOfLast(ips: seq<Ip>, hops: seq<Hop>)
    requires 0 < |hops| <= |ips|
    ensures var n := |hops| - 1;
      NewOf(ips, hops) == NewOf(ips, hops[..n]) + if hops[n].routed == New then {ips[n]} else {}
  {
  }

  lemma PfAddSettles(w: World, rule: nat, owing: set<Ip>, ok: bool, w': World)
    requires SoundBut(w, rule, owing) && PfAdd(w, rule, owing, ok, w')
    ensures Sound(w')
  {
    SameNets(w, w');
    if !w'.stale {
      forall i | 0 <= i < |w.core.rules| ensures HostsOf(w'.core, i) == HostsOf(w.core, i) {
      }
    }
  }

  /** A hop that was granted took its address over from another rule. */
  predicate TookOver(w: World, ips: seq<Ip>, hops: seq<Hop>)
    requires |hops| <= |ips|
  {
    exists i :: 0 <= i < |hops| && TookOverAt(w, ips, hops, i)
  }

  predicate TookOverAt(w: World, ips: seq<Ip>, hops: seq<Hop>, i: nat)
    requires i < |hops| <= |ips|
  {
    hops[i].routed == New && ips[i] in End(w, hops[..i]).core.hosts
  }

  lemma HopStale(w: World, ip: Ip, rule: nat, now: nat, r: Routed, w': World)
    requires RouteHost(w, ip, rule, now, r, w')
    ensures w'.stale <==> w.stale || (r == New && ip in w.core.hosts)
  {
  }

  lemma TookOverNext(w: World, ips: seq<Ip>, hops: seq<Hop>)
    requires 0 < |hops| <= |ips|
    ensures var n := |hops| - 1;
      TookOver(w, ips, hops) <==> TookOver(w, ips, hops[..n]) || TookOverAt(w, ips, hops, n)
  {
    var n := |hops| - 1;
    forall i | 0 <= i < n ensures TookOverAt(w, ips, hops, i) <==> TookOverAt(w, ips, hops[..n], i) {
      assert hops[..n][..i] == hops[..i];
    }
  }

  /** The hops mark pf stale exactly when one of them took an address over. */
  lemma {:induction false} HopsStale(w: World, rule: nat, ips: seq<Ip>, hops: seq<Hop>)
    requires Hops(w, rule, ips, hops)
    ensures End(w, hops).stale <==> w.stale || TookOver(w, ips, hops)
    decreases |hops|
  {
    if hops != [] {
      var n := |hops| - 1;
      var h := hops[n];
      HopsStale(w, rule, ips, hops[..n]);
      TookOverNext(w, ips, hops);
      HopStale(End(w, hops[..n]), ips[n], rule, h.now, h.routed, h.after);
    }
  }

  /** An answer of a rule in force keeps the cache sound exactly when pf was
      marked stale before it, or it took an address over, or its loop was not
      stopped, or nothing before the stop was new to the rule's table. */
  lemma AnswerKeepsSoundIff(w: World, rule: nat, ips: seq<Ip>, hops: seq<Hop>, pfOk: bool, w': World)
    requires Sound(w) && w.core.Active(rule) && Answer(w, rule, ips, hops, pfOk, w')
    ensures Sound(w') <==> w.stale || TookOver(w, ips, hops) || !Stopped(hops) || NewOf(ips, hops) == {}
  {
    HopsOwe(w, rule, ips, hops);
    HopsStale(w, rule, ips, hops);
    var owing := NewOf(ips, hops);
    if !Stopped(hops) {
      PfAddSettles(End(w, hops), rule, owing, pfOk, w');
    } else if !w'.stale && owing != {} {
      var ip :| ip in owing;
      assert TablesBut(w', rule, owing);
      assert ip in HostsOf(w'.core, rule);
      assert w.pf.tables.hosts[rule] == HostsOf(w.core, rule);
    }
  }

  lemma HopsGrow(w: World, rule: nat, ips: seq<Ip>, hops: seq<Hop>, h: Hop)
    requires Hops(w, rule, ips, hops) && !Stopped(hops) && |hops| < |ips|
    requires RouteHost(End(w, hops), ips[|hops|], rule, h.now, h.routed, h.after)
    ensures Hops(w, rule, ips, hops + [h]) && End(w, hops + [h]) == h.after
    ensures NewOf(ips, hops + [h]) == NewOf(ips, hops) + if h.routed == New then {ips[|hops|]} else {}
  {
    assert (hops + [h])[..|hops|] == hops;
    NewOfLast(ips, hops + [h]);
  }

  /** The kernel grants a routing of the address now. */
  predicate Grants(w: World, ip: Ip, rule: nat) {
    w.core.TargetOf(rule).Some?
    && EndOf(w.refuses, w.calls, Some(w.core.TargetOf(rule).value.index), Host(ip) in w.table).Done?
  }

  lemma FreshHop(w: World, ip: Ip, rule: nat, now: nat) returns (h: Hop)
    requires !w.core.stopped && ip !in w.core.hosts && Grants(w, ip, rule)
    ensures h.now == now && h.routed == New && RouteHost(w, ip, rule, now, New, h.after)
    ensures h.after.stale == w.stale && !h.after.core.stopped && h.after.core.TargetOf(rule) == w.core.TargetOf(rule)
    ensures h.after.core.hosts.Keys == w.core.hosts.Keys + {ip} && h.after.table.Keys == w.table.Keys + {Host(ip)}
    ensures h.after.refuses == w.refuses && h.after.pfFails == w.pfFails && h.after.pfCalls == w.pfCalls
    ensures h.after.calls == w.calls + if Host(ip) in w.table then 3 else 1
  {
    var t := w.core.TargetOf(rule).value;
    h := Hop(now, New, w.(
      core := w.core.(hosts := w.core.hosts[ip := HostRun(rule, now, Some(t.placed))]),
      table := w.table[Host(ip) := Route(t.index, true)],
      calls := w.calls + Messages(w.refuses, w.calls, Some(t.index), Host(ip) in w.table),
      doubt := if Host(ip) in w.core.subnets then w.doubt + {Host(ip)} else w.doubt - {Host(ip)}));
    assert h.after.core.TargetOf(rule) == Some(t);
  }

  lemma RefusedHop(w: World, ip: Ip, rule: nat, now: nat) returns (h: Hop)
    requires !w.core.stopped && ip !in w.core.hosts && w.core.TargetOf(rule).Some? && Denied(w.refuses, w.calls)
    ensures h.now == now && h.routed.Refused? && RouteHost(w, ip, rule, now, h.routed, h.after)
    ensures h.after.stale == w.stale
  {
    h := Hop(now, Refused(Some(AddRefused)), w.(calls := w.calls + 1));
  }

  lemma TwoHops(w: World, rule: nat, a: Ip, b: Ip, now: nat) returns (hops: seq<Hop>)
    requires !w.core.stopped && Grants(w, a, rule) && a != b && a !in w.core.hosts && b !in w.core.hosts
    requires Denied(w.refuses, w.calls + if Host(a) in w.table then 3 else 1)
    ensures RouteAll(w, rule, [a, b], hops) && Stopped(hops) && NewOf([a, b], hops) == {a}
    ensures |hops| == 2 && hops[0].routed == New && hops[1].routed.Refused?
    ensures End(w, hops).stale == w.stale
  {
    var first := FreshHop(w, a, rule, now);
    var second := RefusedHop(first.after, b, rule, now);
    HopsGrow(w, rule, [a, b], [], first);
    HopsGrow(w, rule, [a, b], [] + [first], second);
    hops := [] + [first] + [second];
  }

  lemma NoneTakenOver(w: World, a: Ip, b: Ip, hops: seq<Hop>)
    requires a !in w.core.hosts && |hops| == 2 && hops[1].routed.Refused?
    ensures !TookOver(w, [a, b], hops)
  {
    assert hops[..0] == [];
  }

  /** The failing family: two new addresses, the first granted and the second
      refused. The first is booked and routed, yet pf lacks it and nothing marks pf
      stale. */
  lemma RefusedAnswerLosesAddress(w: World, rule: nat, a: Ip, b: Ip, now: nat) returns (hops: seq<Hop>, w': World)
    requires Sound(w) && !w.stale && w.core.Active(rule) && !w.core.stopped && Grants(w, a, rule)
    requires a != b && a !in w.core.hosts && b !in w.core.hosts
    requires Denied(w.refuses, w.calls + if Host(a) in w.table then 3 else 1)
    ensures Answer(w, rule, [a, b], hops, true, w') && NewOf([a, b], hops) == {a} && !w'.stale
    ensures !Sound(w')
  {
    hops := TwoHops(w, rule, a, b, now);
    w' := End(w, hops);
    NoneTakenOver(w, a, b, hops);
    AnswerKeepsSoundIff(w, rule, [a, b], hops, true, w');
  }

  // Runs

  datatype Event = Step(a: Action) | Answering(rule: nat, ips: seq<Ip>, hops: seq<Hop>, pfOk: bool)

  /** A host is routed and pf told of it only within an answer. */
  ghost predicate Happens(w: World, e: Event, w': World) {
    match e
    case Step(a) => !a.RoutingHost? && !a.AddingToPf? && Next(w, a, w')
    case Answering(rule, ips, hops, pfOk) => w.core.Active(rule) && Answer(w, rule, ips, hops, pfOk, w')
  }

  /** Not an answer stopped on the way with something already new, pf not stale. */
  predicate Lossless(w: World, e: Event) {
    e.Answering? && |e.hops| <= |e.ips| && Stopped(e.hops) ==>
      w.stale || TookOver(w, e.ips, e.hops) || NewOf(e.ips, e.hops) == {}
  }

  lemma HostsAfterPlacing(w: World, ends: map<Subnet, Ending>, w': World)
    requires PlaceHosts(w, ends, w') && !w'.stale
    ensures forall i: nat :: HostsOf(w'.core, i) == HostsOf(w.core, i)
  {
    forall i: nat ensures HostsOf(w'.core, i) == HostsOf(w.core, i) {
      forall ip | ip in w.core.hosts ensures ip in w'.core.hosts && w'.core.hosts[ip].rule == w.core.hosts[ip].rule {
        assert HostPlaced(w.core, ip, w.core.hosts[ip], At(w.table, Host(ip)), At(ends, Host(ip)),
                          At(w'.core.hosts, ip), At(w'.table, Host(ip)));
      }
    }
  }

  lemma ReconcileHosts(w: World, r: Reconciled, w': World)
    requires Reconcile(w, r, w') && !w.core.stopped
    ensures SameRules(w.core, w'.core) && w'.nets == w.nets && w'.pf == w.pf && w'.last == w.last && (w.stale ==> w'.stale)
    ensures !w'.stale ==> forall i: nat :: HostsOf(w'.core, i) == HostsOf(w.core, i)
  {
    var p, m := PickTunnels(w, r.now), r.afterHosts;
    assert m.stale == w'.stale && m.core.hosts == w'.core.hosts && p.core.hosts == w.core.hosts;
    if !w'.stale {
      HostsAfterPlacing(p, r.hostEnds, m);
      forall i: nat ensures HostsOf(w'.core, i) == HostsOf(w.core, i) {
        assert HostsOf(m.core, i) == HostsOf(p.core, i);
      }
    }
  }

  lemma ReconcileKeepsSound(w: World, r: Reconciled, w': World)
    requires Sound(w) && Reconcile(w, r, w')
    ensures Sound(w')
  {
    if !w.core.stopped {
      ReconcileHosts(w, r, w');
      SoundStays(w, w', 0, {}, {});
    }
  }

  lemma ExpireKeepsSound(w: World, now: nat, window: nat, ends: map<Subnet, Ending>, ok: bool, w': World)
    requires Sound(w) && Expire(w, now, window, ends, ok, w')
    ensures Sound(w')
  {
    SameNets(w, w');
    var gone := Old(w.core, now, window);
    if !w'.stale {
      forall i | 0 <= i < |w.core.rules| && w.core.rules[i].active
        ensures i in w'.pf.tables.hosts && w'.pf.tables.hosts[i] == HostsOf(w'.core, i)
      {
        assert At(w'.pf.tables.hosts, i) == WithoutOld(w.pf.tables, w.core, gone, i);
        assert HostsOf(w'.core, i) == HostsOf(w.core, i) - OfRule(w.core, gone, i);
      }
    }
  }

  lemma CountryKeepsSound(w: World, here: string)
    requires Sound(w)
    ensures Sound(SetCountry(w, here))
  {
  }

  lemma SyncKeepsSound(w: World, ok: bool, w': World)
    requires Sound(w) && SyncPf(w, ok, w')
    ensures Sound(w')
  {
  }

  /** Steps that leave hosts, rules, lists and pf alone. */
  lemma OthersKeepSound(w: World, w': World)
    requires Sound(w) && w'.nets == w.nets && w'.pf == w.pf && w'.last == w.last && w'.stale == w.stale
    requires w'.core.rules == w.core.rules
    requires w'.core.hosts == w.core.hosts || w'.core.hosts == Unplaced(w.core.hosts)
    ensures Sound(w')
  {
    forall i: nat ensures HostsOf(w'.core, i) == HostsOf(w.core, i) {
    }
    SoundStays(w, w', 0, {}, {});
  }

  lemma StepKeepsSound(w: World, a: Action, w': World)
    requires Sound(w) && !a.RoutingHost? && !a.AddingToPf? && Next(w, a, w')
    ensures Sound(w')
  {
    if a.Reconciling? {
      ReconcileKeepsSound(w, a.how, w');
    } else if a.Expiring? {
      ExpireKeepsSound(w, a.now, a.window, a.ends, a.ok, w');
    } else if a.SyncingPf? {
      SyncKeepsSound(w, a.ok, w');
    } else if a.SettingCountry? {
      CountryKeepsSound(w, a.here);
    } else if !a.SettingLists? && !a.LoadingHosts? {
      OthersKeepSound(w, w');
    }
  }

  ghost predicate HappensAt(ws: seq<World>, events: seq<Event>, i: nat) {
    i < |events| < |ws| && Happens(ws[i], events[i], ws[i + 1])
  }

  ghost predicate Life(ws: seq<World>, events: seq<Event>) {
    |ws| == |events| + 1 && Started(ws[0])
    && forall i {:trigger HappensAt(ws, events, i)} :: 0 <= i < |events| ==> HappensAt(ws, events, i)
  }

  /** Over every run without such an answer, pf is as a reload of its last shape
      would leave it whenever nothing is stale. */
  lemma {:induction false} CacheHolds(ws: seq<World>, events: seq<Event>, i: nat)
    requires Life(ws, events) && i < |ws|
    requires forall k {:trigger events[k]} :: 0 <= k < i ==> Lossless(ws[k], events[k])
    ensures Sound(ws[i])
    decreases i
  {
    if i > 0 {
      CacheHolds(ws, events, i - 1);
      assert HappensAt(ws, events, i - 1);
      var e := events[i - 1];
      match e
      case Step(a) => StepKeepsSound(ws[i - 1], a, ws[i]);
      case Answering(rule, ips, hops, pfOk) => AnswerKeepsSoundIff(ws[i - 1], rule, ips, hops, pfOk, ws[i]);
    }
  }

  /** With a sound cache, a sync that returns Ok leaves pf as a full reload
      would, whether it reloaded or not. */
  lemma SyncIsReload(w: World, w': World)
    requires Sound(w) && SyncPf(w, true, w')
    ensures !w'.stale && PfHolds(w', ShapeOf(w'.core, w'.network)) && w'.core == w.core
  {
  }
}
