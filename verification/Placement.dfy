/** Which hosts and subnets a step keeps, takes in or lets go, and where their
    routes go, told by rules, links, lists, numbers and times alone. */
module Placement {
  import opened Wrappers
  import opened Subnets
  import opened TunnelChoice
  import opened Routes
  import opened ResolverCore
  import opened Steps
  import opened Books
  import opened Exactness

  /** The route stands on the interface of link `l` as it is told now, unless that
      interface has gone and taken it along. */
  predicate StandsAt(w: World, k: Subnet, l: nat)
    requires l < |w.core.links| && w.core.links[l].iface.Some?
  {
    At(w.table, k) == Some(Route(w.core.links[l].iface.value.index, true))
    || (Placed(l, w.core.links[l].generation) in w.gone && At(w.table, k).None?)
  }

  // Subnets

  /** The subnets that are to have a route, and where. */
  lemma WantedMeans(c: Core, nets: NetLists, s: Subnet, rule: nat, l: nat)
    requires AtLink(c, rule, l)
    ensures Wanted(c, nets, s) == Some((rule, Target(Placed(l, c.links[l].generation), c.links[l].iface.value.index))) <==>
            FirstToList(c, nets, s, rule) && !ServerInside(c, s) && (c.useFakeip ==> c.links[l].health in {Up, Suspect, Degraded})
  {
    NetOwnerMeans(c, nets, s, rule);
    ServersMean(c, s);
  }

  lemma WantedNowhere(c: Core, nets: NetLists, s: Subnet, rule: nat)
    requires FirstToList(c, nets, s, rule)
    requires ServerInside(c, s) || (forall l: nat :: AtLink(c, rule, l) ==> c.useFakeip && c.links[l].health == Down)
    ensures Wanted(c, nets, s).None?
  {
    NetOwnerMeans(c, nets, s, rule);
    ServersMean(c, s);
    if c.TargetOf(rule).Some? {
      assert AtLink(c, rule, c.rules[rule].current.value);
    }
  }

  /** A destination that is no host's, and that nothing went wrong with. */
  ghost predicate Fair(w: World, r: Reconciled, w': World, s: Subnet) {
    Inv(w) && Reconcile(w, r, w') && !w.core.stopped
    && !Orphan(w, s) && GrantedAt(r, s) && s !in w'.doubt && !IsHost(w'.core, s)
  }

  lemma UnwantedStandsNowhere(w: World, r: Reconciled, w': World, s: Subnet)
    requires Fair(w, r, w', s) && Wanted(w'.core, w'.nets, s).None?
    ensures !Mine(At(w'.table, s))
  {
    ReconcileIsExact(w, r, w', s);
  }

  /** Where a reconcile leaves a listed subnet. With a server inside it has no
      route. Else it is on the interface of the link that the first rule in force
      to list it is at - with fake addresses only while that link is not Down -
      and with no such link it has no route. */
  lemma SubnetGoes(w: World, r: Reconciled, w': World, s: Subnet, rule: nat)
    requires Fair(w, r, w', s) && FirstToList(w'.core, w'.nets, s, rule)
    ensures var c := w'.core;
      forall l: nat :: AtLink(c, rule, l) && !ServerInside(c, s) && (!c.useFakeip || c.links[l].health in {Up, Suspect, Degraded})
                       ==> StandsAt(w', s, l)
    ensures ServerInside(w'.core, s) ==> !Mine(At(w'.table, s))
    ensures (forall l: nat :: AtLink(w'.core, rule, l) ==> w'.core.useFakeip && w'.core.links[l].health == Down)
            ==> !Mine(At(w'.table, s))
  {
    var c := w'.core;
    if ServerInside(c, s) || forall l: nat :: AtLink(c, rule, l) ==> c.useFakeip && c.links[l].health == Down {
      WantedNowhere(c, w'.nets, s, rule);
      UnwantedStandsNowhere(w, r, w', s);
    }
    forall l: nat | AtLink(c, rule, l) && !ServerInside(c, s) && (!c.useFakeip || c.links[l].health in {Up, Suspect, Degraded})
      ensures StandsAt(w', s, l)
    {
      WantedMeans(c, w'.nets, s, rule, l);
      ReconcileIsExact(w, r, w', s);
    }
  }

  /** What no rule in force lists, or meets the fake range, has no route. */
  lemma UnlistedGoesNowhere(w: World, r: Reconciled, w': World, s: Subnet)
    requires Fair(w, r, w', s) && forall rule: nat :: !FirstToList(w'.core, w'.nets, s, rule)
    ensures !Mine(At(w'.table, s))
  {
    var o := w'.core.NetOwner(w'.nets, s);
    if o.Some? {
      NetOwnerMeans(w'.core, w'.nets, s, o.value);
    }
    UnwantedStandsNowhere(w, r, w', s);
  }

  // Hosts

  /** The addresses that may have a route, by what they are and by the links. */
  predicate MayRoute(c: Core, ip: Ip) {
    !(ip < 0x0100_0000 || 0x0A00_0000 <= ip < 0x0B00_0000 || 0x6440_0000 <= ip < 0x6480_0000
      || 0x7F00_0000 <= ip < 0x8000_0000 || 0xA9FE_0000 <= ip < 0xA9FF_0000 || 0xAC10_0000 <= ip < 0xAC20_0000
      || 0xC0A8_0000 <= ip < 0xC0A9_0000 || 0xC612_0000 <= ip < 0xC614_0000 || 0xE000_0000 <= ip)
    && forall l :: 0 <= l < |c.links| ==> c.links[l].endpoint != Some(ip)
  }

  lemma RoutableMeans(c: Core, ip: Ip)
    ensures Routable(ip, c.Endpoints()) <==> MayRoute(c, ip)
  {
    SpecialMeans(ip);
  }

  lemma PlacingKeeps(w: World, ends: map<Subnet, Ending>, m: World, ip: Ip)
    requires PlaceHosts(w, ends, m)
    ensures ip in m.core.hosts <==> ip in w.core.hosts && Keep(w.core, ip, w.core.hosts[ip])
    ensures ip in m.core.hosts ==> m.core.hosts[ip].rule == w.core.hosts[ip].rule && m.core.hosts[ip].last == w.core.hosts[ip].last
  {
    if ip in w.core.hosts {
      assert HostPlaced(w.core, ip, w.core.hosts[ip], At(w.table, Host(ip)), At(ends, Host(ip)), At(m.core.hosts, ip), At(m.table, Host(ip)));
    }
  }

  /** The hosts a reconcile keeps, whatever is refused: those of rules in force that
      are neither special nor a current tunnel server, as they were. */
  lemma HostsKept(w: World, r: Reconciled, w': World, ip: Ip)
    requires Reconcile(w, r, w') && !w.core.stopped
    ensures ip in w'.core.hosts <==>
            ip in w.core.hosts && w.core.hosts[ip].rule < |w.core.rules| && w.core.rules[w.core.hosts[ip].rule].active
            && MayRoute(w.core, ip)
    ensures ip in w'.core.hosts ==> w'.core.hosts[ip].rule == w.core.hosts[ip].rule && w'.core.hosts[ip].last == w.core.hosts[ip].last
  {
    var p := PickTunnels(w, r.now);
    PlacingKeeps(p, r.hostEnds, r.afterHosts, ip);
    RoutableMeans(w.core, ip);
    assert p.core.Endpoints() == w.core.Endpoints();
  }

  /** And where it leaves them: on the interface of the link their rule is at. */
  lemma HostGoes(w: World, r: Reconciled, w': World, ip: Ip, l: nat)
    requires Inv(w) && Reconcile(w, r, w') && !w.core.stopped && GrantedAt(r, Host(ip)) && Host(ip) !in w'.doubt
    requires ip in w'.core.hosts && AtLink(w'.core, w'.core.hosts[ip].rule, l)
    ensures StandsAt(w', Host(ip), l)
  {
    TargetMeans(w'.core, w'.core.hosts[ip].rule, Target(Placed(l, w'.core.links[l].generation), w'.core.links[l].iface.value.index));
    HostIsExact(w, r, w', ip);
  }

  /** One `route_host`, by who holds the address: an earlier rule that carries keeps
      it; without a link for its rule it is refused; else, not refused by the
      kernel, it is the rule's, renewed now, on that link's interface. */
  lemma RoutingMeans(w: World, ip: Ip, rule: nat, now: nat, r: Routed, w': World)
    requires RouteHost(w, ip, rule, now, r, w') && !w.core.stopped
    ensures if ip in w.core.hosts && w.core.hosts[ip].rule < rule && w.core.Carries(w.core.hosts[ip].rule) then
              r == NotNew && w'.core.hosts == w.core.hosts[ip := w.core.hosts[ip].(last := now)] && w'.table == w.table
            else if forall l: nat :: !AtLink(w.core, rule, l) then r == Refused(None) && w' == w
            else if r.Refused? then w'.core == w.core && exists n: nat :: w.calls <= n < w'.calls && Denied(w.refuses, n)
            else
              (r == New <==> ip !in w.core.hosts || w.core.hosts[ip].rule != rule)
              && forall l: nat :: AtLink(w.core, rule, l) ==>
                w'.core.hosts == w.core.hosts[ip := HostRun(rule, now, Some(Placed(l, w.core.links[l].generation)))]
                && w'.table == w.table[Host(ip) := Route(w.core.links[l].iface.value.index, true)]
  {
    if w.core.TargetOf(rule).Some? {
      assert AtLink(w.core, rule, w.core.rules[rule].current.value);
      if r.Refused? && !(StaysWithEarlier(w.core, ip, rule)) {
        SomeDenied(w.refuses, w.calls, w.core.TargetOf(rule).value.index, Host(ip) in w.table);
      }
    }
  }

  lemma SomeDenied(refuses: Refusals, n: nat, index: nat, there: bool)
    requires !EndOf(refuses, n, Some(index), there).Done?
    ensures exists m: nat :: n <= m < n + Messages(refuses, n, Some(index), there) && Denied(refuses, m)
  {
    assert Denied(refuses, n) || Denied(refuses, n + 1) || Denied(refuses, n + 2);
  }

  /** `remove_all` takes every route and no host: who they are of and when they last
      answered is known still. */
  lemma HostsOutlastStop(w: World, ends: map<Subnet, Ending>, w': World, ip: Ip)
    requires RemoveAll(w, ends, w')
    ensures w'.core.stopped && w'.core.subnets == map[]
    ensures At(w'.core.hosts, ip) == if ip in w.core.hosts then Some(HostRun(w.core.hosts[ip].rule, w.core.hosts[ip].last, None)) else None
  {
  }

  /** Nothing is routed any more once stopped. */
  lemma RoutingStops(w: World, ip: Ip, rule: nat, now: nat, r: Routed, w': World)
    requires RouteHost(w, ip, rule, now, r, w') && w.core.stopped
    ensures r == Refused(None) && w' == w
  {
  }

  /** `expire` lets go exactly the hosts whose last answer is more than the window
      ago; one from the future stays. */
  lemma ExpiredExactly(w: World, now: nat, window: nat, ends: map<Subnet, Ending>, ok: bool, w': World, ip: Ip)
    requires Expire(w, now, window, ends, ok, w')
    ensures ip in w'.core.hosts <==> ip in w.core.hosts && now - w.core.hosts[ip].last <= window
    ensures ip in w'.core.hosts ==> w'.core.hosts[ip] == w.core.hosts[ip]
  {
  }

  /** The first line that has the address and a rule there is, if any. */
  predicate FirstSaved(saved: seq<Saved>, rules: nat, i: nat, ip: Ip) {
    i < |saved| && saved[i].ip == ip && saved[i].rule < rules
    && forall j :: 0 <= j < i ==> saved[j].ip != ip || saved[j].rule >= rules
  }

  /** `load_hosts` keeps what is known and takes in the first line of each other
      address, unrouted, as it was saved. */
  lemma {:induction false} LoadedExactly(hosts: map<Ip, HostRun>, rules: nat, saved: seq<Saved>, ip: Ip)
    ensures var r := Loaded(hosts, rules, saved);
      if ip in hosts then At(r, ip) == Some(hosts[ip])
      else
        (ip in r <==> exists i: nat :: FirstSaved(saved, rules, i, ip))
        && forall i: nat :: FirstSaved(saved, rules, i, ip) ==> At(r, ip) == Some(HostRun(saved[i].rule, saved[i].last, None))
    decreases |saved|
  {
    if saved != [] {
      var n := |saved| - 1;
      var was := saved[..n];
      LoadedExactly(hosts, rules, was, ip);
      forall i: nat ensures FirstSaved(saved, rules, i, ip) <==>
        FirstSaved(was, rules, i, ip) || (i == n && saved[n].ip == ip && saved[n].rule < rules && forall j: nat :: !FirstSaved(was, rules, j, ip))
      {
        SavedNext(saved, rules, i, ip);
      }
      if j: nat :| FirstSaved(was, rules, j, ip) {
        assert FirstSaved(saved, rules, j, ip);
      } else if saved[n].ip == ip && saved[n].rule < rules {
        assert FirstSaved(saved, rules, n, ip);
      }
    }
  }

  lemma SavedNext(saved: seq<Saved>, rules: nat, i: nat, ip: Ip)
    requires saved != []
    ensures var n := |saved| - 1;
      FirstSaved(saved, rules, i, ip) <==>
      FirstSaved(saved[..n], rules, i, ip)
      || (i == n && saved[n].ip == ip && saved[n].rule < rules && forall j: nat :: !FirstSaved(saved[..n], rules, j, ip))
  {
    var n := |saved| - 1;
    if i == n && exists j :: 0 <= j < n && saved[j].ip == ip && saved[j].rule < rules {
      var j := LeastSaved(saved[..n], rules, ip);
      assert saved[..n][j] == saved[j];
    }
    forall j | 0 <= j < n ensures saved[..n][j] == saved[j] {
    }
  }

  lemma {:induction false} LeastSaved(saved: seq<Saved>, rules: nat, ip: Ip) returns (i: nat)
    requires exists j :: 0 <= j < |saved| && saved[j].ip == ip && saved[j].rule < rules
    ensures FirstSaved(saved, rules, i, ip)
    decreases |saved|
  {
    var j :| 0 <= j < |saved| && saved[j].ip == ip && saved[j].rule < rules;
    if exists k :: 0 <= k < j && saved[..j][k].ip == ip && saved[..j][k].rule < rules {
      i := LeastSaved(saved[..j], rules, ip);
    } else {
      i := j;
      forall k | 0 <= k < j ensures saved[k].ip != ip || saved[k].rule >= rules {
        assert saved[..j][k] == saved[k];
      }
    }
  }

  /** A country puts in force the rules for it, those not for another country ruled
      out, and those for any. */
  lemma CountryDecides(w: World, here: string, i: nat)
    requires i < |w.core.rules|
    ensures var now := SetCountry(w, here).core.rules[i];
      match w.core.rules[i].when
      case Always => now.active
      case In(country) => now.active <==> here == country
      case Out(country) => now.active <==> here != country
  {
  }
}
