/** The resolver as the program has it: fields behind a lock, updated in place
    by the methods of src/resolver.rs. Each method is proved to take the step of
    the same name, so what holds of steps and runs holds of it. */
module ResolverClass {
  import opened Wrappers
  import opened Subnets
  import opened TunnelChoice
  import opened Routes
  import opened ResolverCore
  import opened Steps
  import Books
  import opened Cache
  import Answers
  import DomainLists
  import Placement
  import Pf

  datatype QType = A | Aaaa | Https | Svcb | OtherType {
    /** What these carry would go past the routes. */
    predicate Refused() {
      Aaaa? || Https? || Svcb?
    }
  }

  datatype Query = NotAQuery | NotOneQuestion | Question(name: string, qtype: QType)

  /** The bytes of an upstream's answer: whether they parse, and the addresses. */
  datatype Bytes = Bytes(parses: bool, ips: seq<Ip>) {
    predicate HasFake() {
      parses && exists ip :: ip in ips && FAKEIP.Contains(ip)
    }
  }

  datatype Code = NoError | ServFail | NXDomain

  datatype Response = Dropped | Reply(code: Code) | FromNetwork(bytes: Bytes) | FromTunnel(bytes: Bytes)

  /** The event is an answer of `rule`, gone through or refused on the way. */
  ghost predicate AnswerOf(w: World, rule: nat, e: Event, w': World) {
    e.Answering? && e.rule == rule && Cache.Answer(w, rule, e.ips, e.hops, e.pfOk, w')
  }

  /** No address refused, and pf told. */
  predicate WentThrough(e: Event) {
    e.Answering? && !Stopped(e.hops) && e.pfOk
  }

  /** Rule `i` is in force and one of its lists covers the name. */
  ghost predicate Asked(c: Core, suffixes: map<string, seq<string>>, name: string, i: nat) {
    i < |c.rules| && c.rules[i].active && exists l :: l in c.rules[i].lists && DomainLists.Covers(suffixes, l, name)
  }

  /** The first such rule that carries. */
  ghost predicate FirstCarrying(c: Core, suffixes: map<string, seq<string>>, name: string, rule: nat) {
    Asked(c, suffixes, name, rule) && CarriesNow(c, rule)
    && forall j: nat :: j < rule ==> !(Asked(c, suffixes, name, j) && CarriesNow(c, j))
  }

  /** The router answered with an address of 198.18.0.0/15. */
  predicate Faked(net: Option<Bytes>) {
    net.Some? && net.value.parses && exists ip :: ip in net.value.ips && 0xC612_0000 <= ip < 0xC614_0000
  }

  /** The answer of a rule: what its tunnel said, once every address of it that may
      be routed is routed and told to pf. */
  ghost predicate Answered(w: World, rule: nat, tun: Option<Bytes>, r: Response, e: Option<Event>, w': World) {
    if tun.None? || !tun.value.parses then r == Reply(ServFail) && e.None? && w' == w
    else
      e.Some? && AnswerOf(w, rule, e.value, w') && e.value.ips == RoutableOf(tun.value.ips, w.core.Endpoints())
      && r == if WentThrough(e.value) then FromTunnel(tun.value) else Reply(ServFail)
  }

  /** What comes of a query for a listed name, by the rule picked for it. */
  ghost predicate PickedSo(w: World, pick: Choice, net: Option<Bytes>, tun: Option<Bytes>, r: Response, e: Option<Event>, w': World) {
    if !(pick.always && pick.via.Some?) && w.core.useFakeip && Faked(net) then r == FromNetwork(net.value) && e.None? && w' == w
    else if pick.via.None? then r == Reply(ServFail) && e.None? && w' == w
    else Answered(w, pick.rule, tun, r, e, w')
  }

  /** The same by the name, the rules and the links. */
  ghost predicate ListedSo(w: World, suffixes: map<string, seq<string>>, name: string, net: Option<Bytes>, tun: Option<Bytes>,
                           r: Response, e: Option<Event>, w': World)
  {
    (forall i: nat :: FirstCarrying(w.core, suffixes, name, i) ==>
       if !w.core.rules[i].when.Always? && w.core.useFakeip && Faked(net) then r == FromNetwork(net.value) && e.None?
       else Answered(w, i, tun, r, e, w'))
    && ((forall i: nat :: Asked(w.core, suffixes, name, i) ==> !CarriesNow(w.core, i)) ==>
       r == (if w.core.useFakeip && Faked(net) then FromNetwork(net.value) else Reply(ServFail)) && e.None?)
  }

  const FIREFOX_CANARY := "use-application-dns.net"

  /** What setting one subnet's route leaves. */
  predicate NetSet(want: (nat, Target), e: Option<Route>, end: Option<Ending>, rec: Option<NetRun>, e': Option<Route>) {
    Sent(e, Some(want.1.index), end, e') && rec == if end.value.Done? then Some(NetRun(want.0, want.1.placed)) else None
  }

  /** One of the first `upto` rules has this name and is now in force, or out of it,
      as it was not. */
  predicate Turned(was: seq<RuleRun>, now: seq<RuleRun>, upto: nat, name: string, active: bool) {
    exists i :: 0 <= i < |was| && i < |now| && i < upto && now[i].name == name && now[i].active == active && was[i].active != active
  }

  /** The routes that were there and are deleted. */
  function TakenAway(dsts: set<Subnet>, t: Table, ends: map<Subnet, Ending>): set<Subnet> {
    set k | k in dsts && k in t && At(ends, k) == Some(Done)
  }

  class Resolver {
    var core: Core
    var nets: NetLists
    var suffixes: map<string, seq<string>>
    /** `Sound` says what holds while this is false. */
    var stale: bool
    /** The shape of the last load that went through, with none failed since. */
    var last: Option<Pf.Shape>
    var network: Option<(string, Ip)>
    const routes: RouteSocket
    const pf: Pf.Control
    ghost var indexOf: map<Placed, nat>
    ghost var gone: set<Placed>
    ghost var doubt: set<Subnet>

    constructor (lists: DomainLists.Catalog, rules: seq<RuleRun>, links: nat, routes: RouteSocket, pf: Pf.Control)
      requires forall i :: 0 <= i < |rules| ==> rules[i].current.None? && !rules[i].active
      requires forall i, t :: 0 <= i < |rules| && t in rules[i].tunnels ==> t < links
      requires forall k :: k in routes.table ==> !routes.table[k].mine
      ensures Books.Started(State())
      ensures fresh(this) && this.routes == routes && this.pf == pf
      ensures core == Core(seq(links, i => UNKNOWN), rules, map[], map[], false, false, false)
      ensures nets == lists.subnets && suffixes == lists.suffixes && stale && last.None? && indexOf == map[] && gone == {} && doubt == {}
    {
      core := Core(seq(links, i => UNKNOWN), rules, map[], map[], false, false, false);
      nets, suffixes := lists.subnets, lists.suffixes;
      stale, last, network := true, None, None;
      this.routes, this.pf := routes, pf;
      indexOf, gone, doubt := map[], {}, {};
    }

    ghost function State(): World
      reads this, routes, pf
    {
      World(core, nets, routes.table, routes.calls, PfState(pf.anchor, pf.tables), stale, last, network,
            indexOf, gone, doubt, routes.refuses, pf.calls, pf.fails)
    }

    method SetOwner(on: bool)
      modifies this`core
      ensures State() == old(State()).(core := old(core).(owner := on))
    {
      core := core.(owner := on);
    }

    method SetUseFakeip(on: bool)
      modifies this`core
      ensures State() == old(State()).(core := old(core).(useFakeip := on))
    {
      core := core.(useFakeip := on);
    }

    /** Read by the shape only: no route depends on it. */
    method SetNetwork(n: Option<(string, Ip)>)
      modifies this`network
      ensures State() == old(State()).(network := n)
    {
      network := n;
    }

    method SetLists(lists: DomainLists.Catalog)
      modifies this`nets, this`suffixes, this`stale
      ensures State() == Steps.SetLists(old(State()), lists.subnets) && suffixes == lists.suffixes
    {
      nets, suffixes := lists.subnets, lists.suffixes;
      stale := true;
    }

    method SetLink(l: nat, s: LinkState)
      modifies this`core, this`indexOf, this`doubt
      ensures State() == Steps.SetLink(old(State()), l, s)
    {
      if l < |core.links| {
        if !Publishable(State(), l, s) {
          doubt := doubt + BookedAt(core, Placed(l, s.generation));
        }
        core := core.(links := core.links[l := s]);
        if s.iface.Some? {
          indexOf := indexOf[Placed(l, s.generation) := s.iface.value.index];
        }
      }
    }

    lemma TurnedNext(was: seq<RuleRun>, before: seq<RuleRun>, rules: seq<RuleRun>, i: nat, n: string, a: bool)
      requires |was| == |before| == |rules| && i < |rules| && forall j :: 0 <= j < i ==> rules[j] == before[j]
      ensures Turned(was, rules, i + 1, n, a) <==>
              Turned(was, before, i, n, a) || (rules[i].name == n && rules[i].active == a && was[i].active != a)
    {
    }

    /** The names of the rules that came into force or went out of it. */
    method SetCountry(here: string) returns (changed: seq<(string, bool)>)
      modifies this`core, this`stale
      ensures State() == Steps.SetCountry(old(State()), here)
      ensures forall n, a :: (n, a) in changed <==> Turned(old(core.rules), core.rules, |core.rules|, n, a)
    {
      var was := core.rules;
      var rules := was;
      changed := [];
      for i := 0 to |rules|
        invariant |rules| == |was|
        invariant forall j :: 0 <= j < |rules| ==>
          rules[j] == if j < i then was[j].(active := was[j].when.Holds(here)) else was[j]
        invariant changed == [] <==> rules == was
        invariant forall n, a :: (n, a) in changed <==> Turned(was, rules, i, n, a)
      {
        ghost var before, told := rules, changed;
        var active := rules[i].when.Holds(here);
        if active != rules[i].active {
          assert rules[i].active == was[i].active;
          rules := rules[i := rules[i].(active := active)];
          changed := changed + [(rules[i].name, active)];
        }
        forall n, a ensures (n, a) in changed <==> Turned(was, rules, i + 1, n, a) {
          TurnedNext(was, before, rules, i, n, a);
          assert (n, a) in told <==> Turned(was, before, i, n, a);
        }
      }
      core := core.(rules := rules);
      assert rules == InCountry(was, here);
      if changed != [] {
        stale := true;
      }
    }

    /** Hosts of the state file, not routed yet. */
    method LoadHosts(saved: seq<Saved>)
      modifies this`core, this`stale
      ensures State() == Steps.LoadHosts(old(State()), saved)
    {
      var hosts := core.hosts;
      for i := 0 to |saved|
        invariant hosts == Loaded(core.hosts, |core.rules|, saved[..i])
      {
        var s := saved[i];
        assert saved[..i + 1][..i] == saved[..i];
        if s.rule < |core.rules| && s.ip !in hosts {
          hosts := hosts[s.ip := HostRun(s.rule, s.last, None)];
        }
      }
      assert saved[..|saved|] == saved;
      core := core.(hosts := hosts);
      stale := true;
    }

    /** What the caller is told, and in `r` what the step was, down to the message
        refused, if one was. */
    method RouteHost(ip: Ip, rule: nat, now: nat) returns (newHere: Result<bool, Errno>, ghost r: Routed)
      modifies this`core, this`stale, this`doubt, routes
      ensures Steps.RouteHost(old(State()), ip, rule, now, r, State())
      ensures (newHere.Err? <==> r.Refused?) && (newHere.Ok? ==> newHere.value == r.New?)
    {
      if core.stopped {
        return Err(Other), Refused(None);
      }
      var prior := At(core.hosts, ip);
      if prior.Some? && prior.value.rule < rule && core.Carries(prior.value.rule) {
        core := core.(hosts := core.hosts[ip := prior.value.(last := now)]);
        return Ok(false), NotNew;
      }
      var target := core.TargetOf(rule);
      if target.None? {
        return Err(Other), Refused(None);
      }
      newHere, r := Attempt(ip, rule, target.value, now);
    }

    /** The route asked for, and booked if it is made. */
    method Attempt(ip: Ip, rule: nat, target: Target, now: nat) returns (newHere: Result<bool, Errno>, ghost r: Routed)
      modifies this`core, this`stale, this`doubt, routes
      ensures Attempted(old(State()), ip, rule, now, target, r, State())
      ensures (newHere.Err? <==> r.Refused?) && (newHere.Ok? ==> newHere.value == r.New?)
    {
      ghost var w := State();
      var prior := At(core.hosts, ip);
      var outcome, end := routes.Set(Host(ip), target.index);
      if outcome.Err? {
        if end.AddAgainRefused? {
          doubt := doubt + {Host(ip)};
          assert State() == w.(table := w.table - {Host(ip)}, calls := routes.calls, doubt := w.doubt + {Host(ip)});
        } else {
          assert State() == w.(calls := routes.calls);
        }
        return Err(outcome.error), Refused(Some(end));
      }
      doubt := if Host(ip) in core.subnets then doubt + {Host(ip)} else doubt - {Host(ip)};
      core := core.(hosts := core.hosts[ip := HostRun(rule, now, Some(target.placed))]);
      newHere := Ok(prior.None? || prior.value.rule != rule);
      if prior.Some? && newHere.value {
        stale := true;
      }
      r := if newHere.value then New else NotNew;
      assert stale == (w.stale || (ip in w.core.hosts && w.core.hosts[ip].rule != rule));
      assert State() == HostRouted(w, ip, rule, now, target, routes.calls);
    }

    method PickTunnels(now: nat)
      modifies this`core
      ensures State() == Steps.PickTunnels(old(State()), now)
    {
      var was := core.rules;
      var rules := was;
      for i := 0 to |rules|
        invariant |rules| == |was|
        invariant forall j :: 0 <= j < |rules| ==> rules[j] == if j < i then PickedRules(core, now)[j] else was[j]
      {
        var r := rules[i];
        var current := if r.active then Pick(r.tunnels, core.links, r.current, now) else None;
        if current != r.current {
          rules := rules[i := r.(current := current)];
        }
      }
      assert rules == PickedRules(core, now);
      core := core.(rules := rules);
    }

    /** One host kept on, moved to, or dropped from its rule's tunnel. */
    method PlaceHost(c: Core, ip: Ip, h: HostRun) returns (h': Option<HostRun>, ghost end: Option<Ending>)
      modifies routes
      ensures HostPlaced(c, ip, h, At(old(routes.table), Host(ip)), end, h', At(routes.table, Host(ip)))
      ensures end.Some? && ip in c.hosts && c.hosts[ip] == h ==>
        Told(routes.refuses, old(routes.calls), routes.calls, At(old(routes.table), Host(ip)), HostIndex(c, Host(ip)), end.value)
      ensures routes.calls >= old(routes.calls)
      ensures OnlyAt(Host(ip), old(routes.table), routes.table)
      ensures end.None? ==> routes.calls == old(routes.calls)
    {
      if !Keep(c, ip, h) {
        if h.placed.Some? {
          var _, e := routes.Delete(Host(ip));
          ToldNow(routes.refuses, old(routes.calls), routes.calls, At(old(routes.table), Host(ip)), None, e);
          return None, Some(e);
        }
        return None, None;
      }
      var t := c.TargetOf(h.rule);
      if t.Some? && h.placed != Some(t.value.placed) {
        var r, e := routes.Set(Host(ip), t.value.index);
        ToldNow(routes.refuses, old(routes.calls), routes.calls, At(old(routes.table), Host(ip)), Some(t.value.index), e);
        return Some(if r.Ok? then h.(placed := Some(t.value.placed)) else h), Some(e);
      }
      return Some(h), None;
    }

    /** The interfaces the hosts are to have. */
    ghost function HostIndexes(c: Core): (to: map<Subnet, nat>)
      ensures forall k :: At(to, k) == HostIndex(c, k)
    {
      var dsts := set ip | ip in c.hosts :: Host(ip);
      assert forall k :: IsHost(c, k) ==> k == Host(k.addr);
      map k | k in dsts && HostIndex(c, k).Some? :: HostIndex(c, k).value
    }

    /** Every host in turn, in whatever order; the hosts that stay. */
    method PlaceEach(c: Core) returns (hosts: map<Ip, HostRun>, ghost ends: map<Subnet, Ending>)
      modifies routes
      ensures hosts.Keys <= c.hosts.Keys
      ensures AllPlaced(c, c.hosts.Keys, old(routes.table), ends, hosts, routes.table)
      ensures AllTold(routes.refuses, old(routes.calls), routes.calls, old(routes.table), HostIndexes(c), ends)
      ensures ends == map[] ==> routes.calls == old(routes.calls)
    {
      hosts := c.hosts;
      ghost var t0, n0 := routes.table, routes.calls;
      var todo := c.hosts.Keys;
      ends := map[];
      while todo != {}
        invariant todo <= c.hosts.Keys && hosts.Keys <= c.hosts.Keys
        invariant AllPlaced(c, c.hosts.Keys - todo, t0, ends, hosts, routes.table)
        invariant n0 <= routes.calls
        invariant AllTold(routes.refuses, n0, routes.calls, t0, HostIndexes(c), ends)
        invariant ends == map[] ==> routes.calls == old(routes.calls)
        decreases |todo|
      {
        var ip :| ip in todo;
        assert c.hosts.Keys - todo + {ip} == c.hosts.Keys - (todo - {ip});
        ghost var done := c.hosts.Keys - todo;
        todo := todo - {ip};
        ghost var t1, n1, ends1, hosts1 := routes.table, routes.calls, ends, hosts;
        NotYet(c, done, t0, ends, hosts, t1, ip);
        var h, end := PlaceHost(c, ip, hosts[ip]);
        hosts := if h.Some? then hosts[ip := h.value] else hosts - {ip};
        if end.Some? {
          ToldOneMore(routes.refuses, n0, n1, routes.calls, t0, HostIndexes(c), ends, Host(ip), end.value);
          ends := ends[Host(ip) := end.value];
          assert Host(ip) in ends;
        }
        OneMorePlaced(c, done, t0, ends1, hosts1, t1, ip, end, ends, h, hosts, routes.table);
      }
      assert c.hosts.Keys - todo == c.hosts.Keys;
    }

    /** The hosts of `done` are placed, the others as they were. */
    ghost predicate AllPlaced(c: Core, done: set<Ip>, t0: Table, ends: map<Subnet, Ending>, hosts: map<Ip, HostRun>, t: Table) {
      (forall ip :: ip in c.hosts ==>
         if ip in done then HostPlaced(c, ip, c.hosts[ip], At(t0, Host(ip)), At(ends, Host(ip)), At(hosts, ip), At(t, Host(ip)))
         else At(hosts, ip) == Some(c.hosts[ip]) && At(t, Host(ip)) == At(t0, Host(ip)) && Host(ip) !in ends)
      && forall k :: !IsHost(c, k) ==> k !in ends && At(t, k) == At(t0, k)
    }

    lemma NotYet(c: Core, done: set<Ip>, t0: Table, ends: map<Subnet, Ending>, hosts: map<Ip, HostRun>, t: Table, ip: Ip)
      requires AllPlaced(c, done, t0, ends, hosts, t) && ip in c.hosts && ip !in done
      ensures At(hosts, ip) == Some(c.hosts[ip]) && At(t, Host(ip)) == At(t0, Host(ip)) && Host(ip) !in ends
    {
    }

    lemma OneMorePlaced(c: Core, done: set<Ip>, t0: Table, ends: map<Subnet, Ending>, hosts: map<Ip, HostRun>, t: Table, ip: Ip,
                        end: Option<Ending>, ends': map<Subnet, Ending>, h: Option<HostRun>, hosts': map<Ip, HostRun>, t': Table)
      requires AllPlaced(c, done, t0, ends, hosts, t) && ip in c.hosts && ip !in done && OnlyAt(Host(ip), t, t')
      requires HostPlaced(c, ip, c.hosts[ip], At(t, Host(ip)), end, h, At(t', Host(ip)))
      requires ends' == if end.Some? then ends[Host(ip) := end.value] else ends
      requires hosts' == if h.Some? then hosts[ip := h.value] else hosts - {ip}
      ensures AllPlaced(c, done + {ip}, t0, ends', hosts', t')
    {
      NotYet(c, done, t0, ends, hosts, t, ip);
      forall o | o in c.hosts
        ensures if o in done + {ip} then
                  HostPlaced(c, o, c.hosts[o], At(t0, Host(o)), At(ends', Host(o)), At(hosts', o), At(t', Host(o)))
                else At(hosts', o) == Some(c.hosts[o]) && At(t', Host(o)) == At(t0, Host(o)) && Host(o) !in ends'
      {
        OtherStays(ends, hosts, t, ip, end, ends', h, hosts', t', o);
      }
      forall k | !IsHost(c, k) ensures k !in ends' && At(t', k) == At(t0, k) {
        assert At(t', k) == At(t, k);
      }
    }

    lemma OtherStays(ends: map<Subnet, Ending>, hosts: map<Ip, HostRun>, t: Table, ip: Ip, end: Option<Ending>,
                     ends': map<Subnet, Ending>, h: Option<HostRun>, hosts': map<Ip, HostRun>, t': Table, o: Ip)
      requires OnlyAt(Host(ip), t, t')
      requires ends' == if end.Some? then ends[Host(ip) := end.value] else ends
      requires hosts' == if h.Some? then hosts[ip := h.value] else hosts - {ip}
      ensures o != ip ==> At(ends', Host(o)) == At(ends, Host(o)) && At(hosts', o) == At(hosts, o) && At(t', Host(o)) == At(t, Host(o))
      ensures Host(ip) !in ends ==> At(ends', Host(ip)) == end
      ensures At(hosts', ip) == h
    {
      assert o != ip ==> At(t', Host(o)) == At(t, Host(o));
    }

    /** Hosts moved and dropped by the rules as they are now; pf is behind when
        any was dropped. */
    method PlaceHosts() returns (ghost ends: map<Subnet, Ending>)
      modifies this`core, this`stale, this`doubt, routes
      ensures Steps.PlaceHosts(old(State()), ends, State())
    {
      var c := core;
      var hosts;
      hosts, ends := PlaceEach(c);
      core := core.(hosts := hosts);
      if hosts.Keys != c.hosts.Keys {
        stale := true;
      }
      doubt := doubt - EndedBy(ends, Done) + EndedBy(ends, AddAgainRefused) + SharedNow(c);
    }

    /** Subnets out of their place. */
    function OutOfPlace(c: Core, want: map<Subnet, (nat, Target)>): set<Subnet> {
      set s | s in c.subnets && !InPlace(Some(c.subnets[s]), At(want, s))
    }

    lemma KeptInPlace(c: Core, want: map<Subnet, (nat, Target)>)
      ensures var kept := c.subnets - OutOfPlace(c, want);
        forall s :: At(kept, s) == if InPlace(At(c.subnets, s), At(want, s)) then At(c.subnets, s) else None
      ensures OutOfPlace(c, want) - want.Keys == c.subnets.Keys - want.Keys
    {
    }

    /** The subnets of `out`, out of the books; the routes of those that have no
        place any more, taken away. */
    method DropNets(was: map<Subnet, NetRun>, out: set<Subnet>, want: set<Subnet>)
      returns (subnets: map<Subnet, NetRun>, ghost ends: map<Subnet, Ending>)
      modifies routes
      ensures subnets == was - out
      ensures Deleted(out - want, old(routes.table), ends, routes.table)
      ensures AllTold(routes.refuses, old(routes.calls), routes.calls, old(routes.table), map[], ends)
      ensures routes.calls >= old(routes.calls) && (ends == map[] ==> routes.calls == old(routes.calls))
    {
      subnets := was;
      var todo := out;
      ghost var t0, n0 := routes.table, routes.calls;
      ghost var dropped: set<Subnet> := {};
      ends := map[];
      while todo != {}
        invariant todo <= out && subnets == was - (out - todo)
        invariant dropped == out - todo - want && Deleted(dropped, t0, ends, routes.table)
        invariant n0 <= routes.calls && AllTold(routes.refuses, n0, routes.calls, t0, map[], ends)
        invariant ends == map[] ==> routes.calls == old(routes.calls)
        decreases |todo|
      {
        var s :| s in todo;
        OneLess(was, out, todo, want, s);
        todo := todo - {s};
        subnets := subnets - {s};
        if s !in want {
          ends := DropRoute(s, dropped, t0, n0, ends);
          dropped := dropped + {s};
        }
      }
      assert out - todo == out;
    }

    lemma OneLess(was: map<Subnet, NetRun>, out: set<Subnet>, todo: set<Subnet>, want: set<Subnet>, s: Subnet)
      requires s in todo && todo <= out
      ensures was - (out - todo) - {s} == was - (out - (todo - {s}))
      ensures out - (todo - {s}) - want == (out - todo - want) + if s in want then {} else {s}
    {
      assert out - todo + {s} == out - (todo - {s});
    }

    /** One route deleted, whatever comes of it. */
    method DropRoute(s: Subnet, ghost dropped: set<Subnet>, ghost t0: Table, ghost n0: nat, ghost ends0: map<Subnet, Ending>)
      returns (ghost ends: map<Subnet, Ending>)
      requires Deleted(dropped, t0, ends0, routes.table) && s !in dropped
      requires n0 <= routes.calls && AllTold(routes.refuses, n0, routes.calls, t0, map[], ends0)
      modifies routes
      ensures Deleted(dropped + {s}, t0, ends, routes.table) && ends != map[]
      ensures n0 <= routes.calls && AllTold(routes.refuses, n0, routes.calls, t0, map[], ends)
    {
      ghost var t1, n1 := routes.table, routes.calls;
      var _, end := routes.Delete(s);
      ends := ends0[s := end];
      assert s in ends;
      DeletedOneMore(dropped, t0, ends0, t1, s, ends, routes.table);
      ToldNow(routes.refuses, n1, routes.calls, At(t0, s), None, end);
      ToldOneMore(routes.refuses, n0, n1, routes.calls, t0, map[], ends0, s, end);
    }

    /** The interfaces the subnets are to have. */
    ghost function Indexes(want: map<Subnet, (nat, Target)>): map<Subnet, nat> {
      map s | s in want :: want[s].1.index
    }

    /** The routes of wanted subnets that are not in the books, set. */
    method SetNets(want: map<Subnet, (nat, Target)>, kept: map<Subnet, NetRun>, ghost to: map<Subnet, nat>)
      returns (subnets: map<Subnet, NetRun>, ghost ends: map<Subnet, Ending>)
      requires forall s :: s in want ==> At(to, s) == Some(want[s].1.index)
      modifies routes
      ensures AllSet(want, kept, want.Keys, old(routes.table), ends, subnets, routes.table)
      ensures AllTold(routes.refuses, old(routes.calls), routes.calls, old(routes.table), to, ends)
      ensures routes.calls >= old(routes.calls) && (ends == map[] ==> routes.calls == old(routes.calls))
    {
      subnets, ends := kept, map[];
      var todo := want.Keys;
      ghost var t0, n0 := routes.table, routes.calls;
      while todo != {}
        invariant todo <= want.Keys && AllSet(want, kept, want.Keys - todo, t0, ends, subnets, routes.table)
        invariant n0 <= routes.calls
        invariant AllTold(routes.refuses, n0, routes.calls, t0, to, ends)
        invariant ends == map[] ==> routes.calls == old(routes.calls)
        decreases |todo|
      {
        var s :| s in todo;
        assert want.Keys - todo + {s} == want.Keys - (todo - {s});
        ghost var done := want.Keys - todo;
        todo := todo - {s};
        SetIn(want, kept, done, t0, ends, subnets, routes.table, s);
        if s in subnets {
          continue;
        }
        ghost var t1, ends1, subnets1 := routes.table, ends, subnets;
        var rec;
        rec, ends := SetNet(s, want[s], t0, n0, to, ends);
        if rec.Some? {
          subnets := subnets[s := rec.value];
        }
        OneMoreSet(want, kept, done, t0, ends1, subnets1, t1, s, ends, rec, subnets, routes.table);
      }
      assert want.Keys - todo == want.Keys;
    }

    /** The routes of `done` are set, as far as they are not in the books. */
    ghost predicate AllSet(want: map<Subnet, (nat, Target)>, kept: map<Subnet, NetRun>, done: set<Subnet>,
                           t0: Table, ends: map<Subnet, Ending>, subnets: map<Subnet, NetRun>, t: Table)
    {
      forall s :: if s in want && s !in kept && s in done
        then NetSet(want[s], At(t0, s), At(ends, s), At(subnets, s), At(t, s))
        else s !in ends && At(subnets, s) == At(kept, s) && At(t, s) == At(t0, s)
    }

    lemma SetIn(want: map<Subnet, (nat, Target)>, kept: map<Subnet, NetRun>, done: set<Subnet>,
                t0: Table, ends: map<Subnet, Ending>, subnets: map<Subnet, NetRun>, t: Table, s: Subnet)
      requires AllSet(want, kept, done, t0, ends, subnets, t) && s !in done
      ensures s in subnets <==> s in kept
      ensures s in kept ==> AllSet(want, kept, done + {s}, t0, ends, subnets, t)
      ensures s !in ends && At(t, s) == At(t0, s)
    {
    }

    lemma OneMoreSet(want: map<Subnet, (nat, Target)>, kept: map<Subnet, NetRun>, done: set<Subnet>,
                     t0: Table, ends: map<Subnet, Ending>, subnets: map<Subnet, NetRun>, t: Table, s: Subnet,
                     ends': map<Subnet, Ending>, rec: Option<NetRun>, subnets': map<Subnet, NetRun>, t': Table)
      requires AllSet(want, kept, done, t0, ends, subnets, t) && s in want && s !in kept && s !in done
      requires s in ends' && ends' == ends[s := ends'[s]] && OnlyAt(s, t, t')
      requires NetSet(want[s], At(t, s), Some(ends'[s]), rec, At(t', s))
      requires subnets' == if rec.Some? then subnets[s := rec.value] else subnets
      ensures AllSet(want, kept, done + {s}, t0, ends', subnets', t')
    {
      forall o
        ensures if o in want && o !in kept && o in done + {s}
          then NetSet(want[o], At(t0, o), At(ends', o), At(subnets', o), At(t', o))
          else o !in ends' && At(subnets', o) == At(kept, o) && At(t', o) == At(t0, o)
      {
        assert o != s ==> At(subnets', o) == At(subnets, o) && At(t', o) == At(t, o) && At(ends', o) == At(ends, o);
      }
    }

    /** The route of one subnet, set; its place in the books, if it was. */
    method SetNet(s: Subnet, want: (nat, Target), ghost t0: Table, ghost n0: nat, ghost to: map<Subnet, nat>, ghost ends0: map<Subnet, Ending>)
      returns (rec: Option<NetRun>, ghost ends: map<Subnet, Ending>)
      requires At(routes.table, s) == At(t0, s) && At(to, s) == Some(want.1.index)
      requires n0 <= routes.calls && AllTold(routes.refuses, n0, routes.calls, t0, to, ends0)
      modifies routes
      ensures s in ends && ends == ends0[s := ends[s]]
      ensures NetSet(want, At(old(routes.table), s), Some(ends[s]), rec, At(routes.table, s)) && OnlyAt(s, old(routes.table), routes.table)
      ensures n0 <= routes.calls && AllTold(routes.refuses, n0, routes.calls, t0, to, ends)
    {
      ghost var n1 := routes.calls;
      var r, end := routes.Set(s, want.1.index);
      ToldNow(routes.refuses, n1, routes.calls, At(t0, s), Some(want.1.index), end);
      ToldOneMore(routes.refuses, n0, n1, routes.calls, t0, to, ends0, s, end);
      ends := ends0[s := end];
      rec := if r.Ok? then Some(NetRun(want.0, want.1.placed)) else None;
    }

    /** Every subnet that is to have a route, and where. */
    method WantedNets(c: Core) returns (want: map<Subnet, (nat, Target)>)
      ensures forall s :: At(want, s) == Wanted(c, nets, s)
    {
      var owners := c.SubnetOwners(nets);
      want := map s | s in owners && Wanted(c, nets, s).Some? :: Wanted(c, nets, s).value;
      forall s ensures At(want, s) == Wanted(c, nets, s) {
        assert At(owners, s) == c.NetOwner(nets, s);
      }
    }

    /** Every subnet dropped, set or left; the books after it. */
    method MoveNets(c: Core, want: map<Subnet, (nat, Target)>) returns (subnets: map<Subnet, NetRun>, ghost ends: map<Subnet, Ending>)
      modifies routes
      ensures forall s :: NetPlaced(At(want, s), At(c.subnets, s), At(old(routes.table), s), At(ends, s), At(subnets, s), At(routes.table, s))
      ensures AllTold(routes.refuses, old(routes.calls), routes.calls, old(routes.table), Indexes(want), ends)
      ensures ends == map[] ==> routes.calls == old(routes.calls)
    {
      ghost var t0, n0 := routes.table, routes.calls;
      var kept, dropEnds := DropNets(c.subnets, OutOfPlace(c, want), want.Keys);
      KeptInPlace(c, want);
      ghost var t1, n1 := routes.table, routes.calls;
      ghost var setEnds;
      subnets, setEnds := SetNets(want, kept, Indexes(want));
      ends := dropEnds + setEnds;
      assert ends == map[] ==> dropEnds == map[] && setEnds == map[];
      ToldInTwoSteps(routes.refuses, n0, n1, routes.calls, t0, t1, Indexes(want), dropEnds, setEnds);
      forall s
        ensures NetPlaced(At(want, s), At(c.subnets, s), At(t0, s), At(ends, s), At(subnets, s), At(routes.table, s))
      {
        NetInTwoSteps(At(want, s), At(c.subnets, s), At(t0, s), At(dropEnds, s), At(t1, s), At(kept, s), At(setEnds, s),
                      At(subnets, s), At(routes.table, s));
      }
    }

    lemma ToldInTwoSteps(refuses: Refusals, n0: nat, n1: nat, n2: nat, t0: Table, t1: Table, to: map<Subnet, nat>,
                         dropEnds: map<Subnet, Ending>, setEnds: map<Subnet, Ending>)
      requires n0 <= n1 <= n2 && AllTold(refuses, n0, n1, t0, map[], dropEnds) && AllTold(refuses, n1, n2, t1, to, setEnds)
      requires forall s :: s in setEnds ==> At(t1, s) == At(t0, s)
      requires forall s :: s in dropEnds && s !in setEnds ==> s !in to
      ensures AllTold(refuses, n0, n2, t0, to, dropEnds + setEnds)
    {
      var ends, none: map<Subnet, nat> := dropEnds + setEnds, map[];
      forall s | s in ends ensures Told(refuses, n0, n2, At(t0, s), At(to, s), ends[s]) {
        if s in setEnds {
          assert At(t1, s) == At(t0, s);
          ToldInside(refuses, n1, n2, At(t0, s), At(to, s), setEnds[s], n0, n2);
        } else {
          assert At(none, s) == None;
          ToldInside(refuses, n0, n1, At(t0, s), None, dropEnds[s], n0, n2);
        }
      }
    }

    /** Subnets placed by the rules, links and lists as they are now. */
    method PlaceSubnets() returns (ghost ends: map<Subnet, Ending>)
      modifies this`core, this`doubt, routes
      ensures Steps.PlaceSubnets(old(State()), ends, State())
    {
      var c := core;
      var want := WantedNets(c);
      var subnets;
      ghost var w := State();
      subnets, ends := MoveNets(c, want);
      forall s ensures At(Indexes(want), s) == NetIndex(w, s) {
        assert At(want, s) == Wanted(c, nets, s);
      }
      core := core.(subnets := subnets);
      doubt := doubt - EndedBy(ends, Done) + SharedSoon(c, nets);
    }

    /** A subnet dropped from the books and then set, or neither, is placed. */
    lemma NetInTwoSteps(want: Option<(nat, Target)>, rec: Option<NetRun>, e0: Option<Route>, dropped: Option<Ending>, e1: Option<Route>,
                        kept: Option<NetRun>, put: Option<Ending>, rec': Option<NetRun>, e2: Option<Route>)
      requires kept == if InPlace(rec, want) then rec else None
      requires if rec.Some? && want.None? then Sent(e0, None, dropped, e1) else dropped.None? && e1 == e0
      requires kept.Some? || want.None? ==> put.None? && rec' == kept && e2 == e1
      requires want.Some? && kept.None? ==> NetSet(want.value, e1, put, rec', e2)
      ensures NetPlaced(want, rec, e0, if put.Some? then put else dropped, rec', e2)
    {
    }

    /** Nothing once stopped; else the three parts in turn, each seeing what the
        one before it left. */
    method Reconcile(now: nat) returns (ghost how: Reconciled)
      modifies this`core, this`stale, this`doubt, routes
      ensures how.now == now && Steps.Reconcile(old(State()), how, State())
    {
      if core.stopped {
        how := Reconciled(now, State(), map[], map[]);
        return;
      }
      PickTunnels(now);
      ghost var hostEnds := PlaceHosts();
      ghost var between := State();
      ghost var netEnds := PlaceSubnets();
      how := Reconciled(now, between, hostEnds, netEnds);
    }

    lemma DeletedOneMore(dsts: set<Subnet>, t0: Table, ends: map<Subnet, Ending>, t1: Table, k: Subnet, ends': map<Subnet, Ending>, t2: Table)
      requires Deleted(dsts, t0, ends, t1) && k !in dsts && OnlyAt(k, t1, t2)
      requires k in ends' && ends' == ends[k := ends'[k]] && Sent(At(t1, k), None, Some(ends'[k]), At(t2, k))
      ensures Deleted(dsts + {k}, t0, ends', t2)
    {
      forall o ensures if o in dsts + {k} then Sent(At(t0, o), None, At(ends', o), At(t2, o)) else o !in ends' && At(t2, o) == At(t0, o) {
        assert o != k ==> At(ends', o) == At(ends, o) && At(t2, o) == At(t1, o);
      }
    }

    lemma OneMoreTaken(dsts: set<Subnet>, t: Table, ends: map<Subnet, Ending>, k: Subnet, end: Ending)
      requires k !in dsts
      ensures |TakenAway(dsts + {k}, t, ends[k := end])| == |TakenAway(dsts, t, ends)| + if k in t && end.Done? then 1 else 0
    {
      assert TakenAway(dsts + {k}, t, ends[k := end]) == TakenAway(dsts, t, ends) + if k in t && end.Done? then {k} else {};
    }

    /** Deletes the routes to `dsts`; how many there were. */
    method DeleteAll(dsts: set<Subnet>) returns (n: nat, ghost ends: map<Subnet, Ending>)
      modifies routes
      ensures Deleted(dsts, old(routes.table), ends, routes.table)
      ensures AllTold(routes.refuses, old(routes.calls), routes.calls, old(routes.table), map[], ends)
      ensures ends == map[] ==> routes.calls == old(routes.calls)
      ensures n == |TakenAway(dsts, old(routes.table), ends)|
    {
      n, ends := 0, map[];
      var todo := dsts;
      ghost var t0, n0 := routes.table, routes.calls;
      while todo != {}
        invariant todo <= dsts
        invariant Deleted(dsts - todo, t0, ends, routes.table)
        invariant n0 <= routes.calls && AllTold(routes.refuses, n0, routes.calls, t0, map[], ends)
        invariant ends == map[] ==> routes.calls == old(routes.calls)
        invariant n == |TakenAway(dsts - todo, t0, ends)|
        decreases |todo|
      {
        var k :| k in todo;
        ghost var t1, n1, ends1 := routes.table, routes.calls, ends;
        var there, end := routes.Delete(k);
        ends := ends[k := end];
        ToldNow(routes.refuses, n1, routes.calls, At(t0, k), None, end);
        ToldOneMore(routes.refuses, n0, n1, routes.calls, t0, map[], ends1, k, end);
        DeletedOneMore(dsts - todo, t0, ends1, t1, k, ends, routes.table);
        assert dsts - todo + {k} == dsts - (todo - {k});
        OneMoreTaken(dsts - todo, t0, ends1, k, end);
        todo := todo - {k};
        if there.Ok? && there.value {
          n := n + 1;
        }
      }
      assert dsts - todo == dsts;
    }

    /** The books are emptied before the first delete is sent, so no refusal of one
        leaves its destination booked. */
    method RemoveAll() returns (n: nat, ghost ends: map<Subnet, Ending>)
      modifies this`core, routes
      ensures Steps.RemoveAll(old(State()), ends, State())
      ensures n == |TakenAway(Booked(old(core)), old(routes.table), ends)|
    {
      var c := core;
      core := c.(stopped := true, hosts := Unplaced(c.hosts), subnets := map[]);
      n, ends := DeleteAll(Booked(c));
    }

    /** Takes the addresses of `gone` out of the tables of their rules. */
    method ForgetInPf(c: Core, gone: set<Ip>) returns (ok: bool)
      requires gone <= c.hosts.Keys
      modifies pf
      ensures old(pf.calls) <= pf.calls && (ok <==> NoneDenied(pf.fails, old(pf.calls), pf.calls))
      ensures ok ==> pf.anchor == old(pf.anchor) && pf.tables.nets == old(pf.tables.nets)
      ensures ok ==> forall r: nat :: At(pf.tables.hosts, r) == WithoutOld(old(pf.tables), c, gone, r)
    {
      var rules := set ip | ip in gone :: c.hosts[ip].rule;
      var todo := rules;
      ghost var t0 := pf.tables;
      ok := true;
      forall r: nat | r !in rules ensures OfRule(c, gone, r) == {} {
      }
      while todo != {}
        invariant todo <= rules
        invariant old(pf.calls) <= pf.calls && (ok <==> NoneDenied(pf.fails, old(pf.calls), pf.calls))
        invariant ok ==> pf.anchor == old(pf.anchor) && pf.tables.nets == t0.nets
        invariant ok ==> forall r: nat :: At(pf.tables.hosts, r) == if r in todo then At(t0.hosts, r) else WithoutOld(t0, c, gone, r)
        decreases |todo|
      {
        var r :| r in todo;
        todo := todo - {r};
        var ip :| ip in gone && c.hosts[ip].rule == r;
        assert ip in OfRule(c, gone, r);
        ghost var t1 := pf.tables;
        assert ok ==> At(t1.hosts, r) == At(t0.hosts, r);
        var deleted := pf.Delete(r, OfRule(c, gone, r));
        ok := ok && deleted;
      }
    }

    /** The hosts not answered within `window` leave the books, then the kernel,
        then the tables of their rules. */
    method Expire(now: nat, window: nat) returns (n: nat, ghost ends: map<Subnet, Ending>, ghost pfOk: bool)
      modifies this`core, this`stale, this`doubt, routes, pf
      ensures Steps.Expire(old(State()), now, window, ends, pfOk, State())
      ensures n == |Old(old(core), now, window)|
    {
      var c := core;
      var gone := Old(c, now, window);
      core := c.(hosts := c.hosts - gone);
      doubt := doubt + set ip | ip in gone && Host(ip) in c.subnets :: Host(ip);
      n := |gone|;
      var _, e := DeleteAll(RoutedAmong(c, gone));
      ends := e;
      var ok := ForgetInPf(c, gone);
      pfOk := ok;
      if !ok {
        stale := true;
      }
    }

    /** One pass over hosts and subnets gives each rule's sets as the step relation
        names them. */
    method Tables() returns (hosts: seq<set<Ip>>, netSets: seq<set<Subnet>>)
      ensures |hosts| == |netSets| == |core.rules|
      ensures forall i :: 0 <= i < |core.rules| ==> hosts[i] == HostsOf(core, i) && netSets[i] == NetsOf(core, nets, i)
    {
      var c := core;
      var owners := c.SubnetOwners(nets);
      hosts := seq(|c.rules|, i requires 0 <= i < |c.rules| => set ip | ip in c.hosts && c.hosts[ip].rule == i);
      netSets := seq(|c.rules|, i requires 0 <= i < |c.rules| => set s | s in owners && owners[s] == i);
      forall i | 0 <= i < |c.rules| ensures netSets[i] == NetsOf(c, nets, i) {
        forall s ensures s in netSets[i] <==> s in NetsOf(c, nets, i) {
          assert At(owners, s) == c.NetOwner(nets, s);
          if c.NetOwner(nets, s).Some? {
            var l :| l in ListsOf(nets, s);
          }
        }
      }
    }

    /** A skip is allowed to leave pf as it is only because `Sound` says what that
        is; the mark is cleared before the load and set again if it fails. */
    method SyncPf() returns (ok: bool)
      modifies this`stale, this`last, pf
      ensures Steps.SyncPf(old(State()), ok, State())
    {
      var shape := ShapeOf(core, network);
      var wasStale := stale;
      stale := false;
      if !wasStale && last == Some(shape) {
        return true;
      }
      var hosts, netSets := Tables();
      ok := pf.Load(shape, hosts, netSets);
      if ok {
        last := Some(shape);
        forall i | 0 <= i < |core.rules| && core.rules[i].active
          ensures At(pf.tables.hosts, i) == Some(HostsOf(core, i)) && At(pf.tables.nets, i) == Some(NetsOf(core, nets, i))
        {
          assert shape.InForce(i);
        }
      } else {
        stale := true;
        last := None;
      }
    }

    /** One address more routed, or refused. */
    method AnswerOne(ghost was: World, rule: nat, ghost all: seq<Ip>, ghost had: seq<Hop>, ip: Ip, known: set<Ip>, now: nat)
      returns (ok: bool, ghost hops: seq<Hop>, added: set<Ip>)
      requires Hops(was, rule, all, had) && !Stopped(had) && End(was, had) == State()
      requires |had| < |all| && all[|had|] == ip && known == NewOf(all, had)
      modifies this`core, this`stale, this`doubt, routes
      ensures Hops(was, rule, all, hops) && End(was, hops) == State() && |hops| == |had| + 1
      ensures (ok <==> !Stopped(hops)) && (ok ==> added == NewOf(all, hops))
    {
      var newHere, r := RouteHost(ip, rule, now);
      HopsGrow(was, rule, all, had, Hop(now, r, State()));
      hops := had + [Hop(now, r, State())];
      ok := newHere.Ok?;
      added := if ok && newHere.value then known + {ip} else known;
    }

    /** `listed` from its answer on: each routable address routed, then the new
        ones told to pf. False: refused, not handed out. */
    method Answer(rule: nat, ips: seq<Ip>, now: nat) returns (ok: bool, ghost hops: seq<Hop>, ghost pfOk: bool)
      modifies this`core, this`stale, this`doubt, routes, pf
      ensures Cache.Answer(old(State()), rule, RoutableOf(ips, old(core).Endpoints()), hops, pfOk, State())
      ensures ok <==> !Stopped(hops) && pfOk
    {
      ghost var was := State();
      var endpoints := core.Endpoints();
      ghost var all := RoutableOf(ips, endpoints);
      var added: set<Ip> := {};
      hops, pfOk := [], true;
      for i := 0 to |ips|
        invariant Hops(was, rule, all, hops) && !Stopped(hops) && End(was, hops) == State()
        invariant |hops| == |RoutableOf(ips[..i], endpoints)| && RoutableOf(ips[..i], endpoints) <= all
        invariant added == NewOf(all, hops)
      {
        RoutableNext(ips, i, endpoints);
        if !Routable(ips[i], endpoints) {
          continue;
        }
        ok, hops, added := AnswerOne(was, rule, all, hops, ips[i], added, now);
        if !ok {
          return;
        }
      }
      assert ips[..|ips|] == ips;
      ok := pf.Add(rule, added);
      pfOk := ok;
      if !ok {
        stale := true;
      }
    }

    method Forward(net: Option<Bytes>) returns (r: Response)
      ensures r == if net.Some? then FromNetwork(net.value) else Reply(ServFail)
    {
      r := if net.Some? then FromNetwork(net.value) else Reply(ServFail);
    }

    /** The lists that have a name. */
    function ListsOfName(name: string): set<string>
      reads this`suffixes
    {
      set l | l in DomainLists.Matched(suffixes, DomainLists.Parents(DomainLists.Normalize(name)))
    }

    /** A listed name, by the rule chosen for it: a fake address of the router
        where that goes first, else what the rule's tunnel says, else refused. */
    method Listed(pick: Choice, now: nat, net: Option<Bytes>, tun: Option<Bytes>) returns (r: Response, ghost e: Option<Event>)
      modifies this`core, this`stale, this`doubt, routes, pf
      ensures PickedSo(old(State()), pick, net, tun, r, e, State())
    {
      e := None;
      if !(pick.always && pick.via.Some?) && core.useFakeip {
        HasFakeMeans(net);
        if net.Some? && net.value.HasFake() {
          return FromNetwork(net.value), e;
        }
      }
      if pick.via.None? || tun.None? || !tun.value.parses {
        return Reply(ServFail), e;
      }
      ghost var ips := RoutableOf(tun.value.ips, core.Endpoints());
      var ok;
      ghost var hops, pfOk;
      ok, hops, pfOk := Answer(pick.rule, tun.value.ips, now);
      e := Some(Answering(pick.rule, ips, hops, pfOk));
      r := if ok then FromTunnel(tun.value) else Reply(ServFail);
    }

    lemma FoundIsAsked(c: Core, name: string)
      ensures forall i: nat :: c.Takes(i, ListsOfName(name)) <==> Asked(c, suffixes, DomainLists.Normalize(name), i)
    {
      forall l ensures l in ListsOfName(name) <==> DomainLists.Covers(suffixes, l, DomainLists.Normalize(name)) {
        DomainLists.FoundExactly(suffixes, name, l);
      }
    }

    /** `handle`, given what the router says when asked, and what the tunnel of the
        rule says. Which it is of all that can come of a query depends on the name,
        the rules and links, and these two alone. */
    method Handle(q: Query, now: nat, net: Option<Bytes>, tun: Option<Bytes>) returns (r: Response, ghost e: Option<Event>)
      modifies this`core, this`stale, this`doubt, routes, pf
      ensures e.None? ==> State() == old(State())
      ensures e.Some? ==> e.value.Answering? && Happens(old(State()), e.value, State())
      ensures q.NotAQuery? ==> r == Dropped && e.None?
      ensures q.NotOneQuestion? ==> r == (if net.Some? then FromNetwork(net.value) else Reply(ServFail)) && e.None?
      ensures q.Question? ==>
        var name, c := DomainLists.Normalize(q.name), old(core);
        if name == "use-application-dns.net" then r == Reply(NXDomain) && e.None?
        else if forall i: nat :: !Asked(c, suffixes, name, i) then
          r == (if net.Some? then FromNetwork(net.value) else Reply(ServFail)) && e.None?
        else if q.qtype.Aaaa? || q.qtype.Https? || q.qtype.Svcb? then r == Reply(NoError) && e.None?
        else ListedSo(old(State()), suffixes, name, net, tun, r, e, State())
    {
      e := None;
      if q.NotAQuery? {
        return Dropped, e;
      }
      if q.NotOneQuestion? {
        r := Forward(net);
        return;
      }
      if DomainLists.Normalize(q.name) == FIREFOX_CANARY {
        return Reply(NXDomain), e;
      }
      var c := core;
      var pick := c.Choose(ListsOfName(q.name));
      FoundIsAsked(c, q.name);
      if pick.None? {
        r := Forward(net);
        return;
      }
      assert Asked(c, suffixes, DomainLists.Normalize(q.name), pick.value.rule);
      if q.qtype.Refused() {
        return Reply(NoError), e;
      }
      ghost var w := State();
      r, e := Listed(pick.value, now, net, tun);
      ChosenSo(w, q.name, pick.value, net, tun, r, e, State());
    }

    /** The rule chosen is the first that carries, if any does. */
    lemma ChosenIsFirst(c: Core, name: string, pick: Choice)
      requires c.Takes(pick.rule, ListsOfName(name))
      requires pick.via.Some? ==> c.Carries(pick.rule) && forall j :: 0 <= j < pick.rule && c.Takes(j, ListsOfName(name)) ==> !c.Carries(j)
      requires pick.via.None? ==> forall j: nat :: c.Takes(j, ListsOfName(name)) ==> !c.Carries(j)
      ensures var n := DomainLists.Normalize(name);
        if pick.via.Some? then FirstCarrying(c, suffixes, n, pick.rule) && forall i: nat :: FirstCarrying(c, suffixes, n, i) ==> i == pick.rule
        else forall i: nat :: Asked(c, suffixes, n, i) ==> !CarriesNow(c, i)
    {
      FoundIsAsked(c, name);
      forall i: nat ensures c.Carries(i) <==> CarriesNow(c, i) {
        CarriesMeans(c, i);
      }
    }

    lemma ChosenSo(w: World, name: string, pick: Choice, net: Option<Bytes>, tun: Option<Bytes>, r: Response, e: Option<Event>, w': World)
      requires w.core.Takes(pick.rule, ListsOfName(name)) && pick.always == w.core.rules[pick.rule].when.Always?
      requires pick.via.Some? ==>
        w.core.Carries(pick.rule) && forall j :: 0 <= j < pick.rule && w.core.Takes(j, ListsOfName(name)) ==> !w.core.Carries(j)
      requires pick.via.None? ==> forall j: nat :: w.core.Takes(j, ListsOfName(name)) ==> !w.core.Carries(j)
      requires PickedSo(w, pick, net, tun, r, e, w')
      ensures ListedSo(w, suffixes, DomainLists.Normalize(name), net, tun, r, e, w')
    {
      ChosenIsFirst(w.core, name, pick);
      FoundIsAsked(w.core, name);
    }
  }

  lemma HasFakeMeans(net: Option<Bytes>)
    ensures net.Some? && net.value.HasFake() <==> Faked(net)
  {
    forall ip: Ip ensures FAKEIP.Contains(ip) <==> 0xC612_0000 <= ip < 0xC614_0000 {
      FakeMeans(ip);
    }
  }

  /** Those to be kept, in order. */
  function Kept(ips: seq<Ip>, keep: Ip -> bool): seq<Ip> {
    if ips == [] then []
    else Kept(ips[..|ips| - 1], keep) + if keep(ips[|ips| - 1]) then [ips[|ips| - 1]] else []
  }

  lemma {:induction false} KeptInOrder(ips: seq<Ip>, more: seq<Ip>, keep: Ip -> bool)
    ensures Kept(ips + more, keep) == Kept(ips, keep) + Kept(more, keep)
    decreases |more|
  {
    if more == [] {
      assert ips + more == ips;
    } else {
      var n := |more| - 1;
      KeptInOrder(ips, more[..n], keep);
      assert (ips + more)[..|ips| + n] == ips + more[..n];
    }
  }

  /** The addresses that may get a route. */
  function RoutableOf(ips: seq<Ip>, endpoints: seq<Ip>): seq<Ip> {
    Kept(ips, (ip: Ip) => Routable(ip, endpoints))
  }

  lemma RoutableNext(ips: seq<Ip>, i: nat, endpoints: seq<Ip>)
    requires i < |ips|
    ensures var a, b := RoutableOf(ips[..i], endpoints), RoutableOf(ips[..i + 1], endpoints);
      b == a + (if Routable(ips[i], endpoints) then [ips[i]] else []) && b <= RoutableOf(ips, endpoints)
  {
    assert ips[..i + 1][..i] == ips[..i];
    KeptInOrder(ips[..i + 1], ips[i + 1..], (ip: Ip) => Routable(ip, endpoints));
    assert ips == ips[..i + 1] + ips[i + 1..];
  }

  lemma RoutableOne(c: Core, ip: Ip)
    ensures RoutableOf([ip], c.Endpoints()) == if Placement.MayRoute(c, ip) then [ip] else []
  {
    Placement.RoutableMeans(c, ip);
    RoutableNext([ip], 0, c.Endpoints());
    assert [ip][..1] == [ip] && [ip][..0] == [];
  }

  /** In the order they were given, repeats and all. */
  lemma RoutableInOrder(ips: seq<Ip>, more: seq<Ip>, endpoints: seq<Ip>)
    ensures RoutableOf(ips + more, endpoints) == RoutableOf(ips, endpoints) + RoutableOf(more, endpoints)
  {
    KeptInOrder(ips, more, (ip: Ip) => Routable(ip, endpoints));
  }

  /** Exactly the addresses that are neither special nor a current tunnel server. */
  lemma {:induction false} RoutableOfMeans(c: Core, ips: seq<Ip>, ip: Ip)
    ensures ip in RoutableOf(ips, c.Endpoints()) <==> ip in ips && Placement.MayRoute(c, ip)
    decreases |ips|
  {
    if ips != [] {
      var n := |ips| - 1;
      assert ips == ips[..n] + [ips[n]];
      RoutableOfMeans(c, ips[..n], ip);
      RoutableInOrder(ips[..n], [ips[n]], c.Endpoints());
      RoutableOne(c, ips[n]);
    }
  }

  /** With pf in line, what a tunnel said goes out only with every address of it that
      may be routed in the table of its owner. */
  lemma TunnelBytesAreHeld(w: World, rule: nat, tun: Option<Bytes>, r: Response, e: Option<Event>, w': World, ip: Ip)
    requires Sound(w) && !w.stale && w.core.Active(rule) && Answered(w, rule, tun, r, e, w') && r.FromTunnel?
    requires ip in r.bytes.ips && Placement.MayRoute(w.core, ip)
    ensures tun == Some(r.bytes) && r.bytes.parses
    ensures ip in w'.core.hosts && w'.pf.tables.HoldsHost(w'.core.hosts[ip].rule, ip)
  {
    RoutableOfMeans(w.core, r.bytes.ips, ip);
    Answers.SoundAnswerIsHeld(w, rule, e.value.ips, e.value.hops, w', ip);
  }
}
