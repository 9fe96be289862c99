/** Who owns an address, and what an answer that goes out promises of each. */
module Answers {
  import opened Wrappers
  import opened Subnets
  import opened TunnelChoice
  import opened Routes
  import opened ResolverCore
  import opened Steps
  import opened Books
  import opened Exactness
  import opened Cache
  import Pf

  function OwnerOf(c: Core, ip: Ip): Option<nat> {
    if ip in c.hosts then Some(c.hosts[ip].rule) else None
  }

  /** The cores agree on all that makes a rule carry, and on its target. */
  predicate SameFooting(c: Core, d: Core) {
    c.links == d.links && c.rules == d.rules && c.owner == d.owner && c.stopped == d.stopped
  }

  lemma FootingKeeps(c: Core, d: Core)
    requires SameFooting(c, d)
    ensures forall r: nat :: c.Carries(r) == d.Carries(r)
    ensures forall r: nat :: c.TargetOf(r) == d.TargetOf(r)
  {
  }

  /** One `route_host`: an address stays with an earlier rule that carries, else
      goes to the rule that asks, unless the kernel refuses. */
  lemma RoutingDecidesOwner(w: World, ip: Ip, rule: nat, now: nat, r: Routed, w': World)
    requires RouteHost(w, ip, rule, now, r, w')
    ensures SameFooting(w.core, w'.core)
    ensures OwnerOf(w'.core, ip) ==
            if r.Refused? then OwnerOf(w.core, ip)
            else if StaysWithEarlier(w.core, ip, rule) then OwnerOf(w.core, ip) else Some(rule)
    ensures forall o :: o != ip ==> At(w'.core.hosts, o) == At(w.core.hosts, o) && At(w'.table, Host(o)) == At(w.table, Host(o))
  {
  }

  // Any order of routings

  datatype Asked = Asked(rule: nat, now: nat, routed: Routed, after: World)

  function Last(w: World, asks: seq<Asked>): World {
    if asks == [] then w else asks[|asks| - 1].after
  }

  /** The same address routed by one rule after another. */
  ghost predicate Routings(w: World, ip: Ip, asks: seq<Asked>)
    decreases |asks|
  {
    asks == [] ||
      var n := |asks| - 1;
      Routings(w, ip, asks[..n])
      && RouteHost(Last(w, asks[..n]), ip, asks[n].rule, asks[n].now, asks[n].routed, asks[n].after)
  }

  /** The rules that were let have it. */
  function LetHave(asks: seq<Asked>): set<nat> {
    set i | 0 <= i < |asks| && !asks[i].routed.Refused? :: asks[i].rule
  }

  lemma LetHaveNext(asks: seq<Asked>)
    requires asks != []
    ensures var n := |asks| - 1;
      LetHave(asks) == LetHave(asks[..n]) + if !asks[n].routed.Refused? then {asks[n].rule} else {}
  {
  }

  /** The rules an address may end with: those let have it, and the one it was
      with while that carries. */
  function Claims(c: Core, ip: Ip, asks: seq<Asked>): set<nat> {
    LetHave(asks) + if ip in c.hosts && c.Carries(c.hosts[ip].rule) then {c.hosts[ip].rule} else {}
  }

  ghost predicate Earliest(o: Option<nat>, claims: set<nat>) {
    o.Some? && o.value in claims && forall r :: r in claims ==> o.value <= r
  }

  lemma OwnerNext(w: World, m: World, ip: Ip, rule: nat, now: nat, r: Routed, m': World)
    requires SameFooting(w.core, m.core) && RouteHost(m, ip, rule, now, r, m')
    ensures SameFooting(w.core, m'.core)
    ensures var o := OwnerOf(m.core, ip);
      OwnerOf(m'.core, ip) == if r.Refused? || (o.Some? && o.value < rule && w.core.Carries(o.value)) then o else Some(rule)
  {
  }

  /** One more asker, between the owner so far and itself. */
  lemma EarliestStep(c: Core, ip: Ip, owner: Option<nat>, granted: set<nat>, claims: set<nat>, rule: nat, owner': Option<nat>)
    requires c.Carries(rule) && (forall r :: r in granted ==> c.Carries(r))
    requires claims == granted + if ip in c.hosts && c.Carries(c.hosts[ip].rule) then {c.hosts[ip].rule} else {}
    requires if granted == {} then owner == OwnerOf(c, ip) else Earliest(owner, claims)
    requires owner' == if owner.Some? && owner.value < rule && c.Carries(owner.value) then owner else Some(rule)
    ensures Earliest(owner', claims + {rule})
  {
  }

  /** Whatever the order and the repeats, an address asked for by rules that
      carry ends with the earliest of its claims. */
  lemma {:induction false} EarliestWins(w: World, ip: Ip, asks: seq<Asked>)
    requires Routings(w, ip, asks)
    requires forall a :: a in asks ==> w.core.Carries(a.rule)
    ensures SameFooting(w.core, Last(w, asks).core)
    ensures forall r :: r in LetHave(asks) ==> w.core.Carries(r)
    ensures if LetHave(asks) == {} then OwnerOf(Last(w, asks).core, ip) == OwnerOf(w.core, ip)
            else Earliest(OwnerOf(Last(w, asks).core, ip), Claims(w.core, ip, asks))
    decreases |asks|
  {
    if asks != [] {
      var n := |asks| - 1;
      var was, a := asks[..n], asks[n];
      var m := Last(w, was);
      EarliestWins(w, ip, was);
      OwnerNext(w, m, ip, a.rule, a.now, a.routed, a.after);
      LetHaveNext(asks);
      assert a in asks;
      if !a.routed.Refused? {
        assert a.rule in LetHave(asks);
        EarliestStep(w.core, ip, OwnerOf(m.core, ip), LetHave(was), Claims(w.core, ip, was), a.rule, OwnerOf(a.after.core, ip));
        assert Claims(w.core, ip, asks) == Claims(w.core, ip, was) + {a.rule};
      } else {
        assert LetHave(asks) == LetHave(was);
      }
    }
  }

  /** So two orders of the same routings end alike. */
  lemma OrdersAgree(w: World, ip: Ip, a: seq<Asked>, b: seq<Asked>)
    requires Routings(w, ip, a) && Routings(w, ip, b)
    requires forall x :: x in a || x in b ==> w.core.Carries(x.rule)
    requires LetHave(a) == LetHave(b)
    ensures OwnerOf(Last(w, a).core, ip) == OwnerOf(Last(w, b).core, ip)
  {
    EarliestWins(w, ip, a);
    EarliestWins(w, ip, b);
  }

  // Answers

  /** The address is routed into the current tunnel of its owner. */
  predicate RoutedToOwner(w: World, ip: Ip) {
    ip in w.core.hosts && w.core.TargetOf(w.core.hosts[ip].rule).Some?
    && At(w.table, Host(ip)) == Some(Route(w.core.TargetOf(w.core.hosts[ip].rule).value.index, true))
  }

  /** What an answer made of one address on the way from `w` to `m`: routed by
      its rule, or left with an earlier rule as it was. */
  ghost predicate HandedOut(w: World, m: World, rule: nat, added: set<Ip>, ip: Ip) {
    ip in m.core.hosts
    && if StaysWithEarlier(w.core, ip, rule) then
         m.core.hosts[ip].rule == w.core.hosts[ip].rule && At(m.table, Host(ip)) == At(w.table, Host(ip))
       else
         m.core.hosts[ip].rule == rule && RoutedToOwner(m, ip) && (ip in added <==> ip !in HostsOf(w.core, rule))
  }

  /** As it was before the answer, of which nothing concerned it yet. */
  predicate Unconcerned(w: World, m: World, added: set<Ip>, o: Ip) {
    At(m.core.hosts, o) == At(w.core.hosts, o) && At(m.table, Host(o)) == At(w.table, Host(o)) && o !in added
  }

  lemma HandedOther(w: World, m: World, rule: nat, added: set<Ip>, o: Ip, ip: Ip, now: nat, r: Routed, m': World)
    requires SameFooting(w.core, m.core) && RouteHost(m, ip, rule, now, r, m') && o != ip && HandedOut(w, m, rule, added, o)
    ensures HandedOut(w, m', rule, added + if r == New then {ip} else {}, o)
  {
    RoutingDecidesOwner(m, ip, rule, now, r, m');
    FootingKeeps(m.core, m'.core);
  }

  lemma HandedStays(w: World, m: World, rule: nat, added: set<Ip>, ip: Ip, now: nat, r: Routed, m': World)
    requires SameFooting(w.core, m.core) && RouteHost(m, ip, rule, now, r, m') && !r.Refused?
    requires StaysWithEarlier(w.core, ip, rule) && (HandedOut(w, m, rule, added, ip) || Unconcerned(w, m, added, ip))
    ensures HandedOut(w, m', rule, added + if r == New then {ip} else {}, ip)
  {
    FootingKeeps(w.core, m.core);
  }

  lemma HandedTaken(w: World, m: World, rule: nat, added: set<Ip>, ip: Ip, now: nat, r: Routed, m': World)
    requires SameFooting(w.core, m.core) && RouteHost(m, ip, rule, now, r, m') && !r.Refused?
    requires !StaysWithEarlier(w.core, ip, rule) && (HandedOut(w, m, rule, added, ip) || Unconcerned(w, m, added, ip))
    ensures HandedOut(w, m', rule, added + if r == New then {ip} else {}, ip)
  {
    FootingKeeps(w.core, m.core);
    assert !StaysWithEarlier(m.core, ip, rule);
    assert r == New <==> ip !in HostsOf(m.core, rule);
    FootingKeeps(m.core, m'.core);
  }

  lemma HandedNext(w: World, m: World, rule: nat, added: set<Ip>, o: Ip, ip: Ip, now: nat, r: Routed, m': World)
    requires SameFooting(w.core, m.core) && RouteHost(m, ip, rule, now, r, m') && !r.Refused?
    requires o == ip || HandedOut(w, m, rule, added, o)
    requires o == ip ==> HandedOut(w, m, rule, added, ip) || Unconcerned(w, m, added, ip)
    ensures HandedOut(w, m', rule, added + if r == New then {ip} else {}, o)
  {
    if o != ip {
      HandedOther(w, m, rule, added, o, ip, now, r, m');
    } else if StaysWithEarlier(w.core, ip, rule) {
      HandedStays(w, m, rule, added, ip, now, r, m');
    } else {
      HandedTaken(w, m, rule, added, ip, now, r, m');
    }
  }

  lemma {:induction false} HopsHandOut(w: World, rule: nat, ips: seq<Ip>, hops: seq<Hop>, o: Ip)
    requires Hops(w, rule, ips, hops) && !Stopped(hops)
    ensures SameFooting(w.core, End(w, hops).core) && End(w, hops).pf == w.pf
    ensures if o in ips[..|hops|] then HandedOut(w, End(w, hops), rule, NewOf(ips, hops), o)
            else Unconcerned(w, End(w, hops), NewOf(ips, hops), o)
    decreases |hops|
  {
    if hops != [] {
      var n := |hops| - 1;
      var m, h := End(w, hops[..n]), hops[n];
      HopsHandOut(w, rule, ips, hops[..n], o);
      assert ips[..|hops|] == ips[..n] + [ips[n]];
      NewOfLast(ips, hops);
      RoutingDecidesOwner(m, ips[n], rule, h.now, h.routed, h.after);
      if o in ips[..|hops|] {
        HandedNext(w, m, rule, NewOf(ips, hops[..n]), o, ips[n], h.now, h.routed, h.after);
      }
    }
  }

  /** An answer that goes out, from any state: who holds each routable address of
      it, in which table of pf it is, and when it is routed into the tunnel of
      its owner. The tables gain the addresses new to the rule and nothing else,
      so an address the books already had is held only if it was before. */
  lemma AnswerIsSafe(w: World, rule: nat, ips: seq<Ip>, hops: seq<Hop>, w': World, ip: Ip)
    requires Answer(w, rule, ips, hops, true, w') && !Stopped(hops) && ip in ips
    ensures ip in w'.core.hosts
    ensures StaysWithEarlier(w.core, ip, rule) || w'.core.hosts[ip].rule == rule
    ensures forall o :: w'.pf.tables.HoldsHost(o, ip) <==> (o == rule && ip in NewOf(ips, hops)) || w.pf.tables.HoldsHost(o, ip)
    ensures w'.pf.tables.HoldsHost(w'.core.hosts[ip].rule, ip) <==>
            (!StaysWithEarlier(w.core, ip, rule) && ip !in HostsOf(w.core, rule))
            || w.pf.tables.HoldsHost(if StaysWithEarlier(w.core, ip, rule) then w.core.hosts[ip].rule else rule, ip)
    ensures RoutedToOwner(w', ip) <==> !StaysWithEarlier(w.core, ip, rule) || RoutedToOwner(w, ip)
  {
    var m := End(w, hops);
    assert ips[..|hops|] == ips;
    HopsHandOut(w, rule, ips, hops, ip);
    FootingKeeps(w.core, m.core);
  }

  /** From a sound cache with nothing stale, then, each is held for its owner. */
  lemma SoundAnswerIsHeld(w: World, rule: nat, ips: seq<Ip>, hops: seq<Hop>, w': World, ip: Ip)
    requires Sound(w) && !w.stale && w.core.Active(rule)
    requires Answer(w, rule, ips, hops, true, w') && !Stopped(hops) && ip in ips
    ensures ip in w'.core.hosts && w'.pf.tables.HoldsHost(w'.core.hosts[ip].rule, ip)
  {
    var m, added := End(w, hops), NewOf(ips, hops);
    assert ips[..|hops|] == ips;
    HopsHandOut(w, rule, ips, hops, ip);
    AnswerIsSafe(w, rule, ips, hops, w', ip);
    var o := m.core.hosts[ip].rule;
    if StaysWithEarlier(w.core, ip, rule) {
      assert ip in HostsOf(w.core, o);
      assert w.pf.tables.hosts[o] == HostsOf(w.core, o);
    } else {
      assert w.pf.tables.hosts[rule] == HostsOf(w.core, rule);
    }
  }

  /** A known address, asked for again by its own rule. */
  lemma KnownHop(w: World, ip: Ip, rule: nat, now: nat) returns (h: Hop)
    requires !w.core.stopped && Grants(w, ip, rule) && ip in w.core.hosts && w.core.hosts[ip].rule == rule
    ensures h.now == now && h.routed == NotNew && RouteHost(w, ip, rule, now, NotNew, h.after)
    ensures h.after.pf == w.pf && ip in h.after.core.hosts && h.after.core.hosts[ip].rule == rule
  {
    var t := w.core.TargetOf(rule).value;
    h := Hop(now, NotNew, w.(
      core := w.core.(hosts := w.core.hosts[ip := HostRun(rule, now, Some(t.placed))]),
      table := w.table[Host(ip) := Route(t.index, true)],
      calls := w.calls + Messages(w.refuses, w.calls, Some(t.index), Host(ip) in w.table),
      doubt := if Host(ip) in w.core.subnets then w.doubt + {Host(ip)} else w.doubt - {Host(ip)}));
  }

  /** The failing family: an answer with a new address is refused because pf could
      not be told, and marks pf stale; the same query again, before a sync went
      through, the kernel willing, finds the address known, has nothing to tell
      pf, and goes out although the table of its rule does not hold the address. */
  lemma RetryIsNotHeld(w: World, rule: nat, ip: Ip, now: nat, later: nat)
    returns (first: seq<Hop>, m: World, second: seq<Hop>, w': World)
    requires Sound(w) && !w.stale && w.core.Active(rule) && !w.core.stopped && Grants(w, ip, rule)
    requires ip !in w.core.hosts && Denied(w.pfFails, w.pfCalls)
    requires var n := w.calls + if Host(ip) in w.table then 3 else 1;
      EndOf(w.refuses, n, Some(w.core.TargetOf(rule).value.index), true).Done?
    ensures Answer(w, rule, [ip], first, false, m) && !Stopped(first) && Sound(m) && m.stale
    ensures Answer(m, rule, [ip], second, true, w') && !Stopped(second)
    ensures ip in w'.core.hosts && w'.core.hosts[ip].rule == rule && !w'.pf.tables.HoldsHost(rule, ip)
  {
    var h := FreshHop(w, ip, rule, now);
    HopsGrow(w, rule, [ip], [], h);
    first := [] + [h];
    m := h.after.(stale := true, pfCalls := w.pfCalls + 1);
    assert w.pf.tables.hosts[rule] == HostsOf(w.core, rule);
    assert m.core.TargetOf(rule) == h.after.core.TargetOf(rule);
    assert ip in m.core.hosts && m.core.hosts[ip].rule == rule;
    var g := KnownHop(m, ip, rule, later);
    HopsGrow(m, rule, [ip], [], g);
    second, w' := [] + [g], g.after;
    assert NewOf([ip], []) == {};
  }

  /** The exception is real: a host taken in from the state file and not routed
      yet, of an earlier rule that carries, is handed out by a later rule as it
      is, without a route. */
  lemma LoadedHostIsHandedOut(w: World, rule: nat, ip: Ip, now: nat) returns (hops: seq<Hop>, w': World)
    requires ip in w.core.hosts && w.core.hosts[ip].placed.None? && Host(ip) !in w.table
    requires w.core.hosts[ip].rule < rule && w.core.Carries(w.core.hosts[ip].rule) && !w.core.stopped
    ensures Answer(w, rule, [ip], hops, true, w') && !Stopped(hops)
    ensures Host(ip) !in w'.table && w'.stale == w.stale
  {
    w' := w.(core := w.core.(hosts := w.core.hosts[ip := w.core.hosts[ip].(last := now)]));
    HopsGrow(w, rule, [ip], [], Hop(now, NotNew, w'));
    hops := [] + [Hop(now, NotNew, w')];
    assert NewOf([ip], []) == {};
  }
}
