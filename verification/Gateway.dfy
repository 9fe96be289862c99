/** The whole gateway over whole runs, an answer taken as one step: the books
    and the cache together, and what they give every packet. */
module Gateway {
  import opened Wrappers
  import opened Subnets
  import opened TunnelChoice
  import opened Routes
  import opened ResolverCore
  import opened Steps
  import opened Books
  import opened Exactness
  import opened Cache
  import opened Traffic
  import opened Answers
  import DomainLists
  import Pf

  lemma {:induction false} HopsKeepInv(w: World, rule: nat, ips: seq<Ip>, hops: seq<Hop>)
    requires Inv(w) && Hops(w, rule, ips, hops)
    ensures Inv(End(w, hops))
    decreases |hops|
  {
    if hops != [] {
      var n := |hops| - 1;
      var h := hops[n];
      HopsKeepInv(w, rule, ips, hops[..n]);
      RouteHostKeepsInv(End(w, hops[..n]), ips[n], rule, h.now, h.routed, h.after);
    }
  }

  lemma PfAddKeepsInv(w: World, rule: nat, ips: set<Ip>, ok: bool, w': World)
    requires Inv(w) && PfAdd(w, rule, ips, ok, w')
    ensures Inv(w')
  {
  }

  lemma AnswerKeepsInv(w: World, rule: nat, ips: seq<Ip>, hops: seq<Hop>, pfOk: bool, w': World)
    requires Inv(w) && Answer(w, rule, ips, hops, pfOk, w')
    ensures Inv(w')
  {
    HopsKeepInv(w, rule, ips, hops);
    if !Stopped(hops) {
      PfAddKeepsInv(End(w, hops), rule, NewOf(ips, hops), pfOk, w');
    }
  }

  /** The books are straight over every run with whole answers too. */
  lemma {:induction false} LifeKeepsBooks(ws: seq<World>, events: seq<Event>, i: nat)
    requires Life(ws, events) && i < |ws|
    ensures Inv(ws[i])
    decreases i
  {
    if i > 0 {
      LifeKeepsBooks(ws, events, i - 1);
      assert HappensAt(ws, events, i - 1);
      EventKeepsInv(ws[i - 1], events[i - 1], ws[i]);
    }
  }

  lemma EventKeepsInv(w: World, e: Event, w': World)
    requires Inv(w) && Happens(w, e, w')
    ensures Inv(w')
  {
    match e
    case Step(a) => StepKeepsInv(w, a, w');
    case Answering(rule, ips, hops, pfOk) => AnswerKeepsInv(w, rule, ips, hops, pfOk, w');
  }

  /** No message about `k` was refused in the answer: a hop that was sent none. */
  predicate KindHops(ips: seq<Ip>, hops: seq<Hop>, k: Subnet) {
    forall i :: 0 <= i < |hops| && i < |ips| && Host(ips[i]) == k && hops[i].routed.Refused? ==> hops[i].routed.sent.None?
  }

  predicate KindEvent(e: Event, k: Subnet) {
    match e
    case Step(a) => KindTo(a, k)
    case Answering(_, ips, hops, _) => KindHops(ips, hops, k)
  }

  /** Whatever is refused, no message about `k` is. */
  ghost predicate KindLife(ws: seq<World>, events: seq<Event>, k: Subnet) {
    Life(ws, events) && forall i {:trigger KindEvent(events[i], k)} :: 0 <= i < |events| ==> KindEvent(events[i], k)
  }

  /** And `k` is never a host's and a subnet's at once, nor is the generation it
      is booked at published with another interface. */
  ghost predicate GoodLife(ws: seq<World>, events: seq<Event>, k: Subnet) {
    KindLife(ws, events, k)
    && (forall i {:trigger ApartAt(ws[i], k)} :: 0 <= i < |ws| ==> ApartAt(ws[i], k))
    && (forall i {:trigger ToldAt(ws[i], events[i].a, k)} :: 0 <= i < |events| && events[i].Step? ==> ToldAt(ws[i], events[i].a, k))
  }

  lemma {:induction false} HopsKeepTrust(w: World, rule: nat, ips: seq<Ip>, hops: seq<Hop>, k: Subnet)
    requires Hops(w, rule, ips, hops) && KindHops(ips, hops, k) && k !in w.doubt
    requires IsHost(End(w, hops).core, k) ==> k !in w.core.subnets
    ensures k !in End(w, hops).doubt && End(w, hops).core.subnets == w.core.subnets
    decreases |hops|
  {
    if hops != [] {
      var n := |hops| - 1;
      var m, h := End(w, hops[..n]), hops[n];
      HopKeepsHosts(m, ips[n], rule, h.now, h.routed, h.after);
      HopsKeepTrust(w, rule, ips, hops[..n], k);
      RoutingKeepsTrust(m, ips[n], rule, h.now, h.routed, h.after, k);
    }
  }

  lemma HopKeepsHosts(m: World, ip: Ip, rule: nat, now: nat, r: Routed, m': World)
    requires RouteHost(m, ip, rule, now, r, m')
    ensures m'.core.subnets == m.core.subnets && m.core.hosts.Keys <= m'.core.hosts.Keys
  {
  }

  lemma EventKeepsTrust(w: World, e: Event, w': World, k: Subnet)
    requires Happens(w, e, w') && KindEvent(e, k) && ApartAt(w, k) && ApartAt(w', k) && k !in w.doubt
    requires e.Step? ==> ToldAt(w, e.a, k)
    ensures k !in w'.doubt
  {
    match e
    case Step(a) => StepKeepsTrust(w, a, w', k);
    case Answering(rule, ips, hops, pfOk) =>
      assert w'.core == End(w, hops).core && w'.doubt == End(w, hops).doubt;
      SubnetsKept(w, rule, ips, hops);
      HopsKeepTrust(w, rule, ips, hops, k);
  }

  lemma {:induction false} SubnetsKept(w: World, rule: nat, ips: seq<Ip>, hops: seq<Hop>)
    requires Hops(w, rule, ips, hops)
    ensures End(w, hops).core.subnets == w.core.subnets
    decreases |hops|
  {
    if hops != [] {
      var n := |hops| - 1;
      SubnetsKept(w, rule, ips, hops[..n]);
      HopKeepsHosts(End(w, hops[..n]), ips[n], rule, hops[n].now, hops[n].routed, hops[n].after);
    }
  }

  // Orphans

  lemma {:induction false} HopsOrphanNone(w: World, rule: nat, ips: seq<Ip>, hops: seq<Hop>, k: Subnet)
    requires Hops(w, rule, ips, hops) && !Orphan(w, k)
    ensures !Orphan(End(w, hops), k)
    decreases |hops|
  {
    if hops != [] {
      var n := |hops| - 1;
      var h := hops[n];
      HopsOrphanNone(w, rule, ips, hops[..n], k);
      RoutingOrphans(End(w, hops[..n]), ips[n], rule, h.now, h.routed, h.after, k);
    }
  }

  /** An answer orphans nothing, refused or not. */
  lemma AnswerOrphansNone(w: World, rule: nat, ips: seq<Ip>, hops: seq<Hop>, pfOk: bool, w': World, k: Subnet)
    requires Answer(w, rule, ips, hops, pfOk, w') && !Orphan(w, k)
    ensures !Orphan(w', k)
  {
    HopsOrphanNone(w, rule, ips, hops, k);
  }

  /** Which events orphan nothing: every answer, and every step that loses no
      route. */
  lemma EventOrphansNoneIff(w: World, e: Event, w': World)
    requires NoOrphans(w) && Happens(w, e, w')
    ensures NoOrphans(w') <==> (e.Step? ==> LosesNone(w, e.a, w'))
  {
    match e
    case Step(a) => NoOrphansIff(w, a, w');
    case Answering(rule, ips, hops, pfOk) =>
      forall k ensures !Orphan(w', k) {
        assert !Orphan(w, k);
        AnswerOrphansNone(w, rule, ips, hops, pfOk, w', k);
      }
  }

  /** A destination no refused message is about is never orphaned. */
  lemma {:induction false} NeverOrphaned(ws: seq<World>, events: seq<Event>, i: nat, k: Subnet)
    requires KindLife(ws, events, k) && i < |ws|
    ensures !Orphan(ws[i], k)
    decreases i
  {
    if i > 0 {
      NeverOrphaned(ws, events, i - 1, k);
      assert HappensAt(ws, events, i - 1);
      var e := events[i - 1];
      assert KindEvent(e, k);
      match e
      case Step(a) => KindOrphansNone(ws[i - 1], a, ws[i], k);
      case Answering(rule, ips, hops, pfOk) => AnswerOrphansNone(ws[i - 1], rule, ips, hops, pfOk, ws[i], k);
    }
  }

  lemma {:induction false} NoWayNoNew(w: World, rule: nat, ips: seq<Ip>, hops: seq<Hop>)
    requires Hops(w, rule, ips, hops)
    ensures SameFooting(w.core, End(w, hops).core)
    ensures w.core.stopped || w.core.TargetOf(rule).None? ==> NewOf(ips, hops) == {}
    decreases |hops|
  {
    if hops != [] {
      var n := |hops| - 1;
      var m, h := End(w, hops[..n]), hops[n];
      NoWayNoNew(w, rule, ips, hops[..n]);
      FootingKeeps(w.core, m.core);
      RoutingDecidesOwner(m, ips[n], rule, h.now, h.routed, h.after);
      NewOfLast(ips, hops);
    }
  }

  /** An answer of which no message was refused is stopped only for want of a
      tunnel, before anything was new: it never leaves pf behind. */
  lemma UnrefusedIsLossless(w: World, e: Event, w': World)
    requires Happens(w, e, w') && forall k :: KindEvent(e, k)
    ensures Lossless(w, e)
  {
    if e.Answering? && Stopped(e.hops) {
      var n := |e.hops| - 1;
      var was := e.hops[..n];
      NoWayNoNew(w, e.rule, e.ips, was);
      FootingKeeps(w.core, End(w, was).core);
      NewOfLast(e.ips, e.hops);
      assert KindEvent(e, Host(e.ips[n]));
    }
  }

  /** Such a destination, apart and told the truth about, is never in doubt
      either, whatever becomes of the others. */
  lemma {:induction false} GoodLifeIsTrusted(ws: seq<World>, events: seq<Event>, i: nat, k: Subnet)
    requires GoodLife(ws, events, k) && i < |ws|
    ensures k !in ws[i].doubt && Inv(ws[i]) && !Orphan(ws[i], k)
    decreases i
  {
    LifeKeepsBooks(ws, events, i);
    NeverOrphaned(ws, events, i, k);
    if i > 0 {
      GoodLifeIsTrusted(ws, events, i - 1, k);
      assert HappensAt(ws, events, i - 1);
      EventKeepsTrust(ws[i - 1], events[i - 1], ws[i], k);
    }
  }

  lemma ReconcileAt(ws: seq<World>, events: seq<Event>, i: nat, k: Subnet)
    requires KindLife(ws, events, k) && i < |events| && events[i].Step? && events[i].a.Reconciling?
    ensures var how := events[i].a.how; Reconcile(ws[i], how, ws[i + 1]) && GrantedAt(how, k)
    ensures Inv(ws[i]) && !Orphan(ws[i], k) && !Orphan(ws[i + 1], k)
  {
    LifeKeepsBooks(ws, events, i);
    NeverOrphaned(ws, events, i, k);
    NeverOrphaned(ws, events, i + 1, k);
    assert KindEvent(events[i], k) && HappensAt(ws, events, i);
  }

  lemma SyncAt(ws: seq<World>, events: seq<Event>, i: nat)
    requires Life(ws, events) && i < |events| && events[i] == Step(SyncingPf(true))
    ensures SyncPf(ws[i], true, ws[i + 1])
  {
    assert HappensAt(ws, events, i);
  }

  /** A reconcile and a sync of books and a cache that are in order, with nothing
      wrong at `k`. */
  ghost predicate WellDone(w: World, how: Reconciled, m: World, w': World, k: Subnet) {
    Inv(w) && Sound(w) && Reconcile(w, how, m) && SyncPf(m, true, w') && !Orphan(w, k) && k !in m.doubt && GrantedAt(how, k)
  }

  lemma TrustedAt(ws: seq<World>, events: seq<Event>, i: nat, k: Subnet)
    requires GoodLife(ws, events, k) && i < |events|
    requires forall j {:trigger events[j]} :: 0 <= j < i ==> Lossless(ws[j], events[j])
    ensures Sound(ws[i]) && k !in ws[i + 1].doubt
  {
    GoodLifeIsTrusted(ws, events, i + 1, k);
    CacheHolds(ws, events, i);
  }

  /** What the theorem on one reconcile and one sync asks for. */
  lemma BeforeSync(ws: seq<World>, events: seq<Event>, i: nat, k: Subnet)
    requires GoodLife(ws, events, k) && i + 1 < |events|
    requires forall j {:trigger events[j]} :: 0 <= j < i ==> Lossless(ws[j], events[j])
    requires events[i].Step? && events[i].a.Reconciling? && events[i + 1] == Step(SyncingPf(true))
    ensures WellDone(ws[i], events[i].a.how, ws[i + 1], ws[i + 2], k)
  {
    ReconcileAt(ws, events, i, k);
    TrustedAt(ws, events, i, k);
    SyncAt(ws, events, i + 1);
  }

  lemma WellDoneLeads(w: World, how: Reconciled, m: World, w': World, ip: Ip, k: Subnet, proto: Pf.Proto, port: nat)
    requires WellDone(w, how, m, w', k) && !w.core.stopped && Longest(w'.table, ip, k)
    requires RouteOwner(w', k).Some? ==> WayOut(w'.core, RouteOwner(w', k).value).Some?
    ensures RouteOwner(w', k).Some? && RuleHolds(w', RouteOwner(w', k).value, ip)
      && var iface := WayOut(w'.core, RouteOwner(w', k).value).value;
        w'.table[k].index == iface.index && !Pf.Blocked(w'.pf.anchor, w'.pf.tables, Pf.Packet(ip, iface.name, proto, port))
  {
    EndToEnd(w, how, m, w', ip, k, proto, port);
  }

  /** End to end, at any point of any run in which no answer left pf behind: after
      a reconcile and a sync, the longest route of this process for any address,
      if nothing ever went wrong with that one, leads into the current tunnel of
      the rule that owns it, which is in force and holds the address; and pf lets
      every packet to it out there. */
  lemma PacketsTakeTheirTunnel(ws: seq<World>, events: seq<Event>, i: nat, ip: Ip, k: Subnet, proto: Pf.Proto, port: nat)
    requires GoodLife(ws, events, k) && i + 1 < |events| && !ws[i].core.stopped
    requires forall j {:trigger events[j]} :: 0 <= j < i ==> Lossless(ws[j], events[j])
    requires events[i].Step? && events[i].a.Reconciling? && events[i + 1] == Step(SyncingPf(true))
    requires Longest(ws[i + 2].table, ip, k)
    requires RouteOwner(ws[i + 2], k).Some? ==> WayOut(ws[i + 2].core, RouteOwner(ws[i + 2], k).value).Some?
    ensures var w := ws[i + 2];
      RouteOwner(w, k).Some? && RuleHolds(w, RouteOwner(w, k).value, ip)
      && var iface := WayOut(w.core, RouteOwner(w, k).value).value;
        w.table[k].index == iface.index && !Pf.Blocked(w.pf.anchor, w.pf.tables, Pf.Packet(ip, iface.name, proto, port))
  {
    BeforeSync(ws, events, i, k);
    WellDoneLeads(ws[i], events[i].a.how, ws[i + 1], ws[i + 2], ip, k, proto, port);
  }

  /** And the table is exact at such a destination: it holds what is called for,
      unless that fell with its interface; and a route of this process that is
      not in the books stands nowhere among them. */
  lemma TableIsExact(ws: seq<World>, events: seq<Event>, i: nat, k: Subnet)
    requires GoodLife(ws, events, k) && i < |events| && !ws[i].core.stopped
    requires events[i].Step? && events[i].a.Reconciling?
    ensures Exact(ws[i + 1], k) <==> !Fallen(ws[i + 1], k)
    ensures Mine(At(ws[i + 1].table, k)) ==> HasRoute(ws[i + 1].core, k)
  {
    ReconcileAt(ws, events, i, k);
    GoodLifeIsTrusted(ws, events, i + 1, k);
    ReconcileIsExact(ws[i], events[i].a.how, ws[i + 1], k);
  }

  /** And no route of this process that no refused message is about covers a
      current tunnel server or meets the fake range, with the lists as `add`
      builds them. */
  lemma ServersAreReached(ws: seq<World>, events: seq<Event>, i: nat, k: Subnet, ip: Ip, adds: seq<(string, string)>)
    requires KindLife(ws, events, k) && i < |events| && !ws[i].core.stopped
    requires events[i].Step? && events[i].a.Reconciling? && ws[i].nets == DomainLists.Built(adds).subnets
    requires ip in ws[i + 1].core.Endpoints() || FAKEIP.Contains(ip)
    ensures k.Contains(ip) ==> !Mine(At(ws[i + 1].table, k))
  {
    ReconcileAt(ws, events, i, k);
    if k.Contains(ip) && Mine(At(ws[i + 1].table, k)) {
      ListedServersStayOut(ws[i], events[i].a.how, ws[i + 1], k, ip, adds);
    }
  }
}
