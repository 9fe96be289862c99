/** The kill switch between two loads of pf: an address handed out stays in,
    whatever becomes of tunnels, rules and routes meanwhile. */
module KillSwitch {
  import opened Wrappers
  import opened Subnets
  import opened Routes
  import opened ResolverCore
  import opened Steps
  import opened Books
  import opened Cache
  import opened Answers
  import Pf

  /** pf holds the address for a rule that its last load had in force. */
  ghost predicate Held(w: World, ip: Ip) {
    w.last.Some? && AnchorOf(w.pf.anchor, w.last.value) && exists i: nat :: HeldBy(w, i, ip)
  }

  predicate HeldBy(w: World, i: nat, ip: Ip) {
    w.last.Some? && w.last.value.InForce(i) && w.pf.tables.HoldsHost(i, ip)
  }

  /** The interface was, at the last load, a tunnel's of a rule whose tables hold
      the address. */
  ghost predicate OwnWayOut(w: World, p: Pf.Packet) {
    w.last.Some? && Pf.ThroughOwnTunnel(w.last.value, w.pf.tables, p)
  }

  /** What is held is blocked everywhere else, the exemptions of the last load
      aside, stale or not. */
  lemma HeldIsBlocked(w: World, p: Pf.Packet)
    requires Held(w, p.dst) && !Pf.Exempt(w.last.value, p)
    ensures Pf.Blocked(w.pf.anchor, w.pf.tables, p) <==> !OwnWayOut(w, p)
  {
    var s, t := w.last.value, w.pf.tables;
    assert Pf.Blocked(w.pf.anchor, t, p) <==> Pf.ShouldBlock(s, t, p);
    var i: nat :| HeldBy(w, i, p.dst);
    assert Pf.HeldFor(s, t, i, p.dst);
  }

  /** No pf command of the event failed. */
  predicate PfObeys(e: Event) {
    match e
    case Step(a) => (a.SyncingPf? ==> a.ok) && (a.Expiring? ==> a.ok)
    case Answering(_, _, hops, pfOk) => Stopped(hops) || pfOk
  }

  /** Neither expired nor dropped, nor its rule out of force. */
  predicate Kept(w: World, ip: Ip) {
    ip in w.core.hosts && w.core.Active(w.core.hosts[ip].rule)
  }

  lemma {:induction false} HopsKeepPf(w: World, rule: nat, ips: seq<Ip>, hops: seq<Hop>)
    requires Hops(w, rule, ips, hops)
    ensures End(w, hops).pf == w.pf && End(w, hops).last == w.last
    decreases |hops|
  {
    if hops != [] {
      var n := |hops| - 1;
      HopsKeepPf(w, rule, ips, hops[..n]);
      HopKeepsPf(End(w, hops[..n]), ips[n], rule, hops[n].now, hops[n].routed, hops[n].after);
    }
  }

  lemma HopKeepsPf(w: World, ip: Ip, rule: nat, now: nat, r: Routed, w': World)
    requires RouteHost(w, ip, rule, now, r, w')
    ensures w'.pf == w.pf && w'.last == w.last
  {
  }

  lemma AnswerKeepsHeld(w: World, rule: nat, ips: seq<Ip>, hops: seq<Hop>, pfOk: bool, w': World, ip: Ip)
    requires Answer(w, rule, ips, hops, pfOk, w') && (Stopped(hops) || pfOk) && Held(w, ip)
    ensures Held(w', ip)
  {
    HopsKeepPf(w, rule, ips, hops);
    var i: nat :| HeldBy(w, i, ip);
    assert HeldBy(w', i, ip);
  }

  lemma ExpireKeepsHeld(w: World, now: nat, window: nat, ends: map<Subnet, Ending>, w': World, ip: Ip)
    requires Expire(w, now, window, ends, true, w') && ip in w'.core.hosts && Held(w, ip)
    ensures Held(w', ip)
  {
    var i: nat :| HeldBy(w, i, ip);
    assert At(w'.pf.tables.hosts, i) == WithoutOld(w.pf.tables, w.core, Old(w.core, now, window), i);
    assert HeldBy(w', i, ip);
  }

  lemma SyncKeepsHeld(w: World, w': World, ip: Ip)
    requires SyncPf(w, true, w') && Kept(w, ip) && Held(w, ip)
    ensures Held(w', ip)
  {
    if w' != w {
      var i := w.core.hosts[ip].rule;
      assert ip in HostsOf(w.core, i);
      assert w'.pf.tables.hosts[i] == HostsOf(w'.core, i);
      assert HeldBy(w', i, ip);
    }
  }

  lemma OthersKeepHeld(w: World, w': World, ip: Ip)
    requires w'.pf == w.pf && w'.last == w.last && Held(w, ip)
    ensures Held(w', ip)
  {
    var i: nat :| HeldBy(w, i, ip);
    assert HeldBy(w', i, ip);
  }

  lemma PfUntouched(w: World, a: Action, w': World)
    requires Next(w, a, w') && !a.SyncingPf? && !a.Expiring? && !a.AddingToPf?
    ensures w'.pf == w.pf && w'.last == w.last
  {
  }

  lemma StepKeepsHeld(w: World, a: Action, w': World, ip: Ip)
    requires Next(w, a, w') && !a.AddingToPf? && PfObeys(Step(a)) && Kept(w, ip) && ip in w'.core.hosts && Held(w, ip)
    ensures Held(w', ip)
  {
    if a.SyncingPf? {
      SyncKeepsHeld(w, w', ip);
    } else if a.Expiring? {
      ExpireKeepsHeld(w, a.now, a.window, a.ends, w', ip);
    } else {
      PfUntouched(w, a, w');
      OthersKeepHeld(w, w', ip);
    }
  }

  lemma EventKeepsHeld(w: World, e: Event, w': World, ip: Ip)
    requires Happens(w, e, w') && PfObeys(e) && Kept(w, ip) && Kept(w', ip) && Held(w, ip)
    ensures Held(w', ip)
  {
    match e
    case Step(a) => StepKeepsHeld(w, a, w', ip);
    case Answering(rule, ips, hops, pfOk) => AnswerKeepsHeld(w, rule, ips, hops, pfOk, w', ip);
  }

  /** From one point of a run to another the address is kept and pf obeys. */
  ghost predicate KeptBetween(ws: seq<World>, events: seq<Event>, i: nat, j: nat, ip: Ip)
    requires i <= j < |ws| && |ws| == |events| + 1
  {
    (forall n {:trigger Kept(ws[n], ip)} :: i <= n <= j ==> Kept(ws[n], ip))
    && forall n {:trigger PfObeys(events[n])} :: i <= n < j ==> PfObeys(events[n])
  }

  lemma {:induction false} HeldStays(ws: seq<World>, events: seq<Event>, i: nat, j: nat, ip: Ip)
    requires Life(ws, events) && i <= j < |ws| && Held(ws[i], ip) && KeptBetween(ws, events, i, j, ip)
    ensures Held(ws[j], ip)
    decreases j
  {
    if i < j {
      HeldStays(ws, events, i, j - 1, ip);
      assert Kept(ws[j - 1], ip) && Kept(ws[j], ip) && PfObeys(events[j - 1]);
      assert HappensAt(ws, events, j - 1);
      EventKeepsHeld(ws[j - 1], events[j - 1], ws[j], ip);
    }
  }

  /** What an answer hands out, pf in line, is held. */
  lemma HandedOutIsHeld(w: World, rule: nat, ips: seq<Ip>, hops: seq<Hop>, w': World, ip: Ip)
    requires Sound(w) && !w.stale && w.core.Active(rule)
    requires Answer(w, rule, ips, hops, true, w') && !Stopped(hops) && ip in ips
    ensures Held(w', ip)
  {
    SoundAnswerIsHeld(w, rule, ips, hops, w', ip);
    AnswerIsSafe(w, rule, ips, hops, w', ip);
    HopsKeepPf(w, rule, ips, hops);
    var o := w'.core.hosts[ip].rule;
    OwnerInForce(w, rule, ips, hops, w', ip);
    assert HeldBy(w', o, ip);
  }

  lemma OwnerInForce(w: World, rule: nat, ips: seq<Ip>, hops: seq<Hop>, w': World, ip: Ip)
    requires w.core.Active(rule) && Answer(w, rule, ips, hops, true, w') && !Stopped(hops) && ip in ips
    ensures ip in w'.core.hosts && w.core.Active(w'.core.hosts[ip].rule)
  {
    assert ips[..|hops|] == ips;
    HopsHandOut(w, rule, ips, hops, ip);
  }

  /** Over whole runs: an address handed out, pf in line, leaves the Mac from then
      on only where the last load of pf had a tunnel of a rule that holds it, the
      exemptions aside, until it expires, is dropped, its rule goes out of force,
      or a pf command fails; whatever tunnels and routes do in between, and
      whether pf was loaded again or not. */
  lemma HandedOutStaysIn(ws: seq<World>, events: seq<Event>, i: nat, j: nat, ip: Ip, p: Pf.Packet)
    requires Life(ws, events) && i < j < |ws| && events[i].Answering? && ip in events[i].ips && p.dst == ip
    requires !Stopped(events[i].hops) && events[i].pfOk
    requires !ws[i].stale && forall n {:trigger events[n]} :: 0 <= n < i ==> Lossless(ws[n], events[n])
    requires KeptBetween(ws, events, i + 1, j, ip)
    ensures Held(ws[j], ip)
    ensures !Pf.Exempt(ws[j].last.value, p) ==> (Pf.Blocked(ws[j].pf.anchor, ws[j].pf.tables, p) <==> !OwnWayOut(ws[j], p))
  {
    var e := events[i];
    CacheHolds(ws, events, i);
    assert HappensAt(ws, events, i);
    HandedOutIsHeld(ws[i], e.rule, e.ips, e.hops, ws[i + 1], ip);
    HeldStays(ws, events, i + 1, j, ip);
    if !Pf.Exempt(ws[j].last.value, p) {
      HeldIsBlocked(ws[j], p);
    }
  }
}
