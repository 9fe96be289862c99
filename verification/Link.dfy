/** The `Link` of src/link.rs as an object whose steps keep three invariants, its
    fields updated in place. What a step finds is given to it, and how much time
    passes while the code waits is left open. Instants are milliseconds. */
module Links {
  import opened Wrappers
  import opened Subnets
  import opened TunnelChoice
  import Degraded
  import Cut

  const FRESH: nat := 120_000
  const FAST: nat := 5_000
  const SLOW: nat := 30_000
  const FAST_TRIES: nat := 5
  const STABLE: nat := 120_000

  /** A tunnel interface that came up. */
  datatype Tunnel = Tunnel(name: string, index: nat, upAt: nat)

  datatype Ctl = Ctl(wanted: bool, wakes: nat, stop: bool)

  datatype Next = Usual | CutNext | Woke

  /** How a check ended: without a tunnel; cut short; carrying; degraded and left
      alone; degraded and out of patience; dead, with the network there; or dead
      with nothing past the tunnel either. */
  datatype Outcome = NoTunnel | CutShort | Carries | LeftDegraded | SpentPatience | Dead | KeptOffline

  /** What there is to be found in one step: the process gone; the packets received
      and sent; the server's name resolved; a new interface; the bytes received;
      what TLS through the new tunnel, a ping, TLS and a probe past the tunnel
      find, none when cut short; the age of the handshake; and the network there
      is after a probe was cut short. */
  datatype Findings = Findings(
    exited: bool,
    counters: Option<(nat, nat)>,
    server: Option<Ip>,
    came: Option<Tunnel>,
    received: Option<nat>,
    confirm: Option<bool>,
    ping: Option<bool>,
    tls: Option<bool>,
    direct: Option<bool>,
    handshake: Option<nat>,
    moved: Option<nat>)

  /** What a step did. */
  datatype Did = Stopped | Idled | Rested | Connected | Checked(outcome: Outcome)

  /** The pause before the next connect, after so many in a row that failed. */
  function Pause(failures: nat): nat {
    if failures < 5 then 0 else if failures == 5 then 30_000 else if failures == 6 then 60_000 else 120_000
  }

  /** What the probes find: a ping is enough, and TLS is tried only in a usual check. */
  function Probed(f: Findings, kind: Next): Option<bool> {
    if f.ping != Some(false) then f.ping else if kind != Usual then Some(false) else f.tls
  }

  /** All of the evidence, at the instant `seen`: 30 seconds undisturbed, a handshake
      no older than 180, and bytes received. */
  predicate Evident(f: Findings, up: nat, disturbed: nat, rxGrew: bool, seen: nat) {
    seen >= up + 30_000 && seen >= disturbed + 30_000 && rxGrew && f.handshake.Some? && f.handshake.value <= 180
  }

  /** The counters, read, are one more sample, and a cut is what all of them say. */
  ghost predicate Counted(counters: Option<(nat, nat)>, at: nat, was: seq<Cut.Sample>, seen: seq<Cut.Sample>, cut: bool) {
    if counters.None? then !cut && seen == was
    else
      var last := Cut.Sample(at, counters.value.0, counters.value.1);
      seen == was + [last] && (cut <==> Cut.FullVerdict(seen, last))
  }

  /** Nothing moves while it is Up; else it is Up since now, and checked in five
      seconds. */
  predicate Renewed(still: bool, since: Option<nat>, checkAt: nat, now: nat, since': Option<nat>, checkAt': nat) {
    if still then since' == since && checkAt' == checkAt else since' == Some(now) && checkAt' == now + 5_000
  }

  /** More bytes received than at the last check. */
  predicate Grew(received: Option<nat>, had: Option<nat>) {
    received.Some? && had.Some? && received.value > had.value
  }

  /** Up before it and not in doubt during it. */
  predicate Still(f: Findings, health: Health, pinged: bool) {
    health == Up && (f.ping == Some(true) || !pinged)
  }

  /** What a check that finds nothing makes of it, with the patience as it is. */
  function Judged(f: Findings, network: Option<nat>, verdict: Degraded.Verdict): Outcome {
    match verdict
    case Left(_) => LeftDegraded
    case Restart => SpentPatience
    case Down => if f.direct.None? then CutShort else if f.direct.value && network.Some? then Dead else KeptOffline
  }

  /** What a check of a tunnel up since `up` comes to, and what it makes of the
      patience: the probes found nothing out; something; or nothing. */
  predicate ComesTo(f: Findings, kind: Next, network: Option<nat>, up: nat, disturbed: nat, rxGrew: bool, seen: nat, judged: nat,
                    had: Degraded.Patience, o: Outcome, has: Degraded.Patience)
  {
    match Probed(f, kind)
    case None => o == CutShort && has == had
    case Some(carries) =>
      if carries then o == Carries && has == Degraded.Passed(had)
      else
        seen <= judged
        && var (p, verdict) := Degraded.Failed(had, judged, Evident(f, up, disturbed, rxGrew, seen));
           has == p && o == Judged(f, network, verdict)
  }

  /** The same of each end: which it is, from what was found. */
  lemma OutcomeMeans(f: Findings, kind: Next, network: Option<nat>, up: nat, disturbed: nat, rxGrew: bool, seen: nat, judged: nat,
                     had: Degraded.Patience, o: Outcome, has: Degraded.Patience)
    requires ComesTo(f, kind, network, up, disturbed, rxGrew, seen, judged, had, o, has)
    ensures o.Carries? <==> f.ping == Some(true) || (f.ping == Some(false) && kind == Usual && f.tls == Some(true))
    ensures o.Carries? ==> has == Degraded.Patience(had.grace, had.grace, None)
    ensures o.LeftDegraded? || o.SpentPatience? ==>
      seen >= up + 30_000 && seen >= disturbed + 30_000 && rxGrew && f.handshake.Some? && f.handshake.value <= 180
    ensures o.SpentPatience? ==> had.since.Some? && had.patience > 0 && judged >= had.since.value + had.patience
    ensures o.LeftDegraded? ==> has.patience == had.patience && has.since == Some(if had.since.Some? then had.since.value else judged)
    ensures o.Dead? ==> f.direct == Some(true) && network.Some? && has.since.None?
    ensures o.KeptOffline? ==> (f.direct == Some(false) || network.None?) && has.since.None?
    ensures o.CutShort? ==> f.ping.None? || (f.ping == Some(false) && (f.direct.None? || (kind == Usual && f.tls.None?)))
    ensures !o.NoTunnel?
  {
  }

  lemma PauseMeans(failures: nat)
    ensures failures <= 4 ==> Pause(failures) == 0
    ensures Pause(5) == 30_000 && Pause(6) == 60_000 && (failures >= 7 ==> Pause(failures) == 120_000)
  {
  }

  class Link {
    var clock: nat
    var tunnel: Option<Tunnel>
    var generation: nat
    var failures: nat
    var connectAt: Option<nat>
    var confirmed: Option<nat>
    var freshUntil: nat
    var checkAt: nat
    const cuts: Cut.Detector
    var cutQuietUntil: nat
    var next: Next
    var offline: bool
    /** The network, by some number; none without one. */
    var network: Option<nat>
    var wakes: nat
    var works: Option<nat>
    var health: Health
    const degradation: Degraded.Degradation
    var afterDegraded: bool
    var rxSeen: Option<nat>
    var disturbedAt: nat
    var since: Option<nat>
    var pinged: bool
    /** The server, when the settings write it as an address. */
    const fixedEndpoint: Option<Ip>
    var endpoint: Option<Ip>
    /** Every state told so far, the newest last; the program keeps only that. */
    var told: seq<LinkState>

    constructor (now: nat, endpoint: Option<Ip>, network: Option<nat>, wakes: nat, grace: nat)
      ensures Consistent() && fresh(cuts) && fresh(degradation)
      ensures connectAt == Some(now) && health == Down && told == [UNKNOWN]
    {
      clock, tunnel, generation, failures, connectAt, confirmed := now, None, 0, 0, Some(now), None;
      freshUntil, checkAt, cutQuietUntil, next, offline := now, now, now, Usual, false;
      this.network, this.wakes, works, health := network, wakes, None, Down;
      afterDegraded, rxSeen, disturbedAt, since, pinged := false, None, now, None, false;
      fixedEndpoint, this.endpoint := endpoint, endpoint;
      told := [UNKNOWN];
      cuts := new Cut.Detector();
      degradation := new Degraded.Degradation(grace);
    }

    function State(): LinkState
      reads this
    {
      LinkState(if tunnel.Some? then Some(Iface(tunnel.value.name, tunnel.value.index)) else None,
                generation, health, works.Some?, since, endpoint)
    }

    function Published(): LinkState
      requires told != []
      reads this
    {
      told[|told| - 1]
    }

    /** What every reachable state keeps: `since` goes with Up, anything but Down
        needs a tunnel, and a due connect means Down. */
    predicate Sane()
      reads this
    {
      (since.Some? <==> health == Up) && (health != Down ==> tunnel.Some?) && (connectAt.Some? ==> health == Down)
    }

    ghost predicate Backed()
      reads this, cuts
    {
      told != [] && Published().generation <= generation
      && cuts.Valid() && (cuts.seen != [] ==> cuts.seen[|cuts.seen| - 1].at <= clock)
    }

    ghost predicate Consistent()
      reads this, cuts
    {
      Sane() && Backed()
    }

    /** Time as it is now: not before it was. */
    method Now() returns (now: nat)
      modifies this`clock
      ensures now == clock >= old(clock)
    {
      var passed: nat :| true;
      clock := clock + passed;
      now := clock;
    }

    /** One more state told, and only when it differs from the newest. */
    method Sync()
      requires told != []
      modifies this`told
      ensures told != [] && Published() == State()
      ensures told == if old(State()) == old(Published()) then old(told) else old(told) + [State()]
    {
      if State() != Published() {
        told := told + [State()];
      }
    }

    method FreshFrom(now: nat)
      modifies this`freshUntil, this`checkAt
      ensures freshUntil == now + 120_000 && checkAt == if old(checkAt) <= now then old(checkAt) else now
    {
      freshUntil := now + FRESH;
      checkAt := if checkAt <= now then checkAt else now;
    }

    /** Moves a connect that is due, to now; never makes one due. */
    method RetryNow(now: nat)
      modifies this`failures, this`connectAt
      ensures connectAt == (if old(connectAt).Some? then Some(now) else None)
      ensures failures == if old(connectAt).Some? then 0 else old(failures)
    {
      if connectAt.Some? {
        failures := 0;
        connectAt := Some(now);
      }
    }

    method WokeUp(now: nat)
      requires Consistent()
      modifies this`disturbedAt, this`freshUntil, this`checkAt, this`next, this`failures, this`connectAt, this`works
      ensures Consistent() && works == Some(now) && disturbedAt == now && next == Woke && checkAt <= now
      ensures freshUntil == now + 120_000 && failures == if old(connectAt).Some? then 0 else old(failures)
      ensures connectAt == if old(connectAt).Some? then Some(now) else None
    {
      disturbedAt := now;
      FreshFrom(now);
      next := Woke;
      RetryNow(now);
      works := Some(now);
    }

    method FollowNetwork(n: Option<nat>)
      requires Consistent()
      modifies this`clock, this`network, this`disturbedAt, this`freshUntil, this`checkAt, this`failures, this`connectAt, this`works
      ensures Consistent() && clock >= old(clock) && network == n && works == Some(disturbedAt) && checkAt <= clock
      ensures old(clock) <= disturbedAt && freshUntil == disturbedAt + 120_000 && disturbedAt == clock
      ensures connectAt == if old(connectAt).Some? && n.Some? then Some(disturbedAt) else old(connectAt)
      ensures failures == if old(connectAt).Some? && n.Some? then 0 else old(failures)
    {
      network := n;
      var now := Now();
      disturbedAt := now;
      FreshFrom(now);
      if network.Some? {
        RetryNow(now);
      }
      works := Some(now);
    }

    /** The only way to Up; `since` and the next checks move unless it was Up. */
    method Healthy(now: nat)
      requires Consistent() && tunnel.Some? && connectAt.None?
      modifies this`health, this`since, this`freshUntil, this`checkAt, degradation
      ensures Consistent() && health == Up
      ensures since == if old(health) == Up then old(since) else Some(now)
      ensures checkAt == (if old(health) == Up then old(checkAt) else now + 5_000)
      ensures freshUntil == if old(health) == Up then old(freshUntil) else now + 120_000
      ensures degradation.Value() == Degraded.Passed(old(degradation.Value()))
    {
      degradation.CheckPassed();
      if health != Up || since.None? {
        since := Some(now);
        FreshFrom(now);
        checkAt := now + FAST;
      }
      health := Up;
    }

    method Unhealthy()
      modifies this`health, this`since
      ensures health == Down && since.None?
    {
      health := Down;
      since := None;
    }

    /** Down with a connect due now; the caller still has to tell. */
    method Lost()
      requires Backed()
      modifies this`clock, this`health, this`since, this`confirmed, this`connectAt
      ensures Consistent() && clock >= old(clock) && health == Down && connectAt == Some(clock) && confirmed.None?
    {
      var now := Now();
      Unhealthy();
      confirmed := None;
      connectAt := Some(now);
    }

    method TakeDown()
      requires Consistent()
      modifies this`tunnel, this`health, this`since, this`confirmed, this`told
      ensures Consistent() && tunnel.None? && health == Down && confirmed.None?
      ensures Published() == State()
    {
      tunnel := None;
      Unhealthy();
      confirmed := None;
      Sync();
    }

    /** The pause before the next connect as a function of the failures so far:
        none four times, then 30, 60 and ever 120 seconds. */
    method ConnectFailed()
      requires Consistent()
      modifies this`clock, this`health, this`since, this`failures, this`connectAt
      ensures Consistent() && clock >= old(clock) && health == Down
      ensures failures == old(failures) + 1 && connectAt == Some(clock + Pause(failures))
    {
      Unhealthy();
      failures := failures + 1;
      var now := Now();
      if failures < FAST_TRIES {
        connectAt := Some(now);
        return;
      }
      var pauses := [30_000, 60_000, 120_000];
      var i := failures - FAST_TRIES;
      connectAt := Some(now + if i < |pauses| then pauses[i] else pauses[|pauses| - 1]);
    }

    /** The bytes received, when the counters can be read: more than there were? */
    method RxGrew(received: Option<nat>) returns (grew: bool)
      requires Consistent()
      modifies this`rxSeen
      ensures Consistent() && rxSeen == if received.Some? then received else old(rxSeen)
      ensures grew == Grew(received, old(rxSeen))
    {
      if received.None? {
        return false;
      }
      grew := rxSeen.Some? && received.value > rxSeen.value;
      rxSeen := received;
    }

    /** Tells the server and nothing else of the new tunnel: what is published has
        the new generation with whatever interface there was. */
    method Reach(f: Findings) returns (ok: bool)
      requires Consistent() && connectAt.Some? && Published().generation < generation
      modifies this`clock, this`endpoint, this`told, this`health, this`since, this`failures, this`connectAt
      ensures Consistent() && clock >= old(clock) && health == Down && connectAt.Some?
      ensures ok <==> fixedEndpoint.Some? || (network.Some? && f.server.Some?)
      ensures ok ==> endpoint == (if fixedEndpoint.Some? then fixedEndpoint else f.server)
                     && told == old(told) + [State()] && failures == old(failures) && connectAt == old(connectAt)
      ensures !ok ==> endpoint == old(endpoint) && told == old(told) && failures == old(failures) + 1
                      && connectAt == Some(clock + Pause(failures))
    {
      var resolved := if fixedEndpoint.Some? then fixedEndpoint else if network.Some? then f.server else None;
      if resolved.None? {
        ConnectFailed();
        return false;
      }
      endpoint := resolved;
      Sync();
      ok := true;
    }

    /** A new process with its interface up in place of the old one, and told;
        else a failure. */
    method Raise(f: Findings) returns (ok: bool)
      requires Consistent() && connectAt.Some? && health == Down && Published() == State()
      modifies this`clock, this`tunnel, this`rxSeen, this`pinged, this`told, this`health, this`since, this`failures, this`connectAt
      ensures Consistent() && clock >= old(clock) && health == Down && connectAt.Some?
      ensures ok <==> f.came.Some?
      ensures ok ==> tunnel == f.came && rxSeen == f.received && !pinged && failures == old(failures) && connectAt == old(connectAt)
      ensures !ok ==> tunnel == old(tunnel) && failures == old(failures) + 1 && connectAt == Some(clock + Pause(failures))
      ensures if State().iface == old(State()).iface then told == old(told) else told == old(told) + [State()]
    {
      if f.came.None? {
        ConnectFailed();
        return false;
      }
      tunnel := f.came;
      rxSeen := f.received;
      Unhealthy();
      pinged := false;
      Sync();
      ok := true;
    }

    /** A new process, its interface up or not, and its first TLS. The hand-over
        as it is told: the old tunnel's interface under the new generation
        first, then the new tunnel's interface under the same one. */
    method Connect(f: Findings) returns (ghost first: LinkState, ghost second: LinkState)
      requires Consistent() && connectAt.Some?
      modifies this, cuts, degradation
      ensures Consistent() && clock >= old(clock) && generation > old(generation) && !afterDegraded
      ensures health == Up ==> connectAt.None? && confirmed.Some? && works.None?
      // Only the one reconnect of a degraded tunnel is not tried again.
      ensures connectAt.None? ==> health == Up || (old(afterDegraded) && checkAt == clock + 30_000)
      ensures State().iface != old(State()).iface ==>
        told == old(told) + [first, second] && first.generation == second.generation == generation
        && first.iface == old(State()).iface && second.iface == State().iface
        && first.health == Down && second.health == Down
      ensures if (fixedEndpoint.None? && !(old(network).Some? && f.server.Some?)) || f.came.None? then
                tunnel == old(tunnel) && degradation.Value() == old(degradation.Value())
                && health == Down && failures == old(failures) + 1 && connectAt == Some(clock + Pause(failures))
              else
                tunnel == f.came && Tried(old(afterDegraded), f, old(failures), old(degradation.Value()))
    {
      var after := afterDegraded;
      afterDegraded := false;
      var step: nat :| true;
      // Numbered with every tunnel of the process: only ever larger.
      generation := generation + 1 + step;
      var reached := Reach(f);
      first, second := State(), State();
      if !reached {
        return;
      }
      second := Replace(after, f);
    }

    /** The new process in place of the old one. */
    method Replace(after: bool, f: Findings) returns (ghost second: LinkState)
      requires Consistent() && connectAt.Some? && health == Down && Published() == State()
      modifies this`clock, this`tunnel, this`rxSeen, this`pinged, this`told, this`connectAt, this`confirmed, this`health, this`since,
               this`freshUntil, this`checkAt, this`next, this`offline, this`works, this`failures, this`network, this`disturbedAt,
               cuts, degradation
      ensures Consistent() && clock >= old(clock)
      ensures health == Up ==> connectAt.None? && confirmed.Some? && works.None?
      ensures connectAt.None? ==> health == Up || (after && checkAt == clock + 30_000)
      ensures State().iface != old(State()).iface ==>
        told == old(told) + [second] && second.generation == generation && second.iface == State().iface && second.health == Down
      ensures if f.came.None? then
                tunnel == old(tunnel) && degradation.Value() == old(degradation.Value())
                && health == Down && failures == old(failures) + 1 && connectAt == Some(clock + Pause(failures))
              else tunnel == f.came && Tried(after, f, old(failures), old(degradation.Value()))
    {
      var raised := Raise(f);
      second := State();
      if raised {
        Confirm(after, f);
      }
    }

    /** What the first TLS through a new tunnel leaves: a tunnel that is up; or with
        no TLS a failure the more, and the next connect after a pause - but when
        it was the one reconnect of a degraded tunnel, no connect, a check past
        the young window, and more patience; or, cut short, the next connect at
        once. */
    ghost predicate Tried(after: bool, f: Findings, hadFailed: nat, had: Degraded.Patience)
      reads this, cuts, degradation
    {
      match f.confirm
      case Some(ok) =>
        if ok then
          health == Up && since == Some(clock) && connectAt.None? && confirmed == Some(clock) && works.None? && !offline
          && checkAt == clock + 5_000 && freshUntil == clock + 120_000 && next == Usual && cuts.seen == []
          && failures == hadFailed && degradation.Value() == Degraded.Passed(had)
        else if after then
          health == Down && connectAt.None? && checkAt == clock + 30_000 && next == Usual
          && failures == hadFailed && degradation.Value() == Degraded.Harder(had)
        else
          health == Down && failures == hadFailed + 1 && connectAt == Some(clock + Pause(failures)) && degradation.Value() == had
      case None =>
        health == Down && connectAt.Some? && connectAt.value <= clock && network == f.moved && works.Some?
        && failures == (if f.moved.Some? then 0 else hadFailed) && degradation.Value() == had
    }

    /** The tunnel carries: up from now on, a new window, no connect due. */
    method Confirmed(now: nat)
      requires Consistent() && tunnel.Some? && now == clock
      modifies this`connectAt, this`confirmed, this`health, this`since, this`freshUntil, this`checkAt, this`next,
               this`offline, this`works, cuts, degradation
      ensures Consistent() && health == Up && connectAt.None? && confirmed == Some(now) && works.None? && !offline && next == Usual
      ensures cuts.seen == [] && degradation.Value() == Degraded.Passed(old(degradation.Value()))
      ensures old(health) != Up ==> since == Some(now) && checkAt == now + 5_000 && freshUntil == now + 120_000
    {
      connectAt := None;
      confirmed := Some(now);
      Healthy(now);
      cuts.Clear();
      next := Usual;
      offline := false;
      works := None;
    }

    /** The first TLS through a new tunnel. */
    method Confirm(after: bool, f: Findings)
      requires Consistent() && connectAt.Some? && tunnel.Some?
      modifies this`clock, this`connectAt, this`confirmed, this`health, this`since, this`freshUntil, this`checkAt, this`next,
               this`offline, this`works, this`failures, this`network, this`disturbedAt, cuts, degradation
      ensures Consistent() && clock >= old(clock) && Tried(after, f, old(failures), old(degradation.Value()))
      ensures f.confirm == Some(true) ==>
        health == Up && connectAt.None? && checkAt == clock + 5_000 && degradation.patience == degradation.grace
      ensures f.confirm == Some(false) && after ==>
        connectAt.None? && checkAt == clock + 30_000 && failures == old(failures)
        && degradation.patience == if 2 * old(degradation.patience) < 8 * old(degradation.grace) then 2 * old(degradation.patience)
                                   else 8 * old(degradation.grace)
      ensures f.confirm == Some(false) && !after ==> connectAt.Some? && connectAt.value >= clock && failures == old(failures) + 1
      ensures f.confirm.None? ==> connectAt.Some? && connectAt.value <= clock && network == f.moved
    {
      var now := Now();
      match f.confirm {
        case Some(ok) =>
          if ok {
            Confirmed(now);
          } else if after {
            // No failure is counted, and no further connect is due.
            degradation.MakeHarder();
            connectAt := None;
            checkAt := now + Degraded.YOUNG;
            next := Usual;
          } else {
            ConnectFailed();
          }
        case None =>
          connectAt := Some(now);
          FollowNetwork(f.moved);
      }
    }

    /** A probe cut short says nothing: asked again. */
    method Aborted(again: Next, moved: Option<nat>)
      requires Consistent()
      modifies this`clock, this`next, this`checkAt, this`network, this`disturbedAt, this`freshUntil, this`failures,
               this`connectAt, this`works
      ensures Consistent() && clock >= old(clock) && next == again && checkAt <= clock && works.Some? && health == old(health)
      ensures network == moved && freshUntil == disturbedAt + 120_000 && old(clock) <= disturbedAt <= clock
      ensures old(connectAt).None? ==> connectAt.None? && failures == old(failures)
    {
      next := again;
      var now := Now();
      checkAt := now;
      FollowNetwork(moved);
    }

    /** The ping, and the TLS try where it is made; none when cut short. */
    method Probe(kind: Next, f: Findings) returns (found: Option<bool>)
      requires Consistent() && connectAt.None?
      modifies this`pinged, this`health, this`since, this`told
      ensures Consistent() && found == Probed(f, kind) && pinged == (old(pinged) || f.ping == Some(true))
      ensures if f.ping == Some(false) && kind == Usual && old(pinged) && old(health) == Up
              then health == Suspect && Published() == State()
              else health == old(health) && since == old(since) && told == old(told)
      ensures found == Some(true) ==> (health == Up <==> Still(f, old(health), old(pinged)))
    {
      if f.ping.None? {
        return None;
      }
      if f.ping.value {
        pinged := true;
        return Some(true);
      }
      if kind != Usual {
        return Some(false);
      }
      if pinged && health == Up {
        // Published before the next wait, so rules see Suspect during it.
        health := Suspect;
        since := None;
        Sync();
      }
      found := f.tls;
    }

    /** A check that found the tunnel carrying. */
    method Passed(kind: Next)
      requires Consistent() && connectAt.None? && tunnel.Some?
      modifies this`clock, this`cutQuietUntil, this`health, this`since, this`freshUntil, this`checkAt, this`offline,
               this`failures, degradation
      ensures Consistent() && clock >= old(clock) && health == Up && !offline
      ensures cutQuietUntil == if kind == CutNext then old(checkAt) else old(cutQuietUntil)
      ensures failures == if confirmed.Some? && clock >= confirmed.value + 120_000 then 0 else old(failures)
      ensures Renewed(old(health) == Up, old(since), old(checkAt), clock, since, checkAt)
      ensures degradation.Value() == Degraded.Passed(old(degradation.Value()))
    {
      if kind == CutNext {
        cutQuietUntil := checkAt;
      }
      var now := Now();
      Healthy(now);
      offline := false;
      if failures > 0 && confirmed.Some? && now >= confirmed.value + STABLE {
        failures := 0;
      }
    }

    /** A check that found nothing, through the tunnel or past it. */
    method NothingFound(rxGrew: bool, f: Findings)
      returns (o: Outcome, ghost seen: nat, ghost judged: nat, ghost verdict: Degraded.Verdict)
      requires Consistent() && connectAt.None? && tunnel.Some?
      modifies this`clock, this`health, this`since, this`afterDegraded, this`confirmed, this`connectAt, this`told, this`next,
               this`checkAt, this`network, this`disturbedAt, this`freshUntil, this`failures, this`works, this`offline, degradation
      ensures Consistent() && Ended(o)
      ensures old(clock) <= seen <= judged <= clock && o == Judged(f, old(network), verdict)
      ensures (degradation.Value(), verdict)
              == Degraded.Failed(old(degradation.Value()), judged, Evident(f, old(tunnel).value.upAt, old(disturbedAt), rxGrew, seen))
      ensures o.CutShort? ==> next == Usual && network == f.moved
      ensures !o.CutShort? ==> checkAt == old(checkAt) && next == old(next) && works == old(works)
    {
      var settled;
      settled, seen, judged, verdict := LeftAlone(rxGrew, f);
      if settled {
        o := if connectAt.None? then LeftDegraded else SpentPatience;
        return;
      }
      o := PastIt(f);
    }

    /** Not carrying: down, and told so; then the probe past the tunnel. */
    method PastIt(f: Findings) returns (o: Outcome)
      requires Consistent() && connectAt.None? && tunnel.Some?
      modifies this`clock, this`health, this`since, this`confirmed, this`connectAt, this`told, this`next,
               this`checkAt, this`network, this`disturbedAt, this`freshUntil, this`failures, this`works, this`offline
      ensures Consistent() && clock >= old(clock) && Ended(o) && o == Judged(f, old(network), Degraded.Down)
      ensures o.CutShort? ==> next == Usual && network == f.moved
      ensures !o.CutShort? ==> checkAt == old(checkAt) && next == old(next) && works == old(works)
    {
      Unhealthy();
      // Down is published whatever the direct probe finds.
      Sync();
      if f.direct.None? {
        Aborted(Usual, f.moved);
        return CutShort;
      }
      if f.direct.value && network.Some? {
        Lost();
        o := Dead;
      } else {
        offline := true;
        o := KeptOffline;
      }
    }

    /** What each end of a check leaves. A tunnel is given up, and its connect due
        at once, only when it is dead with the network there, or out of
        patience; whatever was found, the wake or the new network is answered,
        but by a check cut short. */
    predicate Ended(o: Outcome)
      reads this
    {
      match o
      case NoTunnel => tunnel.None? && connectAt == Some(clock)
      case CutShort => works.Some? && connectAt.None? && checkAt <= clock
      case Carries => health == Up && !offline && connectAt.None?
      case LeftDegraded => health == Degraded && connectAt.None?
      case SpentPatience => health == Down && connectAt == Some(clock) && afterDegraded
      case Dead => health == Down && connectAt == Some(clock)
      case KeptOffline => health == Down && connectAt.None? && offline && tunnel.Some?
    }

    /** A check of a tunnel there is; what was to come next is known to it. */
    method CheckTunnel(kind: Next, rxGrew: bool, f: Findings)
      returns (o: Outcome, ghost seen: nat, ghost judged: nat)
      requires Consistent() && connectAt.None? && tunnel.Some?
      modifies this`clock, this`health, this`since, this`afterDegraded, this`confirmed, this`connectAt, this`told, this`next,
               this`checkAt, this`network, this`disturbedAt, this`freshUntil, this`failures, this`works, this`offline,
               this`pinged, this`cutQuietUntil, degradation
      ensures Consistent() && clock >= old(clock) && Ended(o)
      ensures old(clock) <= seen && judged <= clock
      ensures ComesTo(f, kind, old(network), old(tunnel).value.upAt, old(disturbedAt), rxGrew, seen, judged,
                      old(degradation.Value()), o, degradation.Value())
      ensures o.CutShort? ==> network == f.moved && next == if Probed(f, kind).None? then kind else Usual
      ensures o.Carries? ==>
        Renewed(Still(f, old(health), old(pinged)), old(since), old(checkAt), clock, since, checkAt)
      ensures !o.CutShort? ==> works.None? && next == old(next)
      ensures !o.CutShort? && !o.Carries? ==> checkAt == old(checkAt)
    {
      seen, judged := clock, clock;
      var found := Probe(kind, f);
      if found.None? {
        Aborted(kind, f.moved);
        o := CutShort;
        return;
      }
      ghost var verdict;
      o, seen, judged, verdict := Conclude(kind, found.value, rxGrew, f);
    }

    /** The verdict on what was found. */
    method Conclude(kind: Next, found: bool, rxGrew: bool, f: Findings)
      returns (o: Outcome, ghost seen: nat, ghost judged: nat, ghost verdict: Degraded.Verdict)
      requires Consistent() && connectAt.None? && tunnel.Some?
      modifies this`clock, this`health, this`since, this`afterDegraded, this`confirmed, this`connectAt, this`told, this`next,
               this`checkAt, this`network, this`disturbedAt, this`freshUntil, this`failures, this`works, this`offline,
               this`cutQuietUntil, degradation
      ensures Consistent() && Ended(o) && old(clock) <= seen && judged <= clock && old(clock) <= clock
      ensures found ==> o == Carries && degradation.Value() == Degraded.Passed(old(degradation.Value()))
                        && Renewed(old(health) == Up, old(since), old(checkAt), clock, since, checkAt)
      ensures !found ==> seen <= judged && o == Judged(f, old(network), verdict)
                         && (degradation.Value(), verdict) == Degraded.Failed(old(degradation.Value()), judged,
                                                                              Evident(f, old(tunnel).value.upAt, old(disturbedAt), rxGrew, seen))
      ensures o.CutShort? ==> network == f.moved && next == Usual
      ensures !o.CutShort? ==> works.None? && next == old(next)
      ensures !o.CutShort? && !o.Carries? ==> checkAt == old(checkAt)
    {
      works := None;
      seen, judged, verdict := clock, clock, Degraded.Down;
      if found {
        Passed(kind);
        o := Carries;
      } else {
        o, seen, judged, verdict := NothingFound(rxGrew, f);
      }
    }

    /** What came next is known, and a new window begun. */
    method Begin(received: Option<nat>) returns (kind: Next, rxGrew: bool)
      requires Consistent()
      modifies this`rxSeen, this`next, cuts
      ensures Consistent() && cuts.seen == [] && kind == old(next) && next == Usual
      ensures rxSeen == (if received.Some? then received else old(rxSeen)) && rxGrew == Grew(received, old(rxSeen))
    {
      rxGrew := RxGrew(received);
      kind := next;
      next := Usual;
      cuts.Clear();
    }

    /** A check of the tunnel there is, from the start. */
    method CheckThere(f: Findings) returns (o: Outcome, ghost seen: nat, ghost judged: nat)
      requires Consistent() && connectAt.None? && tunnel.Some?
      modifies this`clock, this`health, this`since, this`afterDegraded, this`confirmed, this`connectAt, this`told, this`next,
               this`checkAt, this`network, this`disturbedAt, this`freshUntil, this`failures, this`works, this`offline,
               this`pinged, this`cutQuietUntil, this`rxSeen, degradation, cuts
      ensures Consistent() && Ended(o) && old(clock) <= seen && judged <= clock && old(clock) <= clock && cuts.seen == []
      ensures rxSeen == if f.received.Some? then f.received else old(rxSeen)
      ensures ComesTo(f, old(next), old(network), old(tunnel).value.upAt, old(disturbedAt), Grew(f.received, old(rxSeen)), seen, judged,
                      old(degradation.Value()), o, degradation.Value())
      ensures o.CutShort? ==> network == f.moved && next == if Probed(f, old(next)).None? then old(next) else Usual
      ensures o.Carries? ==> Renewed(Still(f, old(health), old(pinged)), old(since), old(checkAt), clock, since, checkAt)
      ensures !o.CutShort? ==> works.None? && next == Usual
      ensures !o.CutShort? && !o.Carries? ==> checkAt == old(checkAt)
    {
      var kind, rxGrew := Begin(f.received);
      o, seen, judged := CheckTunnel(kind, rxGrew, f);
    }

    /** A check, when one is due and no connect is; `at` is when it was begun. */
    method Check(f: Findings)
      returns (o: Outcome, ghost at: nat, ghost seen: nat, ghost judged: nat)
      requires Consistent() && connectAt.None?
      modifies this`clock, this`health, this`since, this`afterDegraded, this`confirmed, this`connectAt, this`told, this`next,
               this`checkAt, this`network, this`disturbedAt, this`freshUntil, this`failures, this`works, this`offline,
               this`pinged, this`cutQuietUntil, this`rxSeen, degradation, cuts
      ensures Consistent() && Ended(o) && old(clock) <= at <= clock && cuts.seen == (if o.NoTunnel? then old(cuts.seen) else [])
      ensures o.NoTunnel? <==> old(tunnel).None?
      ensures if o.NoTunnel? || o.Dead? || o.SpentPatience? then connectAt == Some(clock) && health == Down else connectAt.None?
      ensures o.LeftDegraded? ==> health == Degraded
      ensures o.KeptOffline? ==> health == Down && offline
      ensures o.NoTunnel? ==> works.None? && degradation.Value() == old(degradation.Value())
      ensures !o.NoTunnel? ==> tunnel == old(tunnel) && rxSeen == if f.received.Some? then f.received else old(rxSeen)
      ensures !o.NoTunnel? ==> at <= seen && judged <= clock
      ensures !o.NoTunnel? ==>
        ComesTo(f, old(next), old(network), old(tunnel).value.upAt, old(disturbedAt), Grew(f.received, old(rxSeen)), seen, judged,
                old(degradation.Value()), o, degradation.Value())
      ensures o.CutShort? ==> network == f.moved && next == if Probed(f, old(next)).None? then old(next) else Usual
      ensures !o.CutShort? && !o.Carries? ==> checkAt == at + if at < old(freshUntil) then 5_000 else 30_000
      ensures !o.CutShort? ==> works.None?
      ensures !o.CutShort? && !o.NoTunnel? ==> next == Usual
      ensures o.Carries? ==>
        Renewed(Still(f, old(health), old(pinged)), old(since), at + if at < old(freshUntil) then 5_000 else 30_000, clock, since, checkAt)
    {
      var now := Now();
      at, seen, judged := now, now, now;
      checkAt := now + if now < freshUntil then FAST else SLOW;
      if tunnel.None? {
        works := None;
        Lost();
        o := NoTunnel;
        return;
      }
      o, seen, judged := CheckThere(f);
    }

    /** The connect or the check that is due, if one is. */
    method Act(f: Findings) returns (ghost did: Did)
      requires Consistent()
      modifies this, cuts, degradation
      ensures Consistent() && clock >= old(clock)
      ensures did.Rested? || did.Connected? || did.Checked?
      ensures did.Rested? ==> generation == old(generation) && State() == old(State()) && told == old(told) && connectAt == old(connectAt) && checkAt == old(checkAt)
                              && if connectAt.Some? then old(clock) < connectAt.value else old(clock) < checkAt
      ensures did.Connected? ==> old(connectAt).Some? && clock >= old(connectAt).value && generation > old(generation)
      ensures did.Checked? ==> old(connectAt).None? && clock >= old(checkAt) && generation == old(generation) && Ended(did.outcome)
    {
      did := Rested;
      var now := Now();
      if connectAt.Some? {
        if now >= connectAt.value {
          var _, _ := Connect(f);
          did := Connected;
        }
      } else if now >= checkAt {
        var o, _, _, _ := Check(f);
        did := Checked(o);
      }
    }

    /** `degraded`: true only on all of the evidence, taken at some instant `seen`
        of the wait for it - an undisturbed young window, a handshake no older
        than 180 seconds, and bytes received. */
    method LeftAlone(rxGrew: bool, f: Findings)
      returns (settled: bool, ghost seen: nat, ghost judged: nat, ghost verdict: Degraded.Verdict)
      requires Consistent() && connectAt.None? && tunnel.Some?
      modifies this`clock, this`health, this`since, this`afterDegraded, this`confirmed, this`connectAt, degradation
      ensures Consistent() && old(clock) <= seen <= judged <= clock
      ensures !settled ==> connectAt.None? && health == old(health) && since == old(since)
      ensures settled ==> if connectAt.None? then health == Degraded else connectAt == Some(clock) && afterDegraded
      ensures settled ==> Evident(f, tunnel.value.upAt, disturbedAt, rxGrew, seen)
      ensures (degradation.Value(), verdict) == Degraded.Failed(old(degradation.Value()), judged, Evident(f, tunnel.value.upAt, disturbedAt, rxGrew, seen))
      ensures (settled <==> !verdict.Down?) && (settled ==> (connectAt.None? <==> verdict.Left?))
    {
      var at := Now();
      var age := Degraded.Age(tunnel.value.upAt, disturbedAt, at);
      var carrying := Degraded.Carrying(age, f.handshake, rxGrew);
      Degraded.CarryingMeans(tunnel.value.upAt, disturbedAt, at, f.handshake, rxGrew);
      var now := Now();
      seen, judged := at, now;
      var v := degradation.CheckFailed(now, carrying);
      verdict := v;
      match v {
        case Left(_) =>
          health := Degraded;
          since := None;
          settled := true;
        case Restart =>
          afterDegraded := true;
          Lost();
          settled := true;
        case Down =>
          settled := false;
      }
    }

    /** `cut_seen`: the counters read, and what they say with those before. */
    method CutSeen(counters: Option<(nat, nat)>) returns (cut: bool)
      requires Consistent()
      modifies this`clock, cuts
      ensures Consistent() && clock >= old(clock)
      ensures Counted(if tunnel.Some? then counters else None, clock, old(cuts.seen), cuts.seen, cut)
    {
      if tunnel.None? || counters.None? {
        return false;
      }
      var now := Now();
      cut := cuts.Add(now, counters.value.0, counters.value.1);
    }

    /** What the watch and the network say, taken in. */
    method TakeIn(ctl: Ctl, net: Option<nat>)
      requires Consistent()
      modifies this`clock, this`wakes, this`disturbedAt, this`freshUntil, this`checkAt, this`next, this`failures, this`connectAt,
               this`works, this`network
      ensures Consistent() && clock >= old(clock) && wakes == ctl.wakes && network == net
      ensures ctl.wakes != old(wakes) || net != old(network) ==>
        works.Some? && old(clock) <= disturbedAt && freshUntil == disturbedAt + 120_000 && checkAt <= clock
      ensures next == if ctl.wakes != old(wakes) then Woke else old(next)
      ensures (old(connectAt).Some? <==> connectAt.Some?)
      ensures if old(connectAt).Some? && (ctl.wakes != old(wakes) || (net != old(network) && net.Some?))
              then connectAt.value <= clock && failures == 0 else connectAt == old(connectAt) && failures == old(failures)
      ensures ctl.wakes == old(wakes) && net == old(network) ==>
        works == old(works) && disturbedAt == old(disturbedAt) && freshUntil == old(freshUntil) && checkAt == old(checkAt)
    {
      var now := Now();
      if ctl.wakes != wakes {
        wakes := ctl.wakes;
        WokeUp(now);
      }
      if net != network {
        FollowNetwork(net);
      }
    }

    /** Wanted by no rule: no tunnel, and told so; a connect is due from then on. */
    method Idle()
      requires Consistent()
      modifies this`clock, this`tunnel, this`health, this`since, this`confirmed, this`told, this`connectAt, this`failures, this`works
      ensures Consistent() && clock >= old(clock) && Published() == State()
      ensures tunnel.None? && health == Down && failures == 0 && works.None? && connectAt == Some(clock)
    {
      if tunnel.Some? {
        TakeDown();
      }
      var now := Now();
      connectAt := Some(now);
      failures := 0;
      works := None;
      Sync();
    }

    /** The process may have exited; its interface and routes went with it. */
    method Reap(exited: bool)
      requires Consistent()
      modifies this`clock, this`tunnel, this`health, this`since, this`confirmed, this`connectAt, this`told
      ensures Consistent() && clock >= old(clock)
      ensures if old(tunnel).Some? && exited
              then tunnel.None? && connectAt.Some? && Published() == State()
                   && connectAt == if old(connectAt).Some? then old(connectAt) else Some(clock)
              else State() == old(State()) && connectAt == old(connectAt) && told == old(told)
    {
      if tunnel.Some? && exited {
        tunnel := None;
        if connectAt.None? {
          Lost();
        }
        Sync();
      }
    }

    /** The counters read, and a check at once if they say cut. */
    method Watch(counters: Option<(nat, nat)>) returns (ghost at: nat, ghost cut: bool)
      requires Consistent()
      modifies this`clock, this`next, this`checkAt, cuts
      ensures Consistent() && old(clock) <= at <= clock
      ensures Counted(if tunnel.Some? then counters else None, at, old(cuts.seen), cuts.seen, cut)
      ensures if cut then next == CutNext && at <= checkAt <= clock else next == old(next) && checkAt == old(checkAt)
    {
      var seen := CutSeen(counters);
      at, cut := clock, seen;
      if seen {
        next := CutNext;
        var now := Now();
        checkAt := now;
      }
    }

    /** A cut, suspected by the counters, is checked at once. */
    method WatchForCut(now: nat, counters: Option<(nat, nat)>) returns (ghost watched: bool, ghost at: nat, ghost cut: bool)
      requires Consistent() && now == clock
      modifies this`clock, this`next, this`checkAt, cuts
      ensures Consistent() && old(clock) <= at <= clock
      ensures watched <==> connectAt.None? && old(next) == Usual && health != Degraded && now >= cutQuietUntil
      ensures watched ==> Counted(if tunnel.Some? then counters else None, at, old(cuts.seen), cuts.seen, cut)
      ensures !watched ==> !cut && cuts.seen == old(cuts.seen)
      ensures if cut then next == CutNext && at <= checkAt <= clock else next == old(next) && checkAt == old(checkAt)
    {
      watched, at, cut := false, now, false;
      if connectAt.None? && next == Usual && health != Degraded && now >= cutQuietUntil {
        watched := true;
        at, cut := Watch(counters);
      }
    }

    /** A tunnel that is wanted: its process looked after, its counters watched, and
        what is due done and told. */
    method Work(f: Findings) returns (ghost did: Did)
      requires Consistent()
      modifies this, cuts, degradation
      ensures Consistent() && clock >= old(clock) && Published() == State()
      ensures did.Rested? || did.Connected? || did.Checked?
      ensures did.Rested? ==> if connectAt.Some? then old(clock) < connectAt.value else old(clock) < checkAt
      ensures did.Rested? && connectAt.None? ==> old(clock) < old(checkAt)
      ensures did.Rested? ==> connectAt == old(connectAt)
      ensures did.Connected? ==> generation > old(generation) && (old(connectAt).Some? || (f.exited && old(tunnel).Some?))
      ensures !did.Connected? ==> generation == old(generation)
      ensures did.Checked? ==> Ended(did.outcome) && old(connectAt).None? && !(f.exited && old(tunnel).Some?)
    {
      Reap(f.exited);
      did := Turn(f);
    }

    /** Its counters watched, and what is due done and told. */
    method Turn(f: Findings) returns (ghost did: Did)
      requires Consistent()
      modifies this, cuts, degradation
      ensures Consistent() && clock >= old(clock) && Published() == State()
      ensures did.Rested? || did.Connected? || did.Checked?
      ensures did.Rested? ==> connectAt == old(connectAt)
                              && if connectAt.Some? then old(clock) < connectAt.value else old(clock) < checkAt && old(clock) < old(checkAt)
      ensures did.Connected? ==> generation > old(generation) && old(connectAt).Some?
      ensures !did.Connected? ==> generation == old(generation)
      ensures did.Checked? ==> Ended(did.outcome) && old(connectAt).None?
    {
      var now := Now();
      var _, _, _ := WatchForCut(now, f.counters);
      did := Act(f);
      Sync();
    }

    /** Whatever `ctl` and `net` say at its start, and whatever is found on the way,
        the invariants hold at its end and the resolver knows the state. */
    method Step(ctl: Ctl, net: Option<nat>, f: Findings) returns (done: bool, ghost did: Did)
      requires Consistent()
      modifies this, cuts, degradation
      ensures Consistent() && clock >= old(clock)
      ensures Published() == State()
      ensures (done <==> ctl.stop) && (done <==> did.Stopped?) && (!ctl.stop && !ctl.wanted <==> did.Idled?)
      ensures done ==> tunnel.None? && health == Down
      ensures did.Idled? ==> tunnel.None? && health == Down && failures == 0 && works.None? && connectAt == Some(clock)
      // A connect or a check that is due is made, and none that is not.
      ensures did.Rested? ==> if connectAt.Some? then old(clock) < connectAt.value else old(clock) < checkAt
      ensures !did.Stopped? && !did.Idled? && ctl.wakes != old(wakes) ==> !did.Rested?
      ensures did.Connected? <==> generation != old(generation)
      ensures did.Connected? ==> generation > old(generation)
      ensures did.Connected? ==> old(connectAt).Some? || (f.exited && old(tunnel).Some?)
      ensures did.Checked? ==> Ended(did.outcome) && old(connectAt).None? && !(f.exited && old(tunnel).Some?)
    {
      if ctl.stop {
        TakeDown();
        return true, Stopped;
      }
      done := false;
      TakeIn(ctl, net);
      if !ctl.wanted {
        Idle();
        did := Idled;
        return;
      }
      did := Work(f);
    }
  }
}
