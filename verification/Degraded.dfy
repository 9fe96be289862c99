/** Restarts bounded in time: the clock and the patience of src/degraded.rs.
    Durations and instants are milliseconds. */
module Degraded {
  import opened Wrappers

  const YOUNG: nat := 30_000
  const HANDSHAKE_FRESH_SECS: nat := 180
  const GROWTH: nat := 8

  /** All three kinds of evidence at once; none of them alone is enough. */
  predicate Carrying(age: nat, handshakeSecs: Option<nat>, rxGrew: bool) {
    age >= YOUNG && rxGrew && handshakeSecs.Some? && handshakeSecs.value <= HANDSHAKE_FRESH_SECS
  }

  /** How long it has been up undisturbed. */
  function Age(upAt: nat, disturbedAt: nat, now: nat): nat {
    var from := if upAt >= disturbedAt then upAt else disturbedAt;
    if now >= from then now - from else 0
  }

  /** A disturbance silences the tunnel for the whole young window, as if it had
      just come up. */
  lemma DisturbedIsYoung(upAt: nat, disturbedAt: nat, now: nat, handshakeSecs: Option<nat>, rxGrew: bool)
    ensures Carrying(Age(upAt, disturbedAt, now), handshakeSecs, rxGrew)
            ==> now >= upAt + YOUNG && now >= disturbedAt + YOUNG
  {
  }

  datatype Verdict = Down | Left(age: nat) | Restart

  datatype Patience = Patience(grace: nat, patience: nat, since: Option<nat>)

  function Fresh(grace: nat): Patience {
    Patience(grace, grace, None)
  }

  function Failed(p: Patience, now: nat, carrying: bool): (Patience, Verdict) {
    if !carrying then (p.(since := None), Down)
    else
      var since := if p.since.Some? then p.since.value else now;
      var age := if now >= since then now - since else 0;
      if p.patience == 0 || age < p.patience then (p.(since := Some(since)), Left(age))
      else (p.(since := None), Restart)
  }

  function Passed(p: Patience): Patience {
    p.(since := None, patience := p.grace)
  }

  function Harder(p: Patience): Patience {
    p.(patience := if p.patience * 2 <= p.grace * GROWTH then p.patience * 2 else p.grace * GROWTH)
  }

  /** A failed check of a tunnel that carries is left alone until the patience is
      over since the first of them; no patience at all is patience without end. */
  lemma FailedMeans(p: Patience, now: nat)
    ensures Failed(p, now, false) == (Patience(p.grace, p.patience, None), Down)
    ensures p.since.None? ==> Failed(p, now, true) == (Patience(p.grace, p.patience, Some(now)), Left(0))
    ensures p.since.Some? && now < p.since.value ==> Failed(p, now, true) == (p, Left(0))
    ensures p.since.Some? && now >= p.since.value ==>
      Failed(p, now, true) == if p.patience > 0 && now >= p.since.value + p.patience then (Patience(p.grace, p.patience, None), Restart)
                              else (p, Left(now - p.since.value))
  {
  }

  /** A check that passes makes it whole; a restart in vain doubles it, up to eight
      graces. */
  lemma PassedMeans(p: Patience)
    ensures Passed(p) == Patience(p.grace, p.grace, None)
    ensures Harder(p) == Patience(p.grace, if 2 * p.patience < 8 * p.grace then 2 * p.patience else 8 * p.grace, p.since)
  {
  }

  /** The evidence: 30 seconds undisturbed, a handshake no older than 180, bytes
      received. */
  lemma CarryingMeans(upAt: nat, disturbedAt: nat, now: nat, handshakeSecs: Option<nat>, rxGrew: bool)
    ensures Carrying(Age(upAt, disturbedAt, now), handshakeSecs, rxGrew) <==>
            now >= upAt + 30_000 && now >= disturbedAt + 30_000 && rxGrew && handshakeSecs.Some? && handshakeSecs.value <= 180
  {
  }

  class Degradation {
    var grace: nat
    var patience: nat
    var since: Option<nat>

    constructor (grace: nat)
      ensures Value() == Fresh(grace)
    {
      this.grace, patience, since := grace, grace, None;
    }

    ghost function Value(): Patience
      reads this
    {
      Patience(grace, patience, since)
    }

    method CheckFailed(now: nat, carrying: bool) returns (v: Verdict)
      modifies this
      ensures (Value(), v) == Failed(old(Value()), now, carrying)
    {
      if !carrying {
        since := None;
        return Down;
      }
      if since.None? {
        since := Some(now);
      }
      var age := if now >= since.value then now - since.value else 0;
      if patience == 0 || age < patience {
        return Left(age);
      }
      since := None;
      v := Restart;
    }

    method CheckPassed()
      modifies this
      ensures Value() == Passed(old(Value()))
    {
      since := None;
      patience := grace;
    }

    method MakeHarder()
      modifies this
      ensures Value() == Harder(old(Value()))
    {
      patience := if patience * 2 <= grace * GROWTH then patience * 2 else grace * GROWTH;
    }
  }

  // A rotten path: no check passes, and no reconnect helps

  datatype Check = Check(at: nat, carrying: bool)

  datatype Course = Course(p: Patience, restarts: nat)

  /** Failed checks one after the other; each restart makes the next wait longer. */
  function After(grace: nat, checks: seq<Check>): Course {
    if checks == [] then Course(Fresh(grace), 0)
    else
      var n := |checks| - 1;
      var was := After(grace, checks[..n]);
      var (p, v) := Failed(was.p, checks[n].at, checks[n].carrying);
      if v.Restart? then Course(Harder(p), was.restarts + 1) else Course(p, was.restarts)
  }

  /** How many graces the patience is after `k` restarts: 1, 2, 4, then 8. */
  function Times(k: nat): nat {
    if k == 0 then 1 else if k == 1 then 2 else if k == 2 then 4 else 8
  }

  /** How many graces `n` restarts take: 0, 1, 3, 7, 15, 23, ... */
  function Total(n: nat): nat {
    if n == 0 then 0 else if n == 1 then 1 else if n == 2 then 3 else 8 * n - 17
  }

  predicate InOrder(checks: seq<Check>) {
    forall i, j :: 0 <= i < j < |checks| ==> checks[i].at <= checks[j].at
  }

  /** `n` graces. */
  function Graces(grace: nat, n: nat): nat {
    if n == 0 then 0 else grace + Graces(grace, n - 1)
  }

  lemma GracesAdd(grace: nat, m: nat, n: nat)
    ensures Graces(grace, m + n) == Graces(grace, m) + Graces(grace, n)
  {
    if m > 0 {
      GracesAdd(grace, m - 1, n);
    }
  }

  lemma GracesAreProducts(grace: nat, n: nat)
    ensures Graces(grace, n) == grace * n
  {
  }

  /** One restart more: the wait it took, and the next one. */
  lemma NextRestart(grace: nat, k: nat)
    ensures Graces(grace, Total(k + 1)) == Graces(grace, Total(k)) + Graces(grace, Times(k))
    ensures var w := Graces(grace, Times(k));
      Graces(grace, Times(k + 1)) == (if w * 2 <= grace * GROWTH then w * 2 else grace * GROWTH)
    ensures Graces(grace, Times(k)) >= grace
  {
    GracesAdd(grace, Total(k), Times(k));
    GracesAdd(grace, Times(k), Times(k));
    GracesAreProducts(grace, 8);
    GracesAreProducts(grace, Times(k));
    GracesAreProducts(grace, Times(k + 1));
  }

  /** Where a course stands: its patience, and how late it must be. */
  ghost predicate Bounded(c: Course, grace: nat, start: nat, now: nat) {
    c.p.grace == grace && c.p.patience == Graces(grace, Times(c.restarts))
    && (c.p.since.Some? ==> start + Graces(grace, Total(c.restarts)) <= c.p.since.value <= now)
    && start + Graces(grace, Total(c.restarts)) <= now
  }

  lemma CourseStep(c: Course, grace: nat, start: nat, was: nat, check: Check)
    requires grace > 0 && Bounded(c, grace, start, was) && was <= check.at
    ensures var (p, v) := Failed(c.p, check.at, check.carrying);
      Bounded(if v.Restart? then Course(Harder(p), c.restarts + 1) else Course(p, c.restarts), grace, start, check.at)
  {
    NextRestart(grace, c.restarts);
  }

  lemma {:induction false} CourseHolds(grace: nat, checks: seq<Check>, start: nat)
    requires InOrder(checks) && grace > 0
    requires forall c :: c in checks ==> start <= c.at
    ensures Bounded(After(grace, checks), grace, start, if checks == [] then start else checks[|checks| - 1].at)
    decreases |checks|
  {
    if checks != [] {
      var n := |checks| - 1;
      CourseHolds(grace, checks[..n], start);
      assert checks[n] in checks;
      CourseStep(After(grace, checks[..n]), grace, start, if n == 0 then start else checks[n - 1].at, checks[n]);
    }
  }

  /** Under a rotten path the patience is always the grace doubled as often as
      it was spent, up to eightfold, and the n-th restart comes no sooner than
      (2^n - 1) graces after the start for n up to 4 and (8n - 17) from then on,
      however the checks fall and whatever the tunnel says of itself. */
  lemma RestartsAreBounded(grace: nat, checks: seq<Check>, start: nat)
    requires InOrder(checks) && grace > 0 && checks != []
    requires forall c :: c in checks ==> start <= c.at
    ensures var c := After(grace, checks);
      c.p.patience == grace * Times(c.restarts)
      && checks[|checks| - 1].at >= start + grace * Total(c.restarts)
  {
    CourseHolds(grace, checks, start);
    var k := After(grace, checks).restarts;
    GracesAreProducts(grace, Times(k));
    GracesAreProducts(grace, Total(k));
  }

  /** A check when the patience starts and one when it runs out: one restart. */
  lemma TwoChecks(grace: nat, was: seq<Check>, at: nat, k: nat)
    requires grace > 0 && After(grace, was) == Course(Patience(grace, Graces(grace, Times(k)), None), k)
    ensures After(grace, was + [Check(at, true)] + [Check(at + Graces(grace, Times(k)), true)])
            == Course(Patience(grace, Graces(grace, Times(k + 1)), None), k + 1)
  {
    NextRestart(grace, k);
    var one := was + [Check(at, true)];
    var two := one + [Check(at + Graces(grace, Times(k)), true)];
    assert one[..|was|] == was && two[..|one|] == one;
    assert After(grace, one) == Course(Patience(grace, Graces(grace, Times(k)), Some(at)), k);
  }

  /** `checks` bring exactly `n` restarts, and the last one is the `n`-th. */
  ghost predicate Meets(grace: nat, checks: seq<Check>, n: nat) {
    InOrder(checks) && After(grace, checks) == Course(Patience(grace, Graces(grace, Times(n)), None), n)
    && (forall c :: c in checks ==> c.at <= Graces(grace, Total(n)))
    && (n > 0 ==> checks != [] && checks[|checks| - 1].at == Graces(grace, Total(n)))
  }

  lemma OneMore(grace: nat, was: seq<Check>, n: nat) returns (checks: seq<Check>)
    requires grace > 0 && Meets(grace, was, n)
    ensures Meets(grace, checks, n + 1)
  {
    var at, wait, total := Graces(grace, Total(n)), Graces(grace, Times(n)), Graces(grace, Total(n + 1));
    NextRestart(grace, n);
    TwoChecks(grace, was, at, n);
    checks := TwoLater(was, at, wait);
    assert total == at + wait;
  }

  lemma TwoLater(was: seq<Check>, at: nat, wait: nat) returns (checks: seq<Check>)
    requires InOrder(was) && forall c :: c in was ==> c.at <= at
    ensures checks == was + [Check(at, true)] + [Check(at + wait, true)]
    ensures InOrder(checks) && (forall c :: c in checks ==> c.at <= at + wait) && checks[|checks| - 1].at == at + wait
  {
    LaterInOrder(was, at);
    LaterInOrder(was + [Check(at, true)], at + wait);
    checks := was + [Check(at, true)] + [Check(at + wait, true)];
  }

  /** The bound is met exactly: a tunnel checked just when its patience runs out. */
  lemma {:induction false} BoundIsMet(grace: nat, n: nat) returns (checks: seq<Check>)
    requires grace > 0
    ensures Meets(grace, checks, n)
    decreases n
  {
    if n == 0 {
      checks := [];
    } else {
      var was := BoundIsMet(grace, n - 1);
      checks := OneMore(grace, was, n - 1);
    }
  }

  lemma LaterInOrder(checks: seq<Check>, at: nat)
    requires InOrder(checks) && forall c :: c in checks ==> c.at <= at
    ensures InOrder(checks + [Check(at, true)]) && forall c :: c in checks + [Check(at, true)] ==> c.at <= at
  {
  }

  /** Zero grace is patience without end. */
  lemma {:induction false} ZeroGraceNeverRestarts(checks: seq<Check>)
    ensures After(0, checks).restarts == 0 && After(0, checks).p.patience == 0
    decreases |checks|
  {
    if checks != [] {
      ZeroGraceNeverRestarts(checks[..|checks| - 1]);
    }
  }
}
