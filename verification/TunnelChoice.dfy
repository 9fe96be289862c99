/** Which tunnel a rule takes: `LinkState` and `pick` of src/resolver.rs.
    Instants are milliseconds. */
module TunnelChoice {
  import opened Wrappers
  import opened Subnets

  /** What makes a good tunnel a settled one. */
  const RETURN: nat := 120_000

  datatype Iface = Iface(name: string, index: nat)

  datatype Health = Down | Up | Suspect | Degraded {
    predicate Alive() {
      this != Down
    }
  }

  datatype LinkState = LinkState(
    iface: Option<Iface>,
    generation: nat,
    health: Health,
    works: bool,
    since: Option<nat>,
    endpoint: Option<Ip>)
  {
    predicate CarriesForCertain() {
      iface.Some? && health == Up
    }
  }

  const UNKNOWN := LinkState(None, 0, Down, false, None, None)

  predicate HasIface(links: seq<LinkState>, t: nat) {
    t < |links| && links[t].iface.Some?
  }

  predicate Good(links: seq<LinkState>, t: nat) {
    t < |links| && links[t].CarriesForCertain() && !links[t].works
  }

  /** Good for so long that an earlier place in the order counts again. */
  predicate Settled(links: seq<LinkState>, t: nat, now: nat) {
    Good(links, t) && links[t].since.Some? && now - links[t].since.value >= RETURN
  }

  /** Not left for any other, however good. */
  predicate Waited(links: seq<LinkState>, t: nat) {
    HasIface(links, t) && links[t].works
  }

  /** The first of `order` that is in `among`. */
  function First(order: seq<nat>, among: set<nat>): (r: Option<nat>)
    ensures r.Some? ==> r.value in order && r.value in among && !exists t :: t in Before(order, r.value) && t in among
    ensures r.None? ==> forall t :: t in order ==> t !in among
  {
    if order == [] then None
    else if order[0] in among then Some(order[0])
    else First(order[1..], among)
  }

  /** The part of `order` ahead of `c`; all of it when `c` is not there. */
  function Before(order: seq<nat>, c: nat): (r: seq<nat>)
    ensures |r| <= |order| && r == order[..|r|]
    ensures c !in r
    ensures c in order ==> |r| < |order| && order[|r|] == c
  {
    if order == [] || order[0] == c then [] else [order[0]] + Before(order[1..], c)
  }

  function GoodOf(order: seq<nat>, links: seq<LinkState>): set<nat> {
    set t | t in order && Good(links, t)
  }

  function SettledOf(order: seq<nat>, links: seq<LinkState>, now: nat): set<nat> {
    set t | t in order && Settled(links, t, now)
  }

  function WithIface(order: seq<nat>, links: seq<LinkState>): set<nat> {
    set t | t in order && HasIface(links, t)
  }

  function Or(a: Option<nat>, b: Option<nat>): Option<nat> {
    if a.Some? then a else b
  }

  /** `pick`, branch by branch. */
  function Pick(order: seq<nat>, links: seq<LinkState>, current: Option<nat>, now: nat): Option<nat> {
    if current.Some? && Waited(links, current.value) then
      current
    else if current.Some? && Good(links, current.value) then
      Or(First(Before(order, current.value), SettledOf(order, links, now)), current)
    else
      Or(First(order, GoodOf(order, links)),
         Or(if current.Some? && HasIface(links, current.value) then current else None,
            First(order, WithIface(order, links))))
  }

  /** Tunnel `t` is Up with an interface, and past the first check on its network. */
  predicate IsGood(links: seq<LinkState>, t: nat) {
    t < |links| && links[t].iface.Some? && links[t].health == Up && !links[t].works
  }

  /** The same for 120 seconds. */
  predicate IsSettled(links: seq<LinkState>, t: nat, now: nat) {
    IsGood(links, t) && links[t].since.Some? && now >= links[t].since.value + 120_000
  }

  /** Place `i` of the order is the first with one of these. */
  ghost predicate FirstAt(order: seq<nat>, i: nat, among: set<nat>) {
    i < |order| && order[i] in among && forall j :: 0 <= j < i ==> order[j] !in among
  }

  ghost predicate FirstGood(order: seq<nat>, links: seq<LinkState>, i: nat) {
    i < |order| && IsGood(links, order[i]) && forall j :: 0 <= j < i ==> !IsGood(links, order[j])
  }

  ghost predicate FirstSettled(order: seq<nat>, links: seq<LinkState>, now: nat, i: nat) {
    i < |order| && IsSettled(links, order[i], now) && forall j :: 0 <= j < i ==> !IsSettled(links, order[j], now)
  }

  ghost predicate FirstUp(order: seq<nat>, links: seq<LinkState>, i: nat) {
    i < |order| && IsThere(links, order[i]) && forall j :: 0 <= j < i ==> !IsThere(links, order[j])
  }

  predicate IsThere(links: seq<LinkState>, t: nat) {
    t < |links| && links[t].iface.Some?
  }

  lemma {:induction false} FirstHas(order: seq<nat>, among: set<nat>) returns (i: nat)
    requires First(order, among).Some?
    ensures FirstAt(order, i, among) && First(order, among) == Some(order[i])
    decreases |order|
  {
    if order[0] in among {
      i := 0;
    } else {
      i := FirstHas(order[1..], among);
      assert forall j :: 0 < j <= i ==> order[j] == order[1..][j - 1];
      i := i + 1;
    }
  }

  lemma {:induction false} FirstIs(order: seq<nat>, among: set<nat>, i: nat)
    requires FirstAt(order, i, among)
    ensures First(order, among) == Some(order[i])
    decreases |order|
  {
    if i > 0 {
      assert order[0] !in among;
      assert forall j :: 0 <= j < |order| - 1 ==> order[1..][j] == order[j + 1];
      FirstIs(order[1..], among, i - 1);
    }
  }

  lemma {:induction false} BeforeHas(order: seq<nat>, c: nat, i: nat)
    requires i < |order| && c !in order[..i + 1]
    ensures i < |Before(order, c)|
    decreases |order|
  {
    assert order[..i + 1][0] == order[0];
    if i > 0 {
      assert order[1..][..i] == order[..i + 1][1..];
      BeforeHas(order[1..], c, i - 1);
    }
  }

  lemma SettledAhead(order: seq<nat>, links: seq<LinkState>, c: nat, now: nat, i: nat)
    requires FirstSettled(order, links, now, i) && c !in order[..i + 1]
    ensures First(Before(order, c), SettledOf(order, links, now)) == Some(order[i])
  {
    BeforeHas(order, c, i);
    var b := Before(order, c);
    assert forall j :: 0 <= j <= i ==> b[j] == order[j];
    FirstIs(b, SettledOf(order, links, now), i);
  }

  lemma NoneAhead(order: seq<nat>, links: seq<LinkState>, c: nat, now: nat)
    requires forall i :: 0 <= i < |order| && IsSettled(links, order[i], now) ==> c in order[..i + 1]
    ensures First(Before(order, c), SettledOf(order, links, now)).None?
  {
    var b := Before(order, c);
    if First(b, SettledOf(order, links, now)).Some? {
      var i := FirstHas(b, SettledOf(order, links, now));
      NotBefore(order, c, i);
    }
  }

  lemma NotBefore(order: seq<nat>, c: nat, i: nat)
    requires i < |Before(order, c)|
    ensures c !in order[..i + 1] && order[i] == Before(order, c)[i]
  {
    assert order[..i + 1] == Before(order, c)[..i + 1];
  }

  /** What is chosen with a tunnel to keep or leave, by places in the order. One
      waited for is kept. A good one is kept, unless the first settled one of the
      order is ahead of it. Any other is kept while it has an interface and none
      in the order is good; else the choice is made anew. */
  lemma PickMeans(order: seq<nat>, links: seq<LinkState>, c: nat, now: nat)
    ensures IsThere(links, c) && links[c].works ==> Pick(order, links, Some(c), now) == Some(c)
    ensures forall i: nat :: IsGood(links, c) && FirstSettled(order, links, now, i) && c !in order[..i + 1] ==>
      Pick(order, links, Some(c), now) == Some(order[i])
    ensures IsGood(links, c) && (forall i :: 0 <= i < |order| && IsSettled(links, order[i], now) ==> c in order[..i + 1]) ==>
      Pick(order, links, Some(c), now) == Some(c)
    ensures !(IsThere(links, c) && links[c].works) && !IsGood(links, c) ==>
      Pick(order, links, Some(c), now) ==
        if IsThere(links, c) && forall t :: t in order ==> !IsGood(links, t) then Some(c) else Pick(order, links, None, now)
  {
    if IsGood(links, c) {
      forall i: nat | FirstSettled(order, links, now, i) && c !in order[..i + 1] ensures Pick(order, links, Some(c), now) == Some(order[i]) {
        SettledAhead(order, links, c, now, i);
      }
      if forall i :: 0 <= i < |order| && IsSettled(links, order[i], now) ==> c in order[..i + 1] {
        NoneAhead(order, links, c, now);
      }
    } else if t :| t in order && IsGood(links, t) {
      assert t in GoodOf(order, links);
    }
  }

  /** And anew: the first good one, else the first that has an interface, else
      none. */
  lemma PickAnew(order: seq<nat>, links: seq<LinkState>, now: nat)
    ensures forall i: nat :: FirstGood(order, links, i) ==> Pick(order, links, None, now) == Some(order[i])
    ensures (forall t :: t in order ==> !IsGood(links, t)) ==>
      forall i: nat :: FirstUp(order, links, i) ==> Pick(order, links, None, now) == Some(order[i])
    ensures (forall t :: t in order ==> !IsThere(links, t)) ==> Pick(order, links, None, now).None?
  {
    forall i: nat | FirstGood(order, links, i) ensures Pick(order, links, None, now) == Some(order[i]) {
      FirstIs(order, GoodOf(order, links), i);
    }
    if forall t :: t in order ==> !IsGood(links, t) {
      assert GoodOf(order, links) == {};
      forall i: nat | FirstUp(order, links, i) ensures Pick(order, links, None, now) == Some(order[i]) {
        FirstIs(order, WithIface(order, links), i);
      }
    }
  }

  /** The rule's choice made again at each of `times`, the links as they are. */
  function PickAll(order: seq<nat>, links: seq<LinkState>, current: Option<nat>, times: seq<nat>): Option<nat>
    decreases |times|
  {
    if times == [] then current
    else PickAll(order, links, Pick(order, links, current, times[0]), times[1..])
  }

  /** How often the choice changed on the way. */
  function Changes(order: seq<nat>, links: seq<LinkState>, current: Option<nat>, times: seq<nat>): nat
    decreases |times|
  {
    if times == [] then 0
    else
      var next := Pick(order, links, current, times[0]);
      (if next != current then 1 else 0) + Changes(order, links, next, times[1..])
  }

  predicate Nondecreasing(times: seq<nat>) {
    forall i, j :: 0 <= i < j < |times| ==> times[i] <= times[j]
  }

  /** What a choice is worth calling: in the order, or kept from before. */
  lemma PickStaysInOrder(order: seq<nat>, links: seq<LinkState>, current: Option<nat>, now: nat)
    requires current.Some? ==> current.value in order
    ensures var p := Pick(order, links, current, now); p.Some? ==> p.value in order && HasIface(links, p.value)
  {
  }

  /** `Pick` gives none exactly when no tunnel of the order has an interface. */
  lemma PickFailsIffNoIface(order: seq<nat>, links: seq<LinkState>, current: Option<nat>, now: nat)
    requires current.Some? ==> current.value in order
    ensures Pick(order, links, current, now).None? <==> forall t :: t in order ==> !HasIface(links, t)
  {
  }

  /** A tunnel that still has an interface is left only for one that carries for
      certain; a good one only for one that has long done so; one just after a
      wake or on a new network not at all. */
  lemma LeftOnlyForBetter(order: seq<nat>, links: seq<LinkState>, c: nat, now: nat)
    requires HasIface(links, c)
    ensures var p := Pick(order, links, Some(c), now);
      p != Some(c) ==> p.Some? && Good(links, p.value) && !Waited(links, c) && (Good(links, c) ==> Settled(links, p.value, now))
  {
  }

  lemma {:induction false} BeforeOfBefore(order: seq<nat>, c: nat, t: nat)
    requires t in Before(order, c)
    ensures Before(Before(order, c), t) == Before(order, t)
  {
    if order[0] != t {
      assert Before(order, c)[1..] == Before(order[1..], c);
      BeforeOfBefore(order[1..], c, t);
    }
  }

  /** Choosing again at the same instant changes nothing. */
  lemma PickIsIdempotent(order: seq<nat>, links: seq<LinkState>, current: Option<nat>, now: nat)
    ensures var p := Pick(order, links, current, now); Pick(order, links, p, now) == p
  {
    var p := Pick(order, links, current, now);
    if p.Some? && Good(links, p.value) {
      var t := p.value;
      if First(Before(order, t), SettledOf(order, links, now)).Some? {
        var u := First(Before(order, t), SettledOf(order, links, now)).value;
        assert u in GoodOf(order, links) && u in Before(order, t);
        if current.Some? && Good(links, current.value) && t != current.value {
          BeforeOfBefore(order, current.value, t);
          assert false;
        }
      }
    }
  }

  /** Having a good tunnel, a rule leaves it only for a good one strictly
      earlier in its order. */
  lemma GoodOnlyMovesUp(order: seq<nat>, links: seq<LinkState>, c: nat, now: nat)
    requires Good(links, c)
    ensures var p := Pick(order, links, Some(c), now);
      p.Some? && Good(links, p.value)
      && (p.value != c ==> Settled(links, p.value, now) && |Before(order, p.value)| < |Before(order, c)|)
  {
  }

  /** Any choice that is not a good tunnel is final while the links stand. */
  lemma OtherChoicesStay(order: seq<nat>, links: seq<LinkState>, current: Option<nat>, now: nat, later: nat)
    ensures var p := Pick(order, links, current, now);
      !(p.Some? && Good(links, p.value)) ==> Pick(order, links, p, later) == p
  {
  }

  lemma {:induction false} ChangesFromChoice(order: seq<nat>, links: seq<LinkState>, current: Option<nat>, now: nat, times: seq<nat>)
    ensures var p := Pick(order, links, current, now);
      Changes(order, links, p, times) <= if p.Some? && Good(links, p.value) then |Before(order, p.value)| else 0
    decreases |times|
  {
    var p := Pick(order, links, current, now);
    if times != [] {
      ChangesFromChoice(order, links, p, times[0], times[1..]);
      if p.Some? && Good(links, p.value) {
        GoodOnlyMovesUp(order, links, p.value, times[0]);
      } else {
        OtherChoicesStay(order, links, current, now, times[0]);
      }
    }
  }

  /** While the links stand, a rule changes its tunnel at most as often as it
      has tunnels, whenever it is asked. */
  lemma FewChanges(order: seq<nat>, links: seq<LinkState>, current: Option<nat>, times: seq<nat>)
    requires current.Some? ==> current.value in order
    ensures Changes(order, links, current, times) <= |order|
  {
    if times != [] {
      var p := Pick(order, links, current, times[0]);
      PickStaysInOrder(order, links, current, times[0]);
      ChangesFromChoice(order, links, current, times[0], times[1..]);
    }
  }

  /** Once every good tunnel is settled, one choice finds the first of them and
      every later one keeps it, unless the current one is waited for. */
  lemma {:induction false} SettlesOnFirstGood(order: seq<nat>, links: seq<LinkState>, current: Option<nat>, times: seq<nat>)
    requires current.Some? ==> current.value in order && !Waited(links, current.value)
    requires times != [] && Nondecreasing(times)
    requires forall t :: t in order && Good(links, t) ==> Settled(links, t, times[0])
    requires First(order, GoodOf(order, links)).Some?
    ensures PickAll(order, links, current, times) == First(order, GoodOf(order, links))
    decreases |times|
  {
    var best := First(order, GoodOf(order, links));
    var p := Pick(order, links, current, times[0]);
    assert GoodOf(order, links) == SettledOf(order, links, times[0]);
    if current.Some? && Good(links, current.value) {
      FirstBefore(order, current.value, GoodOf(order, links));
    }
    assert p == best;
    if |times| > 1 {
      SettlesOnFirstGood(order, links, p, times[1..]);
    }
  }

  lemma {:induction false} FirstBefore(order: seq<nat>, c: nat, among: set<nat>)
    requires c in order && c in among
    ensures Or(First(Before(order, c), among), Some(c)) == First(order, among)
  {
    if order[0] != c && order[0] !in among {
      FirstBefore(order[1..], c, among);
      assert Before(order, c)[1..] == Before(order[1..], c);
    }
  }
}
