/** The state behind the resolver's lock and what is read off it: `Core` of
    src/resolver.rs. Hash maps are maps; their iteration order is left open. */
module ResolverCore {
  import opened Wrappers
  import opened Subnets
  import opened TunnelChoice

  /** 198.18.0.0/15: in nobody's table and under no route. */
  const FAKEIP := Subnet(0xC612_0000, 15)

  /** Blocks of addresses that fail `Routable`, whatever the links. */
  const SPECIAL: seq<Subnet> := [
    Subnet(0x0000_0000, 8),
    Subnet(0x0A00_0000, 8),
    Subnet(0x6440_0000, 10),
    Subnet(0x7F00_0000, 8),
    Subnet(0xA9FE_0000, 16),
    Subnet(0xAC10_0000, 12),
    Subnet(0xC0A8_0000, 16),
    Subnet(0xE000_0000, 3),
    FAKEIP]

  predicate Special(ip: Ip) {
    exists s :: s in SPECIAL && s.Contains(ip)
  }

  predicate Routable(ip: Ip, endpoints: seq<Ip>) {
    ip !in endpoints && !Special(ip)
  }

  /** The subnets of the lists, each with the list that has it. */
  type NetLists = seq<(Subnet, string)>

  datatype When = Always | In(country: string) | Out(country: string) {
    predicate Holds(here: string) {
      match this
      case Always => true
      case In(c) => c == here
      case Out(c) => c != here
    }
  }

  datatype RuleRun = RuleRun(
    name: string,
    when: When,
    lists: seq<string>,
    tunnels: seq<nat>,
    active: bool,
    current: Option<nat>)

  /** A place in the books: it names an interface only through `indexOf`. */
  datatype Placed = Placed(link: nat, generation: nat)

  datatype HostRun = HostRun(rule: nat, last: nat, placed: Option<Placed>)

  /** A subnet's record: both parts must match for a reconcile to leave it. */
  datatype NetRun = NetRun(rule: nat, placed: Placed)

  datatype Target = Target(placed: Placed, index: nat)

  datatype Reasons = Reasons(tunnel: bool, works: bool, owner: bool) {
    predicate Any() {
      tunnel || works || owner
    }
  }

  datatype Core = Core(
    links: seq<LinkState>,
    rules: seq<RuleRun>,
    hosts: map<Ip, HostRun>,
    subnets: map<Subnet, NetRun>,
    owner: bool,
    useFakeip: bool,
    stopped: bool)
  {
    predicate Active(rule: nat) {
      rule < |rules| && rules[rule].active
    }

    function CurrentLink(rule: nat): Option<LinkState> {
      if rule < |rules| && rules[rule].current.Some? && rules[rule].current.value < |links|
      then Some(links[rules[rule].current.value])
      else None
    }

    function TargetOf(rule: nat): (t: Option<Target>)
      ensures t.Some? ==> t.value.placed.link < |links|
    {
      var l := CurrentLink(rule);
      if l.Some? && l.value.iface.Some? then
        Some(Target(Placed(rules[rule].current.value, l.value.generation), l.value.iface.value.index))
      else None
    }

    function ReasonsOf(rule: nat): Reasons {
      var l := CurrentLink(rule);
      Reasons(!(l.Some? && l.value.iface.Some? && l.value.health.Alive()), l.Some? && l.value.works, owner)
    }

    predicate Carries(rule: nat) {
      Active(rule) && !ReasonsOf(rule).Any()
    }

    function Endpoints(): seq<Ip> {
      EndpointsOf(links)
    }

    /** Rule `i` is in force and has one of `lists`. */
    predicate Takes(i: nat, lists: set<string>) {
      Active(i) && exists l :: l in rules[i].lists && l in lists
    }

    /** The first rule from `i` on that is in force and has one of `lists`. */
    function FirstTaking(lists: set<string>, i: nat := 0): (r: Option<nat>)
      ensures r.Some? ==> i <= r.value && Takes(r.value, lists)
      ensures r.Some? ==> forall j :: i <= j < r.value ==> !Takes(j, lists)
      ensures r.None? ==> forall j :: i <= j ==> !Takes(j, lists)
      decreases |rules| - i
    {
      if i >= |rules| then None
      else if Takes(i, lists) then Some(i)
      else FirstTaking(lists, i + 1)
    }

    /** The rule a subnet belongs to: the first in force that has it, and none
        for the fake range. */
    function NetOwner(nets: NetLists, s: Subnet): Option<nat> {
      if s.Overlaps(FAKEIP) then None else FirstTaking(ListsOf(nets, s))
    }

    /** Every list of the rules in force to the first of them that has it. */
    method Owners() returns (owners: map<string, nat>)
      ensures forall l :: At(owners, l) == FirstTaking({l})
    {
      owners := map[];
      for i := 0 to |rules|
        invariant forall l :: At(owners, l) == FirstBelow(l, i)
      {
        ghost var was := owners;
        if rules[i].active {
          owners := Claim(owners, rules[i].lists, i);
        }
        forall l ensures At(owners, l) == FirstBelow(l, i + 1) {
          assert At(was, l) == FirstBelow(l, i);
          FirstBelowNext(l, i);
        }
      }
    }

    /** The first rule in force below `n` that has the list. */
    ghost function FirstBelow(l: string, n: nat): Option<nat> {
      var r := FirstTaking({l});
      if r.Some? && r.value < n then r else None
    }

    lemma FirstBelowNext(l: string, i: nat)
      requires i < |rules|
      ensures FirstBelow(l, i + 1) ==
              if FirstBelow(l, i).Some? then FirstBelow(l, i)
              else if rules[i].active && l in rules[i].lists then Some(i) else None
    {
      assert Takes(i, {l}) <==> rules[i].active && l in rules[i].lists;
    }

    /** The lists no earlier rule has go to rule `i`. */
    method Claim(owners: map<string, nat>, lists: seq<string>, i: nat) returns (r: map<string, nat>)
      ensures forall l :: At(r, l) == if l in owners then At(owners, l) else if l in lists then Some(i) else None
    {
      r := owners;
      for k := 0 to |lists|
        invariant forall l :: At(r, l) == if l in owners then At(owners, l) else if l in lists[..k] then Some(i) else None
      {
        if lists[k] !in r {
          r := r[lists[k] := i];
        }
        assert forall l :: l in lists[..k + 1] <==> l in lists[..k] || l == lists[k];
      }
      assert lists[..|lists|] == lists;
    }

    /** The map the loop builds is `NetOwner`, whatever the order of the lists. */
    method SubnetOwners(nets: NetLists) returns (out: map<Subnet, nat>)
      ensures forall s :: At(out, s) == NetOwner(nets, s)
    {
      var owners := Owners();
      out := map[];
      for k := 0 to |nets|
        invariant forall s :: At(out, s) == NetOwner(nets[..k], s)
      {
        ghost var was := out;
        out := Grown(out, owners, nets[k].0, nets[k].1);
        assert At(owners, nets[k].1) == FirstTaking({nets[k].1});
        forall s ensures At(out, s) == NetOwner(nets[..k + 1], s) {
          assert At(was, s) == NetOwner(nets[..k], s);
          GrownAt(nets, k, owners, was, s);
        }
      }
      assert nets[..|nets|] == nets;
    }

    /** One more subnet of a list: it goes to the earlier of its rules. */
    function Grown(out: map<Subnet, nat>, owners: map<string, nat>, s: Subnet, list: string): map<Subnet, nat> {
      if s.Overlaps(FAKEIP) || list !in owners then out
      else out[s := if s in out && out[s] <= owners[list] then out[s] else owners[list]]
    }

    lemma GrownAt(nets: NetLists, k: nat, owners: map<string, nat>, was: map<Subnet, nat>, s: Subnet)
      requires k < |nets| && At(owners, nets[k].1) == FirstTaking({nets[k].1})
      requires At(was, s) == NetOwner(nets[..k], s)
      ensures At(Grown(was, owners, nets[k].0, nets[k].1), s) == NetOwner(nets[..k + 1], s)
    {
      NetOwnerNext(nets, k, s);
    }

    lemma NetOwnerNext(nets: NetLists, k: nat, s: Subnet)
      requires k < |nets|
      ensures NetOwner(nets[..k + 1], s) ==
              if nets[k].0 != s || s.Overlaps(FAKEIP) then NetOwner(nets[..k], s)
              else Earlier(NetOwner(nets[..k], s), FirstTaking({nets[k].1}))
    {
      ListsOfNext(nets, k, s);
      if nets[k].0 == s {
        FirstTakingOne(ListsOf(nets[..k], s), nets[k].1);
      } else {
        assert ListsOf(nets[..k + 1], s) == ListsOf(nets[..k], s);
      }
    }

    lemma FirstTakingOne(lists: set<string>, l: string)
      ensures FirstTaking(lists + {l}) == Earlier(FirstTaking(lists), FirstTaking({l}))
    {
      forall i: nat ensures Takes(i, lists + {l}) <==> Takes(i, lists) || Takes(i, {l}) {
      }
      var a, b, c := FirstTaking(lists), FirstTaking({l}), FirstTaking(lists + {l});
      if c.Some? {
        assert Takes(c.value, lists + {l});
      }
    }

    /** The choice with a way out skips no carrying rule; one without means no rule
        that takes the name carries. */
    method Choose(found: set<string>) returns (r: Option<Choice>)
      ensures r.None? <==> FirstTaking(found).None?
      ensures r.Some? ==> Takes(r.value.rule, found) && r.value.reasons == ReasonsOf(r.value.rule)
                          && r.value.always == rules[r.value.rule].when.Always?
      ensures r.Some? && r.value.via.Some? ==>
        Carries(r.value.rule) && TargetOf(r.value.rule).Some? && r.value.via == Some(TargetOf(r.value.rule).value.index)
        && forall j :: 0 <= j < r.value.rule && Takes(j, found) ==> !Carries(j)
      ensures r.Some? && r.value.via.None? ==>
        FirstTaking(found) == Some(r.value.rule) && forall j: nat :: Takes(j, found) ==> !Carries(j)
    {
      r := None;
      for i := 0 to |rules|
        invariant r.None? <==> forall j :: 0 <= j < i ==> !Takes(j, found)
        invariant forall j :: 0 <= j < i && Takes(j, found) ==> !Carries(j)
        invariant r.Some? ==> FirstTaking(found) == Some(r.value.rule) && r.value.via.None?
        invariant r.Some? ==> r.value.reasons == ReasonsOf(r.value.rule) && r.value.always == rules[r.value.rule].when.Always?
      {
        if !rules[i].active || !exists l :: l in rules[i].lists && l in found {
          continue;
        }
        assert Takes(i, found);
        var pick := Choice(i, rules[i].when.Always?, None, ReasonsOf(i));
        var t := TargetOf(i);
        if Carries(i) && t.Some? {
          return Some(pick.(via := Some(t.value.index)));
        }
        if r.None? {
          r := Some(pick);
        }
      }
    }
  }

  /** A rule chosen for a query; `via` is set exactly when it carries. */
  datatype Choice = Choice(rule: nat, always: bool, via: Option<nat>, reasons: Reasons)

  /** The servers of the links that have one. */
  function EndpointsOf(links: seq<LinkState>): (r: seq<Ip>)
    ensures forall e :: e in r <==> exists i :: 0 <= i < |links| && links[i].endpoint == Some(e)
  {
    assert forall i :: 0 < i < |links| ==> links[1..][i - 1] == links[i];
    assert forall i :: 0 <= i < |links| - 1 ==> links[i + 1] == links[1..][i];
    if links == [] then []
    else (if links[0].endpoint.Some? then [links[0].endpoint.value] else []) + EndpointsOf(links[1..])
  }

  /** The names of the interfaces among `tunnels`. */
  function IfaceNames(tunnels: seq<nat>, links: seq<LinkState>): (r: seq<string>)
    ensures forall n :: n in r <==> exists t :: t in tunnels && HasIface(links, t) && links[t].iface.value.name == n
    ensures (forall t :: t in tunnels ==> !HasIface(links, t)) ==> r == []
  {
    if tunnels == [] then []
    else (if HasIface(links, tunnels[0]) then [links[tunnels[0]].iface.value.name] else [])
         + IfaceNames(tunnels[1..], links)
  }

  function ListsOf(nets: NetLists, s: Subnet): set<string> {
    set i | 0 <= i < |nets| && nets[i].0 == s :: nets[i].1
  }

  function Earlier(a: Option<nat>, b: Option<nat>): Option<nat> {
    if a.None? then b else if b.None? || a.value <= b.value then a else b
  }

  lemma ListsOfNext(nets: NetLists, k: nat, s: Subnet)
    requires k < |nets|
    ensures ListsOf(nets[..k + 1], s) == ListsOf(nets[..k], s) + if nets[k].0 == s then {nets[k].1} else {}
  {
  }

  // What the words above mean, in terms of rules, links and numbers alone

  /** What is never routed: 0/8, 10/8, 100.64/10, 127/8, 169.254/16, 172.16/12,
      192.168/16, 198.18/15 and all from 224.0.0.0 up. */
  lemma SpecialMeans(ip: Ip)
    ensures Special(ip) <==>
            ip < 0x0100_0000 || 0x0A00_0000 <= ip < 0x0B00_0000 || 0x6440_0000 <= ip < 0x6480_0000
            || 0x7F00_0000 <= ip < 0x8000_0000 || 0xA9FE_0000 <= ip < 0xA9FF_0000 || 0xAC10_0000 <= ip < 0xAC20_0000
            || 0xC0A8_0000 <= ip < 0xC0A9_0000 || 0xC612_0000 <= ip < 0xC614_0000 || 0xE000_0000 <= ip
  {
    Sizes();
    BlockIs(SPECIAL[0], 0x100_0000, 0, ip);
    BlockIs(SPECIAL[1], 0x100_0000, 0xA, ip);
    BlockIs(SPECIAL[2], 0x40_0000, 0x191, ip);
    BlockIs(SPECIAL[3], 0x100_0000, 0x7F, ip);
    BlockIs(SPECIAL[4], 0x1_0000, 0xA9FE, ip);
    BlockIs(SPECIAL[5], 0x10_0000, 0xAC1, ip);
    BlockIs(SPECIAL[6], 0x1_0000, 0xC0A8, ip);
    BlockIs(SPECIAL[7], 0x2000_0000, 7, ip);
    BlockIs(SPECIAL[8], 0x2_0000, 0x6309, ip);
    SomeOfNine(SPECIAL, ip);
  }

  lemma SomeOfNine(blocks: seq<Subnet>, ip: Ip)
    requires |blocks| == 9
    ensures (exists s :: s in blocks && s.Contains(ip)) <==>
            blocks[0].Contains(ip) || blocks[1].Contains(ip) || blocks[2].Contains(ip) || blocks[3].Contains(ip)
            || blocks[4].Contains(ip) || blocks[5].Contains(ip) || blocks[6].Contains(ip) || blocks[7].Contains(ip)
            || blocks[8].Contains(ip)
  {
  }

  lemma Sizes()
    ensures Pow2(16) == 0x1_0000 && Pow2(17) == 0x2_0000 && Pow2(20) == 0x10_0000 && Pow2(22) == 0x40_0000
    ensures Pow2(24) == 0x100_0000 && Pow2(29) == 0x2000_0000
  {
    assert Pow2(8) == 256 && Pow2(1) == 2 && Pow2(4) == 16 && Pow2(6) == 64 && Pow2(5) == 32;
    Pow2Splits(8, 8);
    Pow2Splits(16, 1);
    Pow2Splits(16, 4);
    Pow2Splits(16, 6);
    Pow2Splits(16, 8);
    Pow2Splits(24, 5);
  }

  lemma BlockIs(s: Subnet, size: nat, q: nat, ip: Ip)
    requires s.Size() == size && s.addr == q * size
    ensures s.Contains(ip) <==> s.addr <= ip < s.addr + size
  {
    MultipleIsNormal(s, q);
    ContainsIsInterval(s, ip);
  }

  /** The fake range is 198.18.0.0 to 198.19.255.255. */
  lemma FakeMeans(ip: Ip)
    ensures FAKEIP.Contains(ip) <==> 0xC612_0000 <= ip < 0xC614_0000
  {
    Sizes();
    BlockIs(FAKEIP, 0x2_0000, 0x6309, ip);
  }

  /** A rule is at a link: in force or not, its tunnel has an interface. */
  predicate AtLink(c: Core, rule: nat, l: nat) {
    rule < |c.rules| && c.rules[rule].current == Some(l) && l < |c.links| && c.links[l].iface.Some?
  }

  /** Where a rule's routes go. */
  lemma TargetMeans(c: Core, rule: nat, t: Target)
    ensures c.TargetOf(rule) == Some(t) <==>
            exists l: nat :: AtLink(c, rule, l) && t == Target(Placed(l, c.links[l].generation), c.links[l].iface.value.index)
  {
    if c.TargetOf(rule).Some? {
      assert AtLink(c, rule, c.rules[rule].current.value);
    }
  }

  /** In force, at a link with an interface, not Down, past the first check on its
      network, while the owner does not hold it off. */
  ghost predicate CarriesNow(c: Core, rule: nat) {
    !c.owner && rule < |c.rules| && c.rules[rule].active
    && exists l: nat :: AtLink(c, rule, l) && c.links[l].health != Down && !c.links[l].works
  }

  lemma CarriesMeans(c: Core, rule: nat)
    ensures c.Carries(rule) <==> CarriesNow(c, rule)
  {
    if c.Carries(rule) {
      assert AtLink(c, rule, c.rules[rule].current.value);
    }
  }

  /** Rule `i` is in force and names one of the lists. */
  predicate Names(c: Core, i: nat, lists: set<string>) {
    i < |c.rules| && c.rules[i].active && exists l :: l in c.rules[i].lists && l in lists
  }

  /** A name's first taker is the first rule, among those in force, to name its list. */
  lemma FirstTakingMeans(c: Core, lists: set<string>, i: nat)
    ensures c.FirstTaking(lists) == Some(i) <==> Names(c, i, lists) && forall j: nat :: j < i ==> !Names(c, j, lists)
  {
    forall j: nat ensures c.Takes(j, lists) <==> Names(c, j, lists) {
    }
  }

  /** A list of the rule, in force, has the subnet. */
  predicate Lists(c: Core, nets: NetLists, s: Subnet, rule: nat) {
    rule < |c.rules| && c.rules[rule].active && exists i :: 0 <= i < |nets| && nets[i].0 == s && nets[i].1 in c.rules[rule].lists
  }

  /** No rule ahead of it lists the subnet, which does not meet the fake range. */
  predicate FirstToList(c: Core, nets: NetLists, s: Subnet, rule: nat) {
    !s.Overlaps(FAKEIP) && Lists(c, nets, s, rule) && forall j: nat :: j < rule ==> !Lists(c, nets, s, j)
  }

  lemma NetOwnerMeans(c: Core, nets: NetLists, s: Subnet, rule: nat)
    ensures c.NetOwner(nets, s) == Some(rule) <==> FirstToList(c, nets, s, rule)
  {
    forall j: nat ensures c.Takes(j, ListsOf(nets, s)) <==> Lists(c, nets, s, j) {
      ListedMeans(c, nets, s, j);
    }
  }

  lemma ListedMeans(c: Core, nets: NetLists, s: Subnet, j: nat)
    ensures c.Takes(j, ListsOf(nets, s)) <==> Lists(c, nets, s, j)
  {
    if c.Takes(j, ListsOf(nets, s)) {
      var l :| l in c.rules[j].lists && l in ListsOf(nets, s);
      assert exists i :: 0 <= i < |nets| && nets[i].0 == s && nets[i].1 == l;
    }
    if Lists(c, nets, s, j) {
      var i :| 0 <= i < |nets| && nets[i].0 == s && nets[i].1 in c.rules[j].lists;
      assert nets[i].1 in ListsOf(nets, s);
    }
  }

  /** A current tunnel server is inside. */
  predicate ServerInside(c: Core, s: Subnet) {
    exists l :: 0 <= l < |c.links| && c.links[l].endpoint.Some? && s.Contains(c.links[l].endpoint.value)
  }

  lemma ServersMean(c: Core, s: Subnet)
    ensures ServerInside(c, s) <==> exists e :: e in c.Endpoints() && s.Contains(e)
  {
    if ServerInside(c, s) {
      var l :| 0 <= l < |c.links| && c.links[l].endpoint.Some? && s.Contains(c.links[l].endpoint.value);
      assert c.links[l].endpoint.value in c.Endpoints();
    }
  }
}
