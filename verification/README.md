# mac-gate, modelled and proved

mac-gate sends chosen domains and subnets of a Mac through tunnels and keeps
them from leaving any other way. This project models its core in Dafny and
proves what it promises: that routes and the kill switch agree with the rules,
which refused messages lose a route, that nothing held is let out, that tunnels
are supervised sanely, and that the DNS of the Mac survives a crash.

## How the model is laid out

| file | what it holds |
|---|---|
| `Subnets.dfy` | addresses and CIDR blocks, `&` and `<<` spelled out bit by bit |
| `Text.dfy` | the pieces of Rust's `str`, decimals and dotted quads |
| `Lists.dfy` | domain and subnet lists |
| `Routes.dfy` | the routing socket over the kernel table |
| `Pf.dfy` | the anchor ruleset under first-match `quick`, its tables, load/add/delete |
| `TunnelChoice.dfy` | `LinkState` and `pick` |
| `ResolverCore.dfy` | the state behind the resolver's lock and what is read off it |
| `Steps.dfy` | resolver, kernel table and pf as one value, every step as a relation |
| `Resolver.dfy` | the resolver as a class; each method is proved to take its step, a query the step of at most one answer |
| `Books.dfy` | invariants of the route books over every run, and which steps orphan a route |
| `Exactness.dfy` | what a reconcile leaves, and where the table falls short |
| `Placement.dfy` | what a reconcile, a routing, an expiry and a load leave, told by links, lists, numbers and times alone |
| `Shortfalls.dfy`, `TwoRules.dfy` | runs from the start to each of the states that fall short |
| `Cache.dfy` | when pf may be left unloaded |
| `Answers.dfy` | who owns an address, what an answer that goes out promises |
| `Traffic.dfy`, `Gateway.dfy` | packets end to end, over whole runs |
| `KillSwitch.dfy` | what stays in between two loads of pf |
| `Degraded.dfy`, `Cut.dfy`, `Link.dfy` | the tunnel supervisor |
| `SysDns.dfy` | the DNS take-over, with failures and crashes |
| `Probe.dfy`, `State.dfy` | the Internet checksum, the state file |

What the kernel, pf, macOS commands, processes, probes and the network make of
each message, command or probe is given from outside and is arbitrary: which
kernel messages are refused and which pf commands fail, by their number
(`Routes.Refusals`); what becomes of each macOS command (`SysDns.Fates`); what a
step of a link finds (`Links.Findings`); what the router and the tunnel answer to
a query (`ResolverClass.Resolver.Handle`). So a method can end in a refusal only
when something was refused. A hash map is a map, visited in any order. Addresses are
numbers below 2^32, instants are milliseconds and integers are unbounded; where
a width matters (the shifts of a mask, the `u8` and `u64` of parsers, the `u32`
sum of the checksum) it is written out.

The resolver's proofs are about the relations of `Steps.dfy`, so they hold over
runs of them; the class in `Resolver.dfy` is tied to the relations method by
method. `World` carries three pieces of history that the program does not have:
`indexOf` and `gone` (which interface each generation was published with, and
which have vanished) and `doubt` (destinations whose booked state the kernel may
not match: a host whose move was refused at its last add, a host and a /32 of a
list on one destination, or a destination booked at a generation published again
with another interface). A kernel route carries `mine`: this process put it
there. Every step that sends messages records how those about each destination
ended (`Routes.Ending`): all done, or refused at the first add, at the delete,
or at the add again - each as the messages sent in that step came out
(`Routes.Told`).

### Hypotheses about the surroundings

- An add where a route stands is EEXIST and changes nothing; a delete removes
  the route if it is there; a refused message changes nothing, except that in
  `set` the delete may go through and the add after it be refused. When an
  interface vanishes its routes go with it (`Steps.InterfaceGone`).
- `set_link` may be told anything. A generation published with one interface
  only (`Steps.Publishable`) is asked for just where a destination is concluded
  to be out of doubt, and there only of the generation it is booked at
  (`Books.ToldAt`); `Link.Connect` does not keep to it, see below.
- Each public method of the resolver is one step, and so are the state changes
  of one answer.

### What turned out false of the code

- **Routes can be orphaned.** `place_subnets` takes a subnet whose place changed
  out of the books before it sets the route again (src/resolver.rs:1152-1186),
  and every drop forgets its destination whatever the delete says. With the
  first add or a delete refused, the old route stands in no book, and
  `remove_all` never asks for it. `Shortfalls.RefusedAddOrphans` and
  `Shortfalls.RefusedDeletesOrphan` run into it from the start;
  `Books.NoOrphansIff` says exactly which steps do, `Books.AfterStop` exactly
  what stands after `remove_all`, ever.
- **A refused move can leave a host without a route.** When the last add of a
  move is refused the old place stays booked (src/resolver.rs:1095-1107); once
  the rule is back at that tunnel nothing is sent.
  `Shortfalls.RefusedMoveLosesHost` runs into it; `Exactness.HostExactIff` says
  exactly when a reconcile leaves a host as called for, from any state.
- **pf is not always a sound cache.** When an address of an answer cannot be
  routed, `listed` returns before `pf.add` of the addresses routed before it
  (src/resolver.rs:927-932), and nothing marks pf stale.
  `Cache.RefusedAnswerLosesAddress` gives the failing family,
  `TwoRules.RefusedAnswerHappens` a run into it;
  `Cache.AnswerKeepsSoundIff` says exactly when an answer keeps the cache sound.
- **An answer may hand out an address pf does not hold.** When `pf.add` fails the
  answer is refused but the address stays booked (src/resolver.rs:935-943); the
  same query again, before a sync goes through, has nothing new to tell pf and
  goes out. `Answers.RetryIsNotHeld` gives the family, `TwoRules.RetryHappens` a
  run into it, `Answers.AnswerIsSafe` exactly which tables hold an address handed
  out.
- **A hand-over leaves routes behind.** `connect` takes the new generation
  before it tells the resolver the server (src/link.rs:469, src/link.rs:482),
  so the old interface is published under the new generation, and the new
  interface later under the same one. `Links.Link.Connect` states this of the
  code, and `Exactness.HandOverLeavesHosts` and `Exactness.HandOverLeavesSubnets`
  what follows: the reconcile after the new interface moves nothing, because
  routes are compared by link and generation only. They are in line exactly when
  both interfaces have one index. `Shortfalls.HandOverLeavesBoth` is such a run.
- **An answer may hand out an address without a route.** An address an earlier
  carrying rule holds is left as it is, even when it was read from the state
  file and never routed (src/resolver.rs:961-970).
  `Answers.LoadedHostIsHandedOut` gives the family, `TwoRules.LoadedHappens` a run
  into it, `Answers.AnswerIsSafe` the exact condition.
- **A host and a /32 of a list share one kernel destination.**
  `Exactness.SharedFollowsSubnet` and `Exactness.SharedFollowsLast` say which of
  the two is served, and when that is in line for both; in the run of
  `TwoRules.SharedIsTorn` it is not.
- **A list line that reads as an address is no domain.** `d` covers `d` and its
  subdomains exactly when it does not parse as a subnet; `*.d` and `.d` always do
  (`DomainLists.WaysToWrite`). Every dotted quad is such a `d`
  (`DomainLists.QuadIsNoDomain`).

## Model

| member | source | states |
|---|---|---|
| Gateway.PacketsTakeTheirTunnel | src/resolver.rs:1027-1188 | over any run in which no answer left pf behind: after a reconcile and a sync, the longest route of this process for any address leads to the current tunnel of the rule that owns the route, and pf passes every packet there - provided no message about that very destination was refused, it was never a host's and a subnet's at once, and its generation kept its interface; whatever happens to the others |
| Gateway.TableIsExact | src/resolver.rs:1078-1188 | over any run every reconcile makes such a destination hold exactly what is called for - of a host by its rule's tunnel, or as booked without one; of anything else by `Steps.Wanted`, which `Placement.WantedMeans` and `Placement.SubnetGoes` pin by links and lists - unless the route called for fell with its interface; and a route of this process there is in the books |
| Gateway.GoodLifeIsTrusted | src/resolver.rs:955-1321 | in every run such a destination is never in doubt and never orphaned |
| Gateway.NeverOrphaned | src/resolver.rs:877-1242 | in every run, hand-overs and sharing included, a destination that no refused message is about is never orphaned |
| Gateway.UnrefusedIsLossless | src/resolver.rs:914-943 | an answer of which no message is refused never leaves pf behind |
| Gateway.ServersAreReached | src/resolver.rs:1085-1141 | in every run, with the lists as `add` builds them, after a reconcile no route of this process that no refused message is about covers a current tunnel server or meets the fake range |
| Gateway.EventOrphansNoneIff | src/resolver.rs:877-1242 | from straight books an event orphans nothing exactly when it is an answer, refused or not, or a step that loses no route |
| Gateway.LifeKeepsBooks | src/resolver.rs:877-1205 | over every run of whole answers and other steps, whatever is refused and whatever links tell, booked routes out of doubt stand on their generation's interface while it lasts, and nothing is booked after a stop |
| Traffic.EndToEnd | src/resolver.rs:1244-1321 | one reconcile and one sync, from any state with straight books and a sound cache: the same for the longest route of this process, if it is no orphan, out of doubt and no message about it was refused |
| Traffic.RoutedIsPassed | src/pf.rs:86-138 | with pf in line, a route as called for leads to its owner's tunnel and pf lets packets to every address under it out there, even when rules overlap |
| Traffic.HeldStaysIn | src/pf.rs:86-138 | with pf in line, a packet that does not go to a tunnel server of a link, to the DNS of the network there at port 53, or as a ping of the three probe hosts there, is blocked exactly when a rule in force holds its address - as its host, or, without fake addresses, by a subnet it is the first in force to list - and the packet is not on the interface of a link among the tunnels of a rule in force that holds it |
| Traffic.TunnellessIsHeld | src/resolver.rs:1244-1269 | the kill switch: a packet to a host whose rule has no tunnel is let out, the same exemptions aside, exactly when it is on the interface of a tunnel of another rule in force that holds the address |
| Traffic.NamesMean | src/resolver.rs:1250-1255 | the interfaces pf is told of for a rule are exactly those of the links among its tunnels |
| Traffic.ExemptMeans | src/pf.rs:86-110 | what pf lets by whoever holds it: packets to the current server of any link; on the network's interface, DNS to its server at port 53, and pings of 1.1.1.1, 8.8.8.8 and 9.9.9.9 |
| Traffic.NetsMean | src/resolver.rs:1271-1294 | a rule's subnet table has exactly the subnets it is the first rule in force to list, and none that meets the fake range |
| Traffic.RouteOwnerMeans | src/resolver.rs:535-547 | the owner of a route is the rule of the host that is the destination, else the first rule in force to list it |
| Traffic.WayOutMeans | src/resolver.rs:488-502 | the way out of a rule is the interface of the link it is at |
| Traffic.ServersStayOut | src/resolver.rs:1085-1141 | after every reconcile, whatever was refused, no destination in the books covers a current tunnel server or meets the fake range, so no route of this process does that is not an orphan |
| Traffic.ListedServersStayOut | src/lists.rs:100-127 | the same for lists built by any number of `add`s, whose subnets are all normal |
| Traffic.LongestIsUnique | src/lists.rs:20-36 | the longest-prefix choice among routes is unique |
| Exactness.ReconcileIsExact | src/resolver.rs:1048-1188 | a reconcile from any state with straight books leaves a destination that is out of doubt, was no orphan and had no message refused as called for, exactly unless its own route fell with the interface it belongs on; a host whose rule has no tunnel keeps what it had (what is called for by links and lists: `Placement.SubnetGoes`, `Placement.HostGoes`) |
| Exactness.HostExactIff | src/resolver.rs:1078-1122 | from any state and whatever is refused, a host with a tunnel is as called for exactly when the subnet half set its destination to the same interface, or took nothing and the host was moved, or nothing was taken and the kernel had the route |
| Exactness.OtherExactIff | src/resolver.rs:1127-1188 | likewise any other destination: the route that `Placement.WantedMeans` describes was set or stood untouched, the unwanted one was taken away or was never this process's |
| Placement.SubnetGoes | src/resolver.rs:1127-1188 | after a reconcile with nothing refused about it, a subnet that a rule is the first in force to list stands on the interface of the link that rule is at, if no link's server is inside it and, with fake addresses on, that link is Up, Suspect or Degraded; with a server inside, with no such link, or with fake addresses on and the link Down, no route of this process stands there |
| Placement.UnlistedGoesNowhere | src/resolver.rs:1127-1188 | a destination that is no host's and that no rule in force lists, or that meets the fake range, has no route of this process then |
| Placement.WantedMeans | src/resolver.rs:1127-1141 | a subnet is wanted at a link's interface exactly when its rule is the first in force to list it, no server is inside, and the link is not Down or fake addresses are off |
| Placement.HostsKept | src/resolver.rs:1085-1094 | a reconcile keeps exactly the hosts of rules in force whose address is in no special block, by its numbers, and no link's server; their rule and last answer stay |
| Placement.HostGoes | src/resolver.rs:1095-1107 | and a host kept, nothing refused, stands on the interface of the link its rule is at |
| Placement.RoutingMeans | src/resolver.rs:955-1005 | one routing by links: an earlier rule that carries keeps the address, renewed; a rule at no link is refused; else the host is the rule's, renewed now, on that link's interface, unless the kernel refused a message of this very routing |
| Placement.ExpiredExactly | src/resolver.rs:1209-1242 | a host goes exactly when its last answer is more than the window ago |
| Placement.LoadedExactly | src/resolver.rs:1008-1021 | of the saved lines the first of each new address with a rule there is, is taken in with the time it says; known hosts stay |
| Placement.HostsOutlastStop | src/resolver.rs:1192-1205 | `remove_all` keeps every host with its rule and last answer, unrouted |
| Placement.CountryDecides | src/config.rs:120-126 | a rule is in force always, in its country only, or everywhere but there |
| Exactness.SecondReconcileIsQuiet | src/resolver.rs:1027-1188 | a second reconcile at the same instant, after one that succeeded, sends the kernel nothing and changes nothing |
| Exactness.BookedIsTrusted | src/resolver.rs:1095-1097 | a host booked at its rule's tunnel by link and generation, apart from the listed subnets, is left alone by a reconcile, and is as called for exactly when the kernel has the route already |
| Exactness.HandOverLeavesHosts | src/link.rs:467-505 | after the two publications of a hand-over a host the first reconcile moved is still on the old interface, so it is as called for exactly when the new one has its index |
| Exactness.HandOverLeavesSubnets | src/resolver.rs:1152-1161 | and so is a subnet |
| Exactness.SharedFollowsSubnet | src/resolver.rs:1168-1176 | a host sharing its destination with a subnet just set: the subnet is served, and the host is in line exactly when both lead to one interface |
| Exactness.SharedFollowsLast | src/resolver.rs:1152-1170 | with the subnet in its place already, the destination is the host's if this reconcile moved it, empty if that move was refused at its last add, else what it was, such as the route of a host routed after the subnet |
| Books.BooksHold | src/resolver.rs:955-1205 | every state of every run, whatever is refused and whatever links tell, keeps: booked routes out of doubt stand on their generation's interface while it lasts; nothing is booked after a stop |
| Books.OrphansAfter | src/resolver.rs:955-1242 | from any state, a step leaves as orphans exactly the standing routes of this process that no book has after it and that the step did not take away |
| Books.NoOrphansIff | src/resolver.rs:955-1242 | from books that have every route of this process a step keeps them so exactly when no route that stands leaves the books with every message about it refused |
| Books.HostsOrphanIff | src/resolver.rs:1085-1094 | placing hosts orphans nothing exactly when no delete of a dropped host is refused while its route stands, shared destinations aside |
| Books.NetsOrphanIff | src/resolver.rs:1152-1186 | placing subnets orphans nothing exactly when no first add of a re-placed subnet and no delete of a re-placed or dropped one is refused while its route stands, shared destinations aside |
| Books.AfterStop | src/resolver.rs:1192-1205 | at any time after `remove_all` a destination holds what it held before it if that was in no book or its delete was refused, and its interface lasts; else nothing |
| Books.NothingAfterStop | src/resolver.rs:1192-1205 | so in a run that loses no route up to and with a `remove_all`, no route of this process stands from then on |
| Shortfalls.RefusedAddOrphans | src/resolver.rs:1152-1186 | a run in which one refused first add orphans a subnet's route, and a `remove_all` granted everything leaves it |
| Shortfalls.RefusedDeletesOrphan | src/resolver.rs:1209-1242 | a run in which refused deletes of a dropped subnet and of an old host orphan both routes, and `remove_all` asks for nothing |
| Shortfalls.RefusedMoveLosesHost | src/resolver.rs:1095-1107 | a run in which the last add of a host's move is refused, the rule comes back, and a reconcile with nothing refused leaves the host without a route |
| Shortfalls.HandOverLeavesBoth | src/link.rs:467-505 | a run with a hand-over between two indices, both publications Down as `connect` makes them, after which host and subnet are on the old interface |
| Shortfalls.ExampleIsPlain | src/resolver.rs:41-75 | the runs are for any routable host and any subnet off the fake range, apart from each other; 1.1.1.1 and 1.1.0.0/16, with a server at 2.2.2.2, are such |
| TwoRules.RefusedAnswerHappens | src/resolver.rs:927-932 | for any two routable addresses a run to a state with pf in line, from which the answer of both, the second refused, leaves pf unmarked and behind |
| TwoRules.RetryHappens | src/resolver.rs:935-943 | for any routable address a run to a state with pf in line, an answer pf refuses, and the same one again going out unheld |
| TwoRules.LoadedHappens | src/resolver.rs:961-970 | for any routable address a run to a state from which it is handed out without a route |
| TwoRules.SharedIsTorn | src/resolver.rs:1168-1176 | for any routable address a run after which a host of one rule, nothing refused, is on the tunnel of another |
| Shortfalls.TakeReconcile | src/resolver.rs:1027-1188 | from any state not stopped, and a kernel that refuses one message in four, a reconcile can be taken with every message ending as one likes, where there is such an ending |
| Books.SmoothRunsAreTrusted | src/resolver.rs:1078-1188 | in a run of single steps a destination no refused message is about, never a host's and a subnet's at once, whose generation keeps its interface while it is booked there, is never in doubt |
| Books.KindRunsOrphanNone | src/resolver.rs:1078-1242 | and a destination no refused message is about is never orphaned, shared or not, whatever links tell |
| Books.SetLinkKeepsInv | src/resolver.rs:739-743 | any state told to any link keeps the books straight, with what is booked at a generation published with another interface in doubt |
| Books.RouteHostKeepsInv | src/resolver.rs:955-1005 | routing one host keeps booked routes out of doubt standing, refused or not |
| Books.PlaceHostsKeepsInv | src/resolver.rs:1078-1122 | placing all hosts keeps booked routes out of doubt standing, whichever messages are refused |
| Books.PlaceSubnetsKeepsInv | src/resolver.rs:1127-1188 | placing all subnets keeps booked routes out of doubt standing, whichever messages are refused |
| Cache.CacheHolds | src/resolver.rs:935-943 | over every run, whatever links tell, without an answer that loses something, as the next row says, whenever nothing is stale pf has the last shape's ruleset and exactly the resolver's tables |
| Cache.AnswerKeepsSoundIff | src/resolver.rs:914-943 | an answer keeps the cache sound if and only if pf was marked stale before it, it took an address over from another rule, its loop was not stopped, or nothing before the stop was new |
| Cache.RefusedAnswerLosesAddress | src/resolver.rs:927-932 | two new addresses of which the second is refused: the first is booked, pf lacks it and nothing is stale |
| Cache.SyncIsReload | src/resolver.rs:1298-1321 | from a sound cache a sync that returns Ok, by reload or by skip, leaves pf as a full reload would |
| Answers.EarliestWins | src/resolver.rs:955-1005 | an address routed by carrying rules in any order, with repeats and refusals, ends with the smallest rule among those let have it and the one that held and carried it |
| Answers.OrdersAgree | src/resolver.rs:955-1005 | two orders of the same routings end with the same owner |
| Answers.RoutingDecidesOwner | src/resolver.rs:961-985 | an address an earlier carrying rule holds is never taken by a later one, and no other address or route is touched |
| Answers.AnswerIsSafe | src/resolver.rs:913-949 | from any state, an address of an answer that goes out is in a rule's pf table exactly when it was before or is new to that rule in this answer; so it is held for its owner exactly when it was before, or was not left with an earlier rule and not booked for this one; and it is routed to its owner's tunnel exactly when it was not left with an earlier rule or was routed there already |
| Answers.SoundAnswerIsHeld | src/resolver.rs:935-949 | from a sound cache with nothing stale every address handed out is in the table of its owner |
| Answers.RetryIsNotHeld | src/resolver.rs:935-943 | from any such state: a new address refused because pf failed, asked for again, goes out though the table of its rule does not hold it |
| Answers.LoadedHostIsHandedOut | src/resolver.rs:961-970 | a loaded host of an earlier carrying rule is handed out without a route |
| KillSwitch.HandedOutStaysIn | src/resolver.rs:935-949 | over every run: an address handed out with pf in line leaves from then on, the exemptions aside, exactly where the last load had a tunnel of a rule holding it, stale or not, until it expires, is dropped, its rule goes out of force or a pf command fails |
| KillSwitch.HeldIsBlocked | src/pf.rs:86-138 | what pf holds since its last load is blocked everywhere but on those tunnels, the exemptions aside |
| Pf.Ruleset | src/pf.rs:86-138 | the loops give the lines in order, and for every shape, tables and packet the first match blocks exactly when the address is held for a rule in force and the packet is neither exempt nor on a tunnel of a rule in force that holds it |
| Pf.RulesetDecides | src/pf.rs:86-138 | the same of the lines as a function of the shape |
| Pf.PassesThenBlocks | src/pf.rs:80-85 | passes ahead of blocks: blocked exactly when a block matches and no pass does |
| Pf.Control.Load | src/pf.rs:218-236 | a load that succeeds puts the ruleset and the table of every rule in force in place; a failed one leaves pf unknown |
| Pf.Control.Add | src/pf.rs:259-261 | addresses join the table of one rule |
| Pf.Control.Delete | src/pf.rs:263-265 | addresses leave the table of one rule |
| Routes.RouteSocket.Add | src/route.rs:41-47 | an existing route is left as it is; a refused add changes nothing |
| Routes.RouteSocket.Set | src/route.rs:55-61 | with an Ok the route stands on the interface asked for, whatever was there; refused at the first add or the delete the table is as it was, at the add again the destination is empty |
| Routes.RouteSocket.Delete | src/route.rs:64-70 | with an Ok no route is there, and the result says whether one was; refused, the table is as it was |
| TunnelChoice.PickIsIdempotent | src/resolver.rs:395-429 | choosing again at the same instant changes nothing |
| TunnelChoice.PickMeans | src/resolver.rs:395-429 | the choice by places in the order: a tunnel waited for is kept; a good one - Up with an interface, past its first check - is kept unless the first of the order that was good for 120 seconds is ahead of it; any other is kept only while it has an interface and none is good |
| TunnelChoice.PickAnew | src/resolver.rs:411-429 | else the first good one, else the first with an interface, else none |
| TunnelChoice.FewChanges | src/resolver.rs:395-429 | while the links stand a rule changes tunnel at most as often as it has tunnels |
| TunnelChoice.GoodOnlyMovesUp | src/resolver.rs:411-420 | a good tunnel is left only for a settled one strictly earlier in the order |
| TunnelChoice.SettlesOnFirstGood | src/resolver.rs:395-429 | once all good tunnels are settled, one choice finds the first and every later one keeps it, unless the current is waited for |
| TunnelChoice.LeftOnlyForBetter | src/resolver.rs:388-394 | a tunnel with an interface is left only for one that carries for certain, and never just after a wake |
| TunnelChoice.PickFailsIffNoIface | src/resolver.rs:422-429 | a rule is without a tunnel exactly when none of its tunnels has an interface |
| ResolverCore.Core.Owners | src/resolver.rs:523-531 | each list goes to the first rule in force that has it |
| ResolverCore.Core.SubnetOwners | src/resolver.rs:535-547 | each subnet goes to the first rule in force that has it, the fake range to none |
| ResolverCore.Core.Choose | src/resolver.rs:552-577 | the first rule in force with the name that carries, else the first in force, which refuses; none when no rule in force has it |
| ResolverCore.CarriesMeans | src/resolver.rs:505-516 | a rule carries exactly when it is in force, at a link with an interface that is not Down and past its first check, and the owner does not hold it off |
| ResolverCore.TargetMeans | src/resolver.rs:493-502 | a rule's target is the interface and the generation of the link it is at |
| ResolverCore.FirstTakingMeans | src/resolver.rs:523-531 | the owner of a name is the first rule in force that names one of its lists |
| ResolverCore.NetOwnerMeans | src/resolver.rs:535-547 | the owner of a subnet is the first rule in force with a list that has it, if it does not meet the fake range |
| ResolverCore.SpecialMeans | src/resolver.rs:41-78 | the addresses never routed, as nine intervals of numbers |
| ResolverClass.Resolver.SetLink | src/resolver.rs:739-743 | a link that is there gets the state told; nothing else changes |
| ResolverClass.Resolver.SetCountry | src/resolver.rs:711-725 | rules come into force by the country, pf is stale when any did, and exactly those that turned are reported |
| ResolverClass.Resolver.SetLists | src/resolver.rs:672-677 | new lists in place and pf stale |
| ResolverClass.Resolver.LoadHosts | src/resolver.rs:1008-1021 | hosts of known rules taken in unrouted, known ones kept, pf stale |
| ResolverClass.Resolver.RouteHost | src/resolver.rs:955-1005 | takes the step `Steps.RouteHost`: refusal, staying with an earlier rule, or a route on the rule's tunnel and the new owner; true when new to the rule's table |
| ResolverClass.Resolver.PickTunnels | src/resolver.rs:1048-1074 | every rule in force at its choice of now, the others nowhere |
| ResolverClass.Resolver.PlaceHosts | src/resolver.rs:1078-1122 | takes the step `Steps.PlaceHosts` host by host, in any order, whichever calls fail |
| ResolverClass.Resolver.PlaceSubnets | src/resolver.rs:1127-1188 | takes the step `Steps.PlaceSubnets` subnet by subnet, whichever messages are refused; where each subnet belongs is `Placement.WantedMeans` |
| ResolverClass.Resolver.Reconcile | src/resolver.rs:1027-1045 | takes the step `Steps.Reconcile`: tunnels, hosts, subnets; nothing once stopped; what it leaves is told by `Placement.SubnetGoes` and `Placement.HostGoes` |
| ResolverClass.Resolver.RemoveAll | src/resolver.rs:1192-1205 | takes the step `Steps.RemoveAll`: books emptied, every booked route deleted, stopped for good; the number of routes that were there and went |
| ResolverClass.Resolver.Expire | src/resolver.rs:1209-1242 | old hosts leave the books, the kernel and pf's tables; pf stale when it failed |
| ResolverClass.Resolver.Tables | src/resolver.rs:1271-1294 | the hosts and the subnets of each rule |
| ResolverClass.Resolver.SyncPf | src/resolver.rs:1298-1321 | takes the step `Steps.SyncPf`: a skip only when nothing is stale and the shape is the last one; a failed load leaves pf stale and unknown; what the shape lets out is `Traffic.NamesMean` and `Traffic.ExemptMeans` |
| ResolverClass.Resolver.Answer | src/resolver.rs:913-943 | routable addresses routed in order until one is refused, then the new ones told to pf |
| ResolverClass.Resolver.Listed | src/resolver.rs:877-949 | by the rule picked and by what router and tunnel say: the router's fake address where it goes first, a refusal without a way out, else one answer of the rule, whose bytes go out exactly when it went through |
| ResolverClass.Resolver.Handle | src/resolver.rs:821-845 | decides every query: no question, or more than one, is dropped or forwarded; the canary is no domain; a name that no list of a rule in force covers is forwarded; AAAA, HTTPS and SVCB of any other have no records; and the rest go by the first such rule that carries - its link up, past its check - past the router only if it always holds, else through that rule's tunnel with every address that may be routed, or are refused |
| ResolverClass.TunnelBytesAreHeld | src/resolver.rs:913-949 | with pf in line, what a tunnel said goes out only with every address of it that may be routed in the pf table of its owner |
| ResolverClass.RoutableOfMeans | src/resolver.rs:914-925 | the addresses of an answer that get routes are exactly those in no special block that are no link's server |
| ResolverClass.RoutableInOrder | src/resolver.rs:914-925 | in the order of the answer, repeats and all |
| Subnets.MaskIsLeadingOnes | src/lists.rs:60-66 | the mask has exactly `prefix` leading ones |
| Subnets.ContainsIsInterval | src/lists.rs:29-32 | `contains` is the interval test of section 3.1 of RFC 4632 |
| Subnets.NestedOrDisjoint | src/lists.rs:29-32 | two blocks are nested or share no address |
| Subnets.OverlapsIffShared | src/lists.rs:34-36 | `overlaps` holds exactly when an address is in both |
| Subnets.MaskedIsNormal | src/lists.rs:38-51 | what parsing leaves has no host bits and holds the address written |
| Subnets.MaskedMeans | src/lists.rs:38-66 | a block with a prefix holds exactly the addresses that agree in that many leading bits |
| DomainLists.Lists.Add | src/lists.rs:100-127 | a list's lines taken in one by one as `DomainLists.ClassifyMeans` sorts them; what is then there is `AddedExactly`, `SubnetsAddedExactly`, `RejectedExactly` |
| DomainLists.Lists.MatchDomain | src/lists.rs:147-163 | the lists of the name and its parents, in turn |
| DomainLists.MatchedExactly | src/lists.rs:145-163 | without repeats, exactly the lists with an entry among the domains tried |
| DomainLists.NearestFirst | src/lists.rs:147-163 | what nearer domains find comes ahead of what farther ones do |
| DomainLists.FoundExactly | src/lists.rs:147-163 | a query finds a list exactly when the list has its normal form or what is left of that after a dot |
| DomainLists.AddedExactly | src/lists.rs:100-127 | a list has a suffix after an add exactly when it had it or a line says so |
| DomainLists.SubnetsAddedExactly | src/lists.rs:109-112 | a list has a subnet after an add exactly when it had it or a line is that subnet |
| DomainLists.AddressesAddedExactly | src/lists.rs:100-127 | after an add a list holds an address exactly when it did, or some line, spaces aside, is an address in dots, alone or with a prefix, that agrees with it in the leading bits |
| DomainLists.WaysToWriteBlock | src/lists.rs:38-51 | an address in dots, with a prefix or without, spaces around it or not, is the block with that prefix that holds it |
| DomainLists.ParseSubnetMeans | src/lists.rs:38-51 | nothing else reads as a subnet |
| DomainLists.RejectedExactly | src/lists.rs:122-124 | the lines that are neither are kept in order, each with its list's name |
| DomainLists.ClassifyMeans | src/lists.rs:105-125 | a line is skipped, a subnet, a domain or rejected, in that order of tries |
| DomainLists.NormalizeMeans | src/lists.rs:166-168 | capitals 32 code points up, every trailing dot off, and nothing else |
| DomainLists.DomainMeans | src/lists.rs:170-178 | a domain is up to 253 characters of labels with single dots between; a label 1 to 63 letters, digits, `-` or `_` (`LabelMeans`) |
| DomainLists.BareMeans | src/lists.rs:113-116 | `*.` or one dot ahead is off, and nothing more |
| DomainLists.WaysToWrite | src/lists.rs:109-121 | for every `d` whose normal form is a domain, capitals and trailing dots included: `*.d` and `.d` always give the suffix of that form; `d` does exactly when it does not read as a subnet |
| DomainLists.QuadIsNoDomain | src/lists.rs:109-121 | every address in dots reads as a domain, yet as a line it is a subnet |
| DomainLists.WrittenCovers | src/lists.rs:100-127 | a line that writes a domain in any of these ways, spaces around it or not, makes the list cover the domain and every subdomain |
| DomainLists.SubnetsAreNormal | src/lists.rs:38-51 | however many lists were added, no subnet in them has host bits |
| Links.Link.Step | src/link.rs:249-307 | a connect or a check that is due is made, and none that is not; a wake always leads to one of them; every step keeps: `since` goes with Up, anything but Down has a tunnel, a due connect means Down; at its end the resolver was told the link's state |
| Links.Link.Connect | src/link.rs:467-561 | by what is found: without a server's address or a new interface a failure the more and a pause; else the new tunnel, up from now on with TLS; without it a failure and a pause, or, when it was the one reconnect of a degraded tunnel, more patience and a check in 30 seconds; cut short, the next connect at once. Generations only grow; a hand-over is told twice Down under the new generation, the old interface and then the new one |
| Links.Link.Check | src/link.rs:606-697 | which end a check comes to follows from what its probes find, the patience and the evidence at an instant of the check; the next one is 5 or 30 seconds on, 5 whenever the tunnel is newly up; a connect is due only when the tunnel is dead with the network there or out of patience |
| Links.OutcomeMeans | src/link.rs:606-736 | which end it is: carrying exactly with a ping or, in a usual check, TLS; left degraded or out of patience only on all of the evidence, the latter only a whole patience after the first such check; dead only with the network answering past the tunnel |
| Links.Link.WatchForCut | src/link.rs:283-299 | the counters are watched exactly while no connect is due, nothing is known of the next check, the tunnel is not degraded and no cut was refuted since; a check comes at once exactly when all the samples say cut |
| Links.Link.TakeIn | src/link.rs:254-264 | a wake or a new network: a connect that is due is due now with failures forgotten, a check is due now, two minutes of close checks; else nothing |
| Links.Link.LeftAlone | src/link.rs:703-736 | only a tunnel older than the young window, undisturbed for as long, with a handshake no older than 180 seconds and still receiving, is left alone or given its one reconnect |
| Links.Link.ConnectFailed | src/link.rs:581-593 | down, and the next connect at once four times, then after 30, 60 and ever 120 seconds |
| Links.PauseMeans | src/link.rs:581-593 | none up to the fourth failure in a row, then 30 seconds, 60, and 120 ever after |
| Links.Link.Healthy | src/link.rs:346-354 | `since` starts anew only from a doubt or a failure; patience whole again |
| Links.Link.TakeDown | src/link.rs:370-379 | down without a tunnel, and told |
| Cut.DequeRefinesHistory | src/link.rs:432-454 | the trimmed deque gives the verdict of the whole history: since the newest sample at least four seconds old nothing came back and three packets or more went out |
| Cut.Detector.Add | src/link.rs:439-453 | the trimming loop keeps that deque and gives that verdict |
| Cut.WindowMeans | src/link.rs:449-453 | a sample is old after four seconds; silence is no packet received and three or more sent |
| Degraded.RestartsAreBounded | src/degraded.rs:84-111 | patience is grace times 1, 2, 4, then 8; n restarts take at least (2^n - 1) graces for n up to 4 and (8n - 17) from then on, however Down verdicts fall |
| Degraded.BoundIsMet | src/degraded.rs:84-111 | some course of checks takes exactly that long |
| Degraded.ZeroGraceNeverRestarts | src/degraded.rs:94-96 | zero grace never restarts and never grows |
| Degraded.DisturbedIsYoung | src/degraded.rs:35-45 | a tunnel vouches for itself only a young window after it came up and after the last disturbance |
| Degraded.Degradation.CheckFailed | src/degraded.rs:84-99 | the verdict on a failed check, and the clock it leaves |
| Degraded.FailedMeans | src/degraded.rs:84-99 | a tunnel that carries is left alone until the patience is over since its first failed check, for ever without patience |
| Degraded.PassedMeans | src/degraded.rs:101-111 | a passed check makes the patience whole; a restart in vain doubles it, up to eight graces |
| Degraded.CarryingMeans | src/degraded.rs:35-62 | carrying is 30 seconds undisturbed, a handshake no older than 180 seconds and bytes received, all at once |
| SysDns.SwitchedAreSaved | src/sysdns.rs:107-148 | over every run with failures and crashes at every point, a service switched to the resolver has on disk what it was first seen with, less the resolver's own address (`WithoutLocalMeans`) |
| SysDns.RestoredAsFound | src/sysdns.rs:107-174 | over every run: from a take-over that is done, of a service the file did not know, to the first give-back that is done, through failures, crashes and changes by hand, the service, if still there, gets back exactly the servers it had before, 127.0.0.1 aside |
| SysDns.TakenAndGivenBack | src/sysdns.rs:107-174 | a take-over and a give-back, both done: the service was at 127.0.0.1 in between and is as it was before, if 127.0.0.1 was not among its servers |
| SysDns.WithoutLocalMeans | src/sysdns.rs:122 | what is kept of a service's servers: all but 127.0.0.1, in order and with repeats (`WithoutLocalInOrder`), everything when that is not among them |
| SysDns.NeverOverwritten | src/sysdns.rs:124-136 | what is on disk for a service stays as first seen until the file goes |
| SysDns.NextKeepsInv | src/sysdns.rs:107-174 | every step, ended in any way, keeps the file and the services consistent |
| SysDns.System.TakeOver | src/sysdns.rs:107-148 | done exactly when every command worked, crashed exactly when one died; wherever it ends, a service is as it was or on the resolver with the file knowing its servers, less the resolver's own; unless the read, the listing or the write failed, each service whose own commands work is switched, whatever fails for the others |
| SysDns.System.GiveBack | src/sysdns.rs:153-174 | the file goes only once every service it knows and the Mac still has is restored; one that fails does not stop the rest; done exactly when every command worked |
| SysDns.SavedRoundTrip | src/sysdns.rs:42-59 | entries without tab, newline or space in the wrong place read back as written |
| SysDns.ReadBackIsSavable | src/sysdns.rs:42-52 | whatever is in the file, what is read from it can be written again |
| Probe.ChecksumOf | src/probe.rs:135-144 | the folding loop ends with the one's-complement sum of all words |
| Probe.SumMeans | src/probe.rs:135-144 | words are two bytes, the first the high one; an odd last byte is a high one |
| Probe.ChecksumMeans | src/probe.rs:135-144 | with its checksum the sum of the words is a multiple of 0xffff |
| Probe.StoredChecksumVerifies | src/probe.rs:124-144 | storing the checksum in its zeroed aligned field makes the whole checksum zero |
| Probe.Echo | src/probe.rs:124-133 | the echo request verifies for every id and sequence and carries both |
| StateFile.RoundTrip | src/state.rs:31-52 | every host map with names the settings allow reads back as saved |
| StateFile.LineMeans | src/state.rs:31-41 | a line is a host's exactly when its words are an address in dots, a number of 64 bits, and a rule |
| StateFile.CollectedExactly | src/state.rs:31-41 | what is known of an address is its last line, and nothing without one |
| Text.QuadRoundTrip | src/state.rs:31-52 | every address reads back as itself |
| Text.QuadIsOnlyForm | src/state.rs:31-52 | and nothing else reads as an address |
| Text.NumberRead | src/lists.rs:38-51 | what reads as an unsigned number is its digits, zeros and a plus ahead or not, below the limit |
| Text.LinesMean | src/lists.rs:104 | lines end in `\n` or `\r\n`, the last ending may be missing, and no text has no lines |

## Left out

- Sockets, processes, `pfctl`, `networksetup`, `curl`, `awg`, file modes: present only as given outcomes on abstract tables, services and a file.
- DNS messages: a query is a name and a type, an answer whether it parses and its addresses; a reply that cannot be encoded is not modelled.
- The byte layout of routing messages, and the text of pf rules: rules are kept as syntax.
- A resolver without pf (`pf` none): the model always has pf.
- Concurrency inside a step: between the removals and the pf deletes of `expire`, between the routes and the `pf.add` of one answer, and while a load of pf waits.
- The journal, its bursts and counts, status lines, the `dirty` flag, `unrouted`, `covers`, `held`, `wanted`, `fetch_iface`, `all_routed`: they read or report only.
- `Pf::enable`, `Pf::release`, `held_hosts`: starting, stopping and recovering pf.
- What `networksetup` prints: services and servers are taken as parsed; service names have no tab or newline.
- The settings and the awg-quick reader: tunnel indices in range and rules at tunnels of their own are taken from them.
- Sources, the geo majority, install and the command line: I/O around short functions.
- Overflow: counters, generations and durations are unbounded; the checksum is stated for sums that fit 32 bits.
- Links.Link.Step: the link's `reconcile` and `sync_pf` calls are not part of it, only what it tells the resolver.
- Exactness.ReconcileIsExact: says nothing of a destination in doubt or with a message refused; `Exactness.HostExactIff` and `Exactness.OtherExactIff` do.
