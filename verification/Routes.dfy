/** The routing socket over the kernel table: src/route.rs. The kernel keeps to
    its rules: an add where a route stands is EEXIST, a delete where none stands
    is ESRCH, and a message may be refused for any other reason, which changes
    nothing. Which messages it refuses, by their number, is given from outside,
    so that no caller can say it was refused when it was not. */
module Routes {
  import opened Wrappers
  import opened Subnets

  /** A route: its interface, and whether this process put it there. */
  datatype Route = Route(index: nat, mine: bool)

  type Table = map<Subnet, Route>

  datatype Outcome = Added | Existed | Moved

  datatype Errno = Exist | NoSuch | Other

  /** How the messages of one `set` or `delete` ended. A `set` sends an add and,
      where a route stands, a delete and an add again; a `delete` sends one
      delete. */
  datatype Ending = Done | AddRefused | DeleteRefused | AddAgainRefused {
    /** What stood there was taken away on the way. */
    predicate Took() {
      Done? || AddAgainRefused?
    }
  }

  /** The endings there are: of a `set` on the interface `to`, or of a `delete`. */
  predicate Possible(e: Option<Route>, to: Option<nat>, end: Ending) {
    match end
    case Done => true
    case AddRefused => to.Some?
    case DeleteRefused => to.Some? ==> e.Some?
    case AddAgainRefused => to.Some? && e.Some?
  }

  type Refusals = nat -> bool

  /** The `n`-th is refused. */
  predicate Denied(refuses: Refusals, n: nat) {
    refuses(n)
  }

  ghost predicate NoneDenied(refuses: Refusals, lo: nat, hi: nat) {
    forall n: nat :: lo <= n < hi ==> !Denied(refuses, n)
  }

  /** How a `set` or a `delete` ends whose first message is the `n`-th. */
  function EndOf(refuses: Refusals, n: nat, to: Option<nat>, there: bool): Ending {
    if to.None? then if Denied(refuses, n) then DeleteRefused else Done
    else if Denied(refuses, n) then AddRefused
    else if !there then Done
    else if Denied(refuses, n + 1) then DeleteRefused
    else if Denied(refuses, n + 2) then AddAgainRefused
    else Done
  }

  /** How many messages that takes. */
  function Messages(refuses: Refusals, n: nat, to: Option<nat>, there: bool): nat {
    if to.None? || Denied(refuses, n) || !there then 1 else if Denied(refuses, n + 1) then 2 else 3
  }

  /** It ended so by messages sent from the `lo`-th on and ahead of the `hi`-th. */
  ghost predicate Told(refuses: Refusals, lo: nat, hi: nat, e: Option<Route>, to: Option<nat>, end: Ending) {
    exists n: nat :: lo <= n && n + Messages(refuses, n, to, e.Some?) <= hi && EndOf(refuses, n, to, e.Some?) == end
  }

  lemma ToldInside(refuses: Refusals, lo: nat, hi: nat, e: Option<Route>, to: Option<nat>, end: Ending, from: nat, till: nat)
    requires Told(refuses, lo, hi, e, to, end) && from <= lo && hi <= till
    ensures Told(refuses, from, till, e, to, end)
  {
    var n: nat :| lo <= n && n + Messages(refuses, n, to, e.Some?) <= hi && EndOf(refuses, n, to, e.Some?) == end;
    assert EndOf(refuses, n, to, e.Some?) == end;
  }

  /** All of these did; `to` is what each destination was to have. */
  ghost predicate AllTold(refuses: Refusals, lo: nat, hi: nat, t0: Table, to: map<Subnet, nat>, ends: map<Subnet, Ending>) {
    forall k {:trigger Told(refuses, lo, hi, At(t0, k), At(to, k), ends[k])} :: k in ends ==> Told(refuses, lo, hi, At(t0, k), At(to, k), ends[k])
  }

  lemma ToldOneMore(refuses: Refusals, lo: nat, n: nat, hi: nat, t0: Table, to: map<Subnet, nat>, ends: map<Subnet, Ending>,
                    k: Subnet, end: Ending)
    requires AllTold(refuses, lo, n, t0, to, ends) && lo <= n && Told(refuses, n, hi, At(t0, k), At(to, k), end) && n <= hi
    ensures AllTold(refuses, lo, hi, t0, to, ends[k := end])
  {
    forall o | o in ends ensures Told(refuses, lo, hi, At(t0, o), At(to, o), ends[o]) {
      ToldInside(refuses, lo, n, At(t0, o), At(to, o), ends[o], lo, hi);
    }
    ToldInside(refuses, n, hi, At(t0, k), At(to, k), end, lo, hi);
  }

  lemma ToldNow(refuses: Refusals, n: nat, hi: nat, e: Option<Route>, to: Option<nat>, end: Ending)
    requires end == EndOf(refuses, n, to, e.Some?) && hi == n + Messages(refuses, n, to, e.Some?)
    ensures Told(refuses, n, hi, e, to, end)
  {
  }

  /** What a destination that held `e` is left with. */
  function Left(e: Option<Route>, to: Option<nat>, end: Ending): Option<Route> {
    match end
    case Done => if to.Some? then Some(Route(to.value, true)) else None
    case AddAgainRefused => None
    case AddRefused => e
    case DeleteRefused => e
  }

  /** A `set` or a `delete` was asked for, and ended so. */
  predicate Sent(e: Option<Route>, to: Option<nat>, end: Option<Ending>, e': Option<Route>) {
    end.Some? && Possible(e, to, end.value) && e' == Left(e, to, end.value)
  }

  /** Everything but `dst` is as it was. */
  ghost predicate OnlyAt(dst: Subnet, was: Table, now: Table) {
    forall k :: k != dst ==> At(now, k) == At(was, k)
  }

  class RouteSocket {
    var table: Table
    /** Messages sent so far. */
    var calls: nat
    const refuses: Refusals

    constructor (table: Table, refuses: Refusals)
      ensures this.table == table && calls == 0 && this.refuses == refuses
    {
      this.table := table;
      this.refuses := refuses;
      calls := 0;
    }

    /** One RTM_ADD. */
    method SendAdd(dst: Subnet, index: nat) returns (r: Result<(), Errno>)
      modifies this
      ensures calls == old(calls) + 1
      ensures if Denied(refuses, old(calls)) then r == Err(Other) && table == old(table)
              else if dst in old(table) then r == Err(Exist) && table == old(table)
              else r.Ok? && table == old(table)[dst := Route(index, true)]
    {
      var refused := Denied(refuses, calls);
      calls := calls + 1;
      if refused {
        return Err(Other);
      }
      if dst in table {
        return Err(Exist);
      }
      table := table[dst := Route(index, true)];
      r := Ok(());
    }

    /** One RTM_DELETE. */
    method SendDelete(dst: Subnet) returns (r: Result<(), Errno>)
      modifies this
      ensures calls == old(calls) + 1
      ensures if Denied(refuses, old(calls)) then r == Err(Other) && table == old(table)
              else if dst !in old(table) then r == Err(NoSuch) && table == old(table)
              else r.Ok? && table == old(table) - {dst}
    {
      var refused := Denied(refuses, calls);
      calls := calls + 1;
      if refused {
        return Err(Other);
      }
      if dst !in table {
        return Err(NoSuch);
      }
      table := table - {dst};
      r := Ok(());
    }

    /** `add`: a route already there is left as it is. */
    method Add(dst: Subnet, index: nat) returns (r: Result<Outcome, Errno>)
      modifies this
      ensures calls == old(calls) + 1
      ensures if Denied(refuses, old(calls)) then r.Err? && table == old(table)
              else if dst in old(table) then r == Ok(Existed) && table == old(table)
              else r == Ok(Added) && table == old(table)[dst := Route(index, true)]
    {
      var sent := SendAdd(dst, index);
      match sent {
        case Ok(_) => r := Ok(Added);
        case Err(e) => r := if e == Exist then Ok(Existed) else Err(e);
      }
    }

    /** `delete`: an ESRCH is no failure; a refusal leaves the table as it was. */
    method Delete(dst: Subnet) returns (r: Result<bool, Errno>, ghost end: Ending)
      modifies this
      ensures calls == old(calls) + 1 && end == EndOf(refuses, old(calls), None, dst in old(table))
      ensures r.Ok? <==> end.Done?
      ensures r.Ok? ==> r.value == (dst in old(table)) && table == old(table) - {dst}
      ensures r.Err? ==> table == old(table)
      ensures Sent(At(old(table), dst), None, Some(end), At(table, dst)) && OnlyAt(dst, old(table), table)
    {
      var sent := SendDelete(dst);
      match sent {
        case Ok(_) => r := Ok(true);
        case Err(e) => r := if e == NoSuch then Ok(false) else Err(e);
      }
      end := if r.Ok? then Done else DeleteRefused;
    }

    /** `set`: the route is added, or a new one takes the place of the one
        there. With an Ok it stands on `index`, whatever was there; which of its
        messages was refused, when one was, the caller is not told. */
    method Set(dst: Subnet, index: nat) returns (r: Result<Outcome, Errno>, ghost end: Ending)
      modifies this
      ensures end == EndOf(refuses, old(calls), Some(index), dst in old(table))
      ensures calls == old(calls) + Messages(refuses, old(calls), Some(index), dst in old(table))
      ensures r.Ok? <==> end.Done?
      ensures r.Ok? ==> table == old(table)[dst := Route(index, true)]
      ensures r.Ok? ==> r.value == if dst in old(table) then Moved else Added
      ensures r.Err? ==> table == if end.AddAgainRefused? then old(table) - {dst} else old(table)
      ensures Sent(At(old(table), dst), Some(index), Some(end), At(table, dst)) && OnlyAt(dst, old(table), table)
    {
      var added := Add(dst, index);
      if added.Err? || added.value == Added {
        return added, if added.Ok? then Done else AddRefused;
      }
      var deleted, _ := Delete(dst);
      if deleted.Err? {
        return Err(deleted.error), DeleteRefused;
      }
      var again := Add(dst, index);
      r := if again.Ok? then Ok(Moved) else again;
      end := if again.Ok? then Done else AddAgainRefused;
    }
  }
}
