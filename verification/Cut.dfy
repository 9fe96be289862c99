/** The cut detector of src/link.rs: counters of the tunnel interface kept only
    as far back as the window needs. Instants are milliseconds. */
module Cut {
  const CUT_WINDOW: nat := 4_000
  const CUT_PACKETS: nat := 3

  datatype Sample = Sample(at: nat, rx: nat, tx: nat)

  predicate InOrder(s: seq<Sample>) {
    forall i, j :: 0 <= i < j < |s| ==> s[i].at <= s[j].at
  }

  /** Four seconds old. */
  predicate OldAt(s: Sample, now: nat) {
    now - s.at >= 4_000
  }

  /** Nothing came back since, and at least three packets went out. */
  predicate Silent(since: Sample, last: Sample) {
    last.rx == since.rx && last.tx - since.tx >= 3
  }

  lemma WindowMeans(since: Sample, last: Sample)
    ensures OldAt(since, last.at) <==> last.at - since.at >= 4_000
    ensures Silent(since, last) <==> last.rx == since.rx && last.tx - since.tx >= 3
  {
  }

  /** The front is given up while the next one is a window old too. */
  function Trim(s: seq<Sample>, now: nat): seq<Sample> {
    if |s| > 1 && OldAt(s[1], now) then Trim(s[1..], now) else s
  }

  /** The deque after all of these samples. */
  function Deque(seen: seq<Sample>): seq<Sample> {
    if seen == [] then []
    else
      var n := |seen| - 1;
      Trim(Deque(seen[..n]) + [seen[n]], seen[n].at)
  }

  /** What the code says, by the front of the deque alone. */
  predicate FrontVerdict(deque: seq<Sample>, last: Sample) {
    deque != [] && OldAt(deque[0], last.at) && Silent(deque[0], last)
  }

  /** What is meant, by every sample there was: the newest one at least a window
      old exists, and there was silence since. */
  ghost predicate FullVerdict(seen: seq<Sample>, last: Sample) {
    exists i {:trigger Silent(seen[i], last)} :: 0 <= i < |seen| && OldAt(seen[i], last.at) && Silent(seen[i], last)
                && forall j :: i < j < |seen| ==> !OldAt(seen[j], last.at)
  }

  /** What the deque keeps of the samples: the tail from some point on, where
      that point is old and the next is not, unless it is the first of all. */
  ghost predicate Tail(seen: seq<Sample>, deque: seq<Sample>, now: nat) {
    |deque| <= |seen| && deque == seen[|seen| - |deque|..]
    && (seen != [] ==> deque != [])
    && (|deque| < |seen| ==> OldAt(deque[0], now))
    && (|deque| > 1 ==> !OldAt(deque[1], now))
  }

  lemma {:induction false} TrimIsTail(seen: seq<Sample>, s: seq<Sample>, now: nat)
    requires 0 < |s| <= |seen| && s == seen[|seen| - |s|..]
    requires |s| < |seen| ==> OldAt(s[0], now)
    ensures Tail(seen, Trim(s, now), now)
    decreases |s|
  {
    if |s| > 1 && OldAt(s[1], now) {
      TrimIsTail(seen, s[1..], now);
    }
  }

  lemma {:induction false} DequeIsTail(seen: seq<Sample>)
    requires InOrder(seen) && seen != []
    ensures Tail(seen, Deque(seen), seen[|seen| - 1].at)
    decreases |seen|
  {
    var n := |seen| - 1;
    var was := Deque(seen[..n]);
    if n > 0 {
      DequeIsTail(seen[..n]);
      assert seen[n - 1].at <= seen[n].at;
    }
    assert was + [seen[n]] == seen[|seen| - |was| - 1..];
    TrimIsTail(seen, was + [seen[n]], seen[n].at);
  }

  /** The trimmed deque gives the verdict of the whole history, for samples at
      times that do not go back. */
  lemma DequeRefinesHistory(seen: seq<Sample>)
    requires InOrder(seen) && seen != []
    ensures var last := seen[|seen| - 1]; FrontVerdict(Deque(seen), last) <==> FullVerdict(seen, last)
  {
    var d, last := Deque(seen), seen[|seen| - 1];
    DequeIsTail(seen);
    TailDecides(seen, d, last);
  }

  lemma TailDecides(seen: seq<Sample>, deque: seq<Sample>, last: Sample)
    requires InOrder(seen) && Tail(seen, deque, last.at) && deque != []
    ensures FrontVerdict(deque, last) <==> FullVerdict(seen, last)
  {
    var k := |seen| - |deque|;
    assert deque[0] == seen[k] && Silent(seen[k], last) == Silent(deque[0], last);
    assert |deque| > 1 ==> deque[1] == seen[k + 1];
  }

  ghost predicate Keeps(samples: seq<Sample>, seen: seq<Sample>) {
    InOrder(seen) && samples == Deque(seen)
  }

  class Detector {
    var samples: seq<Sample>
    /** Every sample since the last clear. */
    ghost var seen: seq<Sample>

    constructor ()
      ensures samples == [] && seen == []
    {
      samples, seen := [], [];
    }

    ghost predicate Valid()
      reads this
    {
      Keeps(samples, seen)
    }

    method Clear()
      modifies this
      ensures Valid() && samples == [] && seen == []
    {
      samples, seen := [], [];
    }

    /** One reading of the counters: is the tunnel cut? */
    method Add(now: nat, rx: nat, tx: nat) returns (cut: bool)
      requires Valid() && (seen != [] ==> seen[|seen| - 1].at <= now)
      modifies this
      ensures Valid() && seen == old(seen) + [Sample(now, rx, tx)]
      ensures cut <==> FullVerdict(seen, Sample(now, rx, tx))
    {
      samples := samples + [Sample(now, rx, tx)];
      seen := seen + [Sample(now, rx, tx)];
      assert seen[..|seen| - 1] == old(seen);
      ghost var pushed := samples;
      while |samples| > 1 && now >= samples[1].at + CUT_WINDOW
        invariant samples != [] && Trim(samples, now) == Trim(pushed, now)
        invariant seen == old(seen) + [Sample(now, rx, tx)]
      {
        samples := samples[1..];
      }
      var front := samples[0];
      var sent := if tx >= front.tx then tx - front.tx else 0;
      cut := now >= front.at + CUT_WINDOW && rx == front.rx && sent >= CUT_PACKETS;
      DequeRefinesHistory(seen);
    }
  }
}
