/** Fairness of roundRobin (pkg/loadbalancer/loadbalancer.go:39-51) over a
    list where only some servers are healthy. Every attempt advances the
    counter, so an unhealthy server is skipped at the cost of one counter
    step and the next call starts just after the previous pick. */
module RoundRobinFairness {
  import opened Balancer

  /** The number of healthy flags. */
  function HealthyCount(hs: seq<bool>): nat
    decreases |hs|
  {
    if |hs| == 0 then 0
    else HealthyCount(hs[..|hs| - 1]) + (if hs[|hs| - 1] then 1 else 0)
  }

  /** The number of counter values in [a, b) whose candidate is healthy. */
  function CountIn(hs: seq<bool>, a: nat, b: nat): nat
    requires |hs| > 0
    decreases b
  {
    if b <= a then 0
    else CountIn(hs, a, b - 1) + (if hs[(b - 1) % |hs|] then 1 else 0)
  }

  /** The counter after t consecutive roundRobin calls starting at c. */
  function CounterAfter(hs: seq<bool>, c: nat, t: nat): nat
    decreases t
  {
    if t == 0 then c else RoundRobinSpec(hs, CounterAfter(hs, c, t - 1)).counter
  }

  // ---------------------------------------------------------------------------
  // Counting healthy counter values

  lemma {:induction false} CountSplit(hs: seq<bool>, a: nat, m: nat, b: nat)
    requires |hs| > 0 && a <= m <= b
    ensures CountIn(hs, a, b) == CountIn(hs, a, m) + CountIn(hs, m, b)
    decreases b
  {
    if b > m {
      CountSplit(hs, a, m, b - 1);
    }
  }

  lemma {:induction false} CountNone(hs: seq<bool>, a: nat, b: nat)
    requires |hs| > 0
    requires forall j :: a <= j < b ==> !hs[j % |hs|]
    ensures CountIn(hs, a, b) == 0
    decreases b
  {
    if b > a {
      CountNone(hs, a, b - 1);
    }
  }

  lemma {:induction false} CountSome(hs: seq<bool>, a: nat, b: nat, x: nat)
    requires |hs| > 0 && a <= x < b && hs[x % |hs|]
    ensures CountIn(hs, a, b) >= 1
    decreases b
  {
    if x < b - 1 {
      CountSome(hs, a, b - 1, x);
    }
  }

  lemma {:induction false} ModPlusN(x: nat, n: nat)
    requires n > 0
    ensures (x + n) % n == x % n
  {
    assert x + n == (x / n + 1) * n + x % n;
    ModUnique(x + n, n, x / n + 1, x % n);
  }

  /** Counting from 0 to b <= n counts the healthy flags among the first b. */
  lemma {:induction false} CountPrefix(hs: seq<bool>, b: nat)
    requires |hs| > 0 && b <= |hs|
    ensures CountIn(hs, 0, b) == HealthyCount(hs[..b])
    decreases b
  {
    if b > 0 {
      CountPrefix(hs, b - 1);
      var prefix := hs[..b];
      assert prefix[..b - 1] == hs[..b - 1];
      assert HealthyCount(prefix) == HealthyCount(hs[..b - 1]) + (if hs[b - 1] then 1 else 0);
      ModUnique(b - 1, |hs|, 0, b - 1);
    }
  }

  /** Any n consecutive counter values meet every server once, so they hold
      exactly the healthy count. */
  lemma {:induction false} WindowCount(hs: seq<bool>, a: nat)
    requires |hs| > 0
    ensures CountIn(hs, a, a + |hs|) == HealthyCount(hs)
    decreases a
  {
    var n := |hs|;
    if a == 0 {
      CountPrefix(hs, n);
      assert hs[..n] == hs;
    } else {
      WindowCount(hs, a - 1);
      CountSplit(hs, a - 1, a, a + n);
      ModPlusN(a - 1, n);
      assert CountIn(hs, a - 1, a + n) == CountIn(hs, a - 1, a - 1 + n) + (if hs[(a - 1) % n] then 1 else 0);
    }
  }

  lemma {:induction false} HealthyWitness(hs: seq<bool>) returns (i: nat)
    requires HealthyCount(hs) >= 1
    ensures i < |hs| && hs[i]
    decreases |hs|
  {
    if hs[|hs| - 1] {
      i := |hs| - 1;
    } else {
      i := HealthyWitness(hs[..|hs| - 1]);
    }
  }

  // ---------------------------------------------------------------------------
  // One call, and consecutive calls

  /** With a healthy server in the list, every call picks, advancing the
      counter past a run of unhealthy candidates to the healthy pick. */
  lemma {:induction false} PickAt(hs: seq<bool>, c: nat, t: nat)
    requires HealthyCount(hs) >= 1
    ensures |hs| > 0
    ensures var a, b := CounterAfter(hs, c, t), CounterAfter(hs, c, t + 1);
      && a < b <= a + |hs|
      && RoundRobinSpec(hs, a).pick == Picked((b - 1) % |hs|)
      && hs[(b - 1) % |hs|]
      && CountIn(hs, a, b) == 1
  {
    var i := HealthyWitness(hs);
    var a := CounterAfter(hs, c, t);
    RoundRobinFailsIffNoneHealthy(hs, a);
    RoundRobinAttempts(hs, a);
    var b := RoundRobinSpec(hs, a).counter;
    CountNone(hs, a, b - 1);
  }

  /** t calls take the counter at least t steps on, across exactly t healthy
      counter values. */
  lemma {:induction false} CallsCount(hs: seq<bool>, c: nat, t: nat)
    requires HealthyCount(hs) >= 1
    ensures c + t <= CounterAfter(hs, c, t)
    ensures CountIn(hs, c, CounterAfter(hs, c, t)) == t
    decreases t
  {
    PickAt(hs, c, 0);
    if t > 0 {
      CallsCount(hs, c, t - 1);
      PickAt(hs, c, t - 1);
      CountSplit(hs, c, CounterAfter(hs, c, t - 1), CounterAfter(hs, c, t));
    }
  }

  lemma {:induction false} CounterMonotone(hs: seq<bool>, c: nat, t1: nat, t2: nat)
    requires HealthyCount(hs) >= 1 && t1 <= t2
    ensures CounterAfter(hs, c, t1) + (t2 - t1) <= CounterAfter(hs, c, t2)
    decreases t2
  {
    if t1 < t2 {
      CounterMonotone(hs, c, t1, t2 - 1);
      PickAt(hs, c, t2 - 1);
    }
  }

  /** h calls, with h the healthy count, stay within n counter steps. */
  lemma {:induction false} HealthyCallsSpanAtMostN(hs: seq<bool>, c: nat)
    requires HealthyCount(hs) >= 1
    ensures |hs| > 0 && CounterAfter(hs, c, HealthyCount(hs)) <= c + |hs|
  {
    var h, n := HealthyCount(hs), |hs|;
    PickAt(hs, c, h - 1);
    var e := CounterAfter(hs, c, h);
    CallsCount(hs, c, h);
    if e > c + n {
      WindowCount(hs, c);
      CountSome(hs, c + n, e, e - 1);
      CountSplit(hs, c, c + n, e);
      assert false;
    }
  }

  /** The counter value x in [c, CounterAfter(c, t)) lies in call u's range. */
  lemma {:induction false} Locate(hs: seq<bool>, c: nat, t: nat, x: nat) returns (u: nat)
    requires c <= x < CounterAfter(hs, c, t)
    ensures u < t && CounterAfter(hs, c, u) <= x < CounterAfter(hs, c, u + 1)
    decreases t
  {
    if x >= CounterAfter(hs, c, t - 1) {
      u := t - 1;
    } else {
      u := Locate(hs, c, t - 1, x);
    }
  }

  lemma {:induction false} CounterAfterFirst(hs: seq<bool>, c: nat, t: nat)
    ensures CounterAfter(hs, c, t + 1) == CounterAfter(hs, RoundRobinSpec(hs, c).counter, t)
    decreases t
  {
    if t > 0 {
      CounterAfterFirst(hs, c, t - 1);
    }
  }

  /** Call t of `Rounds` starts from the counter the t earlier calls left. */
  lemma {:induction false} RoundsAt(hs: seq<bool>, c: nat, m: nat, t: nat)
    requires t < m
    ensures Rounds(hs, c, m)[t] == RoundRobinSpec(hs, CounterAfter(hs, c, t)).pick
    decreases t
  {
    var s := RoundRobinSpec(hs, c);
    var rest := Rounds(hs, s.counter, m - 1);
    assert Rounds(hs, c, m) == [s.pick] + rest;
    if t > 0 {
      RoundsAt(hs, s.counter, m - 1, t - 1);
      CounterAfterFirst(hs, c, t - 1);
      assert Rounds(hs, c, m)[t] == rest[t - 1];
    }
  }

  /** A non-empty run is its first call followed by the rest. */
  lemma {:induction false} RoundsCons(hs: seq<bool>, c: nat, m: nat)
    requires m > 0
    ensures Rounds(hs, c, m) ==
      [RoundRobinSpec(hs, c).pick] + Rounds(hs, RoundRobinSpec(hs, c).counter, m - 1)
  {
  }

  /** k + m calls are k calls followed by m calls from where those left off. */
  lemma {:induction false} RoundsSplit(hs: seq<bool>, c: nat, k: nat, m: nat)
    ensures Rounds(hs, c, k + m) == Rounds(hs, c, k) + Rounds(hs, CounterAfter(hs, c, k), m)
    decreases k
  {
    if k > 0 {
      var s := RoundRobinSpec(hs, c);
      RoundsCons(hs, c, k + m);
      RoundsCons(hs, c, k);
      RoundsSplit(hs, s.counter, k - 1, m);
      CounterAfterFirst(hs, c, k - 1);
      ConsSplit(Rounds(hs, c, k + m), Rounds(hs, c, k), s.pick,
        Rounds(hs, s.counter, k - 1 + m), Rounds(hs, s.counter, k - 1), Rounds(hs, CounterAfter(hs, c, k), m));
    }
  }

  lemma {:induction false} ConsSplit(whole: seq<Pick>, first: seq<Pick>, p: Pick,
                                     restWhole: seq<Pick>, restFirst: seq<Pick>, back: seq<Pick>)
    requires whole == [p] + restWhole && first == [p] + restFirst && restWhole == restFirst + back
    ensures whole == first + back
  {
    assert [p] + (restFirst + back) == ([p] + restFirst) + back;
  }

  // ---------------------------------------------------------------------------
  // Where the next call starts

  lemma {:induction false} ModSucc(x: nat, n: nat)
    requires n > 0
    ensures (x + 1) % n == (x % n + 1) % n
  {
    var r := x % n;
    CandidateStep(x, n);
    if r + 1 == n {
      ModUnique(r + 1, n, 1, 0);
    } else {
      ModUnique(r + 1, n, 0, r + 1);
    }
  }

  lemma {:induction false} ModDistinct(x1: nat, x2: nat, n: nat)
    requires n > 0 && x1 < x2 < x1 + n
    ensures x1 % n != x2 % n
  {
    CandidatesDistinct(x1, n, 0, x2 - x1);
    assert x1 + (x2 - x1) == x2;
  }

  /** A successful call leaves the counter just past its pick, modulo n. */
  lemma {:induction false} RoundRobinCounterAfterPick(hs: seq<bool>, c: nat)
    requires RoundRobinSpec(hs, c).pick.Picked?
    ensures var s := RoundRobinSpec(hs, c);
      s.counter % |hs| == (s.pick.index + 1) % |hs|
  {
    var s := RoundRobinSpec(hs, c);
    RoundRobinAttempts(hs, c);
    ModSucc(s.counter - 1, |hs|);
  }

  lemma {:induction false} CandidateMod(c: nat, j: nat, n: nat)
    requires n > 0
    ensures Candidate(c, j, n) == Candidate(c % n, j, n)
  {
    var x := c % n + j;
    assert c == (c / n) * n + c % n;
    assert (c / n + x / n) * n == (c / n) * n + (x / n) * n;
    ModUnique(c + j, n, c / n + x / n, x % n);
  }

  lemma {:induction false} SkippedMod(hs: seq<bool>, c: nat, i: nat)
    requires |hs| > 0 && i <= |hs|
    ensures Skipped(hs, c, i) == Skipped(hs, c % |hs|, i)
    decreases |hs| - i
  {
    if i < |hs| {
      CandidateMod(c, i, |hs|);
      SkippedMod(hs, c, i + 1);
    }
  }

  /** roundRobin only depends on the counter modulo n. */
  lemma {:induction false} RoundRobinMod(hs: seq<bool>, c: nat)
    requires |hs| > 0
    ensures RoundRobinSpec(hs, c).pick == RoundRobinSpec(hs, c % |hs|).pick
  {
    var k := Skipped(hs, c, 0);
    SkippedMod(hs, c, 0);
    if k < |hs| {
      CandidateMod(c, k, |hs|);
    }
  }

  /** Counters with the same residue modulo n make the same pick. */
  lemma {:induction false} SameResidueSamePick(hs: seq<bool>, x: nat, y: nat)
    requires |hs| > 0 && x % |hs| == y % |hs|
    ensures RoundRobinSpec(hs, x).pick == RoundRobinSpec(hs, y).pick
  {
    RoundRobinMod(hs, x);
    RoundRobinMod(hs, y);
  }

  lemma {:induction false} ModIdempotent(x: nat, n: nat)
    requires n > 0
    ensures x % n % n == x % n
  {
    ModUnique(x % n, n, 0, x % n);
  }

  /** After a call that picks index p, the call from the counter it leaves
      picks what a call from counter p + 1 picks. */
  lemma {:induction false} AfterPickFollows(hs: seq<bool>, a: nat)
    requires RoundRobinSpec(hs, a).pick.Picked?
    ensures |hs| > 0 && RoundRobinSpec(hs, RoundRobinSpec(hs, a).counter).pick ==
      RoundRobinSpec(hs, (RoundRobinSpec(hs, a).pick.index + 1) % |hs|).pick
  {
    var s := RoundRobinSpec(hs, a);
    RoundRobinCounterAfterPick(hs, a);
    ModIdempotent(s.pick.index + 1, |hs|);
    SameResidueSamePick(hs, s.counter, (s.pick.index + 1) % |hs|);
  }

  /** After a pick at index p, the next call picks what a call from counter
      p + 1 picks: the first healthy server cyclically after p. */
  lemma {:induction false} NextRoundFollowsPick(hs: seq<bool>, c: nat, m: nat, t: nat)
    requires t + 1 < m
    requires Rounds(hs, c, m)[t].Picked?
    ensures |hs| > 0 && Rounds(hs, c, m)[t + 1] ==
      RoundRobinSpec(hs, (Rounds(hs, c, m)[t].index + 1) % |hs|).pick
  {
    RoundsAt(hs, c, m, t);
    RoundsAt(hs, c, m, t + 1);
    AfterPickFollows(hs, CounterAfter(hs, c, t));
  }

  // ---------------------------------------------------------------------------
  // Fairness

  /** Call t of h consecutive calls picks the healthy candidate at the last
      counter value of its run, which lies within the n values from c. */
  lemma {:induction false} PickInWindow(hs: seq<bool>, c: nat, t: nat)
    requires HealthyCount(hs) >= 1 && t < HealthyCount(hs)
    ensures |hs| > 0
    ensures var x := CounterAfter(hs, c, t + 1) - 1;
      && Rounds(hs, c, HealthyCount(hs))[t] == Picked(x % |hs|)
      && c + t <= x < CounterAfter(hs, c, HealthyCount(hs)) <= c + |hs|
  {
    var h := HealthyCount(hs);
    RoundsAt(hs, c, h, t);
    PickAt(hs, c, t);
    CallsCount(hs, c, t);
    CounterMonotone(hs, c, t + 1, h);
    HealthyCallsSpanAtMostN(hs, c);
  }

  /** Each position, the last counter value its call passed, lies within
      the n values from c and names that call's pick. */
  lemma {:induction false} PositionsPick(hs: seq<bool>, c: nat, xs: seq<int>)
    requires HealthyCount(hs) >= 1 && |xs| == HealthyCount(hs)
    requires forall t :: 0 <= t < |xs| ==> xs[t] == CounterAfter(hs, c, t + 1) - 1
    ensures |hs| > 0
    ensures forall t :: 0 <= t < |xs| ==>
      c <= xs[t] < c + |hs| && Rounds(hs, c, HealthyCount(hs))[t] == Picked(xs[t] % |hs|)
  {
    forall t | 0 <= t < |xs|
      ensures c <= xs[t] < c + |hs| && Rounds(hs, c, HealthyCount(hs))[t] == Picked(xs[t] % |hs|)
    {
      PickInWindow(hs, c, t);
    }
  }

  /** Consecutive calls pick at increasing counter values. */
  lemma {:induction false} PositionsIncrease(hs: seq<bool>, c: nat, xs: seq<int>)
    requires HealthyCount(hs) >= 1
    requires forall t :: 0 <= t < |xs| ==> xs[t] == CounterAfter(hs, c, t + 1) - 1
    ensures forall t :: 0 <= t < |xs| - 1 ==> xs[t] < xs[t + 1]
  {
    forall t | 0 <= t < |xs| - 1 ensures xs[t] < xs[t + 1] {
      PickAt(hs, c, t + 1);
    }
  }

  /** The counter values at which h consecutive calls pick: increasing,
      within the n values from c, and each one names its call's pick. */
  lemma {:induction false} PickPositions(hs: seq<bool>, c: nat) returns (xs: seq<int>)
    requires HealthyCount(hs) >= 1
    ensures |hs| > 0 && |xs| == HealthyCount(hs)
    ensures forall t :: 0 <= t < |xs| ==>
      c <= xs[t] < c + |hs| && Rounds(hs, c, HealthyCount(hs))[t] == Picked(xs[t] % |hs|)
    ensures forall t :: 0 <= t < |xs| - 1 ==> xs[t] < xs[t + 1]
  {
    xs := seq(HealthyCount(hs), t requires 0 <= t => CounterAfter(hs, c, t + 1) - 1);
    PositionsPick(hs, c, xs);
    PositionsIncrease(hs, c, xs);
  }

  lemma {:induction false} IncreasingPairwise(xs: seq<int>, t1: nat, t2: nat)
    requires forall t :: 0 <= t < |xs| - 1 ==> xs[t] < xs[t + 1]
    requires t1 < t2 < |xs|
    ensures xs[t1] < xs[t2]
    decreases t2
  {
    if t1 < t2 - 1 {
      IncreasingPairwise(xs, t1, t2 - 1);
    }
  }

  /** Picks made at increasing counter values within one window of n values
      are pairwise distinct. */
  lemma {:induction false} WindowPicksDistinct(picks: seq<Pick>, xs: seq<int>, c: nat, n: nat)
    requires n > 0 && |xs| == |picks|
    requires forall t :: 0 <= t < |xs| ==> c <= xs[t] < c + n && picks[t] == Picked(xs[t] % n)
    requires forall t :: 0 <= t < |xs| - 1 ==> xs[t] < xs[t + 1]
    ensures forall t1, t2 :: 0 <= t1 < t2 < |picks| ==> picks[t1] != picks[t2]
  {
    forall t1, t2 | 0 <= t1 < t2 < |picks| ensures picks[t1] != picks[t2] {
      IncreasingPairwise(xs, t1, t2);
      ModDistinct(xs[t1], xs[t2], n);
    }
  }

  /** Two of h consecutive calls never pick the same server. */
  lemma {:induction false} PicksDistinct(hs: seq<bool>, c: nat)
    requires HealthyCount(hs) >= 1
    ensures var picks := Rounds(hs, c, HealthyCount(hs));
      forall t1, t2 :: 0 <= t1 < t2 < |picks| ==> picks[t1] != picks[t2]
  {
    var xs := PickPositions(hs, c);
    WindowPicksDistinct(Rounds(hs, c, HealthyCount(hs)), xs, c, |hs|);
  }

  /** Every healthy server is the candidate of some counter value that h
      consecutive calls pass. */
  lemma {:induction false} HealthyReached(hs: seq<bool>, c: nat, i: nat) returns (x: nat)
    requires HealthyCount(hs) >= 1 && i < |hs| && hs[i]
    ensures c <= x < CounterAfter(hs, c, HealthyCount(hs)) && x % |hs| == i
  {
    var h, n := HealthyCount(hs), |hs|;
    var e := CounterAfter(hs, c, h);
    HealthyCallsSpanAtMostN(hs, c);
    CallsCount(hs, c, h);
    var j := CandidateHit(c, n, i);
    x := c + j;
    WindowCount(hs, c);
    CountSplit(hs, c, e, c + n);
    if x >= e {
      CountSome(hs, e, c + n, x);
      assert false;
    }
  }

  /** A healthy candidate within the counter values one call passes is the
      one that call picks. */
  lemma {:induction false} HealthyInRunIsPick(hs: seq<bool>, a: nat, x: nat)
    requires |hs| > 0 && a <= x < RoundRobinSpec(hs, a).counter && hs[x % |hs|]
    ensures RoundRobinSpec(hs, a).pick == Picked(x % |hs|)
  {
    RoundRobinFailsIffNoneHealthy(hs, a);
    RoundRobinAttempts(hs, a);
  }

  /** Every healthy server is picked by one of h consecutive calls. */
  lemma {:induction false} HealthyPicked(hs: seq<bool>, c: nat, i: nat) returns (u: nat)
    requires HealthyCount(hs) >= 1 && i < |hs| && hs[i]
    ensures u < HealthyCount(hs) && Rounds(hs, c, HealthyCount(hs))[u] == Picked(i)
  {
    var x := HealthyReached(hs, c, i);
    u := Locate(hs, c, HealthyCount(hs), x);
    RoundsAt(hs, c, HealthyCount(hs), u);
    HealthyInRunIsPick(hs, CounterAfter(hs, c, u), x);
  }

  /** With h healthy servers, any h consecutive calls, from any counter,
      pick every healthy server exactly once and no unhealthy one. */
  lemma {:induction false} RoundRobinVisitsEachHealthyOnce(hs: seq<bool>, c: nat)
    requires HealthyCount(hs) >= 1
    ensures var picks := Rounds(hs, c, HealthyCount(hs));
      && (forall t :: 0 <= t < |picks| ==> picks[t].Picked? && picks[t].index < |hs| && hs[picks[t].index])
      && (forall i :: 0 <= i < |hs| && hs[i] ==> Picked(i) in picks)
      && (forall t1, t2 :: 0 <= t1 < t2 < |picks| ==> picks[t1] != picks[t2])
  {
    var h := HealthyCount(hs);
    var picks := Rounds(hs, c, h);
    forall t | 0 <= t < h
      ensures picks[t].Picked? && picks[t].index < |hs| && hs[picks[t].index]
    {
      PickInWindow(hs, c, t);
      PickAt(hs, c, t);
    }
    forall i | 0 <= i < |hs| && hs[i] ensures Picked(i) in picks {
      var u := HealthyPicked(hs, c, i);
    }
    PicksDistinct(hs, c);
  }

  /** An element of a sequence without repeats occurs in it once. */
  lemma {:induction false} OccursOnce(s: seq<Pick>, x: Pick)
    requires x in s
    requires forall t1, t2 :: 0 <= t1 < t2 < |s| ==> s[t1] != s[t2]
    ensures multiset(s)[x] == 1
    decreases |s|
  {
    assert s == [s[0]] + s[1..];
    if s[0] == x {
      assert x !in s[1..] by {
        forall t | 0 <= t < |s| - 1 ensures s[1..][t] != x {
          assert s[1..][t] == s[t + 1];
        }
      }
    } else {
      OccursOnce(s[1..], x);
    }
  }

  lemma {:induction false} MulStep(k: nat, h: nat)
    requires k > 0
    ensures k * h == h + (k - 1) * h
  {
  }

  /** One block of calls that picks every healthy server once and nothing
      else, followed by calls that pick server i k - 1 times when healthy,
      picks server i k times when healthy and never otherwise. */
  lemma {:induction false} BlockShare(hs: seq<bool>, block: seq<Pick>, rest: seq<Pick>, k: nat, i: nat)
    requires k > 0 && i < |hs|
    requires forall t :: 0 <= t < |block| ==> block[t].Picked? && block[t].index < |hs| && hs[block[t].index]
    requires forall j :: 0 <= j < |hs| && hs[j] ==> Picked(j) in block
    requires forall t1, t2 :: 0 <= t1 < t2 < |block| ==> block[t1] != block[t2]
    requires multiset(rest)[Picked(i)] == if hs[i] then k - 1 else 0
    ensures multiset(block + rest)[Picked(i)] == if hs[i] then k else 0
  {
    assert multiset(block + rest) == multiset(block) + multiset(rest);
    if hs[i] {
      OccursOnce(block, Picked(i));
    } else {
      assert Picked(i) !in block;
    }
  }

  /** Every call of a run picks a healthy, in-range server when one exists. */
  lemma {:induction false} RoundsOnlyHealthy(hs: seq<bool>, c: nat, m: nat)
    requires HealthyCount(hs) >= 1
    ensures forall t :: 0 <= t < |Rounds(hs, c, m)| ==>
      Rounds(hs, c, m)[t].Picked? && Rounds(hs, c, m)[t].index < |hs| && hs[Rounds(hs, c, m)[t].index]
  {
    forall t | 0 <= t < m
      ensures Rounds(hs, c, m)[t].Picked? && Rounds(hs, c, m)[t].index < |hs| && hs[Rounds(hs, c, m)[t].index]
    {
      RoundsAt(hs, c, m, t);
      PickAt(hs, c, t);
    }
  }

  /** Appending calls that pick only healthy servers keeps an unhealthy
      server's count and never lowers a healthy one's. */
  lemma {:induction false} ShareWithTail(hs: seq<bool>, block: seq<Pick>, tail: seq<Pick>, k: nat, i: nat)
    requires i < |hs|
    requires multiset(block)[Picked(i)] == if hs[i] then k else 0
    requires forall t :: 0 <= t < |tail| ==> tail[t].Picked? && tail[t].index < |hs| && hs[tail[t].index]
    ensures hs[i] ==> multiset(block + tail)[Picked(i)] >= k
    ensures !hs[i] ==> multiset(block + tail)[Picked(i)] == 0
  {
    assert multiset(block + tail) == multiset(block) + multiset(tail);
    if !hs[i] {
      assert Picked(i) !in tail;
    }
  }

  /** k blocks of h calls are one block followed by k - 1 more. */
  lemma {:induction false} FirstBlock(hs: seq<bool>, c: nat, k: nat)
    requires k > 0
    ensures Rounds(hs, c, k * HealthyCount(hs)) ==
      Rounds(hs, c, HealthyCount(hs)) + Rounds(hs, CounterAfter(hs, c, HealthyCount(hs)), (k - 1) * HealthyCount(hs))
  {
    MulStep(k, HealthyCount(hs));
    RoundsSplit(hs, c, HealthyCount(hs), (k - 1) * HealthyCount(hs));
  }

  /** Over k * h consecutive calls, with h the number of healthy servers,
      each healthy server is picked exactly k times and an unhealthy one
      never. */
  lemma {:induction false} RoundRobinFairShare(hs: seq<bool>, c: nat, k: nat, i: nat)
    requires HealthyCount(hs) >= 1 && i < |hs|
    ensures multiset(Rounds(hs, c, k * HealthyCount(hs)))[Picked(i)] == if hs[i] then k else 0
    decreases k
  {
    var h := HealthyCount(hs);
    if k > 0 {
      var e := CounterAfter(hs, c, h);
      FirstBlock(hs, c, k);
      RoundRobinVisitsEachHealthyOnce(hs, c);
      RoundRobinFairShare(hs, e, k - 1, i);
      BlockShare(hs, Rounds(hs, c, h), Rounds(hs, e, (k - 1) * h), k, i);
    }
  }

  /** N calls are N / h whole blocks of h calls followed by N % h more. */
  lemma {:induction false} FloorSplit(hs: seq<bool>, c: nat, n: nat)
    requires HealthyCount(hs) >= 1
    ensures var k := n / HealthyCount(hs) * HealthyCount(hs);
      Rounds(hs, c, n) == Rounds(hs, c, k) + Rounds(hs, CounterAfter(hs, c, k), n % HealthyCount(hs))
  {
    var h := HealthyCount(hs);
    var k := n / h * h;
    assert k + n % h == n;
    RoundsSplit(hs, c, k, n % h);
  }

  /** Over any N consecutive calls, each healthy server is picked at least
      N / h times, with h the number of healthy servers, and an unhealthy one
      never. */
  lemma {:induction false} RoundRobinAtLeastFloor(hs: seq<bool>, c: nat, n: nat, i: nat)
    requires HealthyCount(hs) >= 1 && i < |hs|
    ensures hs[i] ==> multiset(Rounds(hs, c, n))[Picked(i)] >= n / HealthyCount(hs)
    ensures !hs[i] ==> multiset(Rounds(hs, c, n))[Picked(i)] == 0
  {
    var h := HealthyCount(hs);
    var k := n / h;
    var e := CounterAfter(hs, c, k * h);
    FloorSplit(hs, c, n);
    RoundRobinFairShare(hs, c, k, i);
    RoundsOnlyHealthy(hs, e, n % h);
    ShareWithTail(hs, Rounds(hs, c, k * h), Rounds(hs, e, n % h), k, i);
  }
}
