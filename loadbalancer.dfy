/** pkg/loadbalancer: picks one healthy upstream from a backend's list, by
    round-robin over a per-balancer counter or by one random draw. */
module Balancer {
  import opened Upstreams

  const RoundRobinAlgorithm := "round_robin"
  const RandomAlgorithm := "random"

  /** The outcome of one selection, by list index. `NoneHealthy` is the
      error "no server is healthy", `Unimplemented` the error for an unknown
      algorithm name, `DrawPanic` the panic of rand.Intn on a non-positive bound. */
  datatype Pick = Picked(index: nat) | NoneHealthy | Unimplemented | DrawPanic

  /** A pick together with the counter value after it. */
  datatype Selection = Selection(pick: Pick, counter: nat)

  // ---------------------------------------------------------------------------
  // Arithmetic about the candidate index (counter + attempt) mod n.

  /** The index the attempt j of a scan that starts at counter c looks at. */
  function Candidate(c: nat, j: nat, n: nat): (idx: nat)
    requires n > 0
    ensures idx < n
  {
    (c + j) % n
  }

  lemma MulAtLeast(d: int, n: int)
    requires d >= 1 && n > 0
    ensures d * n >= n
  {
  }

  lemma ModUnique(x: int, n: int, q: int, r: int)
    requires n > 0 && 0 <= r < n && x == q * n + r
    ensures x % n == r
  {
    var q', r' := x / n, x % n;
    assert x == q' * n + r';
    assert (q - q') * n == r' - r;
    if q > q' {
      MulAtLeast(q - q', n);
    } else if q < q' {
      MulAtLeast(q' - q, n);
    }
  }

  /** Advancing the counter by one moves the candidate one place on, wrapping at n. */
  lemma CandidateStep(x: nat, n: nat)
    requires n > 0
    ensures (x + 1) % n == if x % n + 1 == n then 0 else x % n + 1
  {
    var q, r := x / n, x % n;
    assert x == q * n + r;
    if r + 1 == n {
      assert x + 1 == (q + 1) * n + 0;
      ModUnique(x + 1, n, q + 1, 0);
    } else {
      ModUnique(x + 1, n, q, r + 1);
    }
  }

  /** The candidate of attempt j, for j < n, in closed form. */
  lemma {:induction false} CandidateOffset(c: nat, j: nat, n: nat)
    requires 0 < n && j < n
    ensures Candidate(c, j, n) == if c % n + j < n then c % n + j else c % n + j - n
    decreases j
  {
    if j > 0 {
      CandidateOffset(c, j - 1, n);
      CandidateStep(c + j - 1, n);
    }
  }

  /** Every index of a non-empty list is the candidate of one of the n
      attempts that start at any counter value. */
  lemma CandidateHit(c: nat, n: nat, i: nat) returns (j: nat)
    requires 0 <= i < n
    ensures j < n && Candidate(c, j, n) == i
  {
    j := if i >= c % n then i - c % n else i + n - c % n;
    CandidateOffset(c, j, n);
  }

  /** The n attempts of one scan look at n different indices. */
  lemma CandidatesDistinct(c: nat, n: nat, j1: nat, j2: nat)
    requires j1 < j2 < n
    ensures Candidate(c, j1, n) != Candidate(c, j2, n)
  {
    CandidateOffset(c, j1, n);
    CandidateOffset(c, j2, n);
  }

  // ---------------------------------------------------------------------------
  // Round-robin.

  /** The number of attempts, from attempt i on, that land on an unhealthy
      candidate before the first healthy one; |hs| when there is none. */
  function Skipped(hs: seq<bool>, c: nat, i: nat): (k: nat)
    requires i <= |hs|
    ensures i <= k <= |hs|
    ensures k < |hs| ==> hs[Candidate(c, k, |hs|)]
    ensures forall j :: i <= j < k ==> !hs[Candidate(c, j, |hs|)]
    decreases |hs| - i
  {
    if i == |hs| then i
    else if hs[Candidate(c, i, |hs|)] then i
    else Skipped(hs, c, i + 1)
  }

  /** roundRobin on servers with health flags hs and starting counter c:
      every attempt looks at index counter mod n and advances the counter. */
  function RoundRobinSpec(hs: seq<bool>, c: nat): (s: Selection)
    ensures s.pick.Picked? || s.pick.NoneHealthy?
    ensures s.pick.Picked? ==> s.pick.index < |hs| && hs[s.pick.index]
    ensures c <= s.counter <= c + |hs|
  {
    var k := Skipped(hs, c, 0);
    if k < |hs| then Selection(Picked(Candidate(c, k, |hs|)), c + k + 1)
    else Selection(NoneHealthy, c + |hs|)
  }

  /** On success the counter rose by k + 1, the pick is the candidate of the
      last attempt, and all k earlier candidates were unhealthy; on failure it
      rose by exactly n, and then no server is healthy (nor was any skipped
      one). An empty list fails without touching the counter. */
  lemma RoundRobinAttempts(hs: seq<bool>, c: nat)
    ensures var s := RoundRobinSpec(hs, c);
      && (s.pick.Picked? ==>
            && s.counter > c
            && s.pick.index == (s.counter - 1) % |hs|
            && forall j :: c <= j < s.counter - 1 ==> !hs[j % |hs|])
      && (s.pick.NoneHealthy? ==> s.counter == c + |hs|)
  {
    var k := Skipped(hs, c, 0);
    var s := RoundRobinSpec(hs, c);
    if k < |hs| {
      forall j | c <= j < s.counter - 1 ensures !hs[j % |hs|] {
        assert !hs[Candidate(c, j - c, |hs|)];
        assert c + (j - c) == j;
      }
    }
  }

  /** Round-robin fails exactly when every server is unhealthy. */
  lemma RoundRobinFailsIffNoneHealthy(hs: seq<bool>, c: nat)
    ensures RoundRobinSpec(hs, c).pick.NoneHealthy? <==> forall i :: 0 <= i < |hs| ==> !hs[i]
  {
    var k := Skipped(hs, c, 0);
    if k == |hs| {
      forall i | 0 <= i < |hs| ensures !hs[i] {
        var j := CandidateHit(c, |hs|, i);
      }
    }
  }

  /** The picks of m consecutive round-robin calls starting at counter c. */
  function Rounds(hs: seq<bool>, c: nat, m: nat): (picks: seq<Pick>)
    ensures |picks| == m
    decreases m
  {
    if m == 0 then []
    else
      var s := RoundRobinSpec(hs, c);
      [s.pick] + Rounds(hs, s.counter, m - 1)
  }

  lemma {:induction false} AllHealthyRoundsAt(hs: seq<bool>, c: nat, m: nat, t: nat)
    requires |hs| > 0 && forall i :: 0 <= i < |hs| ==> hs[i]
    requires t < m
    ensures Rounds(hs, c, m)[t] == Picked(Candidate(c, t, |hs|))
    decreases m
  {
    assert Skipped(hs, c, 0) == 0;
    if t > 0 {
      AllHealthyRoundsAt(hs, c + 1, m - 1, t - 1);
      assert c + 1 + (t - 1) == c + t;
    }
  }

  /** With every server healthy, n consecutive round-robin calls return each
      of the n servers exactly once. */
  lemma AllHealthyRoundRobinVisitsEachOnce(hs: seq<bool>, c: nat)
    requires |hs| > 0 && forall i :: 0 <= i < |hs| ==> hs[i]
    ensures forall i :: 0 <= i < |hs| ==> Picked(i) in Rounds(hs, c, |hs|)
    ensures forall t1, t2 :: 0 <= t1 < t2 < |hs| ==> Rounds(hs, c, |hs|)[t1] != Rounds(hs, c, |hs|)[t2]
  {
    var n := |hs|;
    var picks := Rounds(hs, c, n);
    forall i | 0 <= i < n ensures Picked(i) in picks {
      var j := CandidateHit(c, n, i);
      AllHealthyRoundsAt(hs, c, n, j);
    }
    forall t1, t2 | 0 <= t1 < t2 < n ensures picks[t1] != picks[t2] {
      AllHealthyRoundsAt(hs, c, n, t1);
      AllHealthyRoundsAt(hs, c, n, t2);
      CandidatesDistinct(c, n, t1, t2);
    }
  }

  // ---------------------------------------------------------------------------
  // Random.

  /** The first healthy index at or after i; |hs| when there is none. */
  function FirstHealthy(hs: seq<bool>, i: nat): (k: nat)
    requires i <= |hs|
    ensures i <= k <= |hs|
    ensures k < |hs| ==> hs[k]
    ensures forall j :: i <= j < k ==> !hs[j]
    decreases |hs| - i
  {
    if i == |hs| then i
    else if hs[i] then i
    else FirstHealthy(hs, i + 1)
  }

  /** The index rand.Intn(n - 1) returns, for an arbitrary draw. */
  function DrawnIndex(n: nat, draw: nat): (idx: nat)
    requires n >= 2
    ensures idx <= n - 2
  {
    draw % (n - 1)
  }

  /** random: one draw; the drawn server if healthy, otherwise the first
      healthy server in list order. rand.Intn panics when n - 1 <= 0. */
  function RandomSpec(hs: seq<bool>, c: nat, draw: nat): (s: Selection)
    ensures s.pick.Picked? ==> s.pick.index < |hs| && hs[s.pick.index]
    ensures s.pick.DrawPanic? <==> |hs| <= 1
    ensures !s.pick.Unimplemented?
    ensures s.counter == if |hs| <= 1 then c else c + 1
  {
    if |hs| <= 1 then Selection(DrawPanic, c)
    else
      var idx := DrawnIndex(|hs|, draw);
      if hs[idx] then Selection(Picked(idx), c + 1)
      else
        var k := FirstHealthy(hs, 0);
        if k < |hs| then Selection(Picked(k), c + 1) else Selection(NoneHealthy, c + 1)
  }

  /** With two or more servers, random returns the drawn server when it is
      healthy, else the first healthy one, and fails only when none is healthy;
      the last server is returned only when every other server is unhealthy. */
  lemma RandomChoice(hs: seq<bool>, c: nat, draw: nat)
    requires |hs| >= 2
    ensures var s := RandomSpec(hs, c, draw);
      && (hs[DrawnIndex(|hs|, draw)] ==> s.pick == Picked(DrawnIndex(|hs|, draw)))
      && (s.pick.Picked? && s.pick.index != DrawnIndex(|hs|, draw) ==>
            forall j :: 0 <= j < s.pick.index ==> !hs[j])
      && (s.pick.NoneHealthy? <==> forall i :: 0 <= i < |hs| ==> !hs[i])
      && (s.pick == Picked(|hs| - 1) ==> forall j :: 0 <= j < |hs| - 1 ==> !hs[j])
  {
    var s := RandomSpec(hs, c, draw);
    var idx := DrawnIndex(|hs|, draw);
    if !hs[idx] {
      var k := FirstHealthy(hs, 0);
      assert s.pick.Picked? ==> s.pick.index == k;
    }
  }

  // ---------------------------------------------------------------------------
  // GetNextServer.

  /** GetNextServer: dispatch on the algorithm name; any other name is an
      error and leaves the counter alone. */
  function SelectSpec(algorithm: string, hs: seq<bool>, c: nat, draw: nat): (s: Selection)
    ensures s.pick.Picked? ==> s.pick.index < |hs| && hs[s.pick.index]
    ensures s.pick.Unimplemented? <==> algorithm != RoundRobinAlgorithm && algorithm != RandomAlgorithm
    ensures s.pick.Unimplemented? ==> s.counter == c
    ensures s.pick.Picked? ==> s.counter > c
  {
    if algorithm == RoundRobinAlgorithm then
      RoundRobinAttempts(hs, c);
      RoundRobinSpec(hs, c)
    else if algorithm == RandomAlgorithm then RandomSpec(hs, c, draw)
    else Selection(Unimplemented, c)
  }

  /** What GetNextServer hands back: the server, or why there is none. */
  datatype Selected = Chosen(server: Server) | NoServerHealthy | UnimplementedAlgorithm | IntnPanic

  function ServerOf(servers: seq<Server>, p: Pick): Selected
    requires p.Picked? ==> p.index < |servers|
  {
    match p
    case Picked(i) => Chosen(servers[i])
    case NoneHealthy => NoServerHealthy
    case Unimplemented => UnimplementedAlgorithm
    case DrawPanic => IntnPanic
  }

  class LoadBalancer {
    var current: nat
    const algorithm: string

    constructor (algorithm: string)
      ensures this.algorithm == algorithm && current == 0
    {
      this.algorithm := algorithm;
      current := 0;
    }

    method GetNextServer(servers: seq<Server>, draw: nat) returns (r: Selected)
      modifies this
      ensures var s := SelectSpec(algorithm, Healths(servers), old(current), draw);
        r == ServerOf(servers, s.pick) && current == s.counter
    {
      if algorithm == RoundRobinAlgorithm {
        r := RoundRobin(servers);
        RoundRobinAttempts(Healths(servers), old(current));
      } else if algorithm == RandomAlgorithm {
        r := Random(servers, draw);
      } else {
        r := UnimplementedAlgorithm;
      }
    }

    method RoundRobin(servers: seq<Server>) returns (r: Selected)
      modifies this
      ensures var s := RoundRobinSpec(Healths(servers), old(current));
        r == ServerOf(servers, s.pick) && current == s.counter
    {
      ghost var hs, c0 := Healths(servers), current;
      var i := 0;
      while i < |servers|
        invariant 0 <= i <= |servers|
        invariant current == c0 + i
        invariant Skipped(hs, c0, 0) >= i
      {
        var idx := current % |servers|;
        assert idx == Candidate(c0, i, |hs|);
        var next := servers[idx];
        current := current + 1;
        if next.GetHealth() {
          assert hs[Candidate(c0, i, |hs|)];
          return Chosen(next);
        }
        assert !hs[Candidate(c0, i, |hs|)];
        i := i + 1;
      }
      return NoServerHealthy;
    }

    method Random(servers: seq<Server>, draw: nat) returns (r: Selected)
      modifies this
      ensures var s := RandomSpec(Healths(servers), old(current), draw);
        r == ServerOf(servers, s.pick) && current == s.counter
    {
      if |servers| <= 1 {
        return IntnPanic;
      }
      var idx := draw % (|servers| - 1);
      var s := servers[idx];
      current := current + 1;
      if s.GetHealth() {
        return Chosen(s);
      }
      ghost var hs := Healths(servers);
      for i := 0 to |servers|
        invariant FirstHealthy(hs, 0) >= i
      {
        if servers[i].GetHealth() {
          return Chosen(servers[i]);
        }
      }
      return NoServerHealthy;
    }
  }

  // ---------------------------------------------------------------------------
  // The counter as written: a 32-bit atomic integer, taken mod n with Go's
  // truncating remainder.

  const MaxInt32: int := 0x7fff_ffff

  /** Two's-complement wrap-around of atomic.Int32.Add. */
  function WrapInt32(x: int): (r: int)
    ensures -MaxInt32 - 1 <= r <= MaxInt32
    ensures -MaxInt32 - 1 <= x <= MaxInt32 ==> r == x
  {
    var m := (x + MaxInt32 + 1) % 0x1_0000_0000;
    m - MaxInt32 - 1
  }

  /** Go's % on int: truncates toward zero, so a negative operand gives a
      result that is zero or negative. */
  function GoRem(a: int, n: int): (r: int)
    requires n > 0
    ensures a >= 0 ==> r == a % n
    ensures a < 0 ==> -n < r <= 0
  {
    if a >= 0 then a % n else -((-a) % n)
  }

  /** After 2^31 attempts the int32 counter wraps to its minimum and the next
      candidate index, `GoRem(counter, n)` as roundRobin computes it, is
      negative: servers[idx] would be out of range. */
  lemma Int32CounterWrapsToNegativeIndex()
    ensures WrapInt32(MaxInt32 + 1) == -MaxInt32 - 1
    ensures GoRem(WrapInt32(MaxInt32 + 1), 3) == -2
  {
  }

  // ---------------------------------------------------------------------------
  // Random selection as evidently intended: rand.Intn(n).

  function RandomIntendedSpec(hs: seq<bool>, c: nat, draw: nat): (s: Selection)
    ensures s.pick.Picked? ==> s.pick.index < |hs| && hs[s.pick.index]
    ensures !s.pick.DrawPanic?
  {
    if |hs| == 0 then Selection(NoneHealthy, c)
    else
      var idx := draw % |hs|;
      if hs[idx] then Selection(Picked(idx), c + 1)
      else
        var k := FirstHealthy(hs, 0);
        if k < |hs| then Selection(Picked(k), c + 1) else Selection(NoneHealthy, c + 1)
  }

  /** As written, a backend with a single healthy server panics under the
      random algorithm, and the last server is never the one drawn. */
  lemma RandomAsWrittenPanicsOnSingleServer(c: nat, draw: nat)
    ensures RandomSpec([true], c, draw).pick == DrawPanic
    ensures RandomSpec([false, true], c, draw).pick == Picked(1)
    ensures RandomSpec([true, true], c, draw).pick == Picked(0)
  {
    assert DrawnIndex(2, draw) == 0;
  }

  /** As intended, any server can be drawn, a single healthy server is always
      returned, and selection never panics. */
  lemma RandomIntendedReachesEveryServer(hs: seq<bool>, c: nat, i: nat)
    requires i < |hs| && hs[i]
    ensures RandomIntendedSpec(hs, c, i).pick == Picked(i)
    ensures |hs| == 1 ==> forall d: nat :: RandomIntendedSpec(hs, c, d).pick == Picked(0)
  {
    if |hs| == 1 {
      forall d: nat ensures RandomIntendedSpec(hs, c, d).pick == Picked(0) {
        assert d % 1 == 0;
      }
    }
  }
}
