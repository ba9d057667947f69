/**
  Per-domain statistics (the `domain_stats` dictionary of monitor_endpoints
  in main.py) and the availability percentage printed after each cycle.
 */
module Stats {
  import opened Probe

  datatype Counts = Counts(up: nat, total: nat)

  type Table = map<string, Counts>

  /** Every present domain has been recorded at least once and is never up
      more often than it was probed. */
  predicate Consistent(t: Table)
  {
    forall d :: d in t ==> t[d].up <= t[d].total && t[d].total >= 1
  }

  /** The defaultdict lookup: an absent domain reads as zero counts. */
  function Lookup(t: Table, d: string): Counts
  {
    if d in t then t[d] else Counts(0, 0)
  }

  /** One recorded verdict: `total += 1`, and `up += 1` iff the verdict is UP. */
  function RecordVerdict(t: Table, d: string, v: Verdict): (t': Table)
    ensures t'.Keys == t.Keys + {d}
    ensures forall e :: e in t && e != d ==> t'[e] == t[e]
    ensures Lookup(t', d).total == Lookup(t, d).total + 1
    ensures Lookup(t', d).up == Lookup(t, d).up + (if v == Up then 1 else 0)
    ensures Consistent(t) ==> Consistent(t')
  {
    var c := Lookup(t, d);
    t[d := Counts(if v == Up then c.up + 1 else c.up, c.total + 1)]
  }

  /** Recording two verdicts gives the same table in either order. */
  lemma RecordCommutes(t: Table, d1: string, v1: Verdict, d2: string, v2: Verdict)
    ensures RecordVerdict(RecordVerdict(t, d1, v1), d2, v2) == RecordVerdict(RecordVerdict(t, d2, v2), d1, v1)
  {
    var a := RecordVerdict(RecordVerdict(t, d1, v1), d2, v2);
    var b := RecordVerdict(RecordVerdict(t, d2, v2), d1, v1);
    forall e | e in a ensures a[e] == b[e] {
      assert Lookup(a, e) == Lookup(b, e);
    }
  }

  /** A batch of verdicts recorded one after the other. */
  function RecordAll(t: Table, obs: seq<(string, Verdict)>): Table
    decreases |obs|
  {
    if obs == [] then t else RecordAll(RecordVerdict(t, obs[0].0, obs[0].1), obs[1..])
  }

  function DomainsOf(obs: seq<(string, Verdict)>): set<string>
  {
    set i | 0 <= i < |obs| :: obs[i].0
  }

  /** A batch adds exactly the domains it mentions. */
  lemma {:induction false} RecordAllKeys(t: Table, obs: seq<(string, Verdict)>)
    ensures RecordAll(t, obs).Keys == t.Keys + DomainsOf(obs)
    decreases |obs|
  {
    if obs != [] {
      RecordAllKeys(RecordVerdict(t, obs[0].0, obs[0].1), obs[1..]);
      assert DomainsOf(obs) == {obs[0].0} + DomainsOf(obs[1..]) by {
        forall x | x in DomainsOf(obs) ensures x in {obs[0].0} + DomainsOf(obs[1..]) {
          var i :| 0 <= i < |obs| && obs[i].0 == x;
          if i > 0 { assert obs[1..][i - 1].0 == x; }
        }
        forall x | x in DomainsOf(obs[1..]) ensures x in DomainsOf(obs) {
          var i :| 0 <= i < |obs[1..]| && obs[1..][i].0 == x;
          assert obs[i + 1].0 == x;
        }
      }
    }
  }

  /** What a batch does to each domain: it adds the number of UP and of all
      observations for that domain, whatever their order. */
  lemma {:induction false} RecordAllCounts(t: Table, obs: seq<(string, Verdict)>, d: string)
    ensures Lookup(RecordAll(t, obs), d) ==
              Counts(Lookup(t, d).up + multiset(obs)[(d, Up)],
                     Lookup(t, d).total + multiset(obs)[(d, Up)] + multiset(obs)[(d, Down)])
    decreases |obs|
  {
    if obs != [] {
      var t1 := RecordVerdict(t, obs[0].0, obs[0].1);
      RecordAllCounts(t1, obs[1..], d);
      assert obs == [obs[0]] + obs[1..];
      var m, m1 := multiset(obs), multiset(obs[1..]);
      assert m == multiset{obs[0]} + m1;
      assert m[(d, Up)] == m1[(d, Up)] + (if obs[0] == (d, Up) then 1 else 0);
      assert m[(d, Down)] == m1[(d, Down)] + (if obs[0] == (d, Down) then 1 else 0);
      if obs[0].0 != d {
        assert Lookup(t1, d) == Lookup(t, d);
      }
    }
  }

  /** Aggregation is order-independent: any permutation of the same verdicts
      yields the same table. */
  lemma RecordAllPermutation(t: Table, obs1: seq<(string, Verdict)>, obs2: seq<(string, Verdict)>)
    requires multiset(obs1) == multiset(obs2)
    ensures RecordAll(t, obs1) == RecordAll(t, obs2)
  {
    var a, b := RecordAll(t, obs1), RecordAll(t, obs2);
    assert DomainsOf(obs1) == DomainsOf(obs2) by {
      forall x | x in DomainsOf(obs1) ensures x in DomainsOf(obs2) {
        var i :| 0 <= i < |obs1| && obs1[i].0 == x;
        assert obs1[i] in multiset(obs2);
        var j :| 0 <= j < |obs2| && obs2[j] == obs1[i];
      }
      forall x | x in DomainsOf(obs2) ensures x in DomainsOf(obs1) {
        var i :| 0 <= i < |obs2| && obs2[i].0 == x;
        assert obs2[i] in multiset(obs1);
        var j :| 0 <= j < |obs1| && obs1[j] == obs2[i];
      }
    }
    RecordAllKeys(t, obs1);
    RecordAllKeys(t, obs2);
    forall d | d in a ensures a[d] == b[d] {
      RecordAllCounts(t, obs1, d);
      RecordAllCounts(t, obs2, d);
    }
  }

  lemma {:induction false} RecordAllConsistent(t: Table, obs: seq<(string, Verdict)>)
    requires Consistent(t)
    ensures Consistent(RecordAll(t, obs))
    decreases |obs|
  {
    if obs != [] {
      RecordAllConsistent(RecordVerdict(t, obs[0].0, obs[0].1), obs[1..]);
    }
  }

  /** `r` is the integer nearest to n/d, and an even one on a tie. */
  predicate Nearest(n: int, d: int, r: int)
    requires d > 0
  {
    2 * Dist(n, d, r) <= d && (2 * Dist(n, d, r) == d ==> r % 2 == 0)
  }

  /** |n - r * d|, the distance from n/d to r scaled by d. */
  function Dist(n: int, d: int, r: int): nat
  {
    if n >= r * d then n - r * d else r * d - n
  }

  /** Rounding n/d half to even from the quotient and remainder. */
  function RoundHalfEven(q: int, rem: int, d: int): int
  {
    if 2 * rem > d then q + 1
    else if 2 * rem < d then q
    else if q % 2 == 0 then q else q + 1
  }

  lemma RoundHalfEvenIsNearest(n: int, d: int, q: int, rem: int)
    requires d > 0 && 0 <= rem < d && n == q * d + rem
    ensures Nearest(n, d, RoundHalfEven(q, rem, d))
  {
  }

  /** up/total of a probed domain as a percentage rounded to the nearest
      integer, ties to even (Python's round), in exact arithmetic. */
  function Availability(up: nat, total: nat): (pct: int)
    requires total > 0
    ensures up <= total ==> 0 <= pct <= 100
    ensures Nearest(100 * up, total, pct)
  {
    var n := 100 * up;
    var q, rem := n / total, n % total;
    RoundHalfEvenIsNearest(n, total, q, rem);
    PercentQuotientBound(up, total, q, rem);
    RoundHalfEven(q, rem, total)
  }

  lemma PercentQuotientBound(up: nat, total: nat, q: int, rem: int)
    requires total > 0 && 0 <= rem < total && 100 * up == q * total + rem
    ensures 0 <= q
    ensures up <= total ==> q <= 100 && (q == 100 ==> rem == 0)
  {
  }

  lemma MulAtLeast(k: int, d: int, m: int)
    requires d > 0 && k >= m >= 0
    ensures k * d >= m * d
  {
  }

  /** Two distinct integers within half of n/d are neighbours on a tie. */
  lemma WithinHalfNeighbours(n: int, d: int, lo: int, hi: int)
    requires d > 0
    ensures lo < hi && 2 * Dist(n, d, lo) <= d && 2 * Dist(n, d, hi) <= d ==>
              hi == lo + 1 && 2 * Dist(n, d, lo) == d && 2 * Dist(n, d, hi) == d
  {
    if lo < hi && 2 * Dist(n, d, lo) <= d && 2 * Dist(n, d, hi) <= d {
      var k := hi - lo;
      assert hi * d - lo * d == k * d;
      assert Dist(n, d, lo) + Dist(n, d, hi) >= k * d;
      if k >= 2 {
        MulAtLeast(k, d, 2);
      }
    }
  }

  /** The rounding is the only one that meets its description. */
  lemma NearestUnique(n: int, d: int, r1: int, r2: int)
    requires d > 0
    requires Nearest(n, d, r1) && Nearest(n, d, r2)
    ensures r1 == r2
  {
    WithinHalfNeighbours(n, d, r1, r2);
    WithinHalfNeighbours(n, d, r2, r1);
  }

  /** Two UP and one DOWN give 67%; exact halves round to even. */
  lemma AvailabilityExamples()
    ensures Availability(2, 3) == 67
    ensures Availability(1, 8) == 12
    ensures Availability(3, 8) == 38
    ensures Availability(1, 2) == 50
  {
  }

  /** The percentages logged in a cycle, one per present domain. */
  function Availabilities(t: Table): (r: map<string, int>)
    requires Consistent(t)
    ensures r.Keys == t.Keys
    ensures forall d :: d in r ==> 0 <= r[d] <= 100 && Nearest(100 * t[d].up, t[d].total, r[d])
  {
    map d | d in t :: Availability(t[d].up, t[d].total)
  }

  /** Recording UP twice and DOWN once for one domain gives 2 of 3, 67%. */
  lemma ExampleDomainAfterThreeVerdicts(d: string)
    ensures var t := RecordAll(map[], [(d, Up), (d, Up), (d, Down)]);
            t == map[d := Counts(2, 3)] && Availabilities(t)[d] == 67
  {
    var obs := [(d, Up), (d, Up), (d, Down)];
    var t1 := RecordVerdict(map[], d, Up);
    var t2 := RecordVerdict(t1, d, Up);
    var t3 := RecordVerdict(t2, d, Down);
    assert t1 == map[d := Counts(1, 1)];
    assert t2 == map[d := Counts(2, 2)];
    assert t3 == map[d := Counts(2, 3)];
    assert RecordAll(map[], obs) == RecordAll(t1, obs[1..]);
    assert RecordAll(t1, obs[1..]) == RecordAll(t2, obs[2..]);
    assert RecordAll(t2, obs[2..]) == RecordAll(t3, obs[3..]);
  }
}
