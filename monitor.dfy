/**
  The monitoring loop (monitor_endpoints and check_and_update in main.py):
  the loaded endpoints, the per-domain counters updated in place, and the
  cycle counter. One call of RunCycle is one pass of the `while True` body.
 */
module Monitor {
  import opened Wrappers
  import opened Config
  import opened Probe
  import opened Domain
  import opened Stats

  /** IndexError from `url.split('/')[2]` for the endpoint at this position;
      it escapes the probe's handlers and ends the process. */
  datatype CycleError = BadUrl(index: nat)

  /** Whether every endpoint has a domain key. */
  predicate AllKeyed(config: seq<Endpoint>)
  {
    forall i :: 0 <= i < |config| ==> DomainKey(config[i].url).Some?
  }

  /** The (domain, verdict) pairs a cycle records, in endpoint order; `nets(i)`
      gives the network's answers to endpoint i's attempts. */
  function CycleObservations(config: seq<Endpoint>, nets: nat -> (nat -> Outcome)): (obs: seq<(string, Verdict)>)
    requires AllKeyed(config)
    ensures |obs| == |config|
    ensures forall i :: 0 <= i < |config| ==>
              Some(obs[i].0) == DomainKey(config[i].url) && obs[i].1 == ProbeSpec(nets(i)).verdict
  {
    seq(|config|, i requires 0 <= i < |config| =>
      (DomainKey(config[i].url).value, ProbeSpec(nets(i)).verdict))
  }

  lemma {:induction false} RecordAllSnoc(t: Table, obs: seq<(string, Verdict)>, x: (string, Verdict))
    ensures RecordAll(t, obs + [x]) == RecordVerdict(RecordAll(t, obs), x.0, x.1)
    decreases |obs|
  {
    if obs != [] {
      assert (obs + [x])[1..] == obs[1..] + [x];
      RecordAllSnoc(RecordVerdict(t, obs[0].0, obs[0].1), obs[1..], x);
    }
  }

  /** The domain keys of all endpoints, or the first endpoint that has none.
      Every check_and_update task derives its key before its probe awaits the
      network; the model assumes that a missing key therefore surfaces before
      any verdict of that cycle is recorded. */
  method DomainKeys(config: seq<Endpoint>) returns (r: Result<seq<string>, CycleError>)
    ensures r.Ok? <==> AllKeyed(config)
    ensures r.Ok? ==> |r.value| == |config| &&
                      forall i :: 0 <= i < |config| ==> DomainKey(config[i].url) == Some(r.value[i])
    ensures r.Err? ==>
              && r.error.index < |config| && DomainKey(config[r.error.index].url).None?
              && (forall i :: 0 <= i < r.error.index ==> DomainKey(config[i].url).Some?)
  {
    var keys: seq<string> := [];
    for i := 0 to |config|
      invariant |keys| == i
      invariant forall j :: 0 <= j < i ==> DomainKey(config[j].url) == Some(keys[j])
    {
      var key := DomainKey(config[i].url);
      if key.None? {
        return Err(BadUrl(i));
      }
      keys := keys + [key.value];
    }
    return Ok(keys);
  }

  class Monitor {
    const config: seq<Endpoint>
    var stats: Table
    var cycle: nat

    ghost predicate Valid()
      reads this
    {
      cycle >= 1 && Consistent(stats)
    }

    /** After a successful load: no domain seen yet, first cycle next. */
    constructor (config: seq<Endpoint>)
      ensures Valid()
      ensures this.config == config && stats == map[] && cycle == 1
    {
      this.config := config;
      stats := map[];
      cycle := 1;
    }

    /** check_and_update for one endpoint: derive the key, probe, then count
        the verdict under that key. Returns None where the key does not exist
        (the source raises before probing). */
    method CheckAndUpdate(ep: Endpoint, outcome: nat -> Outcome) returns (recorded: Option<(string, Verdict)>)
      requires Valid()
      modifies this
      ensures Valid()
      ensures cycle == old(cycle)
      ensures recorded.None? <==> DomainKey(ep.url).None?
      ensures recorded.None? ==> stats == old(stats)
      ensures recorded.Some? ==>
                && Some(recorded.value.0) == DomainKey(ep.url)
                && recorded.value.1 == ProbeSpec(outcome).verdict
                && stats == RecordVerdict(old(stats), recorded.value.0, recorded.value.1)
    {
      var key := DomainKey(ep.url);
      if key.None? {
        return None;
      }
      var verdict, _ := CheckHealth(ep, outcome);
      stats := RecordVerdict(stats, key.value, verdict.value);
      return Some((key.value, verdict.value));
    }

    /** One cycle: every endpoint is probed and its verdict recorded, then the
        availability of every domain seen so far is computed and the cycle
        counter advances. An endpoint without a domain key aborts the cycle
        (and the process) before any verdict is recorded. */
    method RunCycle(nets: nat -> (nat -> Outcome)) returns (r: Result<map<string, int>, CycleError>)
      requires Valid()
      modifies this
      ensures Valid()
      ensures r.Err? <==> !AllKeyed(config)
      ensures r.Err? ==>
                && r.error.index < |config| && DomainKey(config[r.error.index].url).None?
                && (forall i :: 0 <= i < r.error.index ==> DomainKey(config[i].url).Some?)
                && stats == old(stats) && cycle == old(cycle)
      ensures r.Ok? ==>
                && stats == RecordAll(old(stats), CycleObservations(config, nets))
                && r.value == Availabilities(stats)
                && cycle == old(cycle) + 1
    {
      var keys := DomainKeys(config);
      if keys.Err? {
        return Err(keys.error);
      }
      ghost var start := stats;
      ghost var obs := CycleObservations(config, nets);
      for i := 0 to |config|
        invariant Valid() && cycle == old(cycle)
        invariant stats == RecordAll(start, obs[..i])
      {
        var recorded := CheckAndUpdate(config[i], nets(i));
        assert recorded == Some(obs[i]);
        assert obs[..i + 1] == obs[..i] + [obs[i]];
        RecordAllSnoc(start, obs[..i], obs[i]);
      }
      assert obs[..|config|] == obs;
      cycle := cycle + 1;
      return Ok(Availabilities(stats));
    }
  }

  /** The counts a cycle leaves do not depend on the order in which the
      probes complete: recording the same observations in any order gives the
      same table. */
  lemma CycleOrderIrrelevant(t: Table, config: seq<Endpoint>, nets: nat -> (nat -> Outcome), completed: seq<(string, Verdict)>)
    requires AllKeyed(config)
    requires multiset(completed) == multiset(CycleObservations(config, nets))
    ensures RecordAll(t, completed) == RecordAll(t, CycleObservations(config, nets))
  {
    RecordAllPermutation(t, completed, CycleObservations(config, nets));
  }

  /** Each domain's counters grow by the number of its endpoints probed UP and
      by the number of its endpoints in all, and availability stays a
      percentage. */
  lemma CycleCounts(t: Table, config: seq<Endpoint>, nets: nat -> (nat -> Outcome), d: string)
    requires AllKeyed(config) && Consistent(t)
    ensures var obs := CycleObservations(config, nets);
            var t' := RecordAll(t, obs);
            && Consistent(t')
            && Lookup(t', d).total == Lookup(t, d).total + multiset(obs)[(d, Up)] + multiset(obs)[(d, Down)]
            && Lookup(t', d).up == Lookup(t, d).up + multiset(obs)[(d, Up)]
            && (d in t' ==> 0 <= Availabilities(t')[d] <= 100)
  {
    var obs := CycleObservations(config, nets);
    RecordAllCounts(t, obs, d);
    RecordAllConsistent(t, obs);
  }
}
