# Endpoint availability monitor — Dafny model

This project models the deterministic core of a small uptime monitor, a single
Python program (`main.py`). The monitor loads a YAML list of HTTP endpoints and
validates them. It then probes every endpoint again and again: at most two
attempts per probe, with a 500 ms latency budget counted from the start of the
probe. It aggregates the UP/DOWN verdicts per domain and logs each domain's
availability percentage after every cycle.

Modules, one per component of `main.py`:

- `Wrappers` (`wrappers.dfy`): `Option` and `Result`.
- `Config` (`config.dfy`): the parsed YAML value (`Yaml`), endpoint validation
  (`ValidateEndpoint`, the nested `validate_endpoint`) and the top-level list
  check together with the loop over the records (`LoadConfig`).
- `Probe` (`probe.dfy`): the request that a probe sends, and `CheckHealth`, the
  imperative `for attempt in range(3)` loop with its early returns. It is
  proved against `ProbeSpec`, a reference function.
- `Domain` (`domain.dfy`): Python's `str.split` and the domain key
  `url.split('/')[2].split(':')[0]`. The key is proved equal to a second,
  scan-based definition (`HostOf`).
- `Stats` (`stats.dfy`): the `domain_stats` table and how one verdict updates it.
  Also the order-independence of a batch of updates, and the
  round-half-to-even availability percentage.
- `Monitor` (`monitor.dfy`): a class that holds the loaded endpoints, the
  counter table (updated in place) and the cycle counter. `CheckAndUpdate` is
  `check_and_update`, and `RunCycle` is one pass of the `while True` body.

Abstractions:

- The network is a parameter. A probe gets, for each attempt index, the outcome
  that attempt would get: a response (status, and arrival time in whole
  milliseconds since the probe started), a transport failure
  (`ClientError`/`TimeoutError`), or an unexpected exception.
- A cycle gets one such function per endpoint position.
- Time is an integer number of milliseconds. The 0.5 s budget is 500.

The model follows what the code checks and does, which is less than a reader of the field names might expect:

- The code checks only that `headers` is a mapping. It does not check that the
  header values are strings.
- The code checks only that `body` is a string. It does not check that the
  body is valid JSON.
- The code does not require `name` to be non-empty.
- A record that is not a mapping fails on `endpoint.get`. The model reports
  this as `NotAMapping`.
- A URL with fewer than two `/` has no domain key. The `IndexError` that
  follows escapes every handler and ends the process. The model returns
  `BadUrl` from `RunCycle` and leaves the counters unchanged.

## Model

| member | source | states |
|---|---|---|
| `Config.ValidateEndpoint` | main.py:26-36 | A non-mapping is rejected. A mapping is accepted iff all five field checks pass. A rejection names a failing field, and every field checked before it passed. An accepted endpoint carries exactly the record's fields; the optional ones are present iff their keys are. |
| `Config.NameCheckedFirst` | main.py:27-28 | A record without a string `name` is rejected for `name`, whatever else it holds. |
| `Config.OptionalFieldsMayBeAbsent` | main.py:31-36 | Removing `method`, `headers` or `body` from a valid record leaves it valid. |
| `Config.MinimalRecordValid` | main.py:27-36 | A record with only a string `name` and a string `url` is valid. |
| `Config.LoadConfig` | main.py:41-46 | A top level that is not a list is rejected before any record is looked at. On success there is one endpoint per record, in order, each the record's validation. A failure is the error of some record, and every record before it validated. If every record validates, the load succeeds. |
| `Probe.RequestVerb` | main.py:58 | Without a method the verb is `GET`. Otherwise it is the given method upper-cased character by character, of the same length. It never holds a lower-case ASCII letter. |
| `Probe.RequestVerbExamples` | main.py:58 | `post` becomes `POST`, `Get` becomes `GET`, and an absent method becomes `GET`. |
| `Probe.CheckHealth` | main.py:56-78 | The probe always yields a verdict; the loop never falls through. It sends 1 or 2 identical requests. Every request except the last one failed at the transport level. It sends exactly one request iff the first outcome is not a transport failure. The verdict is UP iff the last outcome is a 2xx response that arrived within 500 ms of the probe's start. The verdict and the request count agree with `ProbeSpec`. |
| `Probe.TwoFailuresGiveDown` | main.py:75-78 | Two transport failures give DOWN after exactly two requests; the third attempt never happens. |
| `Probe.RetryDecidedBySecond` | main.py:64-69 | After a failed first attempt, the verdict is decided by the second response alone: its status, and its time measured from the original start. |
| `Probe.UpIffFirstReplyHealthy` | main.py:64-74 | UP iff, among the first two attempts, the first outcome that is not a transport failure is a healthy response. Any response ends the probe. |
| `Probe.OnlyAttemptsMadeMatter` | main.py:65-78 | Two networks that agree on the attempts actually made give the same verdict and the same request count. |
| `Probe.ProbeExamples` | main.py:64-78 | 200 at 100 ms is UP, and 200 at 600 ms is DOWN. 503 is DOWN. A failure followed by 200 within budget is UP after 2 requests; followed by 200 at 501 ms it is DOWN. Two failures followed by a healthy third reply are DOWN after 2 requests. |
| `Domain.Split` | main.py:89 | `str.split` yields one piece more than there are separators, and no piece holds the separator. |
| `Domain.JoinSplit` | main.py:89 | Joining the pieces with the separator gives back the original string. |
| `Domain.DomainKey` | main.py:89 | A key exists iff the URL holds at least two `/`. The key holds neither `/` nor `:`. |
| `Domain.DomainKeyIsHost` | main.py:89 | The split-based key equals the scan-based definition: skip past the second `/`, then stop at the next `/` or `:`. |
| `Domain.DomainKeyOfLayout` | main.py:89 | Take any URL of the form `scheme/x/host` followed by nothing, a path or a port. If the host holds no `/` or `:`, the key is that host. |
| `Domain.DomainKeyWithPath` | main.py:89 | `https://example.com/a` has the key `example.com`. |
| `Domain.DomainKeyWithPort` | main.py:89 | `https://example.com:8443/b` has the key `example.com`. |
| `Domain.DomainKeyWithoutSlashes` | main.py:89 | `example.com` has no key (the source raises `IndexError`). |
| `Stats.RecordVerdict` | main.py:94-96 | Recording adds the domain, raises its total by 1, and raises its up count by 1 iff the verdict is UP. Other domains are unchanged. The invariant (up ≤ total, total ≥ 1) is kept. |
| `Stats.RecordCommutes` | main.py:94-96 | Two recordings give the same table in either order. |
| `Stats.RecordAllKeys` | main.py:86 | After a batch, the table's domains are the old ones plus those in the batch (lazy creation). |
| `Stats.RecordAllCounts` | main.py:94-96 | A batch adds to each domain the number of its UP observations, and adds the number of all its observations to its total. |
| `Stats.RecordAllPermutation` | main.py:101-102 | Batches that are permutations of each other give the same table. |
| `Stats.RecordAllConsistent` | main.py:94-96 | A batch keeps up ≤ total and total ≥ 1 for every domain. |
| `Stats.Availability` | main.py:106 | The percentage is the integer nearest to 100·up/total, the even one on a tie. It lies in [0, 100] when up ≤ total. |
| `Stats.NearestUnique` | main.py:106 | At most one integer is nearest, even on a tie. So `Availability` is the only correct rounding. |
| `Stats.AvailabilityExamples` | main.py:106 | 2/3 gives 67 and 1/2 gives 50. 1/8 (12.5) gives 12; 3/8 (37.5) gives 38. |
| `Stats.Availabilities` | main.py:105-106 | One percentage per present domain, each in [0, 100] and nearest to its ratio. The invariant makes the division safe. |
| `Stats.ExampleDomainAfterThreeVerdicts` | main.py:94-106 | UP, UP, DOWN for one domain give up 2, total 3, availability 67. |
| `Monitor.DomainKeys` | main.py:89-102 | It gives the keys of all endpoints, in order, iff all of them exist. Otherwise it gives the first endpoint that has none. |
| `Monitor.Monitor.constructor` | main.py:85-98 | The monitor starts with an empty table at cycle 1. |
| `Monitor.Monitor.CheckAndUpdate` | main.py:88-96 | Without a key: nothing is recorded. Otherwise the endpoint is probed and its verdict recorded under its key. The table invariant is kept. |
| `Monitor.Monitor.RunCycle` | main.py:99-111 | If some endpoint has no key: the first such endpoint is reported and nothing changes. Otherwise the table becomes the old one with every endpoint's (key, verdict) recorded and the cycle counter advances by one. The result is then every domain's availability. |
| `Monitor.CycleOrderIrrelevant` | main.py:101-102 | Probes completing in any order leave the same table as endpoint order. |
| `Monitor.CycleCounts` | main.py:94-106 | After a cycle, each domain's total grows by its number of endpoints and its up count by the number probed UP. The invariant holds, and every availability is in [0, 100]. |

## Left out

- YAML parsing and file reading (`yaml.safe_load`, `open`): the model starts from the parsed value. Mapping keys that are not strings are not represented.
- The command-line argument check, `sys.exit`, and the `KeyboardInterrupt` handler: these are process plumbing.
- Logging and `print`: side effects only. This includes the misused `logging.info` call with an extra argument at main.py:45.
- The aiohttp session and request, the 30 s per-request timeout, and the JSON encoding of the body: each attempt is represented only by its outcome. A failure that happens while the session is created is not represented. An exception raised by the request other than `ClientError`/`TimeoutError` is represented as `UnexpectedError`.
- `asyncio.gather` concurrency: a cycle is modelled as a sequential pass over the endpoints. `Monitor.CycleOrderIrrelevant` shows that the completion order does not matter for the counters.
- Monitor.Monitor.RunCycle: assumes that a missing domain key ends the cycle before any probe of that cycle records its verdict. In the source, every task derives its key before its probe waits on the network, but the interleaving is up to the event loop.
- `asyncio.sleep(15)` and the endless `while True`: one call of `RunCycle` is one pass of the loop body.
- Floating point:
  - Elapsed time is exact integer milliseconds, compared against 500.
  - Availability is computed in exact rational arithmetic with half-to-even rounding. Binary floating-point error in `100 * up / total` is not modelled.
- Probe.RequestVerb: models `str.upper` on ASCII letters only. Other characters are left unchanged, whereas Python also upper-cases non-ASCII letters.
