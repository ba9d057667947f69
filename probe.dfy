/**
  One health probe (check_health in main.py). The HTTP exchange is abstracted
  away: a probe is given, for each attempt index, the outcome the network
  would deliver for that attempt.
 */
module Probe {
  import opened Wrappers
  import opened Config

  datatype Verdict = Up | Down

  /** What one attempt yields. `elapsedMs` is the arrival time of the
      response measured from the start of the whole probe (the clock is read
      once, before the first attempt). */
  datatype Outcome =
    | Response(status: int, elapsedMs: nat)
    | TransportError    // aiohttp.ClientError or asyncio.TimeoutError: retried
    | UnexpectedError   // any other exception: caught by the outer handler

  /** The latency budget, 0.5 s, in milliseconds. */
  const LatencyBudgetMs: nat := 500

  /** The HTTP request an attempt sends. */
  datatype Request = Request(
    verb: string,
    url: string,
    headers: Option<map<string, Yaml>>,
    body: Option<string>)

  predicate IsLowerAscii(c: char) { 'a' <= c <= 'z' }

  /** Upper-casing of one character (ASCII letters only). */
  function UpperChar(c: char): (u: char)
    ensures !IsLowerAscii(u)
    ensures IsLowerAscii(c) ==> u as int == c as int - 32
    ensures !IsLowerAscii(c) ==> u == c
  {
    if IsLowerAscii(c) then (c as int - 32) as char else c
  }

  /** str.upper, restricted to ASCII letters. */
  function Upper(s: string): (u: string)
    ensures |u| == |s|
    ensures forall i :: 0 <= i < |s| ==> u[i] == UpperChar(s[i])
  {
    if s == [] then [] else [UpperChar(s[0])] + Upper(s[1..])
  }

  /** `endpoint.get('method', 'GET').upper()`. */
  function RequestVerb(verb: Option<string>): (r: string)
    ensures verb.None? ==> r == "GET"
    ensures verb.Some? ==> |r| == |verb.value| &&
                           forall i :: 0 <= i < |r| ==> r[i] == UpperChar(verb.value[i])
    ensures forall i :: 0 <= i < |r| ==> !IsLowerAscii(r[i])
  {
    match verb
    case None => assert forall i :: 0 <= i < 3 ==> !IsLowerAscii("GET"[i]); "GET"
    case Some(v) => Upper(v)
  }

  lemma RequestVerbExamples()
    ensures RequestVerb(None) == "GET"
    ensures RequestVerb(Some("post")) == "POST"
    ensures RequestVerb(Some("Get")) == "GET"
  {
  }

  /** The request every attempt of a probe sends (the arguments of
      session.request). */
  function BuildRequest(ep: Endpoint): Request
  {
    Request(RequestVerb(ep.verb), ep.url, ep.headers, ep.body)
  }

  /** A response counts as healthy when its status is 2xx and it arrived
      within the budget, measured from the start of the probe. */
  predicate Healthy(o: Outcome)
  {
    o.Response? && 200 <= o.status < 300 && o.elapsedMs <= LatencyBudgetMs
  }

  /** The reference answer: the verdict, and how many requests were sent. The
      first outcome that is not a transport failure decides; two transport
      failures in a row give DOWN. */
  datatype Report = Report(verdict: Verdict, requests: nat)

  function ProbeSpec(outcome: nat -> Outcome): (r: Report)
  {
    var last := if outcome(0).TransportError? then 1 else 0;
    Report(if Healthy(outcome(last)) then Up else Down, last + 1)
  }

  /** check_health: `for attempt in range(3)` with early returns. The result is
      an Option because the source function returns nothing if its loop runs
      out; that never happens. `sent` lists the requests issued, in order. */
  method CheckHealth(ep: Endpoint, outcome: nat -> Outcome) returns (result: Option<Verdict>, sent: seq<Request>)
    ensures result.Some?
    ensures 1 <= |sent| <= 2
    ensures forall i :: 0 <= i < |sent| ==> sent[i] == BuildRequest(ep)
    ensures forall k :: 0 <= k < |sent| - 1 ==> outcome(k).TransportError?
    ensures |sent| == 1 <==> !outcome(0).TransportError?
    ensures result == Some(Up) <==> Healthy(outcome(|sent| - 1))
    ensures result == Some(ProbeSpec(outcome).verdict) && |sent| == ProbeSpec(outcome).requests
  {
    var request := BuildRequest(ep);
    sent := [];
    var attempt := 0;
    while attempt < 3
      invariant attempt <= 1
      invariant |sent| == attempt
      invariant forall i :: 0 <= i < |sent| ==> sent[i] == request
      invariant forall k :: 0 <= k < attempt ==> outcome(k).TransportError?
    {
      sent := sent + [request];
      match outcome(attempt) {
        case Response(status, elapsedMs) =>
          if 200 <= status < 300 && elapsedMs <= LatencyBudgetMs {
            return Some(Up), sent;
          } else {
            return Some(Down), sent;
          }
        case TransportError =>
          if attempt == 1 {
            return Some(Down), sent;
          }
        case UnexpectedError =>
          return Some(Down), sent;
      }
      attempt := attempt + 1;
    }
    assert false;
    result := None;
  }

  /** Two transport failures end the probe: DOWN after exactly two requests;
      the third attempt of `range(3)` is never made. */
  lemma TwoFailuresGiveDown(outcome: nat -> Outcome)
    requires outcome(0).TransportError? && outcome(1).TransportError?
    ensures ProbeSpec(outcome) == Report(Down, 2)
  {
  }

  /** After a failed first attempt the verdict depends only on the second
      outcome, whose time is still measured from the original start. */
  lemma RetryDecidedBySecond(outcome: nat -> Outcome, status: int, elapsedMs: nat)
    requires outcome(0).TransportError? && outcome(1) == Response(status, elapsedMs)
    ensures ProbeSpec(outcome).requests == 2
    ensures ProbeSpec(outcome).verdict == Up <==> 200 <= status < 300 && elapsedMs <= LatencyBudgetMs
  {
  }

  /** The verdict is UP iff the first outcome that is not a transport failure,
      among the attempts made, is a healthy response; any response ends the
      probe, so a later outcome never matters. */
  lemma UpIffFirstReplyHealthy(outcome: nat -> Outcome)
    ensures ProbeSpec(outcome).verdict == Up <==>
              (Healthy(outcome(0)) || (outcome(0).TransportError? && Healthy(outcome(1))))
  {
  }

  lemma OnlyAttemptsMadeMatter(o1: nat -> Outcome, o2: nat -> Outcome)
    requires o1(0) == o2(0)
    requires o1(0).TransportError? ==> o1(1) == o2(1)
    ensures ProbeSpec(o1) == ProbeSpec(o2)
  {
  }

  /** Examples: status 200 at 100 ms is UP, at 600 ms DOWN, 503 DOWN; a
      failure then 200 in budget is UP after two requests; a healthy reply
      that would only come at attempt 2 is never asked for. */
  lemma ProbeExamples()
    ensures ProbeSpec(k => Response(200, 100)) == Report(Up, 1)
    ensures ProbeSpec(k => Response(200, 600)) == Report(Down, 1)
    ensures ProbeSpec(k => Response(503, 10)) == Report(Down, 1)
    ensures ProbeSpec(k => if k == 0 then TransportError else Response(200, 100)) == Report(Up, 2)
    ensures ProbeSpec(k => if k == 0 then TransportError else Response(200, 501)) == Report(Down, 2)
    ensures ProbeSpec(k => if k < 2 then TransportError else Response(200, 100)) == Report(Down, 2)
  {
  }
}
