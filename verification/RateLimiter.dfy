/** The rate-limit middleware: rules, keys, and the in-memory deques. */
module RateLimiter {
  import opened Rounding
  import opened Text
  import opened SlidingWindow

  datatype Request = Request(client: string, verb: string, path: string)

  /** A request arriving at a time of the monotonic clock, in seconds. */
  datatype Hit = Hit(request: Request, now: real)

  // ---------------------------------------------------------------- rules and keys

  function RuleOf(request: Request, relaxed: bool): (rule: Rule)
    ensures rule.limit > 0 && rule.window > 0
  {
    var Request(_, verb, path) := request;
    var rule :=
      if EndsWith(path, "/healthz") || EndsWith(path, "/readyz") || EndsWith(path, "/metrics") then Rule(600, 60)
      else if Contains(path, "/auth/login") || Contains(path, "/auth/password/") then Rule(10, 900)
      else if Contains(path, "/public/apply") && verb == "POST" then Rule(5, 3600)
      else if Contains(path, "/search/") then Rule(60, 60)
      else if verb in {"POST", "PUT", "PATCH", "DELETE"} then Rule(60, 60)
      else Rule(300, 60);
    if relaxed then rule.(limit := rule.limit * 10) else rule
  }

  function KeyOf(request: Request): string {
    request.client + ":" + request.verb + ":" + request.path
  }

  /** Hosts hold no slash, verbs neither slash nor colon, and paths start with a slash. */
  predicate WellFormed(request: Request) {
    && '/' !in request.client
    && '/' !in request.verb && ':' !in request.verb
    && request.path != "" && request.path[0] == '/'
  }

  /** One key, one request line: so limit and window are constant per key. */
  lemma KeyDeterminesRequest(r: Request, s: Request)
    requires WellFormed(r) && WellFormed(s) && KeyOf(r) == KeyOf(s)
    ensures r == s
  {
    var p, q := r.client + ":" + r.verb + ":", s.client + ":" + s.verb + ":";
    assert KeyOf(r) == p + ['/'] + r.path[1..] && KeyOf(s) == q + ['/'] + s.path[1..];
    SplitFirst(p, r.path[1..], q, s.path[1..], '/');
    assert r.path == ['/'] + r.path[1..] && s.path == ['/'] + s.path[1..];
    assert r.client + ":" + r.verb == p[..|p| - 1] && s.client + ":" + s.verb == q[..|q| - 1];
    SplitLast(r.client, r.verb, s.client, s.verb, ':');
  }

  /** The middleware's process-local state: one deque of admission times per key. */
  class Limiter {
    var events: map<string, seq<real>>

    constructor ()
      ensures events == map[]
    {
      events := map[];
    }

    method Dispatch(hit: Hit, relaxed: bool) returns (decision: Decision)
      modifies this
      ensures
        var key := KeyOf(hit.request);
        var outcome := Decide(BucketIn(old(events), key), RuleOf(hit.request, relaxed), hit.now);
        events == old(events)[key := outcome.0] && decision == outcome.1
    {
      var rule := RuleOf(hit.request, relaxed);
      var key := KeyOf(hit.request);
      var bucket := BucketIn(events, key);
      ghost var kept := Evict(bucket, hit.now - rule.window as real);
      while bucket != [] && bucket[0] <= hit.now - rule.window as real
        invariant Evict(bucket, hit.now - rule.window as real) == kept
      {
        bucket := bucket[1..];
      }
      if |bucket| >= rule.limit {
        events := events[key := bucket];
        var rounded := RoundHalfEven(rule.window as real - (hit.now - bucket[0]));
        return Reject(if rounded < 1 then 1 else rounded);
      }
      bucket := bucket + [hit.now];
      events := events[key := bucket];
      decision := Admit(rule.limit - |bucket|);
    }
  }

  // ---------------------------------------------------------------- runs of requests

  /** Well-formed requests on a clock that never goes back. */
  ghost predicate Clocked(hits: seq<Hit>) {
    && (forall i :: 0 <= i < |hits| ==> WellFormed(hits[i].request))
    && (forall i, j :: 0 <= i < j < |hits| ==> hits[i].now <= hits[j].now)
  }

  function TickOf(hit: Hit, relaxed: bool): Tick {
    Tick(KeyOf(hit.request), RuleOf(hit.request, relaxed), hit.now)
  }

  function TicksOf(hits: seq<Hit>, relaxed: bool): (ticks: seq<Tick>)
    ensures |ticks| == |hits|
  {
    seq(|hits|, i requires 0 <= i < |hits| => TickOf(hits[i], relaxed))
  }

  /** Every run of requests obeys one rule per key, so all that holds of coherent runs holds of it. */
  lemma RequestsAreCoherent(hits: seq<Hit>, relaxed: bool)
    requires Clocked(hits)
    ensures Coherent(TicksOf(hits, relaxed))
  {
    var ticks := TicksOf(hits, relaxed);
    forall i, j | 0 <= i < |ticks| && 0 <= j < |ticks| && ticks[i].key == ticks[j].key ensures ticks[i].rule == ticks[j].rule {
      KeyDeterminesRequest(hits[i].request, hits[j].request);
    }
  }

  /**
    * The middleware on any run of requests: each is admitted exactly when fewer than its limit of earlier
    * admissions of the same client, verb and path lie in the window ending at it; and no window of that
    * length, wherever it ends, holds more than the limit.
    */
  lemma MiddlewareCountsExactly(hits: seq<Hit>, relaxed: bool, n: nat, end: real)
    requires Clocked(hits) && n < |hits|
    ensures
      var ticks, rule := TicksOf(hits, relaxed), RuleOf(hits[n].request, relaxed);
      && (DecisionAt(ticks, n).Admit? <==> |Recent(ticks, n)| < rule.limit)
      && |InWindow(TimesOf(After(ticks).log, KeyOf(hits[n].request)), end - rule.window as real, end)| <= rule.limit
  {
    hide RuleOf, KeyOf, Clocked, Coherent, DecisionAt, Recent, InWindow, TimesOf, After;
    var ticks := TicksOf(hits, relaxed);
    RequestsAreCoherent(hits, relaxed);
    CountsExactly(ticks, n, end);
    assert ticks[n] == TickOf(hits[n], relaxed);
  }

  lemma CountsExactly(ticks: seq<Tick>, n: nat, end: real)
    requires Coherent(ticks) && n < |ticks|
    ensures DecisionAt(ticks, n).Admit? <==> |Recent(ticks, n)| < ticks[n].rule.limit
    ensures |InWindow(TimesOf(After(ticks).log, ticks[n].key), end - ticks[n].rule.window as real, end)| <= ticks[n].rule.limit
  {
    hide Coherent, OneRule, DecisionAt, Recent, InWindow, TimesOf, After, Evict, SortedUpTo;
    AdmittedIffFewRecent(ticks, n);
    CoherentMeansOneRule(ticks, n);
    EveryWindowWithinLimit(ticks, ticks[n].key, ticks[n].rule, end);
  }

  // ---------------------------------------------------------------- what each kind of request may do

  /** How often a key was admitted in the `window` seconds up to `end`. */
  function Admissions(hits: seq<Hit>, relaxed: bool, request: Request, window: nat, end: real): nat {
    |InWindow(TimesOf(After(TicksOf(hits, relaxed)).log, KeyOf(request)), end - window as real, end)|
  }

  /** A request is admitted exactly while fewer than `limit` were in its window, and no window ever holds more. */
  ghost predicate Allowed(hits: seq<Hit>, relaxed: bool, n: nat, limit: nat, window: nat, end: real)
    requires n < |hits|
  {
    && (DecisionAt(TicksOf(hits, relaxed), n).Admit? <==> Admissions(hits[..n], relaxed, hits[n].request, window, hits[n].now) < limit)
    && Admissions(hits, relaxed, hits[n].request, window, end) <= limit
  }

  lemma AllowedByRule(hits: seq<Hit>, relaxed: bool, n: nat, end: real)
    requires Clocked(hits) && n < |hits|
    ensures
      var rule := RuleOf(hits[n].request, relaxed);
      Allowed(hits, relaxed, n, rule.limit, rule.window, end)
  {
    hide RuleOf, KeyOf, Clocked, Coherent, InWindow, TimesOf, After, DecisionAt;
    MiddlewareCountsExactly(hits, relaxed, n, end);
    var ticks := TicksOf(hits, relaxed);
    assert ticks[..n] == TicksOf(hits[..n], relaxed);
    assert ticks[n] == TickOf(hits[n], relaxed);
  }

  predicate Probe(path: string) {
    EndsWith(path, "/healthz") || EndsWith(path, "/readyz") || EndsWith(path, "/metrics")
  }

  predicate Credentials(path: string) {
    Contains(path, "/auth/login") || Contains(path, "/auth/password/")
  }

  /**
    * What one client may do with one path, over any run: ten attempts in a quarter of an hour at a login or a
    * password, five applications an hour, sixty searches or writes a minute, three hundred reads, and six hundred
    * probes, whatever else a probe's path contains. A relaxed deployment allows ten times as many.
    */
  lemma Quotas(hits: seq<Hit>, relaxed: bool, n: nat, end: real)
    requires Clocked(hits) && n < |hits|
    ensures
      var request, times := hits[n].request, if relaxed then 10 else 1;
      var path, verb := request.path, request.verb;
      var writes := verb == "POST" || verb == "PUT" || verb == "PATCH" || verb == "DELETE";
      var applies := Contains(path, "/public/apply") && verb == "POST";
      && (Probe(path) ==> Allowed(hits, relaxed, n, 600 * times, 60, end))
      && (!Probe(path) && Credentials(path) ==> Allowed(hits, relaxed, n, 10 * times, 900, end))
      && (!Probe(path) && !Credentials(path) && applies ==> Allowed(hits, relaxed, n, 5 * times, 3600, end))
      && (!Probe(path) && !Credentials(path) && !applies ==>
            Allowed(hits, relaxed, n, (if writes || Contains(path, "/search/") then 60 else 300) * times, 60, end))
  {
    AllowedByRule(hits, relaxed, n, end);
    hide Allowed, Clocked, EndsWith, Contains;
  }

  // ---------------------------------------------------------------- coming back on time, and too early

  const POST_ROOT := Request("10.0.0.1", "POST", "/")

  /** Sixty posts at once, one more 58.6 seconds later, and its repetition after the second it was told to wait. */
  function PunctualClient(): seq<Hit> {
    Burst(60) + [Hit(POST_ROOT, 58.6), Hit(POST_ROOT, 59.6)]
  }

  function Burst(n: nat): (hits: seq<Hit>)
    ensures |hits| == n && forall i :: 0 <= i < n ==> hits[i] == Hit(POST_ROOT, 0.0)
  {
    seq(n, _ => Hit(POST_ROOT, 0.0))
  }

  lemma RootRule()
    ensures RuleOf(POST_ROOT, false) == Rule(60, 60)
  {
    assert |"/"| == 1;
  }

  lemma PunctualTicks()
    ensures
      var ticks, burst := TicksOf(PunctualClient(), false), TickOf(Hit(POST_ROOT, 0.0), false);
      && burst == Tick(KeyOf(POST_ROOT), Rule(60, 60), 0.0)
      && (forall i :: 0 <= i < 60 ==> ticks[..60][i] == burst)
      && ticks[60] == burst.(now := 58.6) && ticks[61] == burst.(now := 59.6)
    ensures RetryAfter(1.4) == 1
  {
    RootRule();
    hide KeyOf, RuleOf;
    var hits := PunctualClient();
    assert forall i :: 0 <= i < 60 ==> hits[i] == Hit(POST_ROOT, 0.0);
    assert hits[60] == Hit(POST_ROOT, 58.6) && hits[61] == Hit(POST_ROOT, 59.6);
  }

  /** A client that waits exactly the reported second is rejected again: the run is possible and well formed. */
  lemma PunctualClientRejected()
    ensures
      var ticks := TicksOf(PunctualClient(), false);
      && Clocked(PunctualClient())
      && DecisionAt(ticks, 60) == Reject(1)
      && ticks[61].now == ticks[60].now + 1.0
      && DecisionAt(ticks, 61).Reject?
  {
    hide KeyOf, RuleOf, RetryAfter, TicksOf, BucketIn, Evict;
    var hits := PunctualClient();
    var ticks := TicksOf(hits, false);
    var burst := TickOf(Hit(POST_ROOT, 0.0), false);
    PunctualTicks();
    BurstFills(ticks[..60], burst);
    FullBurstRejects(ticks[..60], burst, ticks[60]);
    assert ticks[..61][..60] == ticks[..60];
    assert After(ticks[..61]) == Step(After(ticks[..60]), ticks[60]).0;
    FullBurstRejects(ticks[..61], burst, ticks[61]);
  }
}
