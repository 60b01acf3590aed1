/** The sliding window itself: a deque per key, against counting over the whole history of admissions. */
module SlidingWindow {
  import opened Rounding

  datatype Rule = Rule(limit: nat, window: nat)

  datatype Decision = Admit(remaining: nat) | Reject(retryAfter: int)

  /** One arrival: its key, the rule that applies, and the time of the monotonic clock in seconds. */
  datatype Tick = Tick(key: string, rule: Rule, now: real)

  // ---------------------------------------------------------------- one decision

  /** Dropping from the left whatever has left the window. */
  function Evict(bucket: seq<real>, cut: real): seq<real> {
    if bucket != [] && bucket[0] <= cut then Evict(bucket[1..], cut) else bucket
  }

  function Wait(bucket: seq<real>, window: nat, now: real): real
    requires bucket != []
  {
    window as real - (now - bucket[0])
  }

  function RetryAfter(wait: real): int {
    var rounded := RoundHalfEven(wait);
    if rounded < 1 then 1 else rounded
  }

  function Decide(bucket: seq<real>, rule: Rule, now: real): (seq<real>, Decision)
  {
    var kept := Evict(bucket, now - rule.window as real);
    if |kept| >= rule.limit then
      (kept, Reject(if kept == [] then 1 else RetryAfter(Wait(kept, rule.window, now))))
    else (kept + [now], Admit(rule.limit - |kept| - 1))
  }

  function BucketIn(events: map<string, seq<real>>, key: string): seq<real> {
    if key in events then events[key] else []
  }

  // ---------------------------------------------------------------- runs

  datatype Admission = Admission(key: string, at: real)

  /** The state after a run: the deques, and every admission ever made, oldest first. */
  datatype State = State(events: map<string, seq<real>>, log: seq<Admission>)

  function Step(state: State, tick: Tick): (State, Decision) {
    var (bucket, decision) := Decide(BucketIn(state.events, tick.key), tick.rule, tick.now);
    (State(state.events[tick.key := bucket],
           if decision.Admit? then state.log + [Admission(tick.key, tick.now)] else state.log),
     decision)
  }

  function After(ticks: seq<Tick>): State {
    if ticks == [] then State(map[], [])
    else Step(After(ticks[..|ticks| - 1]), ticks[|ticks| - 1]).0
  }

  function DecisionAt(ticks: seq<Tick>, n: nat): Decision
    requires n < |ticks|
  {
    Step(After(ticks[..n]), ticks[n]).1
  }

  /** The times at which a key was admitted. */
  function TimesOf(log: seq<Admission>, key: string): seq<real> {
    if log == [] then []
    else
      var last := log[|log| - 1];
      TimesOf(log[..|log| - 1], key) + if last.key == key then [last.at] else []
  }

  /** The times in the half-open window `(low, high]`. */
  function InWindow(times: seq<real>, low: real, high: real): seq<real> {
    if times == [] then []
    else if low < times[0] <= high then [times[0]] + InWindow(times[1..], low, high)
    else InWindow(times[1..], low, high)
  }

  /** A clock that never goes back, and one rule per key. */
  ghost predicate Coherent(ticks: seq<Tick>) {
    && (forall i, j :: 0 <= i < j < |ticks| ==> ticks[i].now <= ticks[j].now)
    && (forall i, j :: 0 <= i < |ticks| && 0 <= j < |ticks| && ticks[i].key == ticks[j].key ==> ticks[i].rule == ticks[j].rule)
  }

  predicate SortedUpTo(times: seq<real>, clock: real) {
    && (forall i, j :: 0 <= i < j < |times| ==> times[i] <= times[j])
    && (forall i :: 0 <= i < |times| ==> times[i] <= clock)
  }

  /** `bucket` is what remains of `times` after dropping some first members, none of them past `cut`. */
  predicate IsTail(times: seq<real>, bucket: seq<real>, cut: real) {
    && |bucket| <= |times|
    && bucket == times[|times| - |bucket|..]
    && forall i :: 0 <= i < |times| - |bucket| ==> times[i] <= cut
  }

  /** The deque of a key is a tail of its admissions, and what it lacks has left the window. */
  ghost predicate Faithful(state: State, key: string, window: nat, clock: real) {
    && SortedUpTo(TimesOf(state.log, key), clock)
    && IsTail(TimesOf(state.log, key), BucketIn(state.events, key), clock - window as real)
  }

  // ---------------------------------------------------------------- evicting is filtering

  lemma {:induction false} EvictIsFilter(times: seq<real>, low: real, high: real)
    requires SortedUpTo(times, high)
    ensures Evict(times, low) == InWindow(times, low, high)
  {
    if times != [] {
      EvictIsFilter(times[1..], low, high);
      if times[0] > low {
        assert times == [times[0]] + times[1..];
        assert times[1..] == [] || times[1..][0] > low;
      }
    }
  }

  lemma {:induction false} EvictPrefix(times: seq<real>, d: nat, cut: real)
    requires d <= |times|
    requires forall i :: 0 <= i < d ==> times[i] <= cut
    ensures Evict(times, cut) == Evict(times[d..], cut)
  {
    if d > 0 {
      EvictPrefix(times[1..], d - 1, cut);
      assert times[1..][d - 1..] == times[d..];
    } else {
      assert times[0..] == times;
    }
  }

  lemma {:induction false} EvictIsSuffix(bucket: seq<real>, cut: real)
    ensures |Evict(bucket, cut)| <= |bucket|
    ensures Evict(bucket, cut) == bucket[|bucket| - |Evict(bucket, cut)|..]
    ensures forall i :: 0 <= i < |bucket| - |Evict(bucket, cut)| ==> bucket[i] <= cut
  {
    if bucket != [] && bucket[0] <= cut {
      EvictIsSuffix(bucket[1..], cut);
      var k := |bucket| - |Evict(bucket, cut)|;
      forall i | 0 <= i < k ensures bucket[i] <= cut {
        if i > 0 { assert bucket[i] == bucket[1..][i - 1]; }
      }
    }
  }

  lemma TailKeepsWindow(times: seq<real>, bucket: seq<real>, low: real, high: real)
    requires SortedUpTo(times, high) && IsTail(times, bucket, low)
    ensures Evict(bucket, low) == InWindow(times, low, high)
  {
    EvictPrefix(times, |times| - |bucket|, low);
    EvictIsFilter(times, low, high);
  }

  /** After eviction the deque is exactly the part of the history inside the window. */
  lemma KeptIsWindow(state: State, key: string, window: nat, clock: real, now: real)
    requires Faithful(state, key, window, clock) && clock <= now
    ensures Evict(BucketIn(state.events, key), now - window as real)
         == InWindow(TimesOf(state.log, key), now - window as real, now)
  {
    var times, bucket := TimesOf(state.log, key), BucketIn(state.events, key);
    TailLater(times, bucket, clock, now, window);
    TailKeepsWindow(times, bucket, now - window as real, now);
  }

  lemma TimesAppend(log: seq<Admission>, a: Admission, key: string)
    ensures TimesOf(log + [a], key) == TimesOf(log, key) + if a.key == key then [a.at] else []
  {
    assert (log + [a])[..|log|] == log;
  }

  lemma {:induction false} TailEvicted(times: seq<real>, bucket: seq<real>, earlier: real, cut: real)
    requires IsTail(times, bucket, earlier) && earlier <= cut
    ensures IsTail(times, Evict(bucket, cut), cut)
  {
    EvictIsSuffix(bucket, cut);
    var kept, d := Evict(bucket, cut), |times| - |bucket|;
    assert kept == times[|times| - |kept|..];
    forall i | 0 <= i < |times| - |kept| ensures times[i] <= cut {
      if i >= d { assert times[i] == bucket[i - d]; }
    }
  }

  lemma TailAppended(times: seq<real>, bucket: seq<real>, cut: real, now: real)
    requires IsTail(times, bucket, cut)
    ensures IsTail(times + [now], bucket + [now], cut)
  {
  }

  lemma SortedAppended(times: seq<real>, clock: real, now: real)
    requires SortedUpTo(times, clock) && clock <= now
    ensures SortedUpTo(times, now) && SortedUpTo(times + [now], now)
  {
  }

  lemma DecisionShape(bucket: seq<real>, rule: Rule, now: real)
    ensures
      var kept, (next, decision) := Evict(bucket, now - rule.window as real), Decide(bucket, rule, now);
      next == if decision.Admit? then kept + [now] else kept
  {
  }

  /** One decision on a key's own history. */
  lemma {:induction false} DecisionKeepsTail(times: seq<real>, bucket: seq<real>, rule: Rule, clock: real, now: real)
    requires SortedUpTo(times, clock) && IsTail(times, bucket, clock - rule.window as real) && clock <= now
    ensures
      var (next, decision) := Decide(bucket, rule, now);
      var times' := if decision.Admit? then times + [now] else times;
      SortedUpTo(times', now) && IsTail(times', next, now - rule.window as real)
  {
    hide IsTail, SortedUpTo, Evict, Decide;
    var cut := now - rule.window as real;
    TailEvicted(times, bucket, clock - rule.window as real, cut);
    TailAppended(times, Evict(bucket, cut), cut, now);
    SortedAppended(times, clock, now);
    DecisionShape(bucket, rule, now);
  }

  /** A step changes the deque and the history of its own key only. */
  lemma StepShape(state: State, tick: Tick, key: string)
    ensures
      var (next, decision) := Step(state, tick);
      && BucketIn(next.events, key)
           == (if tick.key == key then Decide(BucketIn(state.events, key), tick.rule, tick.now).0 else BucketIn(state.events, key))
      && decision == Decide(BucketIn(state.events, tick.key), tick.rule, tick.now).1
      && TimesOf(next.log, key)
           == if tick.key == key && decision.Admit? then TimesOf(state.log, key) + [tick.now] else TimesOf(state.log, key)
  {
    TimesAppend(state.log, Admission(tick.key, tick.now), key);
  }

  lemma {:induction false} StepKeepsFaithful(state: State, tick: Tick, key: string, window: nat, clock: real)
    requires Faithful(state, key, window, clock) && clock <= tick.now
    requires tick.key == key ==> tick.rule.window == window
    ensures Faithful(Step(state, tick).0, key, window, tick.now)
  {
    StepShape(state, tick, key);
    hide IsTail, SortedUpTo, Step, TimesOf, BucketIn;
    if tick.key == key {
      DecisionKeepsTail(TimesOf(state.log, key), BucketIn(state.events, key), tick.rule, clock, tick.now);
    } else {
      TailLater(TimesOf(state.log, key), BucketIn(state.events, key), clock, tick.now, window);
    }
  }

  lemma TailLater(times: seq<real>, bucket: seq<real>, clock: real, now: real, window: nat)
    requires SortedUpTo(times, clock) && IsTail(times, bucket, clock - window as real) && clock <= now
    ensures SortedUpTo(times, now) && IsTail(times, bucket, now - window as real)
  {
  }

  /** Ticks up to a time, those of one key under one window. */
  ghost predicate UpTo(ticks: seq<Tick>, key: string, window: nat, now: real) {
    forall i :: 0 <= i < |ticks| ==> ticks[i].now <= now && (ticks[i].key == key ==> ticks[i].rule.window == window)
  }

  lemma UpToPrefix(ticks: seq<Tick>, key: string, window: nat, now: real)
    requires ticks != [] && Coherent(ticks) && UpTo(ticks, key, window, now)
    ensures
      var n := |ticks| - 1;
      && Coherent(ticks[..n]) && UpTo(ticks[..n], key, window, ticks[n].now)
      && ticks[n].now <= now && (ticks[n].key == key ==> ticks[n].rule.window == window)
  {
  }

  lemma CoherentPrefix(ticks: seq<Tick>, n: nat)
    requires Coherent(ticks) && n < |ticks|
    ensures Coherent(ticks[..n]) && UpTo(ticks[..n], ticks[n].key, ticks[n].rule.window, ticks[n].now)
  {
  }

  lemma {:induction false} RunsStayFaithful(ticks: seq<Tick>, key: string, window: nat, now: real)
    requires Coherent(ticks) && UpTo(ticks, key, window, now)
    ensures Faithful(After(ticks), key, window, now)
  {
    if ticks != [] {
      hide Coherent, UpTo, IsTail, SortedUpTo, Step, TimesOf, BucketIn;
      var n := |ticks| - 1;
      UpToPrefix(ticks, key, window, now);
      RunsStayFaithful(ticks[..n], key, window, ticks[n].now);
      StepKeepsFaithful(After(ticks[..n]), ticks[n], key, window, ticks[n].now);
      TailLater(TimesOf(After(ticks).log, key), BucketIn(After(ticks).events, key), ticks[n].now, now, window);
    }
  }

  /** When tick `n`'s key was admitted before it. */
  function History(ticks: seq<Tick>, n: nat): seq<real>
    requires n < |ticks|
  {
    TimesOf(After(ticks[..n]).log, ticks[n].key)
  }

  /** The part of that history inside the window that ends at tick `n`. */
  function Recent(ticks: seq<Tick>, n: nat): seq<real>
    requires n < |ticks|
  {
    InWindow(History(ticks, n), ticks[n].now - ticks[n].rule.window as real, ticks[n].now)
  }

  /** The decision that counting over the window prescribes. */
  function Counted(recent: seq<real>, rule: Rule, now: real): Decision {
    if |recent| < rule.limit then Admit(rule.limit - |recent| - 1)
    else Reject(if recent == [] then 1 else RetryAfter(Wait(recent, rule.window, now)))
  }

  /** A faithful state decides by the window alone. */
  lemma DecisionByWindow(state: State, tick: Tick, clock: real)
    requires Faithful(state, tick.key, tick.rule.window, clock) && clock <= tick.now
    ensures
      var low := tick.now - tick.rule.window as real;
      var window := InWindow(TimesOf(state.log, tick.key), low, tick.now);
      && Evict(BucketIn(state.events, tick.key), low) == window
      && Step(state, tick).1 == Counted(window, tick.rule, tick.now)
      && SortedUpTo(TimesOf(state.log, tick.key), tick.now)
  {
    KeptIsWindow(state, tick.key, tick.rule.window, clock, tick.now);
    TailLater(TimesOf(state.log, tick.key), BucketIn(state.events, tick.key), clock, tick.now, tick.rule.window);
    hide IsTail, SortedUpTo, Evict, InWindow, TimesOf, BucketIn;
  }

  /**
    * The deque refines counting: in every run a request is admitted exactly when fewer than `limit` earlier
    * admissions of its key lie in the window that ends now, and the evicted deque is that part of the history.
    */
  lemma AdmittedIffFewRecent(ticks: seq<Tick>, n: nat)
    requires Coherent(ticks) && n < |ticks|
    ensures DecisionAt(ticks, n) == Counted(Recent(ticks, n), ticks[n].rule, ticks[n].now)
    ensures Evict(BucketIn(After(ticks[..n]).events, ticks[n].key), ticks[n].now - ticks[n].rule.window as real)
         == Recent(ticks, n)
    ensures SortedUpTo(History(ticks, n), ticks[n].now)
  {
    hide IsTail, SortedUpTo, Evict, InWindow, After, TimesOf, BucketIn, Step, Counted, Faithful, Coherent, UpTo;
    CoherentPrefix(ticks, n);
    RunsStayFaithful(ticks[..n], ticks[n].key, ticks[n].rule.window, ticks[n].now);
    DecisionByWindow(After(ticks[..n]), ticks[n], ticks[n].now);
  }

  /** A window that starts no earlier and ends no earlier than the sorted times do holds no more of them. */
  lemma {:induction false} NarrowerWindow(times: seq<real>, low: real, high: real, now: real, low': real)
    requires SortedUpTo(times, now) && low' <= low
    ensures |InWindow(times, low, high)| <= |InWindow(times, low', now)|
  {
    if times != [] { NarrowerWindow(times[1..], low, high, now, low'); }
  }

  lemma {:induction false} WindowAppend(times: seq<real>, now: real, low: real, high: real)
    ensures InWindow(times + [now], low, high) == InWindow(times, low, high) + if low < now <= high then [now] else []
  {
    if times != [] {
      WindowAppend(times[1..], now, low, high);
      assert (times + [now])[1..] == times[1..] + [now];
    } else {
      assert ([now])[1..] == [];
    }
  }

  /** One more admission: a window that would hold it held fewer than `limit` before. */
  lemma {:induction false} WindowGrows(times: seq<real>, now: real, rule: Rule, end: real)
    requires SortedUpTo(times, now)
    requires |InWindow(times, now - rule.window as real, now)| < rule.limit
    requires |InWindow(times, end - rule.window as real, end)| <= rule.limit
    ensures |InWindow(times + [now], end - rule.window as real, end)| <= rule.limit
  {
    var low := end - rule.window as real;
    WindowAppend(times, now, low, end);
    if low < now <= end {
      NarrowerWindow(times, low, end, now, now - rule.window as real);
    }
  }

  lemma LogStep(ticks: seq<Tick>, key: string)
    requires ticks != []
    ensures
      var n := |ticks| - 1;
      TimesOf(After(ticks).log, key)
        == if ticks[n].key == key && DecisionAt(ticks, n).Admit? then TimesOf(After(ticks[..n]).log, key) + [ticks[n].now]
           else TimesOf(After(ticks[..n]).log, key)
  {
    StepShape(After(ticks[..|ticks| - 1]), ticks[|ticks| - 1], key);
  }

  ghost predicate OneRule(ticks: seq<Tick>, key: string, rule: Rule) {
    forall i :: 0 <= i < |ticks| && ticks[i].key == key ==> ticks[i].rule == rule
  }

  lemma OneRulePrefix(ticks: seq<Tick>, key: string, rule: Rule)
    requires ticks != [] && OneRule(ticks, key, rule)
    ensures
      var n := |ticks| - 1;
      OneRule(ticks[..n], key, rule) && (ticks[n].key == key ==> ticks[n].rule == rule)
  {
  }

  lemma CoherentMeansOneRule(ticks: seq<Tick>, n: nat)
    requires Coherent(ticks) && n < |ticks|
    ensures OneRule(ticks, ticks[n].key, ticks[n].rule) && OneRule(ticks[..n], ticks[n].key, ticks[n].rule)
  {
  }

  /** One tick more keeps a window within the limit. */
  lemma WindowStep(ticks: seq<Tick>, key: string, rule: Rule, end: real)
    requires ticks != [] && Coherent(ticks)
    requires ticks[|ticks| - 1].key == key ==> ticks[|ticks| - 1].rule == rule
    requires |InWindow(TimesOf(After(ticks[..|ticks| - 1]).log, key), end - rule.window as real, end)| <= rule.limit
    ensures |InWindow(TimesOf(After(ticks).log, key), end - rule.window as real, end)| <= rule.limit
  {
    hide Coherent, After, DecisionAt, Evict, SortedUpTo, InWindow, TimesOf, BucketIn;
    var n := |ticks| - 1;
    LogStep(ticks, key);
    if ticks[n].key == key && DecisionAt(ticks, n).Admit? {
      AdmittedIffFewRecent(ticks, n);
      WindowGrows(History(ticks, n), ticks[n].now, rule, end);
    }
  }

  /** Wherever a window of the key's length is laid, it holds at most `limit` of the key's admissions. */
  lemma {:induction false} EveryWindowWithinLimit(ticks: seq<Tick>, key: string, rule: Rule, end: real)
    requires Coherent(ticks)
    requires OneRule(ticks, key, rule)
    ensures |InWindow(TimesOf(After(ticks).log, key), end - rule.window as real, end)| <= rule.limit
  {
    if ticks != [] {
      hide Coherent, UpTo, OneRule, After, InWindow, TimesOf;
      CoherentPrefix(ticks, |ticks| - 1);
      OneRulePrefix(ticks, key, rule);
      EveryWindowWithinLimit(ticks[..|ticks| - 1], key, rule, end);
      WindowStep(ticks, key, rule, end);
    }
  }

  // ---------------------------------------------------------------- retrying

  ghost predicate NoneAdmitted(ticks: seq<Tick>, n: nat, m: nat, key: string)
    requires n <= m <= |ticks|
  {
    forall i :: n <= i < m && ticks[i].key == key ==> DecisionAt(ticks, i).Reject?
  }

  lemma CoherentPair(ticks: seq<Tick>, n: nat, m: nat)
    requires Coherent(ticks) && n < m < |ticks| && ticks[m].key == ticks[n].key
    ensures ticks[m].rule == ticks[n].rule && ticks[n].now <= ticks[m].now
  {
  }

  lemma FirstRejected(ticks: seq<Tick>, n: nat, m: nat)
    requires n < m <= |ticks| && NoneAdmitted(ticks, n, m, ticks[n].key)
    ensures DecisionAt(ticks, n).Reject?
  {
  }

  /** Ticks from `n` up to `m` that are not admitted leave the key's history as it is. */
  lemma {:induction false} NoAdmissionNoChange(ticks: seq<Tick>, n: nat, m: nat, key: string)
    requires n <= m <= |ticks|
    requires NoneAdmitted(ticks, n, m, key)
    ensures TimesOf(After(ticks[..m]).log, key) == TimesOf(After(ticks[..n]).log, key)
  {
    if n < m {
      NoAdmissionNoChange(ticks, n, m - 1, key);
      assert ticks[..m][..m - 1] == ticks[..m - 1];
      LogStep(ticks[..m], key);
    }
  }

  /** The window at a later time is the earlier window, evicted further. */
  lemma LaterWindow(times: seq<real>, low: real, now: real, low': real, later: real)
    requires SortedUpTo(times, now) && now <= later && low <= low'
    ensures InWindow(times, low', later) == Evict(InWindow(times, low, now), low')
  {
    EvictIsFilter(times, low, now);
    EvictIsFilter(times, low', later);
    EvictIsSuffix(times, low);
    EvictPrefix(times, |times| - |Evict(times, low)|, low');
  }

  /** A full window lets the next one in exactly when its oldest member has left. */
  lemma {:induction false} FullWindow(recent: seq<real>, rule: Rule, now: real, later: real)
    requires recent != [] && |recent| == rule.limit && now <= later
    ensures |Evict(recent, later - rule.window as real)| < rule.limit <==> later - now >= Wait(recent, rule.window, now)
  {
    EvictIsSuffix(recent[1..], later - rule.window as real);
  }

  lemma {:induction false} HeadInWindow(times: seq<real>, low: real, high: real)
    ensures InWindow(times, low, high) != [] ==> low < InWindow(times, low, high)[0] <= high
  {
    if times != [] { HeadInWindow(times[1..], low, high); }
  }

  /** A rejection finds the window exactly full; its oldest member is inside it. */
  lemma {:induction false} RejectedMeansFull(ticks: seq<Tick>, n: nat)
    requires Coherent(ticks) && n < |ticks| && ticks[n].rule.limit > 0 && DecisionAt(ticks, n).Reject?
    ensures |Recent(ticks, n)| == ticks[n].rule.limit
    ensures ticks[n].now - ticks[n].rule.window as real < Recent(ticks, n)[0] <= ticks[n].now
  {
    hide Coherent, UpTo, OneRule, After, TimesOf, InWindow, Evict, SortedUpTo, DecisionAt;
    AdmittedIffFewRecent(ticks, n);
    CoherentPrefix(ticks, n);
    CoherentMeansOneRule(ticks, n);
    EveryWindowWithinLimit(ticks[..n], ticks[n].key, ticks[n].rule, ticks[n].now);
    HeadInWindow(History(ticks, n), ticks[n].now - ticks[n].rule.window as real, ticks[n].now);
  }

  /** Without admissions in between, the later window is the earlier one, evicted further. */
  lemma {:induction false} QuietWindow(ticks: seq<Tick>, n: nat, m: nat)
    requires Coherent(ticks) && n < m < |ticks| && ticks[m].key == ticks[n].key
    requires NoneAdmitted(ticks, n, m, ticks[n].key)
    ensures Recent(ticks, m) == Evict(Recent(ticks, n), ticks[m].now - ticks[n].rule.window as real)
  {
    hide Coherent, NoneAdmitted, After, TimesOf, InWindow, Evict, SortedUpTo, DecisionAt;
    CoherentPair(ticks, n, m);
    AdmittedIffFewRecent(ticks, n);
    NoAdmissionNoChange(ticks, n, m, ticks[n].key);
    LaterWindow(History(ticks, n), ticks[n].now - ticks[n].rule.window as real, ticks[n].now,
      ticks[m].now - ticks[n].rule.window as real, ticks[m].now);
  }

  /**
    * On a rejection the exact wait lies in `(0, window]`. Later, with no admission of the key in between,
    * a request for it is admitted exactly when that wait has passed.
    */
  lemma {:induction false} RetryBound(ticks: seq<Tick>, n: nat, m: nat)
    requires Coherent(ticks) && n < m < |ticks| && ticks[m].key == ticks[n].key && ticks[n].rule.limit > 0
    requires NoneAdmitted(ticks, n, m, ticks[n].key)
    ensures
      var rule, now, recent := ticks[n].rule, ticks[n].now, Recent(ticks, n);
      && recent != []
      && 0.0 < Wait(recent, rule.window, now) <= rule.window as real
      && (DecisionAt(ticks, m).Admit? <==> ticks[m].now - now >= Wait(recent, rule.window, now))
      && DecisionAt(ticks, n) == Reject(RetryAfter(Wait(recent, rule.window, now)))
  {
    hide Coherent, NoneAdmitted, After, TimesOf, InWindow, Evict, SortedUpTo, DecisionAt, Recent;
    CoherentPair(ticks, n, m);
    FirstRejected(ticks, n, m);
    RejectedMeansFull(ticks, n);
    QuietWindow(ticks, n, m);
    AdmittedIffFewRecent(ticks, n);
    AdmittedIffFewRecent(ticks, m);
    FullWindow(Recent(ticks, n), ticks[n].rule, ticks[n].now, ticks[m].now);
  }

  lemma ReportedRetry(wait: real)
    requires wait > 0.0
    ensures RetryAfter(wait) == 1 || -0.5 <= RetryAfter(wait) as real - wait <= 0.5
    ensures RetryAfter(wait) >= 1
  {
  }

  /** What rounding to whole seconds does not cut short: a short wait, a whole one, or a fraction rounded up. */
  predicate ReportCovers(wait: real) {
    var low := wait.Floor;
    var gap := wait - low as real;
    wait <= 1.0 || gap == 0.0 || gap > 0.5 || (gap == 0.5 && low % 2 == 1)
  }

  /** The reported seconds cover the exact wait as its fraction decides. */
  lemma ReportedRetrySuffices(wait: real)
    requires wait > 0.0
    ensures RetryAfter(wait) as real >= wait <==> ReportCovers(wait)
  {
    if wait <= 1.0 { RoundMonotone(wait, 1.0); }
  }

  /**
    * A rejected client that comes back after exactly the reported seconds, with no admission of its key in
    * between, is admitted if and only if the fraction of its exact wait was not rounded away.
    */
  lemma ReportedRetryAdmitsIff(ticks: seq<Tick>, n: nat, m: nat)
    requires Coherent(ticks) && n < m < |ticks| && ticks[m].key == ticks[n].key && ticks[n].rule.limit > 0
    requires NoneAdmitted(ticks, n, m, ticks[n].key) && DecisionAt(ticks, n).Reject?
    requires ticks[m].now == ticks[n].now + DecisionAt(ticks, n).retryAfter as real
    ensures Recent(ticks, n) != []
    ensures DecisionAt(ticks, m).Admit? <==> ReportCovers(Wait(Recent(ticks, n), ticks[n].rule.window, ticks[n].now))
  {
    hide Coherent, NoneAdmitted, After, TimesOf, InWindow, Evict, SortedUpTo, Recent, ReportCovers, RetryAfter;
    RetryBound(ticks, n, m);
    ReportedRetrySuffices(Wait(Recent(ticks, n), ticks[n].rule.window, ticks[n].now));
  }

  // ---------------------------------------------------------------- a burst

  function Times(n: nat, at: real): (s: seq<real>)
    ensures |s| == n && forall i :: 0 <= i < n ==> s[i] == at
  {
    seq(n, _ => at)
  }

  lemma {:induction false} KeptWhole(bucket: seq<real>, cut: real)
    requires bucket == [] || bucket[0] > cut
    ensures Evict(bucket, cut) == bucket
  {
  }

  /** Ticks of one key at one time, up to its limit, fill its deque. */
  lemma {:induction false} BurstFills(ticks: seq<Tick>, tick: Tick)
    requires |ticks| <= tick.rule.limit && tick.rule.window > 0
    requires forall i :: 0 <= i < |ticks| ==> ticks[i] == tick
    ensures BucketIn(After(ticks).events, tick.key) == Times(|ticks|, tick.now)
  {
    if ticks != [] {
      var n := |ticks| - 1;
      BurstFills(ticks[..n], tick);
      KeptWhole(Times(n, tick.now), tick.now - tick.rule.window as real);
      assert Times(n, tick.now) + [tick.now] == Times(n + 1, tick.now);
    }
  }

  /** After a full burst every tick of the key within the window is rejected, the deque staying as it is. */
  lemma FullBurstRejects(ticks: seq<Tick>, burst: Tick, next: Tick)
    requires burst.rule.limit > 0 && next.key == burst.key && next.rule == burst.rule
    requires next.now < burst.now + burst.rule.window as real
    requires BucketIn(After(ticks).events, burst.key) == Times(burst.rule.limit, burst.now)
    ensures
      var (state, decision) := Step(After(ticks), next);
      && decision == Reject(RetryAfter(burst.now + burst.rule.window as real - next.now))
      && BucketIn(state.events, burst.key) == Times(burst.rule.limit, burst.now)
  {
    var bucket := Times(burst.rule.limit, burst.now);
    KeptWhole(bucket, next.now - next.rule.window as real);
    assert Wait(bucket, next.rule.window, next.now) == burst.now + burst.rule.window as real - next.now;
  }
}
