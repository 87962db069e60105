/** The fixed-window rate limiter (app/core/ratelimit.py). Clock readings are exact
    reals and settings stay fixed over a run. */
module RateLimit {
  import opened Lists
  import opened Reals

  const EXEMPT_PREFIXES: seq<string> := ["/healthz", "/readyz", "/metrics", "/docs", "/redoc", "/openapi.json"]

  /** `key` is the client key: a digest of the bearer token, or the client address. */
  datatype Request = Request(key: string, path: string, now: real)

  datatype Settings = Settings(enabled: bool, windowSeconds: int, limit: int)

  datatype Decision = Admitted | Rejected(retryAfter: int)

  type Hits = map<string, (int, int)>

  predicate Exempt(settings: Settings, request: Request) {
    !settings.enabled || exists k | 0 <= k < |EXEMPT_PREFIXES| :: EXEMPT_PREFIXES[k] <= request.path
  }

  /** `int(now // window_seconds)` */
  function WindowOf(now: real, windowSeconds: int): int
    requires windowSeconds > 0
  {
    (now / windowSeconds as real).Floor
  }

  /** `window_seconds - int(now % window_seconds)` */
  function SecondsLeft(now: real, windowSeconds: int): int
    requires windowSeconds > 0
  {
    windowSeconds - (now - (WindowOf(now, windowSeconds) * windowSeconds) as real).Floor
  }

  /** The clock `seconds` later. */
  function After(now: real, seconds: int): real { now + seconds as real }

  function Max(a: int, b: int): int { if a < b then b else a }

  function Min(a: int, b: int): int { if a < b then a else b }

  /** One request against the table: the new table and the decision. */
  function Step(hits: Hits, settings: Settings, request: Request): (r: (Hits, Decision))
    requires settings.windowSeconds > 0
  {
    if Exempt(settings, request) then (hits, Admitted)
    else
      var window := WindowOf(request.now, settings.windowSeconds);
      var stored := if request.key in hits then hits[request.key] else (window, 0);
      var count := if stored.0 == window then stored.1 + 1 else 1;
      (hits[request.key := (window, count)],
       if count > settings.limit then Rejected(Max(SecondsLeft(request.now, settings.windowSeconds), 1)) else Admitted)
  }

  class RateLimitMiddleware {
    var hits: Hits

    constructor ()
      ensures hits == map[]
    {
      hits := map[];
    }

    method Dispatch(settings: Settings, request: Request) returns (decision: Decision)
      requires settings.windowSeconds > 0
      modifies this
      ensures (hits, decision) == Step(old(hits), settings, request)
    {
      if Exempt(settings, request) {
        return Admitted;
      }
      var window := WindowOf(request.now, settings.windowSeconds);
      var storedWindow, count := window, 0;
      if request.key in hits {
        storedWindow, count := hits[request.key].0, hits[request.key].1;
      }
      count := if storedWindow == window then count + 1 else 1;
      hits := hits[request.key := (window, count)];
      if count > settings.limit {
        var retryAfter := SecondsLeft(request.now, settings.windowSeconds);
        return Rejected(Max(retryAfter, 1));
      }
      return Admitted;
    }
  }

  /** Which requests are limited: a disabled limiter and the health and documentation
      paths admit everything and leave the table alone; any other request is counted
      in its current window. */
  lemma ExemptionExact(hits: Hits, settings: Settings, request: Request)
    requires settings.windowSeconds > 0
    ensures var (after, decision) := Step(hits, settings, request);
      if !settings.enabled || "/healthz" <= request.path || "/readyz" <= request.path || "/metrics" <= request.path
         || "/docs" <= request.path || "/redoc" <= request.path || "/openapi.json" <= request.path
      then after == hits && decision == Admitted
      else request.key in after && after[request.key].0 == WindowOf(request.now, settings.windowSeconds)
           && (after[request.key].1 == 1 || (request.key in hits && after[request.key].1 == hits[request.key].1 + 1))
           && after - {request.key} == hits - {request.key}
  {
    var paths := EXEMPT_PREFIXES;
    assert paths[0] == "/healthz" && paths[1] == "/readyz" && paths[2] == "/metrics";
    assert paths[3] == "/docs" && paths[4] == "/redoc" && paths[5] == "/openapi.json";
  }

  // ----- Windows -----

  lemma WindowBounds(now: real, windowSeconds: int)
    requires windowSeconds > 0
    ensures var w := WindowOf(now, windowSeconds);
      (w * windowSeconds) as real <= now < ((w + 1) * windowSeconds) as real
  {
    hide Product;
    var size, w := windowSeconds as real, WindowOf(now, windowSeconds);
    var q := now / size;
    QuotientBack(now, size);
    ProductsOrdered(w as real, q, size);
    ProductsOrdered(q, (w + 1) as real, size);
    ProductAsReal(w, windowSeconds);
    ProductAsReal(w + 1, windowSeconds);
  }

  lemma WindowUnique(now: real, windowSeconds: int, w: int)
    requires windowSeconds > 0 && (w * windowSeconds) as real <= now < ((w + 1) * windowSeconds) as real
    ensures WindowOf(now, windowSeconds) == w
  {
    var v := WindowOf(now, windowSeconds);
    WindowBounds(now, windowSeconds);
    if v < w { IntProductsOrdered(v + 1, w, windowSeconds); }
    if w < v { IntProductsOrdered(w + 1, v, windowSeconds); }
  }

  lemma WindowMonotone(a: real, b: real, windowSeconds: int)
    requires windowSeconds > 0 && a <= b
    ensures WindowOf(a, windowSeconds) <= WindowOf(b, windowSeconds)
  {
    var v, w := WindowOf(a, windowSeconds), WindowOf(b, windowSeconds);
    WindowBounds(a, windowSeconds);
    WindowBounds(b, windowSeconds);
    if w < v { IntProductsOrdered(w + 1, v, windowSeconds); }
  }

  /** Retry-After is the least whole number of seconds after which the clock is in
      a later window; it lies in `[1, window]`, so the outer `max` never acts, and
      waiting that long leads to the very next window. */
  lemma RetryAfterIsLeast(now: real, windowSeconds: int)
    requires windowSeconds > 0
    ensures var wait, w := SecondsLeft(now, windowSeconds), WindowOf(now, windowSeconds);
      && 1 <= wait <= windowSeconds && Max(wait, 1) == wait
      && WindowOf(After(now, wait), windowSeconds) == w + 1
      && forall n: nat :: WindowOf(After(now, n), windowSeconds) > w ==> n >= wait
  {
    var wait, w := SecondsLeft(now, windowSeconds), WindowOf(now, windowSeconds);
    var start, next := w * windowSeconds, (w + 1) * windowSeconds;
    WindowBounds(now, windowSeconds);
    assert next == start + windowSeconds;
    assert (w + 2) * windowSeconds == next + windowSeconds;
    WindowUnique(After(now, wait), windowSeconds, w + 1);
    forall n: nat | WindowOf(After(now, n), windowSeconds) > w ensures n >= wait {
      var v := WindowOf(After(now, n), windowSeconds);
      WindowBounds(After(now, n), windowSeconds);
      IntProductsOrdered(w + 1, v, windowSeconds);
      assert After(now, n) >= next as real;
    }
  }

  // ----- Histories -----

  predicate Monotone(trace: seq<Request>) {
    forall i, j :: 0 <= i < j < |trace| ==> trace[i].now <= trace[j].now
  }

  predicate Counted(settings: Settings, request: Request, key: string, window: int)
    requires settings.windowSeconds > 0
  {
    !Exempt(settings, request) && request.key == key && WindowOf(request.now, settings.windowSeconds) == window
  }

  function IsCounted(settings: Settings, key: string, window: int): Request -> bool
    requires settings.windowSeconds > 0
  {
    (request: Request) => Counted(settings, request, key, window)
  }

  /** How many limited requests of `key` fall into `window`. */
  function Count(settings: Settings, trace: seq<Request>, key: string, window: int): nat
    requires settings.windowSeconds > 0
  {
    |Filter(trace, IsCounted(settings, key, window))|
  }

  function Run(settings: Settings, trace: seq<Request>): Hits
    requires settings.windowSeconds > 0
  {
    if trace == [] then map[] else Step(Run(settings, trace[..|trace| - 1]), settings, trace[|trace| - 1]).0
  }

  /** The decision on the last request of a trace. */
  function LastDecision(settings: Settings, trace: seq<Request>): Decision
    requires settings.windowSeconds > 0 && trace != []
  {
    Step(Run(settings, trace[..|trace| - 1]), settings, trace[|trace| - 1]).1
  }

  /** The table holds every client's exact count in its latest window. */
  ghost predicate Agrees(settings: Settings, hits: Hits, trace: seq<Request>)
    requires settings.windowSeconds > 0
  {
    && (forall key, w :: key !in hits ==> Count(settings, trace, key, w) == 0)
    && (forall key :: key in hits ==> hits[key].1 == Count(settings, trace, key, hits[key].0) >= 1)
    && (forall key, w :: key in hits && w > hits[key].0 ==> Count(settings, trace, key, w) == 0)
  }

  lemma CountMore(settings: Settings, trace: seq<Request>, request: Request, key: string, w: int)
    requires settings.windowSeconds > 0
    ensures Count(settings, trace + [request], key, w)
         == Count(settings, trace, key, w) + (if Counted(settings, request, key, w) then 1 else 0)
  {
    hide Exempt;
    FilterConcat(trace, [request], IsCounted(settings, key, w));
    FilterOne(request, IsCounted(settings, key, w));
  }

  lemma CountedWindowIsPast(settings: Settings, trace: seq<Request>, request: Request, key: string, w: int)
    requires settings.windowSeconds > 0 && Monotone(trace + [request]) && Count(settings, trace, key, w) >= 1
    ensures w <= WindowOf(request.now, settings.windowSeconds)
  {
    hide Exempt;
    var p := IsCounted(settings, key, w);
    var k := Where(trace, p)[0];
    assert p(trace[k]);
    assert (trace + [request])[k] == trace[k] && (trace + [request])[|trace|] == request;
    WindowMonotone(trace[k].now, request.now, settings.windowSeconds);
  }

  lemma StepAgrees(settings: Settings, hits: Hits, trace: seq<Request>, request: Request)
    requires settings.windowSeconds > 0 && Monotone(trace + [request]) && Agrees(settings, hits, trace)
    ensures Agrees(settings, Step(hits, settings, request).0, trace + [request])
    ensures !Exempt(settings, request) ==>
      var now := Count(settings, trace + [request], request.key, WindowOf(request.now, settings.windowSeconds));
      (Step(hits, settings, request).1.Admitted? <==> now <= settings.limit)
  {
    hide Count, Exempt, WindowOf, SecondsLeft;
    var window := WindowOf(request.now, settings.windowSeconds);
    forall key, w
      ensures Count(settings, trace + [request], key, w)
           == Count(settings, trace, key, w) + (if Counted(settings, request, key, w) then 1 else 0)
    {
      CountMore(settings, trace, request, key, w);
    }
    if request.key in hits {
      CountedWindowIsPast(settings, trace, request, request.key, hits[request.key].0);
    }
  }

  /** After any run over a monotone clock the table agrees with the history. */
  lemma {:induction false} LimiterRefinesHistory(settings: Settings, trace: seq<Request>)
    requires settings.windowSeconds > 0 && Monotone(trace)
    ensures Agrees(settings, Run(settings, trace), trace)
    decreases |trace|
  {
    hide Step, Agrees;
    if trace == [] {
      EmptyAgrees(settings);
    } else {
      var n := |trace| - 1;
      LimiterRefinesHistory(settings, trace[..n]);
      assert trace[..n] + [trace[n]] == trace;
      StepAgrees(settings, Run(settings, trace[..n]), trace[..n], trace[n]);
    }
  }

  lemma EmptyAgrees(settings: Settings)
    requires settings.windowSeconds > 0
    ensures Agrees(settings, map[], [])
  {
  }

  /** A limited request is admitted exactly when it is among the first `limit` of
      its client in its window. */
  lemma DecisionByCount(settings: Settings, trace: seq<Request>)
    requires settings.windowSeconds > 0 && trace != [] && Monotone(trace)
    requires !Exempt(settings, trace[|trace| - 1])
    ensures var last := trace[|trace| - 1];
      LastDecision(settings, trace).Admitted? <==>
        Count(settings, trace, last.key, WindowOf(last.now, settings.windowSeconds)) <= settings.limit
  {
    hide Step, Agrees, Count;
    var n := |trace| - 1;
    LimiterRefinesHistory(settings, trace[..n]);
    assert trace[..n] + [trace[n]] == trace;
    StepAgrees(settings, Run(settings, trace[..n]), trace[..n], trace[n]);
  }

  // ----- How many are admitted -----

  /** How many limited requests that satisfy `p` are admitted over the trace. */
  function AdmittedCount(settings: Settings, trace: seq<Request>, p: Request -> bool): nat
    requires settings.windowSeconds > 0
  {
    if trace == [] then 0
    else
      var n := |trace| - 1;
      AdmittedCount(settings, trace[..n], p)
      + (if p(trace[n]) && !Exempt(settings, trace[n]) && LastDecision(settings, trace).Admitted? then 1 else 0)
  }

  /** Every window admits exactly `min(n, limit)` of a client's `n` requests. */
  lemma {:induction false} WindowAdmits(settings: Settings, trace: seq<Request>, key: string, w: int)
    requires settings.windowSeconds > 0 && Monotone(trace)
    ensures AdmittedCount(settings, trace, IsCounted(settings, key, w))
         == Min(Count(settings, trace, key, w), Max(settings.limit, 0))
    decreases |trace|
  {
    hide Exempt, LastDecision, Count, WindowOf;
    if trace == [] {
      EmptyCount(settings, key, w);
    } else {
      var n := |trace| - 1;
      WindowAdmits(settings, trace[..n], key, w);
      assert trace[..n] + [trace[n]] == trace;
      CountMore(settings, trace[..n], trace[n], key, w);
      if Counted(settings, trace[n], key, w) {
        DecisionByCount(settings, trace);
      }
    }
  }

  lemma EmptyCount(settings: Settings, key: string, w: int)
    requires settings.windowSeconds > 0
    ensures Count(settings, [], key, w) == 0
  {
  }

  predicate Between(request: Request, key: string, from: real, to: real) {
    request.key == key && from <= request.now <= to
  }

  function IsBetween(key: string, from: real, to: real): Request -> bool {
    (request: Request) => Between(request, key, from, to)
  }

  lemma {:induction false} AdmittedSplit(
      settings: Settings, trace: seq<Request>, p: Request -> bool, q: Request -> bool, r: Request -> bool)
    requires settings.windowSeconds > 0
    requires forall k :: 0 <= k < |trace| && !Exempt(settings, trace[k]) && p(trace[k]) ==> q(trace[k]) || r(trace[k])
    ensures AdmittedCount(settings, trace, p) <= AdmittedCount(settings, trace, q) + AdmittedCount(settings, trace, r)
    decreases |trace|
  {
    hide Exempt, LastDecision;
    if trace != [] {
      AdmittedSplit(settings, trace[..|trace| - 1], p, q, r);
    }
  }

  lemma {:induction false} AdmittedNone(settings: Settings, trace: seq<Request>, p: Request -> bool)
    requires settings.windowSeconds > 0
    requires forall k :: 0 <= k < |trace| && !Exempt(settings, trace[k]) ==> !p(trace[k])
    ensures AdmittedCount(settings, trace, p) == 0
    decreases |trace|
  {
    hide Exempt, LastDecision;
    if trace != [] {
      AdmittedNone(settings, trace[..|trace| - 1], p);
    }
  }

  /** A limited request of the client in one of the `m` windows from `w` on. */
  function IsWithin(settings: Settings, key: string, w: int, m: nat): Request -> bool
    requires settings.windowSeconds > 0
  {
    (request: Request) => request.key == key && w <= WindowOf(request.now, settings.windowSeconds) < w + m
  }

  lemma {:induction false} WindowsAdmit(settings: Settings, trace: seq<Request>, key: string, w: int, m: nat)
    requires settings.windowSeconds > 0 && Monotone(trace)
    ensures AdmittedCount(settings, trace, IsWithin(settings, key, w, m)) <= Max(settings.limit, 0) * m
    decreases m
  {
    hide Exempt, LastDecision, AdmittedCount, Count, WindowOf, Max, Min;
    if m == 0 {
      AdmittedNone(settings, trace, IsWithin(settings, key, w, m));
    } else {
      WindowsAdmit(settings, trace, key, w, m - 1);
      AdmittedSplit(settings, trace, IsWithin(settings, key, w, m), IsWithin(settings, key, w, m - 1),
                    IsCounted(settings, key, w + m - 1));
      WindowAdmits(settings, trace, key, w + m - 1);
      MinAtMost(Count(settings, trace, key, w + m - 1), Max(settings.limit, 0));
      OneMore(Max(settings.limit, 0), m);
    }
  }

  lemma MinAtMost(a: int, b: int)
    ensures Min(a, b) <= b
  {
  }

  lemma OneMore(limit: int, m: int)
    ensures limit * m == limit * (m - 1) + limit
  {
  }

  /** How many windows a closed interval meets. */
  function Span(settings: Settings, from: real, to: real): (m: nat)
    requires settings.windowSeconds > 0 && from <= to
    ensures m >= 1
  {
    WindowMonotone(from, to, settings.windowSeconds);
    WindowOf(to, settings.windowSeconds) - WindowOf(from, settings.windowSeconds) + 1
  }

  /** A closed interval admits at most the limit for every window it meets. */
  lemma SpanAdmits(settings: Settings, trace: seq<Request>, key: string, from: real, to: real)
    requires settings.windowSeconds > 0 && Monotone(trace) && from <= to
    ensures AdmittedCount(settings, trace, IsBetween(key, from, to))
         <= Max(settings.limit, 0) * Span(settings, from, to)
  {
    hide Exempt, LastDecision, AdmittedCount, Count, Max;
    var w, m := WindowOf(from, settings.windowSeconds), Span(settings, from, to);
    var p, q, none := IsBetween(key, from, to), IsWithin(settings, key, w, m), (request: Request) => false;
    forall k | 0 <= k < |trace| && !Exempt(settings, trace[k]) && p(trace[k]) ensures q(trace[k]) || none(trace[k]) {
      WindowMonotone(from, trace[k].now, settings.windowSeconds);
      WindowMonotone(trace[k].now, to, settings.windowSeconds);
    }
    AdmittedSplit(settings, trace, p, q, none);
    AdmittedNone(settings, trace, none);
    WindowsAdmit(settings, trace, key, w, m);
  }

  /** Any closed interval as long as the window admits at most twice the limit. */
  lemma IntervalAdmits(settings: Settings, trace: seq<Request>, key: string, from: real)
    requires settings.windowSeconds > 0 && Monotone(trace)
    ensures AdmittedCount(settings, trace, IsBetween(key, from, from + settings.windowSeconds as real))
         <= 2 * Max(settings.limit, 0)
  {
    hide Exempt, LastDecision, AdmittedCount, Max;
    WindowLater(from, settings.windowSeconds);
    SpanAdmits(settings, trace, key, from, from + settings.windowSeconds as real);
  }

  lemma WindowLater(from: real, size: int)
    requires size > 0
    ensures WindowOf(from + size as real, size) == WindowOf(from, size) + 1
  {
    var w := WindowOf(from, size);
    WindowBounds(from, size);
    assert (w + 1) * size == w * size + size && (w + 2) * size == w * size + size + size;
    WindowUnique(from + size as real, size, w + 1);
  }

  // ----- The bound is exact -----

  function Copies(request: Request, n: nat): (r: seq<Request>)
    ensures |r| == n && forall k :: 0 <= k < n ==> r[k] == request
  {
    seq(n, k requires 0 <= k < n => request)
  }

  lemma CopiesOneMore(trace: seq<Request>, request: Request, n: nat)
    ensures trace + Copies(request, 0) == trace
    ensures trace + Copies(request, n + 1) == trace + Copies(request, n) + [request]
  {
  }

  lemma CopiesMonotone(trace: seq<Request>, request: Request, n: nat)
    requires Monotone(trace + [request])
    ensures Monotone(trace + Copies(request, n))
  {
    var now := trace + Copies(request, n);
    assert forall k :: 0 <= k <= |trace| ==> (trace + [request])[k] == if k < |trace| then trace[k] else request;
    forall i, j | 0 <= i < j < |now| ensures now[i].now <= now[j].now {
      if i < |trace| {
        assert now[i] == (trace + [request])[i];
        assert now[j] == (trace + [request])[if j < |trace| then j else |trace|];
      }
    }
  }

  lemma OneMoreAdmitted(settings: Settings, trace: seq<Request>, request: Request, p: Request -> bool)
    requires settings.windowSeconds > 0 && Monotone(trace + [request]) && !Exempt(settings, request) && p(request)
    requires Count(settings, trace, request.key, WindowOf(request.now, settings.windowSeconds)) < settings.limit
    ensures AdmittedCount(settings, trace + [request], p) == AdmittedCount(settings, trace, p) + 1
  {
    hide Exempt, Count, LastDecision, WindowOf, Monotone;
    assert (trace + [request])[..|trace|] == trace;
    CountMore(settings, trace, request, request.key, WindowOf(request.now, settings.windowSeconds));
    DecisionByCount(settings, trace + [request]);
  }

  /** Repeating a request is admitted as long as its window has room. */
  lemma {:induction false} CopiesAdmitted(
      settings: Settings, trace: seq<Request>, request: Request, n: nat, p: Request -> bool)
    requires settings.windowSeconds > 0 && Monotone(trace + [request]) && !Exempt(settings, request) && p(request)
    requires Count(settings, trace, request.key, WindowOf(request.now, settings.windowSeconds)) + n <= settings.limit
    ensures AdmittedCount(settings, trace + Copies(request, n), p) == AdmittedCount(settings, trace, p) + n
    ensures Count(settings, trace + Copies(request, n), request.key, WindowOf(request.now, settings.windowSeconds))
         == Count(settings, trace, request.key, WindowOf(request.now, settings.windowSeconds)) + n
    decreases n
  {
    hide Exempt, Count, AdmittedCount, WindowOf, Monotone;
    if n == 0 {
      CopiesOneMore(trace, request, 0);
    } else {
      var before := trace + Copies(request, n - 1);
      CopiesAdmitted(settings, trace, request, n - 1, p);
      CopiesOneMore(trace, request, n - 1);
      CopiesMonotone(trace, request, n);
      CountMore(settings, before, request, request.key, WindowOf(request.now, settings.windowSeconds));
      OneMoreAdmitted(settings, before, request, p);
    }
  }

  /** The earliest moment of the interval that starts at `from` in window `w`. */
  function Moment(from: real, w: int, size: int): real {
    if (w * size) as real < from then from else (w * size) as real
  }

  /** `limit` requests at the earliest moment of each of the first `m` windows the interval meets. */
  function Full(settings: Settings, key: string, from: real, m: nat): seq<Request>
    requires settings.windowSeconds > 0 && settings.limit >= 0
  {
    if m == 0 then []
    else
      var w := WindowOf(from, settings.windowSeconds) + m - 1;
      Full(settings, key, from, m - 1)
      + Copies(Request(key, "/api", Moment(from, w, settings.windowSeconds)), settings.limit)
  }

  lemma MomentInside(from: real, to: real, size: int, w: int)
    requires size > 0 && from <= to && WindowOf(from, size) <= w <= WindowOf(to, size)
    ensures from <= Moment(from, w, size) <= to && WindowOf(Moment(from, w, size), size) == w
  {
    WindowBounds(from, size);
    WindowBounds(to, size);
    IntProductsOrdered(w, WindowOf(to, size), size);
    assert (w + 1) * size == w * size + size;
    if (w * size) as real < from {
      if WindowOf(from, size) < w { IntProductsOrdered(WindowOf(from, size) + 1, w, size); }
    } else {
      WindowUnique((w * size) as real, size, w);
    }
  }

  predicate Early(settings: Settings, trace: seq<Request>, w: int)
    requires settings.windowSeconds > 0
  {
    forall k :: 0 <= k < |trace| ==> WindowOf(trace[k].now, settings.windowSeconds) < w
  }

  lemma EarlyUncounted(settings: Settings, trace: seq<Request>, key: string, w: int)
    requires settings.windowSeconds > 0 && Early(settings, trace, w)
    ensures Count(settings, trace, key, w) == 0
  {
    hide Exempt, WindowOf;
    FilterNone(trace, IsCounted(settings, key, w));
  }

  /** Every request of the full trace is admitted. */
  lemma {:induction false} FullAdmitted(settings: Settings, key: string, from: real, to: real, m: nat)
    requires settings.enabled && settings.windowSeconds > 0 && settings.limit >= 0
    requires from <= to && m <= Span(settings, from, to)
    ensures var trace := Full(settings, key, from, m);
      && Monotone(trace) && Early(settings, trace, WindowOf(from, settings.windowSeconds) + m)
      && AdmittedCount(settings, trace, IsBetween(key, from, to)) == settings.limit * m
    decreases m
  {
    hide Exempt, WindowOf, Moment, LastDecision, Count;
    if m > 0 {
      var size, limit, w := settings.windowSeconds, settings.limit, WindowOf(from, settings.windowSeconds) + m - 1;
      var before, request := Full(settings, key, from, m - 1), Request(key, "/api", Moment(from, w, size));
      FullAdmitted(settings, key, from, to, m - 1);
      MomentInside(from, to, size, w);
      ApiIsLimited(settings, request);
      EarlyUncounted(settings, before, key, w);
      AppendMonotone(settings, before, request);
      CopiesAdmitted(settings, before, request, limit, IsBetween(key, from, to));
      CopiesMonotone(before, request, limit);
      CopiesEarly(settings, before, request, limit);
      OneMore(limit, m);
      hide Early, Monotone, AdmittedCount;
    }
  }

  lemma AppendMonotone(settings: Settings, trace: seq<Request>, request: Request)
    requires settings.windowSeconds > 0 && Monotone(trace)
    requires Early(settings, trace, WindowOf(request.now, settings.windowSeconds))
    ensures Monotone(trace + [request])
  {
    forall k | 0 <= k < |trace| ensures trace[k].now <= request.now {
      if request.now < trace[k].now { WindowMonotone(request.now, trace[k].now, settings.windowSeconds); }
    }
  }

  lemma CopiesEarly(settings: Settings, trace: seq<Request>, request: Request, n: nat)
    requires settings.windowSeconds > 0 && Early(settings, trace, WindowOf(request.now, settings.windowSeconds))
    ensures Early(settings, trace + Copies(request, n), WindowOf(request.now, settings.windowSeconds) + 1)
  {
  }

  lemma ApiIsLimited(settings: Settings, request: Request)
    requires settings.enabled && request.path == "/api"
    ensures !Exempt(settings, request)
  {
    forall k | 0 <= k < |EXEMPT_PREFIXES| ensures !(EXEMPT_PREFIXES[k] <= request.path) {
      assert |EXEMPT_PREFIXES[k]| > 4;
    }
  }

  /** No client ever gets more than `n` requests through in the closed interval. */
  ghost predicate AdmitsAtMost(settings: Settings, from: real, to: real, n: int)
    requires settings.windowSeconds > 0
  {
    forall trace, key :: Monotone(trace) ==> AdmittedCount(settings, trace, IsBetween(key, from, to)) <= n
  }

  /** What an interval guarantees is exactly the limit times the windows it meets. */
  lemma IntervalBoundExact(settings: Settings, from: real, to: real, n: int)
    requires settings.enabled && settings.windowSeconds > 0 && from <= to
    ensures AdmitsAtMost(settings, from, to, n) <==> Max(settings.limit, 0) * Span(settings, from, to) <= n
  {
    hide AdmittedCount, WindowOf, Exempt;
    var m := Span(settings, from, to);
    if Max(settings.limit, 0) * m <= n {
      forall trace, key | Monotone(trace) ensures AdmittedCount(settings, trace, IsBetween(key, from, to)) <= n {
        SpanAdmits(settings, trace, key, from, to);
      }
    } else {
      if settings.limit >= 0 {
        FullAdmitted(settings, "", from, to, m);
        assert AdmittedCount(settings, Full(settings, "", from, m), IsBetween("", from, to)) > n;
      } else {
        var none: seq<Request> := [];
        AdmittedNone(settings, none, IsBetween("", from, to));
        assert Monotone(none) && AdmittedCount(settings, none, IsBetween("", from, to)) > n;
      }
    }
  }

  /** The documented limit holds of a closed interval exactly when it lies in one window. */
  lemma RollingLimitExact(settings: Settings, from: real, to: real)
    requires settings.enabled && settings.windowSeconds > 0 && settings.limit >= 1 && from <= to
    ensures AdmitsAtMost(settings, from, to, settings.limit)
       <==> WindowOf(from, settings.windowSeconds) == WindowOf(to, settings.windowSeconds)
  {
    hide AdmitsAtMost, WindowOf;
    IntervalBoundExact(settings, from, to, settings.limit);
    var m := Span(settings, from, to);
    if m >= 2 { AtLeastTwice(settings.limit, m); }
  }

  lemma AtLeastTwice(limit: int, m: int)
    requires limit >= 1 && m >= 2
    ensures limit * m > limit
  {
    assert limit * m == limit + limit * (m - 1);
    assert limit * (m - 1) >= 1;
  }

  /** So twice the limit is reached in an interval as long as the window. */
  lemma BoundIsReached(settings: Settings, key: string, from: real)
    requires settings.enabled && settings.windowSeconds > 0 && settings.limit >= 0
    ensures exists trace :: (
              && Monotone(trace)
              && AdmittedCount(settings, trace, IsBetween(key, from, from + settings.windowSeconds as real))
                 == 2 * settings.limit)
  {
    hide AdmittedCount, WindowOf;
    WindowLater(from, settings.windowSeconds);
    FullAdmitted(settings, key, from, from + settings.windowSeconds as real, 2);
  }

  // ----- Clients do not affect each other -----

  function From(key: string): Request -> bool { (request: Request) => request.key == key }

  /** A client's decision is the one its own requests alone would have led to. */
  lemma ClientsAreIsolated(settings: Settings, trace: seq<Request>)
    requires settings.windowSeconds > 0 && trace != [] && Monotone(trace)
    ensures var own := Filter(trace, From(trace[|trace| - 1].key));
      own != [] && LastDecision(settings, own) == LastDecision(settings, trace)
  {
    hide Exempt, WindowOf, SecondsLeft, Run;
    var n := |trace| - 1;
    var last := trace[n];
    var own := Filter(trace, From(last.key));
    assert own[|own| - 1] == last;
    FilterMonotone(trace, From(last.key));
    if !Exempt(settings, last) {
      var w := WindowOf(last.now, settings.windowSeconds);
      FilterTwice(trace, From(last.key), IsCounted(settings, last.key, w));
      DecisionByCount(settings, trace);
      DecisionByCount(settings, own);
    }
  }

  lemma FilterMonotone(trace: seq<Request>, p: Request -> bool)
    requires Monotone(trace)
    ensures Monotone(Filter(trace, p))
  {
    var at := Where(trace, p);
    forall i, j | 0 <= i < j < |at| ensures Filter(trace, p)[i].now <= Filter(trace, p)[j].now {
      assert at[i] < at[j];
    }
  }

  /** The request does not count for the client: it is exempt or another client's. */
  predicate Passes(settings: Settings, request: Request, key: string) {
    Exempt(settings, request) || request.key != key
  }

  lemma {:induction false} OthersLeaveCount(
      settings: Settings, trace: seq<Request>, between: seq<Request>, key: string)
    requires settings.windowSeconds > 0 && key in Run(settings, trace)
    requires forall k :: 0 <= k < |between| ==> Passes(settings, between[k], key)
    ensures key in Run(settings, trace + between) && Run(settings, trace + between)[key] == Run(settings, trace)[key]
    decreases |between|
  {
    hide Exempt, WindowOf, SecondsLeft;
    if between == [] {
      assert trace + between == trace;
    } else {
      var n := |between| - 1;
      OthersLeaveCount(settings, trace, between[..n], key);
      assert (trace + between)[..|trace + between| - 1] == trace + between[..n];
      assert Passes(settings, between[n], key);
    }
  }

  /** A rejected client that waits as long as it was told is counted afresh, whatever
      other clients send in the meantime. */
  lemma {:induction false} WaitingResets(
      settings: Settings, trace: seq<Request>, between: seq<Request>, retry: Request)
    requires settings.windowSeconds > 0 && trace != [] && Monotone(trace + between + [retry])
    requires forall k :: 0 <= k < |between| ==> Passes(settings, between[k], retry.key)
    requires var last := trace[|trace| - 1];
      && LastDecision(settings, trace).Rejected?
      && retry.key == last.key && !Exempt(settings, retry)
      && retry.now >= After(last.now, LastDecision(settings, trace).retryAfter)
    ensures retry.key in Run(settings, trace + between + [retry])
    ensures Run(settings, trace + between + [retry])[retry.key] == (WindowOf(retry.now, settings.windowSeconds), 1)
    ensures LastDecision(settings, trace + between + [retry]).Admitted? <==> settings.limit >= 1
  {
    hide Exempt;
    var last, size, before := trace[|trace| - 1], settings.windowSeconds, trace + between;
    assert (before + [retry])[..|before|] == before;
    RetryAfterIsLeast(last.now, size);
    WindowMonotone(After(last.now, SecondsLeft(last.now, size)), retry.now, size);
    assert Run(settings, trace)[last.key].0 == WindowOf(last.now, size);
    OthersLeaveCount(settings, trace, between, last.key);
    hide WindowOf, SecondsLeft;
  }
}
