/** The load-testing report: interpolated percentiles and the summary per endpoint. */
module LoadTest {
  import opened Seqs
  import opened Rounding

  datatype RequestResult = RequestResult(endpoint: string, statusCode: int, latencyMs: real, error: Option<string>)

  // ----- percentiles -----

  /** The value at fractional position k, interpolated between its neighbours. */
  function Interpolate(s: seq<real>, k: real): real
    requires s != [] && 0.0 <= k <= (|s| - 1) as real
  {
    var f := k.Floor;
    var c := if f + 1 < |s| - 1 then f + 1 else |s| - 1;
    if f == c then s[f] else s[f] + (s[c] - s[f]) * (k - f as real)
  }

  lemma PositionInRange(n: nat, pct: real)
    requires n > 0 && 0.0 <= pct <= 100.0
    ensures 0.0 <= (n - 1) as real * (pct / 100.0) <= (n - 1) as real
  {
    var p := pct / 100.0;
    assert 0.0 <= p <= 1.0;
    MulMonotone((n - 1) as real, 0.0, p);
    MulMonotone((n - 1) as real, p, 1.0);
  }

  lemma MulMonotone(a: real, x: real, y: real)
    requires a >= 0.0 && x <= y
    ensures a * x <= a * y
  {
    assert a * (y - x) >= 0.0;
    assert a * y - a * x == a * (y - x);
  }

  function Percentile(s: seq<real>, pct: real): real
    requires 0.0 <= pct <= 100.0
  {
    if s == [] then 0.0
    else (PositionInRange(|s|, pct); Interpolate(s, (|s| - 1) as real * (pct / 100.0)))
  }

  predicate RealLe(a: real, b: real) {
    a <= b
  }

  lemma Blend(a: real, b: real, t: real, u: real)
    requires a <= b && 0.0 <= t <= u <= 1.0
    ensures a <= a + (b - a) * t <= a + (b - a) * u <= b
  {
    MulMonotone(b - a, 0.0, t);
    MulMonotone(b - a, t, u);
    MulMonotone(b - a, u, 1.0);
    assert (b - a) * 0.0 == 0.0 && (b - a) * 1.0 == b - a;
  }

  lemma InterpolateBetweenNeighbours(s: seq<real>, k: real)
    requires Sorted(RealLe, s) && s != [] && 0.0 <= k <= (|s| - 1) as real
    ensures s[k.Floor] <= Interpolate(s, k)
    ensures k.Floor + 1 < |s| ==> Interpolate(s, k) <= s[k.Floor + 1]
    ensures k.Floor + 1 == |s| ==> Interpolate(s, k) == s[k.Floor]
  {
    var f := k.Floor;
    if f + 1 < |s| {
      assert RealLe(s[f], s[f + 1]);
      Blend(s[f], s[f + 1], k - f as real, 1.0);
    }
  }

  lemma InterpolateMonotone(s: seq<real>, j: real, k: real)
    requires Sorted(RealLe, s) && s != [] && 0.0 <= j <= k <= (|s| - 1) as real
    ensures Interpolate(s, j) <= Interpolate(s, k)
  {
    InterpolateBetweenNeighbours(s, j);
    InterpolateBetweenNeighbours(s, k);
    var f, g := j.Floor, k.Floor;
    if f < g {
      assert f + 1 == g || RealLe(s[f + 1], s[g]);
    } else if f + 1 < |s| {
      assert RealLe(s[f], s[f + 1]);
      Blend(s[f], s[f + 1], j - f as real, k - f as real);
    }
  }

  lemma PercentileStep(s: seq<real>, p: real, q: real)
    requires Sorted(RealLe, s) && s != [] && 0.0 <= p <= q <= 100.0
    ensures Percentile(s, p) <= Percentile(s, q)
  {
    PositionInRange(|s|, p);
    PositionInRange(|s|, q);
    MulMonotone((|s| - 1) as real, p / 100.0, q / 100.0);
    InterpolateMonotone(s, (|s| - 1) as real * (p / 100.0), (|s| - 1) as real * (q / 100.0));
  }

  /** Over a sorted non-empty list the percentile is monotone, stays between the first
      and the last element and reaches them at 0 and 100. */
  lemma PercentileIsMonotone(s: seq<real>, p: real, q: real)
    requires Sorted(RealLe, s) && s != [] && 0.0 <= p <= q <= 100.0
    ensures s[0] <= Percentile(s, p) <= Percentile(s, q) <= s[|s| - 1]
    ensures Percentile(s, 0.0) == s[0] && Percentile(s, 100.0) == s[|s| - 1]
  {
    PercentileStep(s, 0.0, p);
    PercentileStep(s, p, q);
    PercentileStep(s, q, 100.0);
    Ends(s);
  }

  lemma Ends(s: seq<real>)
    requires s != []
    ensures Percentile(s, 0.0) == s[0] && Percentile(s, 100.0) == s[|s| - 1]
  {
    var n := (|s| - 1) as real;
    PositionInRange(|s|, 0.0);
    PositionInRange(|s|, 100.0);
    assert 0.0 / 100.0 == 0.0 && 100.0 / 100.0 == 1.0;
    assert n * 0.0 == 0.0 && n * 1.0 == n;
  }

  /** At a position i + t between two neighbours the percentile divides their distance
      as t to 1 - t; at a whole position it is the element itself. */
  lemma PercentileInterpolates(s: seq<real>, pct: real, i: nat, t: real)
    requires 0.0 <= pct <= 100.0 && i + 1 < |s| && 0.0 <= t <= 1.0
    requires (|s| - 1) as real * (pct / 100.0) == i as real + t
    ensures Percentile(s, pct) == s[i] * (1.0 - t) + s[i + 1] * t
  {
    var k := i as real + t;
    assert k.Floor == if t == 1.0 then i + 1 else i;
    var d := s[i + 1] - s[i];
    assert s[i] + d * t == s[i] * (1.0 - t) + s[i + 1] * t;
  }

  // ----- the summary -----

  function EndpointOf(r: RequestResult): string { r.endpoint }

  function LatencyOf(r: RequestResult): real { r.latencyMs }

  /** `r.error or r.status_code >= 500`: an empty error text does not count. */
  predicate Failed(r: RequestResult) {
    (r.error.Some? && r.error.value != "") || r.statusCode >= 500
  }

  function WithCode(code: int): RequestResult -> bool {
    (r: RequestResult) => r.statusCode == code
  }

  datatype Figures = Figures(p50: real, p90: real, p99: real, max: real)

  datatype EndpointSummary = EndpointSummary(
    count: nat, errors: nat, errorRate: real, latency: Figures, statusCodes: seq<(int, nat)>)

  ghost predicate HasCode(codes: seq<(int, nat)>, code: int) {
    exists i :: 0 <= i < |codes| && codes[i].0 == code
  }

  /** Each occurring code once, in increasing order, with the number of its rows. */
  ghost predicate IsBreakdown(rows: seq<RequestResult>, codes: seq<(int, nat)>) {
    && KeysAscend(codes)
    && (forall i :: 0 <= i < |codes| ==> codes[i].1 == |Filter(WithCode(codes[i].0), rows)| > 0)
    && (forall r :: r in rows ==> HasCode(codes, r.statusCode))
  }

  function SortedLatencies(rows: seq<RequestResult>): seq<real> {
    StableSort(RealLe, Map(LatencyOf, rows))
  }

  ghost predicate IsFigures(sorted: seq<real>, f: Figures) {
    && sorted != []
    && f.p50 == Round1(Percentile(sorted, 50.0))
    && f.p90 == Round1(Percentile(sorted, 90.0))
    && f.p99 == Round1(Percentile(sorted, 99.0))
    && f.max == Round1(sorted[|sorted| - 1])
  }

  function ErrorRate(errors: nat, count: nat): real
    requires count > 0
  {
    Round1(errors as real / count as real * 100.0)
  }

  ghost predicate IsSummary(rows: seq<RequestResult>, s: EndpointSummary) {
    && rows != []
    && s.count == |rows|
    && s.errors == |Filter(Failed, rows)|
    && s.errorRate == ErrorRate(s.errors, s.count)
    && IsFigures(SortedLatencies(rows), s.latency)
    && IsBreakdown(rows, s.statusCodes)
  }

  ghost predicate IsReport(results: seq<RequestResult>, out: map<string, EndpointSummary>) {
    && (forall e :: e in out <==> e in Map(EndpointOf, results))
    && (forall e :: e in out ==> IsSummary(Filter(Keyed(EndpointOf, e), results), out[e]))
  }

  lemma FiguresAreOrdered(sorted: seq<real>, f: Figures)
    requires Sorted(RealLe, sorted) && IsFigures(sorted, f)
    ensures f.p50 <= f.p90 <= f.p99 <= f.max
  {
    var a, b, c, d := Percentile(sorted, 50.0), Percentile(sorted, 90.0), Percentile(sorted, 99.0), sorted[|sorted| - 1];
    PercentileIsMonotone(sorted, 50.0, 90.0);
    PercentileIsMonotone(sorted, 90.0, 99.0);
    RoundMonotone(a, b);
    RoundMonotone(b, c);
    RoundMonotone(c, d);
  }

  lemma RatioIsFraction(a: real, b: real)
    requires 0.0 <= a <= b && b > 0.0
    ensures 0.0 <= a / b <= 1.0 && (a == 0.0 ==> a / b == 0.0)
  {
    assert a / b * b == a;
  }

  lemma RateIsPercentage(errors: nat, count: nat)
    requires errors <= count && count > 0
    ensures 0.0 <= ErrorRate(errors, count) <= 100.0
    ensures errors == 0 ==> ErrorRate(errors, count) == 0.0
  {
    var rate := errors as real / count as real;
    RatioIsFraction(errors as real, count as real);
    Round1KeepsTenths(0);
    Round1KeepsTenths(100);
    RoundMonotone(0.0, rate * 100.0);
    RoundMonotone(rate * 100.0, 100.0);
  }

  /** In every summary p50 <= p90 <= p99 <= max, also after rounding, and the error
      rate is a percentage. */
  lemma SummaryIsOrdered(rows: seq<RequestResult>, s: EndpointSummary)
    requires IsSummary(rows, s)
    ensures s.latency.p50 <= s.latency.p90 <= s.latency.p99 <= s.latency.max
    ensures 0.0 <= s.errorRate <= 100.0
    ensures (forall r :: r in rows ==> !Failed(r)) ==> s.errorRate == 0.0
  {
    SortSorts(RealLe, Map(LatencyOf, rows));
    FiguresAreOrdered(SortedLatencies(rows), s.latency);
    RateIsPercentage(s.errors, s.count);
    if forall r :: r in rows ==> !Failed(r) {
      FilterNone(Failed, rows);
    }
  }

  lemma QuotientTimesHundred(a: real, b: real)
    requires b > 0.0
    ensures a / b * 100.0 == a * 100.0 / b
  {
    assert a / b * b == a;
    assert a * 100.0 / b * b == a * 100.0;
  }

  /** A hundred times errors over count, to one decimal. */
  predicate NearRate(rate: real, errors: nat, count: nat) {
    count > 0 && -0.05 <= rate - errors as real * 100.0 / count as real <= 0.05 && IsWhole(rate * 10.0)
  }

  lemma RateIsNear(errors: nat, count: nat)
    requires count > 0
    ensures NearRate(ErrorRate(errors, count), errors, count)
  {
    QuotientTimesHundred(errors as real, count as real);
    Round1IsNear(errors as real / count as real * 100.0);
  }

  lemma ErrorRateIsNear(rows: seq<RequestResult>, s: EndpointSummary)
    requires IsSummary(rows, s)
    ensures NearRate(s.errorRate, s.errors, s.count)
  {
    RateIsNear(s.errors, s.count);
  }

  /** The reported figures are, to one decimal, the interpolated values at 50, 90 and 99
      percent of the way through the sorted latencies, and the largest latency. */
  lemma FiguresAreNear(sorted: seq<real>, f: Figures, pct: real, i: nat, t: real)
    requires IsFigures(sorted, f) && i + 1 < |sorted| && 0.0 <= t <= 1.0 && pct in {50.0, 90.0, 99.0}
    requires (|sorted| - 1) as real * (pct / 100.0) == i as real + t
    ensures var value := sorted[i] * (1.0 - t) + sorted[i + 1] * t;
            var figure := if pct == 50.0 then f.p50 else if pct == 90.0 then f.p90 else f.p99;
            -0.05 <= figure - value <= 0.05 && IsWhole(figure * 10.0)
    ensures -0.05 <= f.max - sorted[|sorted| - 1] <= 0.05
  {
    PercentileInterpolates(sorted, pct, i, t);
    Round1IsNear(Percentile(sorted, pct));
    Round1IsNear(sorted[|sorted| - 1]);
  }

  /** What the figures are taken from: every latency as often as it was measured, ascending. */
  lemma LatenciesAreSorted(rows: seq<RequestResult>, x: real)
    ensures |SortedLatencies(rows)| == |rows|
    ensures multiset(SortedLatencies(rows))[x] == |set i | 0 <= i < |rows| && rows[i].latencyMs == x|
    ensures forall i, j :: 0 <= i < j < |rows| ==> SortedLatencies(rows)[i] <= SortedLatencies(rows)[j]
  {
    var latencies := Map(LatencyOf, rows);
    SortPermutes(RealLe, latencies);
    SortSorts(RealLe, latencies);
    CountOfLatency(rows, x);
    forall i, j | 0 <= i < j < |rows| ensures SortedLatencies(rows)[i] <= SortedLatencies(rows)[j] {
      assert RealLe(SortedLatencies(rows)[i], SortedLatencies(rows)[j]);
    }
  }

  lemma CountOfLatency(rows: seq<RequestResult>, x: real)
    ensures multiset(Map(LatencyOf, rows))[x] == |set i | 0 <= i < |rows| && rows[i].latencyMs == x|
  {
    var same := (y: real) => y == x;
    var latencies := Map(LatencyOf, rows);
    CopiesAreHits(latencies, x);
    assert Hits(same, latencies) == set i | 0 <= i < |rows| && rows[i].latencyMs == x;
    assert Hits((y: real) => y == x, latencies) == Hits(same, latencies);
  }

  lemma {:induction false} CopiesAreHits(s: seq<real>, x: real)
    ensures multiset(s)[x] == |Hits((y: real) => y == x, s)|
  {
    var same := (y: real) => y == x;
    if s == [] {
      assert Hits(same, s) == {};
    } else {
      var rest, last := s[..|s| - 1], s[|s| - 1];
      assert s == rest + [last];
      CopiesAreHits(rest, x);
      HitsAppend(same, rest, last);
      assert Hits((y: real) => y == x, rest) == Hits(same, rest) && Hits((y: real) => y == x, s) == Hits(same, s);
    }
  }

  /** The latency figures do not depend on the order in which requests completed. */
  lemma LatenciesIgnoreOrder(a: seq<RequestResult>, b: seq<RequestResult>)
    requires multiset(Map(LatencyOf, a)) == multiset(Map(LatencyOf, b))
    ensures SortedLatencies(a) == SortedLatencies(b)
  {
    SortPermutes(RealLe, Map(LatencyOf, a));
    SortPermutes(RealLe, Map(LatencyOf, b));
    SortSorts(RealLe, Map(LatencyOf, a));
    SortSorts(RealLe, Map(LatencyOf, b));
    SortedIsUnique(RealLe, SortedLatencies(a), SortedLatencies(b));
  }

  function SumCounts(codes: seq<(int, nat)>): nat {
    if codes == [] then 0 else codes[0].1 + SumCounts(codes[1..])
  }

  function CountCodes(codes: seq<(int, nat)>, rows: seq<RequestResult>): nat {
    if codes == [] then 0 else |Filter(WithCode(codes[0].0), rows)| + CountCodes(codes[1..], rows)
  }

  lemma TailHasCode(codes: seq<(int, nat)>, code: int)
    requires codes != [] && KeysAscend(codes)
    ensures HasCode(codes, code) <==> codes[0].0 == code || HasCode(codes[1..], code)
    ensures codes[0].0 == code ==> !HasCode(codes[1..], code)
  {
    if HasCode(codes, code) {
      var i :| 0 <= i < |codes| && codes[i].0 == code;
      assert i > 0 ==> codes[1..][i - 1].0 == code;
    }
    if HasCode(codes[1..], code) {
      var i :| 0 <= i < |codes| - 1 && codes[1..][i].0 == code;
      assert codes[i + 1].0 == code;
    }
  }

  lemma {:induction false} CountCodesStep(codes: seq<(int, nat)>, r: RequestResult, rows: seq<RequestResult>)
    requires KeysAscend(codes)
    ensures CountCodes(codes, [r] + rows) ==
            CountCodes(codes, rows) + if HasCode(codes, r.statusCode) then 1 else 0
  {
    if codes != [] {
      CountCodesStep(codes[1..], r, rows);
      assert ([r] + rows)[1..] == rows;
      TailHasCode(codes, r.statusCode);
    }
  }

  lemma {:induction false} CodesCoverRows(codes: seq<(int, nat)>, rows: seq<RequestResult>)
    requires KeysAscend(codes)
    requires forall r :: r in rows ==> HasCode(codes, r.statusCode)
    ensures CountCodes(codes, rows) == |rows|
  {
    if rows == [] {
      NoRowsNoCodes(codes);
    } else {
      CodesCoverRows(codes, rows[1..]);
      CountCodesStep(codes, rows[0], rows[1..]);
      assert rows == [rows[0]] + rows[1..];
    }
  }

  lemma {:induction false} NoRowsNoCodes(codes: seq<(int, nat)>)
    ensures CountCodes(codes, []) == 0
  {
    if codes != [] { NoRowsNoCodes(codes[1..]); }
  }

  lemma {:induction false} SumsAreCounts(codes: seq<(int, nat)>, rows: seq<RequestResult>)
    requires forall i :: 0 <= i < |codes| ==> codes[i].1 == |Filter(WithCode(codes[i].0), rows)|
    ensures SumCounts(codes) == CountCodes(codes, rows)
  {
    if codes != [] { SumsAreCounts(codes[1..], rows); }
  }

  /** The status counts of an endpoint add up to its requests. */
  lemma BreakdownConserves(rows: seq<RequestResult>, codes: seq<(int, nat)>)
    requires IsBreakdown(rows, codes)
    ensures SumCounts(codes) == |rows|
  {
    SumsAreCounts(codes, rows);
    CodesCoverRows(codes, rows);
  }

  function TotalCount(out: map<string, EndpointSummary>, endpoints: seq<string>): nat
    requires forall e :: e in endpoints ==> e in out
  {
    if endpoints == [] then 0 else out[endpoints[0]].count + TotalCount(out, endpoints[1..])
  }

  lemma {:induction false} CountsAreFilters(results: seq<RequestResult>, out: map<string, EndpointSummary>, endpoints: seq<string>)
    requires forall e :: e in endpoints ==> e in out && out[e].count == |Filter(Keyed(EndpointOf, e), results)|
    ensures TotalCount(out, endpoints) == CountPerKey(EndpointOf, endpoints, results)
  {
    if endpoints != [] { CountsAreFilters(results, out, endpoints[1..]); }
  }

  /** No request is lost or counted twice. */
  lemma ReportConserves(results: seq<RequestResult>, out: map<string, EndpointSummary>, endpoints: seq<string>)
    requires IsReport(results, out)
    requires forall e :: e in endpoints <==> e in out
    requires forall i, k :: 0 <= i < k < |endpoints| ==> endpoints[i] != endpoints[k]
    ensures TotalCount(out, endpoints) == |results|
  {
    forall e | e in endpoints ensures out[e].count == |Filter(Keyed(EndpointOf, e), results)| {
      assert IsSummary(Filter(Keyed(EndpointOf, e), results), out[e]);
    }
    CountsAreFilters(results, out, endpoints);
    KeysPartition(EndpointOf, endpoints, results);
  }

  // ----- what the requests did -----

  /** How a request ended: with a response, or with an HTTP error of the client. */
  datatype Outcome = Responded(statusCode: int) | Raised(text: string)

  datatype Request = Request(endpoint: string, outcome: Outcome, latencyMs: real)

  /** What is recorded of a request. */
  function Timed(q: Request): RequestResult {
    match q.outcome
    case Responded(code) => RequestResult(q.endpoint, code, q.latencyMs, None)
    case Raised(text) => RequestResult(q.endpoint, 0, q.latencyMs, Some(text))
  }

  predicate ReallyFailed(q: Request) {
    q.outcome.Raised? || q.outcome.statusCode >= 500
  }

  /** An error whose text is empty. */
  predicate Silent(q: Request) {
    q.outcome == Raised("")
  }

  function RequestEndpoint(q: Request): string { q.endpoint }

  function RequestsTo(e: string, requests: seq<Request>): seq<Request> {
    Filter(Keyed(RequestEndpoint, e), requests)
  }

  lemma {:induction false} SilentFailuresAreMissed(requests: seq<Request>)
    ensures |Filter(Failed, Map(Timed, requests))| + |Filter(Silent, requests)| == |Filter(ReallyFailed, requests)|
  {
    if requests != [] {
      SilentFailuresAreMissed(requests[1..]);
      assert Map(Timed, requests)[1..] == Map(Timed, requests[1..]);
    }
  }

  lemma NoneIsSilent(requests: seq<Request>)
    ensures |Filter(Silent, requests)| == 0 <==> forall q :: q in requests ==> q.outcome != Raised("")
  {
    FilterMembers(Silent, requests);
    if q :| q in requests && q.outcome == Raised("") {
      assert q in Filter(Silent, requests);
    } else {
      FilterNone(Silent, requests);
    }
  }

  lemma CountsOfEndpoint(results: seq<RequestResult>, out: map<string, EndpointSummary>, e: string)
    requires IsReport(results, out) && e in out
    ensures var own := Filter(Keyed(EndpointOf, e), results);
            out[e].count == |own| && out[e].errors == |Filter(Failed, own)|
  {
  }

  lemma RequestsAreRecordedApart(e: string, requests: seq<Request>)
    ensures Filter(Keyed(EndpointOf, e), Map(Timed, requests)) == Map(Timed, RequestsTo(e, requests))
  {
    FilterMap(Keyed(RequestEndpoint, e), Keyed(EndpointOf, e), Timed, requests);
  }

  /** In every report the errors of an endpoint fall short of its failed requests by those
      that raised an error with empty text; so they are the failed requests exactly when
      there is none. */
  lemma ErrorsCountFailuresExactly(requests: seq<Request>, out: map<string, EndpointSummary>, e: string)
    requires IsReport(Map(Timed, requests), out) && e in out
    ensures var own := RequestsTo(e, requests);
            && out[e].count == |own|
            && out[e].errors + |Filter(Silent, own)| == |Filter(ReallyFailed, own)|
            && (out[e].errors == |Filter(ReallyFailed, own)| <==> forall q :: q in own ==> q.outcome != Raised(""))
  {
    CountsOfEndpoint(Map(Timed, requests), out, e);
    RequestsAreRecordedApart(e, requests);
    SilentFailuresAreMissed(RequestsTo(e, requests));
    NoneIsSilent(RequestsTo(e, requests));
  }

  /** A run whose only request raised an error with empty text is reported without errors. */
  lemma SilentFailureIsReportedAsSuccess(e: string, latencyMs: real, out: map<string, EndpointSummary>)
    requires IsReport(Map(Timed, [Request(e, Raised(""), latencyMs)]), out)
    ensures e in out && out[e].count == 1 && out[e].errors == 0 && out[e].errorRate == 0.0
  {
    var q := Request(e, Raised(""), latencyMs);
    var results := Map(Timed, [q]);
    assert results == [Timed(q)];
    assert Map(EndpointOf, results)[0] == e;
    assert Filter(Keyed(EndpointOf, e), results) == [Timed(q)];
    assert IsSummary([Timed(q)], out[e]);
    assert Filter(Failed, [Timed(q)]) == [];
    RateIsPercentage(0, 1);
  }

  // ----- computing it -----

  ghost predicate Tallied(rows: seq<RequestResult>, m: map<int, nat>) {
    && (forall r :: r in rows ==> r.statusCode in m)
    && (forall c :: c in m ==> m[c] == |Filter(WithCode(c), rows)| && m[c] > 0)
  }

  lemma RowJoinsItsCode(c: int, rows: seq<RequestResult>, r: RequestResult)
    ensures Filter(WithCode(c), rows + [r]) == Filter(WithCode(c), rows) + if c == r.statusCode then [r] else []
  {
    FilterConcat(WithCode(c), rows, [r]);
  }

  /** One more for a code. */
  function Bumped(m: map<int, nat>, c: int): map<int, nat> {
    m[c := (if c in m then m[c] else 0) + 1]
  }

  lemma TallyOne(rows: seq<RequestResult>, m: map<int, nat>, r: RequestResult)
    requires Tallied(rows, m)
    ensures Tallied(rows + [r], Bumped(m, r.statusCode))
  {
    var m' := Bumped(m, r.statusCode);
    forall c | c in m' ensures m'[c] == |Filter(WithCode(c), rows + [r])| > 0 {
      RowJoinsItsCode(c, rows, r);
      if c == r.statusCode && c !in m {
        FilterNone(WithCode(c), rows);
      }
    }
  }

  lemma TallyNext(rows: seq<RequestResult>, i: nat, m: map<int, nat>)
    requires i < |rows| && Tallied(rows[..i], m)
    ensures Tallied(rows[..i + 1], Bumped(m, rows[i].statusCode))
  {
    assert rows[..i + 1] == rows[..i] + [rows[i]];
    TallyOne(rows[..i], m, rows[i]);
  }

  /** The dictionary of counts, filled row by row. */
  method Tally(rows: seq<RequestResult>) returns (breakdown: map<int, nat>)
    ensures Tallied(rows, breakdown)
  {
    breakdown := map[];
    for i := 0 to |rows|
      invariant Tallied(rows[..i], breakdown)
    {
      TallyNext(rows, i, breakdown);
      breakdown := Bumped(breakdown, rows[i].statusCode);
    }
    assert rows[..|rows|] == rows;
  }

  method StatusBreakdown(rows: seq<RequestResult>) returns (out: seq<(int, nat)>)
    ensures IsBreakdown(rows, out)
  {
    var breakdown := Tally(rows);
    out := SortItems(breakdown);
    TallyIsBreakdown(rows, breakdown, out);
  }

  lemma TallyIsBreakdown(rows: seq<RequestResult>, m: map<int, nat>, codes: seq<(int, nat)>)
    requires Tallied(rows, m) && KeysAscend(codes) && ItemsExcept(m, {}, codes)
    ensures IsBreakdown(rows, codes)
  {
    forall r | r in rows ensures HasCode(codes, r.statusCode) {
      assert (r.statusCode, m[r.statusCode]) in codes;
    }
    forall i | 0 <= i < |codes| ensures codes[i].1 == |Filter(WithCode(codes[i].0), rows)| > 0 {
      assert (codes[i].0, codes[i].1) == codes[i] && codes[i] in codes;
    }
  }

  method LatencyFigures(sorted: seq<real>) returns (f: Figures)
    requires sorted != []
    ensures IsFigures(sorted, f)
  {
    f := Figures(Round1(Percentile(sorted, 50.0)), Round1(Percentile(sorted, 90.0)), Round1(Percentile(sorted, 99.0)),
                 Round1(sorted[|sorted| - 1]));
  }

  method SummarizeEndpoint(rows: seq<RequestResult>) returns (s: EndpointSummary)
    requires rows != []
    ensures IsSummary(rows, s)
  {
    var latency := LatencyFigures(SortedLatencies(rows));
    var errors := |Filter(Failed, rows)|;
    var codes := StatusBreakdown(rows);
    s := EndpointSummary(|rows|, errors, ErrorRate(errors, |rows|), latency, codes);
  }

  ghost predicate Grouped(results: seq<RequestResult>, m: map<string, seq<RequestResult>>) {
    && (forall e :: e in m <==> e in Map(EndpointOf, results))
    && (forall e :: e in m ==> m[e] == Filter(Keyed(EndpointOf, e), results))
  }

  lemma NewEndpointHasNoRows(results: seq<RequestResult>, e: string)
    requires e !in Map(EndpointOf, results)
    ensures Filter(Keyed(EndpointOf, e), results) == []
  {
    forall x | x in results ensures x.endpoint != e {
      var i :| 0 <= i < |results| && results[i] == x;
      assert Map(EndpointOf, results)[i] == x.endpoint;
    }
    FilterNone(Keyed(EndpointOf, e), results);
  }

  lemma RowJoinsItsEndpoint(e: string, results: seq<RequestResult>, r: RequestResult)
    ensures Filter(Keyed(EndpointOf, e), results + [r]) ==
            Filter(Keyed(EndpointOf, e), results) + if r.endpoint == e then [r] else []
  {
    FilterConcat(Keyed(EndpointOf, e), results, [r]);
    assert EndpointOf(r) == r.endpoint;
  }

  lemma GroupOne(results: seq<RequestResult>, m: map<string, seq<RequestResult>>, r: RequestResult)
    requires Grouped(results, m)
    ensures Grouped(results + [r], m[r.endpoint := (if r.endpoint in m then m[r.endpoint] else []) + [r]])
  {
    var m' := m[r.endpoint := (if r.endpoint in m then m[r.endpoint] else []) + [r]];
    MapConcat(EndpointOf, results, [r]);
    assert Map(EndpointOf, [r]) == [r.endpoint];
    forall e | e in m' ensures m'[e] == Filter(Keyed(EndpointOf, e), results + [r]) {
      RowJoinsItsEndpoint(e, results, r);
      if e == r.endpoint && e !in m {
        NewEndpointHasNoRows(results, e);
      }
    }
  }

  method Summary(results: seq<RequestResult>) returns (out: map<string, EndpointSummary>)
    ensures IsReport(results, out)
  {
    var byEndpoint: map<string, seq<RequestResult>> := map[];
    for i := 0 to |results|
      invariant Grouped(results[..i], byEndpoint)
    {
      var r := results[i];
      GroupOne(results[..i], byEndpoint, r);
      assert results[..i + 1] == results[..i] + [r];
      byEndpoint := byEndpoint[r.endpoint := (if r.endpoint in byEndpoint then byEndpoint[r.endpoint] else []) + [r]];
    }
    assert results[..|results|] == results;
    out := map[];
    var left := byEndpoint.Keys;
    while left != {}
      invariant left <= byEndpoint.Keys
      invariant out.Keys == byEndpoint.Keys - left
      invariant forall e :: e in out ==> IsSummary(byEndpoint[e], out[e])
    {
      var e :| e in left;
      GroupIsNotEmpty(results, e);
      var s := SummarizeEndpoint(byEndpoint[e]);
      out := out[e := s];
      left := left - {e};
    }
  }

  lemma GroupIsNotEmpty(results: seq<RequestResult>, e: string)
    requires e in Map(EndpointOf, results)
    ensures Filter(Keyed(EndpointOf, e), results) != []
  {
    var i :| 0 <= i < |results| && Map(EndpointOf, results)[i] == e;
    FilterMembers(Keyed(EndpointOf, e), results);
    assert results[i] in Filter(Keyed(EndpointOf, e), results);
  }
}
