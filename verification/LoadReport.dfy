/** What a load report's numbers mean, in terms of the answers of the run. */
module LoadReport {
  import opened Optional
  import opened Ordering
  import opened WeightedSchedule
  import opened LoadRun

  /** The mix a run accepts: some requests, every path absolute, every weight positive and a 64-bit number, the sum not over the bound. */
  lemma MixMeans(requests: seq<Request>)
    ensures MixAccepted(requests)
       <==> && |requests| >= 1 && WrappedTotal(requests) <= 10000
            && forall r | r in requests :: r.path != "" && r.path[0] == '/' && 0 < r.weight <= 9223372036854775807
  {
    assert forall i | 0 <= i < |requests| :: requests[i] in requests;
  }

  // ---- answers -----------------------------------------------------------------------------------

  predicate Good(e: Event) {
    e.Answered? && e.answer.Status? && e.answer.code < 400
  }

  predicate Unreachable(e: Event) {
    e.Answered? && e.answer.TransportError?
  }

  predicate Answers(e: Event, code: nat) {
    e.Answered? && e.answer == Status(code)
  }

  function CountOf(events: seq<Event>, p: Event -> bool): nat {
    if events == [] then 0 else CountOf(events[..|events| - 1], p) + if p(events[|events| - 1]) then 1 else 0
  }

  // ---- decimal texts -----------------------------------------------------------------------------

  function ValueOf(s: string): int {
    if s == "" then 0 else ValueOf(s[..|s| - 1]) * 10 + (s[|s| - 1] as int - '0' as int)
  }

  lemma {:induction false} DecimalValue(n: nat)
    ensures ValueOf(Decimal(n)) == n && forall i | 0 <= i < |Decimal(n)| :: '0' <= Decimal(n)[i] <= '9'
  {
    if n < 10 {
      assert Decimal(n)[..0] == "";
    } else {
      DecimalValue(n / 10);
      assert Decimal(n)[..|Decimal(n)| - 1] == Decimal(n / 10);
    }
  }

  lemma ClassesApart(a: nat, b: nat)
    ensures "http_" + Decimal(a) == "http_" + Decimal(b) <==> a == b
    ensures "http_" + Decimal(a) != "transport" && "http_" + Decimal(a) != "request" && "transport" != "request"
  {
    DecimalValue(a);
    DecimalValue(b);
    assert ("http_" + Decimal(a))[5..] == Decimal(a) && ("http_" + Decimal(b))[5..] == Decimal(b);
    assert ("http_" + Decimal(a))[0] == 'h' && "transport"[0] == 't' && "request"[0] == 'r';
  }

  /** The counters of a run, one by one. */
  predicate CountersMean(c: Counters, events: seq<Event>, code: nat) {
    && c.successful == CountOf(events, Good)
    && c.errors["transport"] == CountOf(events, Unreachable)
    && c.errors["request"] == CountOf(events, (e: Event) => e.Unbuildable?)
    && c.errors["http_" + Decimal(code)] == (if code >= 400 then CountOf(events, (e: Event) => Answers(e, code)) else 0)
    && c.failed == |c.errors|
  }

  lemma StepMeans(schedule: seq<string>, w: World, events: seq<Event>, e: Event, code: nat)
    requires schedule != [] && Enabled(w, e) && CountersMean(w.counters, events, code)
    ensures CountersMean(Step(schedule, w, e).counters, events + [e], code)
  {
    assert (events + [e])[..|events|] == events;
    var other := if e.Answered? && e.answer.Status? then e.answer.code else 0;
    ClassesApart(code, other);
    ClassesApart(other, code);
  }

  /**
    * In every run: the successes are the answers with a status below 400; the failures are the transport errors, the
    * requests that could not be built, and the answers from 400 on, each counted under its own status.
    */
  lemma {:induction false} RunCounts(schedule: seq<string>, concurrency: nat, events: seq<Event>, code: nat)
    requires schedule != [] && Runs(schedule, concurrency, events)
    ensures CountersMean(After(schedule, concurrency, events).counters, events, code)
  {
    if events != [] {
      var front, e := events[..|events| - 1], events[|events| - 1];
      RunCounts(schedule, concurrency, front, code);
      StepMeans(schedule, After(schedule, concurrency, front), front, e, code);
      assert front + [e] == events;
    }
  }

  // ---- percentiles -------------------------------------------------------------------------------

  function HowMany(samples: seq<nat>, p: nat -> bool): nat {
    if samples == [] then 0 else (if p(samples[0]) then 1 else 0) + HowMany(samples[1..], p)
  }

  lemma {:induction false} HowManyInserted(x: nat, s: seq<nat>, p: nat -> bool)
    ensures HowMany(Insert(x, s, NatLe), p) == (if p(x) then 1 else 0) + HowMany(s, p)
  {
    if s == [] || NatLe(x, s[0]) {
      assert ([x] + s)[1..] == s;
    } else {
      HowManyInserted(x, s[1..], p);
      assert ([s[0]] + Insert(x, s[1..], NatLe))[1..] == Insert(x, s[1..], NatLe);
    }
  }

  lemma {:induction false} HowManySorted(s: seq<nat>, p: nat -> bool)
    ensures HowMany(Sort(s, NatLe), p) == HowMany(s, p)
  {
    if s != [] {
      HowManySorted(s[1..], p);
      HowManyInserted(s[0], Sort(s[1..], NatLe), p);
    }
  }

  lemma {:induction false} HowManyWithin(s: seq<nat>, p: nat -> bool, k: nat)
    requires k <= |s|
    ensures (forall i | k <= i < |s| :: !p(s[i])) ==> HowMany(s, p) <= k
    ensures (forall i | 0 <= i < k :: p(s[i])) ==> k <= HowMany(s, p)
  {
    if s != [] {
      var rest := s[1..];
      if k > 0 {
        HowManyWithin(rest, p, k - 1);
        assert (forall i | k <= i < |s| :: !p(s[i])) ==> forall i | k - 1 <= i < |rest| :: !p(rest[i]);
        assert (forall i | 0 <= i < k :: p(s[i])) ==> forall i | 0 <= i < k - 1 :: p(rest[i]);
      } else {
        HowManyWithin(rest, p, 0);
        assert (forall i | 0 <= i < |s| :: !p(s[i])) ==> forall i | 0 <= i < |rest| :: !p(rest[i]);
      }
    }
  }

  /** `x` is a sample with at most `k` samples below it and more than `k` at or below it. */
  predicate AtRank(samples: seq<nat>, k: nat, x: nat) {
    x in samples && HowMany(samples, y => y < x) <= k < HowMany(samples, y => y <= x)
  }

  lemma SortedAtRank(samples: seq<nat>, k: nat)
    requires k < |samples|
    ensures |Sort(samples, NatLe)| == |samples| && AtRank(samples, k, Sort(samples, NatLe)[k])
  {
    NatLeIsRanking();
    SortSorts(samples, NatLe);
    SortKeeps(samples, NatLe);
    var sorted := Sort(samples, NatLe);
    var x := sorted[k];
    SortMembers<nat>(samples, NatLe, x);
    forall i | k <= i < |sorted| ensures sorted[i] >= x { assert i > k ==> NatLe(sorted[k], sorted[i]); }
    forall i | 0 <= i < k + 1 ensures sorted[i] <= x { assert i < k ==> NatLe(sorted[i], sorted[k]); }
    HowManyWithin(sorted, y => y < x, k);
    HowManyWithin(sorted, y => y <= x, k + 1);
    HowManySorted(samples, y => y < x);
    HowManySorted(samples, y => y <= x);
  }

  lemma PercentOf(n: nat, percent: nat)
    requires n > 0 && percent <= 100
    ensures Rank(n, percent as real / 100.0) == (n - 1) * percent / 100
  {
    var m := (n - 1) * percent;
    assert (n - 1) as real * (percent as real / 100.0) == m as real / 100.0;
    assert m == m / 100 * 100 + m % 100;
    assert m as real / 100.0 == (m / 100) as real + (m % 100) as real / 100.0;
  }

  /** Whole microseconds, in milliseconds. */
  ghost predicate InMillis(nanos: nat, millis: real) {
    exists micros: nat :: micros * 1000 <= nanos < (micros + 1) * 1000 && millis * 1000.0 == micros as real
  }

  lemma MillisMeans(nanos: nat)
    ensures InMillis(nanos, Millis(nanos))
  {
    var micros := nanos / 1000;
    assert micros * 1000 <= nanos < (micros + 1) * 1000;
    assert Millis(nanos) * 1000.0 == micros as real;
  }

  /** The reported value is that of the sample at this percentage of the largest index, rounded down. */
  ghost predicate IsPercentile(samples: seq<nat>, percent: nat, millis: real) {
    if samples == [] then millis == 0.0
    else exists x :: AtRank(samples, (|samples| - 1) * percent / 100, x) && InMillis(x, millis)
  }

  lemma RankedIsPercentile(samples: seq<nat>, percent: nat)
    requires samples != [] && percent <= 100 && |Sort(samples, NatLe)| == |samples|
    ensures var sorted := Sort(samples, NatLe);
      IsPercentile(samples, percent, Millis(sorted[Rank(|sorted|, percent as real / 100.0)]))
  {
    var k := (|samples| - 1) * percent / 100;
    PercentOf(|samples|, percent);
    SortedAtRank(samples, k);
    MillisMeans(Sort(samples, NatLe)[k]);
  }

  lemma PercentilesMean(samples: seq<nat>)
    ensures var p := PercentilesOf(Sort(samples, NatLe));
      IsPercentile(samples, 50, p.p50) && IsPercentile(samples, 95, p.p95) && IsPercentile(samples, 99, p.p99)
  {
    SortKeeps(samples, NatLe);
    if samples != [] {
      assert 50 as real / 100.0 == 0.5 && 95 as real / 100.0 == 0.95 && 99 as real / 100.0 == 0.99;
      RankedIsPercentile(samples, 50);
      RankedIsPercentile(samples, 95);
      RankedIsPercentile(samples, 99);
    }
  }

  predicate Rate(samples: nat, durationMillis: int, rps: real) {
    if durationMillis > 0 then rps * durationMillis as real == samples as real * 1000.0 else rps == 0.0
  }

  lemma Throughput(samples: nat, millis: int)
    requires millis > 0
    ensures Rate(samples, millis, samples as real / (millis as real / 1000.0))
  {
    var seconds := millis as real / 1000.0;
    assert seconds > 0.0 && millis as real == seconds * 1000.0;
    assert samples as real / seconds * seconds == samples as real;
  }

  lemma RateIs(c: Counters, concurrency: nat, durationMillis: int)
    ensures Rate(|c.latencies|, durationMillis, Assembled(c, concurrency, durationMillis).throughputRPS)
  {
    if durationMillis > 0 { Throughput(|c.latencies|, durationMillis); }
  }

  ghost predicate PercentilesHold(samples: seq<nat>, p: Percentiles) {
    IsPercentile(samples, 50, p.p50) && IsPercentile(samples, 95, p.p95) && IsPercentile(samples, 99, p.p99)
  }

  lemma PercentilesAre(c: Counters, concurrency: nat, durationMillis: int)
    ensures PercentilesHold(c.latencies, Assembled(c, concurrency, durationMillis).latencyMillis)
  {
    PercentilesMean(c.latencies);
  }

  lemma ReportIsAssembled(c: Counters, concurrency: nat, durationMillis: int, r: Report)
    requires Reported(c, concurrency, durationMillis) == Some(r)
    ensures r == Assembled(c, concurrency, durationMillis)
  {
  }

  /** A report counts its samples, tells their percentiles, and gives throughput as samples over the measured time. */
  lemma ReportMeans(c: Counters, concurrency: nat, durationMillis: int, r: Report)
    requires Reported(c, concurrency, durationMillis) == Some(r)
    ensures r.samples == |c.latencies| && r.successful == c.successful && r.failed == c.failed && r.errors == c.errors
    ensures PercentilesHold(c.latencies, r.latencyMillis) && Rate(|c.latencies|, durationMillis, r.throughputRPS)
  {
    ReportIsAssembled(c, concurrency, durationMillis, r);
    PercentilesAre(c, concurrency, durationMillis);
    RateIs(c, concurrency, durationMillis);
  }
}
