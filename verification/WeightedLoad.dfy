/** Weighted round-robin load: which request each ticket dispatches, and how fairly. */
module WeightedSchedule {
  datatype Request = Request(path: string, weight: int)

  const TICKETS := 0x1_0000_0000_0000_0000
  const HALF := 0x8000_0000_0000_0000

  // ---- the weight check --------------------------------------------------------------------------

  /** 64-bit two's-complement addition. */
  function WrapAdd(a: int, b: int): int {
    (a + b + HALF) % TICKETS - HALF
  }

  function WrappedTotal(requests: seq<Request>): int {
    if requests == [] then 0 else WrapAdd(WrappedTotal(requests[..|requests| - 1]), requests[|requests| - 1].weight)
  }

  function Total(requests: seq<Request>): int {
    if requests == [] then 0 else Total(requests[..|requests| - 1]) + requests[|requests| - 1].weight
  }

  /** The request-mix part of `Config.Validate`. */
  predicate MixAccepted(requests: seq<Request>) {
    && requests != []
    && (forall i | 0 <= i < |requests| ::
          && requests[i].path != "" && requests[i].path[0] == '/' && 1 <= requests[i].weight < HALF)
    && WrappedTotal(requests) <= 10000
  }

  lemma {:induction false} NoWrap(requests: seq<Request>)
    requires forall i | 0 <= i < |requests| :: 1 <= requests[i].weight < HALF
    ensures |requests| <= Total(requests)
    ensures Total(requests) < HALF ==> WrappedTotal(requests) == Total(requests)
  {
    if requests != [] {
      NoWrap(requests[..|requests| - 1]);
    }
  }

  /** The check bounds the real total exactly when the sum did not wrap. */
  lemma AcceptedTotalBoundedIff(requests: seq<Request>)
    requires MixAccepted(requests)
    ensures Total(requests) <= 10000 <==> Total(requests) < HALF
    ensures Total(requests) >= 1
  {
    NoWrap(requests);
  }

  /** Two maximal weights wrap to a negative total and are accepted. */
  lemma WeightSumCanWrap()
    ensures var mix := [Request("/a", HALF - 1), Request("/b", HALF - 1)];
      MixAccepted(mix) && Total(mix) > 10000
  {
    var mix := [Request("/a", HALF - 1), Request("/b", HALF - 1)];
    OneTotal(mix[0]);
    assert mix[..1] == [mix[0]];
  }

  lemma OneTotal(r: Request)
    requires 0 <= r.weight < HALF
    ensures WrappedTotal([r]) == r.weight && Total([r]) == r.weight
  {
    assert [r][..0] == [];
  }

  // ---- the schedule ------------------------------------------------------------------------------

  function Repeat(path: string, times: nat): (s: seq<string>)
    ensures |s| == times && forall i | 0 <= i < times :: s[i] == path
  {
    seq(times, _ => path)
  }

  function Schedule(requests: seq<Request>): seq<string> {
    if requests == [] then []
    else
      var last := requests[|requests| - 1];
      Schedule(requests[..|requests| - 1]) + if last.weight > 0 then Repeat(last.path, last.weight) else []
  }

  method BuildSchedule(requests: seq<Request>) returns (schedule: seq<string>)
    ensures schedule == Schedule(requests)
  {
    schedule := [];
    for k := 0 to |requests|
      invariant schedule == Schedule(requests[..k])
    {
      assert requests[..k + 1][..k] == requests[..k];
      var i := 0;
      while i < requests[k].weight
        invariant 0 <= i && (i <= requests[k].weight || i == 0)
        invariant schedule == Schedule(requests[..k]) + Repeat(requests[k].path, i)
      {
        schedule := schedule + [requests[k].path];
        i := i + 1;
      }
    }
    assert requests[..|requests|] == requests;
  }

  /** The combined weight of the requests for one path. */
  function PathWeight(requests: seq<Request>, path: string): int {
    if requests == [] then 0
    else
      PathWeight(requests[..|requests| - 1], path)
      + if requests[|requests| - 1].path == path then requests[|requests| - 1].weight else 0
  }

  function Count(s: seq<string>, path: string): nat {
    if s == [] then 0 else Count(s[..|s| - 1], path) + if s[|s| - 1] == path then 1 else 0
  }

  lemma {:induction false} CountConcat(a: seq<string>, b: seq<string>, path: string)
    ensures Count(a + b, path) == Count(a, path) + Count(b, path)
  {
    if b == [] {
      assert a + b == a;
    } else {
      assert (a + b)[..|a + b| - 1] == a + b[..|b| - 1];
      CountConcat(a, b[..|b| - 1], path);
    }
  }

  lemma {:induction false} CountRepeat(p: string, times: nat, path: string)
    ensures Count(Repeat(p, times), path) == if p == path then times else 0
  {
    if times > 0 {
      assert Repeat(p, times)[..times - 1] == Repeat(p, times - 1);
      CountRepeat(p, times - 1, path);
    }
  }

  lemma {:induction false} CountAtMost(s: seq<string>, path: string)
    ensures Count(s, path) <= |s|
  {
    if s != [] {
      CountAtMost(s[..|s| - 1], path);
    }
  }

  /** The schedule holds every path exactly as often as its weight says. */
  lemma {:induction false} ScheduleWeights(requests: seq<Request>, path: string)
    requires forall i | 0 <= i < |requests| :: requests[i].weight >= 1
    ensures |Schedule(requests)| == Total(requests) && Count(Schedule(requests), path) == PathWeight(requests, path)
  {
    if requests != [] {
      var front, last := requests[..|requests| - 1], requests[|requests| - 1];
      ScheduleWeights(front, path);
      CountConcat(Schedule(front), Repeat(last.path, last.weight), path);
      CountRepeat(last.path, last.weight, path);
    }
  }

  // ---- tickets -----------------------------------------------------------------------------------

  /** The path of the n-th ticket: a 64-bit counter modulo the schedule length. */
  function TicketPath(schedule: seq<string>, n: nat): string
    requires schedule != []
  {
    schedule[(n % TICKETS) % |schedule|]
  }

  /** The paths of `count` consecutive tickets. */
  function Tickets(schedule: seq<string>, from: nat, count: nat): (paths: seq<string>)
    requires schedule != []
    ensures |paths| == count
  {
    seq(count, i requires 0 <= i < count => TicketPath(schedule, from + i))
  }

  function Slot(schedule: seq<string>, n: nat): string
    requires schedule != []
  {
    schedule[n % |schedule|]
  }

  /** The same cycle without the 64-bit wrap. */
  function Cycle(schedule: seq<string>, from: nat, count: nat): (paths: seq<string>)
    requires schedule != []
    ensures |paths| == count
  {
    seq(count, i requires 0 <= i < count => Slot(schedule, from + i))
  }

  lemma SmallMod(n: nat, m: nat)
    requires n < m
    ensures n % m == n
  {
  }

  lemma TicketIsSlot(schedule: seq<string>, n: nat)
    requires schedule != [] && n < TICKETS
    ensures TicketPath(schedule, n) == Slot(schedule, n)
  {
    SmallMod(n, TICKETS);
  }

  /** Before the counter wraps the tickets follow the cycle. */
  lemma TicketsCycle(schedule: seq<string>, from: nat, count: nat)
    requires schedule != [] && from + count <= TICKETS
    ensures Tickets(schedule, from, count) == Cycle(schedule, from, count)
  {
    forall i | 0 <= i < count ensures Tickets(schedule, from, count)[i] == Cycle(schedule, from, count)[i] {
      TicketIsSlot(schedule, from + i);
    }
  }

  lemma Multiple(d: int, w: nat)
    ensures d >= 1 ==> d * w >= w
    ensures d <= -1 ==> d * w <= 0 - w
  {
  }

  lemma ModUnique(n: int, w: nat, q: int, r: int)
    requires w > 0 && n == q * w + r && 0 <= r < w
    ensures n % w == r && n / w == q
  {
    var d := n / w - q;
    assert n == n / w * w + n % w;
    assert d * w == r - n % w by { assert d * w == n / w * w - q * w; }
    Multiple(d, w);
  }

  lemma Residue(n: nat, w: nat, k: nat)
    requires w > 0 && n % w + k < w
    ensures (n + k) % w == n % w + k
  {
    assert n + k == n / w * w + (n % w + k);
    ModUnique(n + k, w, n / w, n % w + k);
  }

  lemma RoundUp(n: nat, w: nat)
    requires w > 0
    ensures (n + (w - n % w)) % w == 0
  {
    assert n + (w - n % w) == (n / w + 1) * w by {
      assert n == n / w * w + n % w;
      assert (n / w + 1) * w == n / w * w + w;
    }
    ModUnique(n + (w - n % w), w, n / w + 1, 0);
  }

  lemma SlotInRound(schedule: seq<string>, from: nat, i: nat)
    requires schedule != [] && from % |schedule| + i < |schedule|
    ensures Slot(schedule, from + i) == schedule[from % |schedule| + i]
  {
    Residue(from, |schedule|, i);
  }

  /** A window that does not run past the end of the schedule is a slice of it. */
  lemma WindowIsSlice(schedule: seq<string>, from: nat, count: nat)
    requires schedule != [] && from % |schedule| + count <= |schedule|
    ensures Cycle(schedule, from, count) == schedule[from % |schedule|..from % |schedule| + count]
  {
    var window := schedule[from % |schedule|..from % |schedule| + count];
    forall i | 0 <= i < count ensures Cycle(schedule, from, count)[i] == window[i] {
      SlotInRound(schedule, from, i);
    }
  }

  lemma CycleSplit(schedule: seq<string>, from: nat, a: nat, b: nat, path: string)
    requires schedule != []
    ensures Count(Cycle(schedule, from, a + b), path)
            == Count(Cycle(schedule, from, a), path) + Count(Cycle(schedule, from + a, b), path)
  {
    assert Cycle(schedule, from, a + b) == Cycle(schedule, from, a) + Cycle(schedule, from + a, b);
    CountConcat(Cycle(schedule, from, a), Cycle(schedule, from + a, b), path);
  }

  lemma RoundEnd(schedule: seq<string>, from: nat, path: string)
    requires schedule != []
    ensures
      var offset := from % |schedule|;
      && Cycle(schedule, from, |schedule| - offset) == schedule[offset..]
      && Cycle(schedule, from + (|schedule| - offset), offset) == schedule[..offset]
  {
    var w := |schedule|;
    var offset := from % w;
    WindowIsSlice(schedule, from, w - offset);
    assert schedule[offset..offset + (w - offset)] == schedule[offset..];
    RoundUp(from, w);
    WindowIsSlice(schedule, from + (w - offset), offset);
  }

  /** Every full round, wherever it starts, dispatches each path exactly its weight. */
  lemma FullRound(schedule: seq<string>, from: nat, path: string)
    requires schedule != []
    ensures Count(Cycle(schedule, from, |schedule|), path) == Count(schedule, path)
  {
    var offset := from % |schedule|;
    CycleSplit(schedule, from, |schedule| - offset, offset, path);
    RoundEnd(schedule, from, path);
    CountConcat(schedule[..offset], schedule[offset..], path);
    assert schedule[..offset] + schedule[offset..] == schedule;
  }

  lemma {:induction false} FullRounds(schedule: seq<string>, from: nat, rounds: nat, path: string)
    requires schedule != []
    ensures Count(Cycle(schedule, from, rounds * |schedule|), path) == rounds * Count(schedule, path)
    decreases rounds
  {
    var w := |schedule|;
    if rounds == 0 {
      assert Cycle(schedule, from, 0 * w) == [];
    } else {
      assert rounds * w == (rounds - 1) * w + w;
      FullRounds(schedule, from, rounds - 1, path);
      CycleSplit(schedule, from, (rounds - 1) * w, w, path);
      FullRound(schedule, from + (rounds - 1) * w, path);
      assert rounds * Count(schedule, path) == (rounds - 1) * Count(schedule, path) + Count(schedule, path);
    }
  }

  lemma PartialRound(schedule: seq<string>, from: nat, count: nat, path: string)
    requires schedule != [] && count < |schedule|
    ensures Count(Cycle(schedule, from, count), path) <= Min(Count(schedule, path), count)
  {
    CycleSplit(schedule, from, count, |schedule| - count, path);
    FullRound(schedule, from, path);
    CountAtMost(Cycle(schedule, from, count), path);
  }

  function Min(a: nat, b: nat): nat {
    if a < b then a else b
  }

  lemma CycleIsFair(schedule: seq<string>, from: nat, rounds: nat, rest: nat, path: string)
    requires schedule != [] && rest < |schedule|
    ensures
      var weight, dispatched := Count(schedule, path), Count(Cycle(schedule, from, rounds * |schedule| + rest), path);
      rounds * weight <= dispatched <= rounds * weight + Min(weight, rest)
  {
    CycleSplit(schedule, from, rounds * |schedule|, rest, path);
    FullRounds(schedule, from, rounds, path);
    PartialRound(schedule, from + rounds * |schedule|, rest, path);
  }

  lemma FairTickets(schedule: seq<string>, from: nat, count: nat, path: string)
    requires schedule != [] && from + count <= TICKETS
    ensures
      var w, weight, dispatched := |schedule|, Count(schedule, path), Count(Tickets(schedule, from, count), path);
      count / w * weight <= dispatched <= count / w * weight + Min(weight, count % w)
  {
    var w := |schedule|;
    TicketsCycle(schedule, from, count);
    Divide(count, w);
    CycleIsFair(schedule, from, count / w, count % w, path);
  }

  lemma Divide(n: nat, w: nat)
    requires w > 0
    ensures n == n / w * w + n % w && n / w >= 0 && 0 <= n % w < w
  {
  }

  /**
    * Any N consecutive tickets, from any starting ticket, dispatch a path between floor(N/W) times its weight and
    * that plus the smaller of its weight and N mod W.
    */
  lemma TicketsAreFair(requests: seq<Request>, from: nat, count: nat, path: string)
    requires MixAccepted(requests) && from + count <= TICKETS
    ensures Schedule(requests) != [] && PathWeight(requests, path) >= 0
    ensures
      var w, weight := Total(requests), PathWeight(requests, path);
      var dispatched := Count(Tickets(Schedule(requests), from, count), path);
      w > 0 && count / w * weight <= dispatched <= count / w * weight + Min(weight, count % w)
  {
    NoWrap(requests);
    ScheduleWeights(requests, path);
    FairTickets(Schedule(requests), from, count, path);
  }
}

/** The workers of one benchmark run, and the report they add up to. */
module LoadRun {
  import opened Optional
  import opened Ordering
  import opened WeightedSchedule

  datatype Answer = TransportError | Status(code: nat)

  function Digit(d: nat): char
    requires d < 10
  {
    ('0' as int + d) as char
  }

  function Decimal(n: nat): (s: string)
    ensures s != ""
  {
    if n < 10 then [Digit(n)] else Decimal(n / 10) + [Digit(n % 10)]
  }

  const REQUEST_ERROR := "request"

  function ErrorClass(a: Answer): (class': Option<string>)
    ensures class' != Some(REQUEST_ERROR)
  {
    match a
    case TransportError => Some("transport")
    case Status(code) =>
      assert ("http_" + Decimal(code))[0] == 'h';
      if code >= 400 then Some("http_" + Decimal(code)) else None
  }

  /** `errors` counts failures by class; `latencies` are nanoseconds in completion order. */
  datatype Counters = Counters(latencies: seq<nat>, errors: multiset<string>, successful: nat, failed: nat)

  const ZERO := Counters([], multiset{}, 0, 0)

  function Recorded(c: Counters, elapsed: nat, a: Answer): Counters {
    var timed := c.(latencies := c.latencies + [elapsed]);
    match ErrorClass(a)
    case Some(class') => timed.(failed := c.failed + 1, errors := c.errors + multiset{class'})
    case None => timed.(successful := c.successful + 1)
  }

  function Unbuilt(c: Counters): Counters {
    c.(failed := c.failed + 1, errors := c.errors + multiset{REQUEST_ERROR})
  }

  /** The atomic ticket counter and the mutex-protected counters. */
  class Recorder {
    var next: nat
    var latencies: seq<nat>
    var errorsByClass: map<string, nat>
    var successful: nat
    var failed: nat
    /** The same counts as `errorsByClass`, as a multiset. */
    ghost var errors: multiset<string>

    ghost predicate Valid()
      reads this
    {
      forall k :: errors[k] == if k in errorsByClass then errorsByClass[k] else 0
    }

    ghost function View(): Counters
      reads this
    {
      Counters(latencies, errors, successful, failed)
    }

    constructor ()
      ensures Valid() && View() == ZERO && next == 0
    {
      next, latencies, errorsByClass, successful, failed, errors := 0, [], map[], 0, 0, multiset{};
    }

    method CountError(class': string)
      requires Valid()
      modifies this`errorsByClass, this`errors
      ensures Valid() && errors == old(errors) + multiset{class'}
    {
      errorsByClass := errorsByClass[class' := (if class' in errorsByClass then errorsByClass[class'] else 0) + 1];
      errors := errors + multiset{class'};
    }

    method RecordUnbuilt()
      requires Valid()
      modifies this
      ensures Valid() && View() == Unbuilt(old(View())) && next == old(next)
    {
      failed := failed + 1;
      CountError(REQUEST_ERROR);
    }

    method Record(elapsed: nat, a: Answer)
      requires Valid()
      modifies this
      ensures Valid() && View() == Recorded(old(View()), elapsed, a) && next == old(next)
    {
      latencies := latencies + [elapsed];
      match a {
        case TransportError =>
          failed := failed + 1;
          CountError("transport");
        case Status(code) =>
          if code >= 400 {
            failed := failed + 1;
            CountError("http_" + Decimal(code));
          } else {
            successful := successful + 1;
          }
      }
    }

    /** One turn of a worker's loop: draw a ticket, then record the answer, or that no request could be built. */
    method Serve(schedule: seq<string>, reply: Option<(nat, Answer)>) returns (path: string)
      requires Valid() && schedule != []
      modifies this
      ensures Valid() && path == TicketPath(schedule, old(next)) && next == old(next) + 1
      ensures View() == if reply.None? then Unbuilt(old(View())) else Recorded(old(View()), reply.value.0, reply.value.1)
    {
      path := TicketPath(schedule, next);
      next := next + 1;
      match reply {
        case None => RecordUnbuilt();
        case Some(answer) => Record(answer.0, answer.1);
      }
    }
  }

  // ---- workers -----------------------------------------------------------------------------------

  datatype Phase = Idle | Ticketed(path: string) | Stopped

  datatype Event =
    | Stop(worker: nat)
    | Take(worker: nat)
    | Unbuildable(worker: nat)
    | Answered(worker: nat, elapsed: nat, answer: Answer)

  datatype World = World(next: nat, counters: Counters, phases: seq<Phase>)

  predicate Enabled(w: World, e: Event) {
    && e.worker < |w.phases|
    && if e.Stop? || e.Take? then w.phases[e.worker].Idle? else w.phases[e.worker].Ticketed?
  }

  function Step(schedule: seq<string>, w: World, e: Event): World
    requires schedule != [] && Enabled(w, e)
  {
    match e
    case Stop(k) => w.(phases := w.phases[k := Stopped])
    case Take(k) => w.(next := w.next + 1, phases := w.phases[k := Ticketed(TicketPath(schedule, w.next))])
    case Unbuildable(k) => w.(counters := Unbuilt(w.counters), phases := w.phases[k := Idle])
    case Answered(k, elapsed, a) => w.(counters := Recorded(w.counters, elapsed, a), phases := w.phases[k := Idle])
  }

  function Start(concurrency: nat): World {
    World(0, ZERO, seq(concurrency, _ => Idle))
  }

  predicate Runs(schedule: seq<string>, concurrency: nat, events: seq<Event>)
    requires schedule != []
    decreases |events|, 0
  {
    events == []
    || var front := events[..|events| - 1];
       Runs(schedule, concurrency, front) && Enabled(After(schedule, concurrency, front), events[|events| - 1])
  }

  function After(schedule: seq<string>, concurrency: nat, events: seq<Event>): World
    requires schedule != [] && Runs(schedule, concurrency, events)
    decreases |events|, 1
  {
    if events == [] then Start(concurrency)
    else Step(schedule, After(schedule, concurrency, events[..|events| - 1]), events[|events| - 1])
  }

  /** The paths the run's tickets handed out, in ticket order. */
  function Issued(schedule: seq<string>, concurrency: nat, events: seq<Event>): seq<string>
    requires schedule != [] && Runs(schedule, concurrency, events)
  {
    if events == [] then []
    else
      var front, e := events[..|events| - 1], events[|events| - 1];
      var w := After(schedule, concurrency, events);
      Issued(schedule, concurrency, front)
      + if e.Take? && e.worker < |w.phases| && w.phases[e.worker].Ticketed? then [w.phases[e.worker].path] else []
  }

  /** Whichever workers draw them, the tickets of a run are the first `next` tickets, each drawn once. */
  lemma {:induction false} IssuedAreTickets(schedule: seq<string>, concurrency: nat, events: seq<Event>)
    requires schedule != [] && Runs(schedule, concurrency, events)
    ensures Issued(schedule, concurrency, events) == Tickets(schedule, 0, After(schedule, concurrency, events).next)
  {
    if events != [] {
      var front := events[..|events| - 1];
      IssuedAreTickets(schedule, concurrency, front);
      var n := After(schedule, concurrency, front).next;
      assert Tickets(schedule, 0, n + 1) == Tickets(schedule, 0, n) + [TicketPath(schedule, n)];
    }
  }

  /** Fairness of the whole run, for every interleaving of its workers. */
  lemma RunIsFair(requests: seq<Request>, concurrency: nat, events: seq<Event>, path: string)
    requires MixAccepted(requests) && Schedule(requests) != [] && Runs(Schedule(requests), concurrency, events)
    requires After(Schedule(requests), concurrency, events).next < TICKETS
    ensures PathWeight(requests, path) >= 0 && Total(requests) > 0
    ensures
      var issued := Issued(Schedule(requests), concurrency, events);
      var w, weight := Total(requests), PathWeight(requests, path);
      |issued| / w * weight <= Count(issued, path) <= |issued| / w * weight + Min(weight, |issued| % w)
  {
    IssuedAreTickets(Schedule(requests), concurrency, events);
    TicketsAreFair(requests, 0, After(Schedule(requests), concurrency, events).next, path);
  }

  function Busy(w: World): set<nat> {
    set k | 0 <= k < |w.phases| && w.phases[k].Ticketed?
  }

  function Unbuildables(events: seq<Event>): nat {
    if events == [] then 0
    else Unbuildables(events[..|events| - 1]) + if events[|events| - 1].Unbuildable? then 1 else 0
  }

  lemma BusyChange(schedule: seq<string>, w: World, e: Event)
    requires schedule != [] && Enabled(w, e)
    ensures Busy(Step(schedule, w, e)) == if e.Take? then Busy(w) + {e.worker} else Busy(w) - {e.worker}
    ensures e.worker in Busy(w) <==> e.Unbuildable? || e.Answered?
  {
  }

  /** Conservation: every ticket is answered, failed to build, or still held by exactly one worker. */
  lemma {:induction false} TicketsAccounted(schedule: seq<string>, concurrency: nat, events: seq<Event>)
    requires schedule != [] && Runs(schedule, concurrency, events)
    ensures
      var w := After(schedule, concurrency, events);
      && w.next == |w.counters.latencies| + Unbuildables(events) + |Busy(w)|
      && w.counters.successful + w.counters.failed == |w.counters.latencies| + Unbuildables(events)
      && |w.counters.errors| == w.counters.failed
      && w.counters.errors[REQUEST_ERROR] == Unbuildables(events)
  {
    if events == [] {
      assert Busy(Start(concurrency)) == {};
    } else {
      var front, e := events[..|events| - 1], events[|events| - 1];
      TicketsAccounted(schedule, concurrency, front);
      BusyChange(schedule, After(schedule, concurrency, front), e);
    }
  }

  // ---- the report --------------------------------------------------------------------------------

  datatype Percentiles = Percentiles(p50: real, p95: real, p99: real)

  datatype Report = Report(
    concurrency: nat, durationMillis: int, samples: int, successful: int, failed: int, errors: multiset<string>,
    latencyMillis: Percentiles, throughputRPS: real)

  predicate NatLe(a: nat, b: nat) {
    a <= b
  }

  function Rank(n: nat, percentile: real): (index: int)
    requires n > 0 && 0.0 <= percentile <= 1.0
    ensures 0 <= index < n
  {
    assert 0.0 <= (n - 1) as real * percentile <= (n - 1) as real;
    ((n - 1) as real * percentile).Floor
  }

  /** Nanoseconds to milliseconds, truncated to whole microseconds. */
  function Millis(nanos: nat): real {
    (nanos / 1000) as real / 1000.0
  }

  function PercentilesOf(sorted: seq<nat>): Percentiles {
    if sorted == [] then Percentiles(0.0, 0.0, 0.0)
    else Percentiles(Millis(sorted[Rank(|sorted|, 0.5)]), Millis(sorted[Rank(|sorted|, 0.95)]),
                     Millis(sorted[Rank(|sorted|, 0.99)]))
  }

  lemma RankMonotone(n: nat, p: real, q: real)
    requires n > 0 && 0.0 <= p <= q <= 1.0
    ensures Rank(n, p) <= Rank(n, q)
  {
    var last := (n - 1) as real;
    Scale(last, p, q);
    assert Rank(n, p) == (last * p).Floor;
    assert Rank(n, q) == (last * q).Floor;
  }

  lemma Scale(x: real, p: real, q: real)
    requires x >= 0.0 && p <= q
    ensures x * p <= x * q && (x * p).Floor <= (x * q).Floor
  {
    assert x * q - x * p == x * (q - p);
  }

  lemma MillisMonotone(a: nat, b: nat)
    requires a <= b
    ensures 0.0 <= Millis(a) <= Millis(b)
  {
    assert a / 1000 <= b / 1000;
  }

  lemma NatLeIsRanking()
    ensures Ranking(NatLe)
  {
  }

  /** The percentiles of sorted latencies are ordered and not negative. */
  lemma PercentilesOrdered(sorted: seq<nat>)
    requires Sorted(sorted, NatLe)
    ensures 0.0 <= PercentilesOf(sorted).p50 <= PercentilesOf(sorted).p95 <= PercentilesOf(sorted).p99
  {
    if sorted != [] {
      var n := |sorted|;
      RankMonotone(n, 0.5, 0.95);
      RankMonotone(n, 0.95, 0.99);
      assert NatLe(sorted[Rank(n, 0.5)], sorted[Rank(n, 0.95)]);
      assert NatLe(sorted[Rank(n, 0.95)], sorted[Rank(n, 0.99)]);
      MillisMonotone(sorted[Rank(n, 0.5)], sorted[Rank(n, 0.95)]);
      MillisMonotone(sorted[Rank(n, 0.95)], sorted[Rank(n, 0.99)]);
    }
  }

  /** `Report.Validate`; the schema, target, catalog and cost fields of a run are constants that pass. */
  predicate ReportAccepted(r: Report) {
    && r.samples >= 0 && r.successful >= 0 && r.failed >= 0 && r.successful + r.failed == r.samples
    && r.concurrency >= 1 && r.durationMillis >= 0 && r.throughputRPS >= 0.0
    && 0.0 <= r.latencyMillis.p50 <= r.latencyMillis.p95 <= r.latencyMillis.p99
  }

  function Assembled(c: Counters, concurrency: nat, durationMillis: int): Report {
    Report(concurrency, durationMillis, |c.latencies|, c.successful, c.failed, c.errors,
           PercentilesOf(Sort(c.latencies, NatLe)),
           if durationMillis > 0 then |c.latencies| as real / (durationMillis as real / 1000.0) else 0.0)
  }

  /** What `Run` returns once every worker has stopped. */
  function Reported(c: Counters, concurrency: nat, durationMillis: int): Option<Report> {
    if ReportAccepted(Assembled(c, concurrency, durationMillis)) then Some(Assembled(c, concurrency, durationMillis)) else None
  }

  lemma ThroughputNotNegative(samples: nat, durationMillis: int)
    requires durationMillis > 0
    ensures samples as real / (durationMillis as real / 1000.0) >= 0.0
  {
    var d := durationMillis as real / 1000.0;
    assert d > 0.0;
    assert samples as real / d * d == samples as real;
    NotNegative(samples as real / d, d);
  }

  lemma NotNegative(x: real, d: real)
    requires d > 0.0 && x * d >= 0.0
    ensures x >= 0.0
  {
  }

  predicate AllStopped(w: World) {
    forall k | 0 <= k < |w.phases| :: w.phases[k].Stopped?
  }

  /** A finished run yields a report exactly when every request could be built, and then nothing is lost. */
  lemma ReportsIffAllBuilt(schedule: seq<string>, concurrency: nat, events: seq<Event>, durationMillis: int)
    requires schedule != [] && concurrency >= 1 && durationMillis >= 0
    requires Runs(schedule, concurrency, events) && AllStopped(After(schedule, concurrency, events))
    ensures
      var w := After(schedule, concurrency, events);
      && (Reported(w.counters, concurrency, durationMillis).Some? <==> Unbuildables(events) == 0)
      && (Unbuildables(events) == 0 ==>
            && w.counters.successful + w.counters.failed == w.next == |w.counters.latencies|
            && |w.counters.errors| == w.counters.failed)
  {
    var w := After(schedule, concurrency, events);
    TicketsAccounted(schedule, concurrency, events);
    assert Busy(w) == {};
    NatLeIsRanking();
    SortSorts(w.counters.latencies, NatLe);
    PercentilesOrdered(Sort(w.counters.latencies, NatLe));
    if durationMillis > 0 {
      ThroughputNotNegative(|w.counters.latencies|, durationMillis);
    }
  }

  /** The report does not depend on the order in which workers recorded their answers. */
  lemma ReportForgetsOrder(c: Counters, d: Counters, concurrency: nat, durationMillis: int)
    requires multiset(c.latencies) == multiset(d.latencies)
    requires c.errors == d.errors && c.successful == d.successful && c.failed == d.failed
    ensures Reported(c, concurrency, durationMillis) == Reported(d, concurrency, durationMillis)
  {
    NatLeIsRanking();
    SortForgetsOrder(c.latencies, d.latencies, NatLe);
    SortKeeps(c.latencies, NatLe);
    SortKeeps(d.latencies, NatLe);
  }
}
