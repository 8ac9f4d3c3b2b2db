/** Which admission inputs share a cache key. */
module AdmissionScope {
  import opened Text
  import opened Ordering

  datatype Input = Input(
    provider: string, accountOrProjectRef: string, region: string, networkRef: string, stateBackendRef: string,
    fixtureID: string, ownershipMarker: string, credentialRefs: seq<string>, requireCredentials: bool,
    requiredQuota: map<string, int>, availableQuota: map<string, int>,
    requiredCPUMilli: int, availableCPUMilli: int, requiredMemoryMB: int, availableMemoryMB: int,
    mutationKeys: seq<string>)

  datatype Key = Key(provider: string, accountOrProjectRef: string, region: string, schema: string, scopeDigest: string)

  function Canonical(i: Input): Input {
    i.(credentialRefs := Sort(i.credentialRefs, StrLe), mutationKeys := Sort(i.mutationKeys, StrLe))
  }

  /** `digest` stands for the SHA-256 of the JSON text of a canonical input. */
  function KeyOf(digest: Input -> string, schema: string, i: Input): Key {
    Key(TrimSpace(i.provider), TrimSpace(i.accountOrProjectRef), TrimSpace(i.region), schema, digest(Canonical(i)))
  }

  ghost predicate Injective(digest: Input -> string) {
    forall a, b :: digest(a) == digest(b) ==> a == b
  }

  /** Equal but for the order of credential references and mutation keys. */
  ghost predicate SameScope(a: Input, b: Input) {
    && b == a.(credentialRefs := b.credentialRefs, mutationKeys := b.mutationKeys)
    && multiset(a.credentialRefs) == multiset(b.credentialRefs)
    && multiset(a.mutationKeys) == multiset(b.mutationKeys)
  }

  /** Facts never cross an evidence boundary: two inputs share a key exactly when they share a scope. */
  lemma KeyIsScope(digest: Input -> string, schema: string, a: Input, b: Input)
    requires Injective(digest)
    ensures KeyOf(digest, schema, a) == KeyOf(digest, schema, b) <==> SameScope(a, b)
  {
    SortedEqualIff(a.credentialRefs, b.credentialRefs);
    SortedEqualIff(a.mutationKeys, b.mutationKeys);
    assert Canonical(a) == Canonical(b) <==> SameScope(a, b);
  }
}

/** The single-flight admission cache, under every interleaving of its callers. */
module AdmissionCache {
  import opened Text
  import opened AdmissionScope

  type Caller = nat

  /** `secretSafe` stands for the secret scan over the whole result. */
  datatype Result = Result(
    credentialsReady: bool, accountOrProjectReady: bool, networkReady: bool, stateBackendReady: bool,
    fixtureReady: bool, ownershipReady: bool, availableQuota: map<string, int>,
    availableCPUMilli: int, availableMemoryMB: int, reasons: map<string, string>, secretSafe: bool)

  datatype Problem = Cancelled | InvalidInput | ProbeFailed
  datatype Outcome = Success(result: Result) | Failed(why: Problem)
  datatype Answer = Answered(result: Result) | Errored(cancelled: bool)

  predicate ValidResult(r: Result) {
    && r.secretSafe
    && (forall k | k in r.availableQuota :: !Blank(k) && r.availableQuota[k] >= 0)
    && r.availableCPUMilli >= 0 && r.availableMemoryMB >= 0
    && (forall k | k in r.reasons :: !Blank(k) && SingleLine(k + r.reasons[k]))
  }

  /** What the owner reports for a probe's answer: errors are reduced, invalid results refused. */
  function Judged(a: Answer): Outcome {
    match a
    case Answered(r) => if ValidResult(r) then Success(r) else Failed(ProbeFailed)
    case Errored(cancelled) => Failed(if cancelled then Cancelled else ProbeFailed)
  }

  // ---- the shared state and its two critical sections --------------------------------------------

  /** `filled` holds the calls whose done channel is closed, by owner; `slots` counts the tokens in the channel. */
  datatype Shared = Shared(
    entries: map<Key, Result>, inFlight: map<Key, Caller>, filled: map<Caller, Outcome>, slots: nat)

  datatype Found = Hit(result: Result) | Join(owner: Caller) | Own

  function Find(s: Shared, k: Key): Found {
    if k in s.entries then Hit(s.entries[k]) else if k in s.inFlight then Join(s.inFlight[k]) else Own
  }

  function Entered(s: Shared, k: Key, p: Caller): Shared {
    if Find(s, k).Own? then s.(inFlight := s.inFlight[k := p]) else s
  }

  function Completed(s: Shared, k: Key, p: Caller, o: Outcome): Shared {
    s.(entries := if o.Success? then s.entries[k := o.result] else s.entries,
       inFlight := s.inFlight - {k}, filled := s.filled[p := o])
  }

  // ---- callers -----------------------------------------------------------------------------------

  datatype Phase =
    | Waiting(owner: Caller) | Acquiring | Probing | Completing(outcome: Outcome) | Returned(outcome: Outcome)

  datatype State = State(shared: Shared, phases: map<Caller, Phase>)

  /** Each caller makes one `Probe` call; `accepted` stands for the input validation. */
  datatype Config = Config(
    input: Caller -> Input, digest: Input -> string, schema: string, accepted: Input -> bool, maxConcurrent: nat)
  {
    function KeyFor(p: Caller): Key {
      KeyOf(digest, schema, input(p))
    }
  }

  datatype Event =
    | Reject(caller: Caller)
    | Enter(caller: Caller)
    | WaitDone(caller: Caller)
    | WaitCancel(caller: Caller)
    | Acquire(caller: Caller)
    | AcquireCancel(caller: Caller)
    | Finish(caller: Caller, answer: Answer)
    | Complete(caller: Caller)

  predicate In(s: State, p: Caller, phase: Phase) {
    p in s.phases && s.phases[p] == phase
  }

  predicate Enabled(c: Config, s: State, e: Event) {
    match e
    case Reject(p) => p !in s.phases
    case Enter(p) => p !in s.phases && c.accepted(c.input(p))
    case WaitDone(p) => p in s.phases && s.phases[p].Waiting? && s.phases[p].owner in s.shared.filled
    case WaitCancel(p) => p in s.phases && s.phases[p].Waiting?
    case Acquire(p) => In(s, p, Acquiring) && s.shared.slots < c.maxConcurrent
    case AcquireCancel(p) => In(s, p, Acquiring)
    case Finish(p, _) => In(s, p, Probing) && s.shared.slots > 0
    case Complete(p) => p in s.phases && s.phases[p].Completing?
  }

  function PhaseAfterEnter(f: Found): Phase {
    match f
    case Hit(r) => Returned(Success(r))
    case Join(owner) => Waiting(owner)
    case Own => Acquiring
  }

  function Step(c: Config, s: State, e: Event): State
    requires Enabled(c, s, e)
  {
    var p := e.caller;
    match e
    case Reject(_) =>
      s.(phases := s.phases[p := Returned(Failed(if c.accepted(c.input(p)) then Cancelled else InvalidInput))])
    case Enter(_) =>
      State(Entered(s.shared, c.KeyFor(p), p), s.phases[p := PhaseAfterEnter(Find(s.shared, c.KeyFor(p)))])
    case WaitDone(_) => s.(phases := s.phases[p := Returned(s.shared.filled[s.phases[p].owner])])
    case WaitCancel(_) => s.(phases := s.phases[p := Returned(Failed(Cancelled))])
    case Acquire(_) => State(s.shared.(slots := s.shared.slots + 1), s.phases[p := Probing])
    case AcquireCancel(_) => s.(phases := s.phases[p := Completing(Failed(Cancelled))])
    case Finish(_, a) => State(s.shared.(slots := s.shared.slots - 1), s.phases[p := Completing(Judged(a))])
    case Complete(_) =>
      State(Completed(s.shared, c.KeyFor(p), p, s.phases[p].outcome), s.phases[p := Returned(s.phases[p].outcome)])
  }

  const INITIAL := State(Shared(map[], map[], map[], 0), map[])

  predicate Runs(c: Config, events: seq<Event>)
    decreases |events|, 0
  {
    events == []
    || var front := events[..|events| - 1];
       Runs(c, front) && Enabled(c, After(c, front), events[|events| - 1])
  }

  function After(c: Config, events: seq<Event>): State
    requires Runs(c, events)
    decreases |events|, 1
  {
    if events == [] then INITIAL
    else Step(c, After(c, events[..|events| - 1]), events[|events| - 1])
  }

  // ---- the invariant -----------------------------------------------------------------------------

  predicate Owns(s: State, p: Caller) {
    p in s.phases && (s.phases[p].Acquiring? || s.phases[p].Probing? || s.phases[p].Completing?)
  }

  function Probers(s: State): set<Caller> {
    set p | p in s.phases && s.phases[p].Probing?
  }

  ghost predicate FlightsOwned(c: Config, s: State) {
    && (forall k | k in s.shared.inFlight :: Owns(s, s.shared.inFlight[k]) && c.KeyFor(s.shared.inFlight[k]) == k)
    && (forall p | Owns(s, p) :: c.KeyFor(p) in s.shared.inFlight && s.shared.inFlight[c.KeyFor(p)] == p)
  }

  predicate WaitersServed(c: Config, s: State) {
    forall p | p in s.phases && s.phases[p].Waiting? ::
      && c.KeyFor(s.phases[p].owner) == c.KeyFor(p)
      && (Owns(s, s.phases[p].owner) || s.phases[p].owner in s.shared.filled)
  }

  predicate Agrees(c: Config, s: State, p: Caller, o: Outcome) {
    o.Success? ==> c.KeyFor(p) in s.shared.entries && s.shared.entries[c.KeyFor(p)] == o.result
  }

  predicate OutcomesAgree(c: Config, s: State) {
    && (forall p | p in s.shared.filled :: In(s, p, Returned(s.shared.filled[p])) && Agrees(c, s, p, s.shared.filled[p]))
    && (forall p | p in s.phases && s.phases[p].Returned? :: Agrees(c, s, p, s.phases[p].outcome))
  }

  ghost predicate Consistent(c: Config, s: State) {
    && s.shared.entries.Keys !! s.shared.inFlight.Keys
    && FlightsOwned(c, s) && WaitersServed(c, s) && OutcomesAgree(c, s)
    && s.shared.slots == |Probers(s)| <= c.maxConcurrent
  }

  lemma OwnersChange(c: Config, s: State, e: Event, p: Caller)
    requires Enabled(c, s, e)
    ensures
      Owns(Step(c, s, e), p) <==>
        if p != e.caller then Owns(s, p)
        else match e
             case Enter(_) => Find(s.shared, c.KeyFor(p)).Own?
             case Acquire(_) => true
             case AcquireCancel(_) => true
             case Finish(_, _) => true
             case _ => false
  {
  }

  lemma FlightChange(c: Config, s: State, e: Event, k: Key)
    requires Enabled(c, s, e)
    ensures var s' := Step(c, s, e); var mine := k == c.KeyFor(e.caller);
      k in s'.shared.inFlight <==>
        || (k in s.shared.inFlight && !(e.Complete? && mine))
        || (e.Enter? && mine && Find(s.shared, k).Own?)
    ensures var s' := Step(c, s, e);
      k in s'.shared.inFlight ==>
        s'.shared.inFlight[k] == if k in s.shared.inFlight then s.shared.inFlight[k] else e.caller
  {
  }

  lemma FlightsKept(c: Config, s: State, e: Event)
    requires Consistent(c, s) && Enabled(c, s, e)
    ensures FlightsOwned(c, Step(c, s, e))
  {
    var s' := Step(c, s, e);
    forall k | k in s'.shared.inFlight ensures Owns(s', s'.shared.inFlight[k]) && c.KeyFor(s'.shared.inFlight[k]) == k {
      FlightChange(c, s, e, k);
      OwnersChange(c, s, e, s'.shared.inFlight[k]);
    }
    forall p | Owns(s', p) ensures c.KeyFor(p) in s'.shared.inFlight && s'.shared.inFlight[c.KeyFor(p)] == p {
      FlightChange(c, s, e, c.KeyFor(p));
      OwnersChange(c, s, e, p);
    }
  }

  lemma KeysStayApart(c: Config, s: State, e: Event)
    requires Consistent(c, s) && Enabled(c, s, e)
    ensures Step(c, s, e).shared.entries.Keys !! Step(c, s, e).shared.inFlight.Keys
  {
  }

  lemma WaiterKept(c: Config, s: State, e: Event, p: Caller)
    requires Consistent(c, s) && Enabled(c, s, e) && p in Step(c, s, e).phases && Step(c, s, e).phases[p].Waiting?
    ensures var s' := Step(c, s, e); var owner := s'.phases[p].owner;
      c.KeyFor(owner) == c.KeyFor(p) && (Owns(s', owner) || owner in s'.shared.filled)
  {
    OwnersChange(c, s, e, Step(c, s, e).phases[p].owner);
  }

  lemma WaitersKept(c: Config, s: State, e: Event)
    requires Consistent(c, s) && Enabled(c, s, e)
    ensures WaitersServed(c, Step(c, s, e))
  {
    var s' := Step(c, s, e);
    forall p | p in s'.phases && s'.phases[p].Waiting?
      ensures c.KeyFor(s'.phases[p].owner) == c.KeyFor(p)
      ensures Owns(s', s'.phases[p].owner) || s'.phases[p].owner in s'.shared.filled
    {
      WaiterKept(c, s, e, p);
    }
  }

  predicate Extends<K, V(==)>(m: map<K, V>, m': map<K, V>) {
    forall k | k in m :: k in m' && m'[k] == m[k]
  }

  lemma StepKeepsEntries(c: Config, s: State, e: Event)
    requires Consistent(c, s) && Enabled(c, s, e)
    ensures Extends(s.shared.entries, Step(c, s, e).shared.entries)
  {
    if e.Complete? {
      assert Owns(s, e.caller);
      assert c.KeyFor(e.caller) !in s.shared.entries;
    }
  }

  lemma AgreesKept(c: Config, s: State, e: Event, p: Caller, o: Outcome)
    requires Consistent(c, s) && Enabled(c, s, e) && Agrees(c, s, p, o)
    ensures Agrees(c, Step(c, s, e), p, o)
  {
    StepKeepsEntries(c, s, e);
  }

  lemma FilledKept(c: Config, s: State, e: Event, p: Caller)
    requires Consistent(c, s) && Enabled(c, s, e) && p in Step(c, s, e).shared.filled
    ensures var s' := Step(c, s, e);
      In(s', p, Returned(s'.shared.filled[p])) && Agrees(c, s', p, s'.shared.filled[p])
  {
    if p in s.shared.filled && p != e.caller {
      AgreesKept(c, s, e, p, s.shared.filled[p]);
    }
  }

  lemma ReturnedKept(c: Config, s: State, e: Event, p: Caller)
    requires Consistent(c, s) && Enabled(c, s, e)
    requires p in Step(c, s, e).phases && Step(c, s, e).phases[p].Returned?
    ensures Agrees(c, Step(c, s, e), p, Step(c, s, e).phases[p].outcome)
  {
    if p != e.caller {
      AgreesKept(c, s, e, p, s.phases[p].outcome);
    } else if e.WaitDone? {
      AgreesKept(c, s, e, s.phases[p].owner, s.shared.filled[s.phases[p].owner]);
    }
  }

  lemma OutcomesKept(c: Config, s: State, e: Event)
    requires Consistent(c, s) && Enabled(c, s, e)
    ensures OutcomesAgree(c, Step(c, s, e))
  {
    var s' := Step(c, s, e);
    forall p | p in s'.shared.filled
      ensures In(s', p, Returned(s'.shared.filled[p])) && Agrees(c, s', p, s'.shared.filled[p])
    {
      FilledKept(c, s, e, p);
    }
    forall p | p in s'.phases && s'.phases[p].Returned? ensures Agrees(c, s', p, s'.phases[p].outcome) {
      ReturnedKept(c, s, e, p);
    }
  }

  lemma ProbersChange(c: Config, s: State, e: Event)
    requires Enabled(c, s, e)
    ensures Probers(Step(c, s, e)) == if e.Acquire? then Probers(s) + {e.caller} else Probers(s) - {e.caller}
    ensures e.caller in Probers(s) <==> e.Finish?
  {
  }

  lemma SlotsChange(c: Config, s: State, e: Event)
    requires Enabled(c, s, e)
    ensures Step(c, s, e).shared.slots == s.shared.slots + (if e.Acquire? then 1 else 0) - (if e.Finish? then 1 else 0)
    ensures e.Acquire? ==> s.shared.slots < c.maxConcurrent
  {
  }

  lemma SlotsKept(c: Config, s: State, e: Event)
    requires Consistent(c, s) && Enabled(c, s, e)
    ensures Step(c, s, e).shared.slots == |Probers(Step(c, s, e))| <= c.maxConcurrent
  {
    var was := Probers(s);
    ProbersChange(c, s, e);
    SlotsChange(c, s, e);
    assert e.Acquire? ==> |was + {e.caller}| == |was| + 1;
    assert !e.Acquire? && !e.Finish? ==> was - {e.caller} == was;
  }

  lemma {:induction false} RunsConsistent(c: Config, events: seq<Event>)
    requires Runs(c, events)
    ensures Consistent(c, After(c, events))
  {
    if events != [] {
      var front, e := events[..|events| - 1], events[|events| - 1];
      RunsConsistent(c, front);
      FlightsKept(c, After(c, front), e);
      KeysStayApart(c, After(c, front), e);
      WaitersKept(c, After(c, front), e);
      OutcomesKept(c, After(c, front), e);
      SlotsKept(c, After(c, front), e);
    }
  }

  // ---- what every run guarantees -----------------------------------------------------------------

  lemma {:induction false} RunPrefix(c: Config, events: seq<Event>, i: nat)
    requires Runs(c, events) && i <= |events|
    ensures Runs(c, events[..i])
  {
    if i == |events| {
      assert events[..i] == events;
    } else {
      assert events[..|events| - 1][..i] == events[..i];
      RunPrefix(c, events[..|events| - 1], i);
    }
  }

  lemma EventEnabled(c: Config, events: seq<Event>, j: nat)
    requires Runs(c, events) && j < |events|
    ensures Runs(c, events[..j]) && Enabled(c, After(c, events[..j]), events[j])
  {
    RunPrefix(c, events, j + 1);
    assert events[..j + 1][..j] == events[..j];
  }

  /** At any moment: one probe per key, a bounded number in all, and no key both cached and in flight. */
  lemma SingleFlight(c: Config, events: seq<Event>, p: Caller, q: Caller)
    requires Runs(c, events)
    ensures
      var s := After(c, events);
      && (In(s, p, Probing) && In(s, q, Probing) && c.KeyFor(p) == c.KeyFor(q) ==> p == q)
      && |Probers(s)| <= c.maxConcurrent
      && s.shared.entries.Keys !! s.shared.inFlight.Keys
  {
    RunsConsistent(c, events);
    var s := After(c, events);
    assert In(s, p, Probing) ==> Owns(s, p);
    assert In(s, q, Probing) ==> Owns(s, q);
  }

  /** A cached entry is never overwritten or dropped. */
  lemma {:induction false} EntriesKept(c: Config, events: seq<Event>, i: nat)
    requires Runs(c, events) && i <= |events|
    ensures Runs(c, events[..i]) && Extends(After(c, events[..i]).shared.entries, After(c, events).shared.entries)
  {
    RunPrefix(c, events, i);
    if i == |events| {
      assert events[..i] == events;
    } else {
      var front := events[..|events| - 1];
      assert front[..i] == events[..i];
      EntriesKept(c, front, i);
      RunsConsistent(c, front);
      StepKeepsEntries(c, After(c, front), events[|events| - 1]);
    }
  }

  /** Once a key is cached, no probe for it ever starts again. */
  lemma CachedIsNeverProbed(c: Config, events: seq<Event>, i: nat, j: nat)
    requires Runs(c, events) && i <= j < |events| && events[j].Acquire?
    ensures Runs(c, events[..i]) && c.KeyFor(events[j].caller) !in After(c, events[..i]).shared.entries
  {
    EventEnabled(c, events, j);
    assert events[..j][..i] == events[..i];
    EntriesKept(c, events[..j], i);
    RunsConsistent(c, events[..j]);
    assert Owns(After(c, events[..j]), events[j].caller);
  }

  /** Every successful return for a key is the cached entry, so any two of them are equal. */
  lemma SuccessesAgree(c: Config, events: seq<Event>, p: Caller, q: Caller, r: Result, t: Result)
    requires Runs(c, events) && c.KeyFor(p) == c.KeyFor(q)
    requires In(After(c, events), p, Returned(Success(r))) && In(After(c, events), q, Returned(Success(t)))
    ensures r == t
    ensures c.KeyFor(p) in After(c, events).shared.entries && After(c, events).shared.entries[c.KeyFor(p)] == r
  {
    RunsConsistent(c, events);
  }

  predicate AnsweredAt(c: Config, events: seq<Event>, i: nat, k: Key, r: Result) {
    i < |events| && events[i].Finish? && events[i].answer == Answered(r) && c.KeyFor(events[i].caller) == k
  }

  predicate AnsweredIn(c: Config, events: seq<Event>, k: Key, r: Result) {
    ValidResult(r) && exists i | 0 <= i < |events| :: AnsweredAt(c, events, i, k, r)
  }

  lemma AnsweredLater(c: Config, events: seq<Event>, k: Key, r: Result)
    requires events != [] && AnsweredIn(c, events[..|events| - 1], k, r)
    ensures AnsweredIn(c, events, k, r)
  {
    var i :| 0 <= i < |events| - 1 && AnsweredAt(c, events[..|events| - 1], i, k, r);
    assert AnsweredAt(c, events, i, k, r);
  }

  predicate Sourced(c: Config, events: seq<Event>, s: State) {
    && (forall k | k in s.shared.entries :: AnsweredIn(c, events, k, s.shared.entries[k]))
    && (forall p | p in s.phases && s.phases[p].Completing? && s.phases[p].outcome.Success? ::
          AnsweredIn(c, events, c.KeyFor(p), s.phases[p].outcome.result))
  }

  lemma EntryOrigin(c: Config, s: State, e: Event, k: Key)
    requires Enabled(c, s, e) && k in Step(c, s, e).shared.entries
    ensures var r := Step(c, s, e).shared.entries[k];
      || (k in s.shared.entries && s.shared.entries[k] == r)
      || (k == c.KeyFor(e.caller) && In(s, e.caller, Completing(Success(r))))
  {
  }

  lemma EntrySourced(c: Config, events: seq<Event>, k: Key)
    requires events != [] && Runs(c, events) && k in After(c, events).shared.entries
    requires Sourced(c, events[..|events| - 1], After(c, events[..|events| - 1]))
    ensures AnsweredIn(c, events, k, After(c, events).shared.entries[k])
  {
    var front, e := events[..|events| - 1], events[|events| - 1];
    EntryOrigin(c, After(c, front), e, k);
    assert AnsweredIn(c, front, k, After(c, events).shared.entries[k]);
    AnsweredLater(c, events, k, After(c, events).shared.entries[k]);
  }

  lemma CompletionSourced(c: Config, events: seq<Event>, p: Caller)
    requires events != [] && Runs(c, events)
    requires Sourced(c, events[..|events| - 1], After(c, events[..|events| - 1]))
    requires p in After(c, events).phases && After(c, events).phases[p].Completing?
    requires After(c, events).phases[p].outcome.Success?
    ensures AnsweredIn(c, events, c.KeyFor(p), After(c, events).phases[p].outcome.result)
  {
    var e, r := events[|events| - 1], After(c, events).phases[p].outcome.result;
    if e.caller == p && e.Finish? {
      assert AnsweredAt(c, events, |events| - 1, c.KeyFor(p), r);
    } else {
      AnsweredLater(c, events, c.KeyFor(p), r);
    }
  }

  lemma {:induction false} RunsSourced(c: Config, events: seq<Event>)
    requires Runs(c, events)
    ensures Sourced(c, events, After(c, events))
  {
    if events != [] {
      RunsSourced(c, events[..|events| - 1]);
      var s := After(c, events);
      forall k | k in s.shared.entries ensures AnsweredIn(c, events, k, s.shared.entries[k]) {
        EntrySourced(c, events, k);
      }
      forall p | p in s.phases && s.phases[p].Completing? && s.phases[p].outcome.Success?
        ensures AnsweredIn(c, events, c.KeyFor(p), s.phases[p].outcome.result)
      {
        CompletionSourced(c, events, p);
      }
    }
  }

  /** A success is a valid answer some probe of the same scope gave in this run: nothing crosses a boundary. */
  lemma SuccessIsSourced(c: Config, events: seq<Event>, p: Caller, r: Result) returns (i: nat)
    requires Runs(c, events) && Injective(c.digest) && In(After(c, events), p, Returned(Success(r)))
    ensures ValidResult(r) && i < |events| && events[i].Finish? && events[i].answer == Answered(r)
    ensures SameScope(c.input(events[i].caller), c.input(p))
  {
    RunsConsistent(c, events);
    RunsSourced(c, events);
    assert AnsweredIn(c, events, c.KeyFor(p), r);
    var at :| 0 <= at < |events| && AnsweredAt(c, events, at, c.KeyFor(p), r);
    i := at;
    KeyIsScope(c.digest, c.schema, c.input(events[i].caller), c.input(p));
  }

  /** The provider answers as a function of the input, blind to the order of references, or fails on the way. */
  ghost predicate Deterministic(c: Config, events: seq<Event>, probe: Input -> Answer) {
    && (forall i | 0 <= i < |events| && events[i].Finish? && events[i].answer.Answered? ::
          events[i].answer == probe(c.input(events[i].caller)))
    && (forall a, b | SameScope(a, b) :: probe(a) == probe(b))
  }

  /** The cache is transparent: a success is exactly what a direct, validated probe of the caller's input gives. */
  lemma CacheIsTransparent(c: Config, events: seq<Event>, probe: Input -> Answer, p: Caller, r: Result)
    requires Runs(c, events) && Injective(c.digest) && Deterministic(c, events, probe)
    requires In(After(c, events), p, Returned(Success(r)))
    ensures Judged(probe(c.input(p))) == Success(r)
  {
    var i := SuccessIsSourced(c, events, p, r);
    assert probe(c.input(events[i].caller)) == probe(c.input(p));
  }

  predicate Settling(c: Config, s: State, p: Caller, r: Result) {
    In(s, p, Completing(Success(r))) || (c.KeyFor(p) in s.shared.entries && s.shared.entries[c.KeyFor(p)] == r)
  }

  lemma {:induction false} AnswerSettles(c: Config, events: seq<Event>, i: nat)
    requires Runs(c, events) && i < |events| && events[i].Finish? && Judged(events[i].answer).Success?
    ensures Settling(c, After(c, events), events[i].caller, Judged(events[i].answer).result)
  {
    var front := events[..|events| - 1];
    if i < |events| - 1 {
      AnswerSettles(c, front, i);
      RunsConsistent(c, front);
      StepKeepsEntries(c, After(c, front), events[|events| - 1]);
    }
  }

  lemma SettledMeansNoProbe(c: Config, s: State, p: Caller, q: Caller, r: Result)
    requires Consistent(c, s) && Settling(c, s, p, r) && In(s, q, Probing)
    ensures c.KeyFor(p) != c.KeyFor(q)
  {
    assert Owns(s, q);
    if In(s, p, Completing(Success(r))) {
      assert Owns(s, p);
    }
  }

  /** After one valid answer no probe for that key ever finishes again: the provider answers once per key. */
  lemma OneAnswerPerKey(c: Config, events: seq<Event>, i: nat, j: nat)
    requires Runs(c, events) && i < j < |events|
    requires events[i].Finish? && Judged(events[i].answer).Success? && events[j].Finish?
    ensures c.KeyFor(events[i].caller) != c.KeyFor(events[j].caller)
  {
    EventEnabled(c, events, j);
    AnswerSettles(c, events[..j], i);
    RunsConsistent(c, events[..j]);
    SettledMeansNoProbe(c, After(c, events[..j]), events[i].caller, events[j].caller, Judged(events[i].answer).result);
  }

  /** A failed flight is not remembered: the next caller of the key owns a new one. */
  lemma FailureIsRetried(c: Config, events: seq<Event>, p: Caller)
    requires events != [] && Runs(c, events) && events[|events| - 1] == Complete(p)
    requires In(After(c, events), p, Returned(After(c, events).phases[p].outcome))
    ensures Find(After(c, events).shared, c.KeyFor(p))
            == if After(c, events).phases[p].outcome.Success? then Hit(After(c, events).phases[p].outcome.result) else Own
  {
    var front := events[..|events| - 1];
    RunsConsistent(c, front);
    assert Owns(After(c, front), p);
  }

  predicate Busy(s: State) {
    exists p | p in s.phases :: !s.phases[p].Returned?
  }

  /** No deadlock: while some call has not returned, some caller can move without being cancelled. */
  lemma NeverStuck(c: Config, events: seq<Event>, answer: Answer)
    requires Runs(c, events) && Busy(After(c, events)) && c.maxConcurrent > 0
    ensures exists p ::
      || Enabled(c, After(c, events), WaitDone(p)) || Enabled(c, After(c, events), Acquire(p))
      || Enabled(c, After(c, events), Finish(p, answer)) || Enabled(c, After(c, events), Complete(p))
  {
    RunsConsistent(c, events);
    var s := After(c, events);
    var p :| p in s.phases && !s.phases[p].Returned?;
    var q := if s.phases[p].Waiting? then s.phases[p].owner else p;
    if s.phases[p].Waiting? && q in s.shared.filled {
      assert Enabled(c, s, WaitDone(p));
    } else {
      assert Owns(s, q);
      if s.phases[q].Acquiring? && s.shared.slots == c.maxConcurrent {
        assert Probers(s) != {};
        var busy :| busy in Probers(s);
        assert Enabled(c, s, Finish(busy, answer));
      } else if s.phases[q].Acquiring? {
        assert Enabled(c, s, Acquire(q));
      } else if s.phases[q].Probing? {
        assert q in Probers(s);
        assert Enabled(c, s, Finish(q, answer));
      } else {
        assert Enabled(c, s, Complete(q));
      }
    }
  }

  // ---- the object --------------------------------------------------------------------------------

  /** One in-flight call: its outcome is filled in before its done channel is closed. */
  class Call {
    const owner: Caller
    var done: bool
    var outcome: Outcome

    constructor (owner: Caller)
      ensures this.owner == owner && !done
    {
      this.owner := owner;
      done, outcome := false, Failed(ProbeFailed);
    }
  }

  datatype Verdict = Ready(result: Result) | Wait(call: Call) | Mine(call: Call)

  class AdmissionSnapshot {
    const maxConcurrent: nat
    var entries: map<Key, Result>
    var inFlight: map<Key, Call>
    var slots: nat
    /** Every call made so far, by owner, the owners in flight, and the outcomes delivered. */
    ghost var calls: map<Caller, Call>
    ghost var owners: map<Key, Caller>
    ghost var filled: map<Caller, Outcome>

    ghost predicate Valid()
      reads this, calls.Values
    {
      && (forall p | p in calls :: calls[p].owner == p && (calls[p].done <==> p in filled))
      && (forall p | p in filled :: p in calls && calls[p].outcome == filled[p])
      && (forall k :: k in inFlight <==> k in owners)
      && (forall k | k in owners :: owners[k] in calls && inFlight[k] == calls[owners[k]])
      && slots <= maxConcurrent
    }

    /** The abstract state the machine above steps. */
    ghost function View(): Shared
      reads this
    {
      Shared(entries, owners, filled, slots)
    }

    constructor (maxConcurrent: nat)
      ensures Valid() && View() == INITIAL.shared && this.maxConcurrent == maxConcurrent && calls == map[]
    {
      this.maxConcurrent := maxConcurrent;
      entries, inFlight, slots, calls, owners, filled := map[], map[], 0, map[], map[], map[];
    }

    /** The first critical section of `Probe`. */
    method Lookup(k: Key, p: Caller) returns (verdict: Verdict)
      requires Valid() && p !in calls
      modifies this
      ensures Valid() && View() == Entered(old(View()), k, p)
      ensures match Find(old(View()), k)
              case Hit(r) => verdict == Ready(r) && calls == old(calls)
              case Join(owner) => verdict.Wait? && calls == old(calls) && owner in calls && verdict.call == calls[owner]
              case Own =>
                && verdict.Mine? && fresh(verdict.call) && !verdict.call.done
                && calls == old(calls)[p := verdict.call] && inFlight == old(inFlight)[k := verdict.call]
    {
      if k in entries {
        return Ready(entries[k]);
      }
      if k in inFlight {
        return Wait(inFlight[k]);
      }
      var call := new Call(p);
      inFlight := inFlight[k := call];
      calls, owners := calls[p := call], owners[k := p];
      return Mine(call);
    }

    /** Taking a token, when the bounded channel has room. */
    method AcquireSlot() returns (ok: bool)
      requires Valid()
      modifies this`slots
      ensures Valid() && ok == (old(slots) < maxConcurrent)
      ensures View() == if ok then old(View()).(slots := old(slots) + 1) else old(View())
    {
      ok := slots < maxConcurrent;
      if ok {
        slots := slots + 1;
      }
    }

    method ReleaseSlot()
      requires Valid() && slots > 0
      modifies this`slots
      ensures Valid() && View() == old(View()).(slots := old(slots) - 1)
    {
      slots := slots - 1;
    }

    /** The second critical section: unregister the call, publish its outcome, cache a success, wake the waiters. */
    method Settle(k: Key, call: Call, outcome: Outcome)
      requires Valid() && k in inFlight && inFlight[k] == call && !call.done
      modifies this, call
      ensures Valid() && View() == Completed(old(View()), k, call.owner, outcome)
      ensures call.done && call.outcome == outcome && calls == old(calls)
    {
      inFlight, owners := inFlight - {k}, owners - {k};
      call.outcome := outcome;
      if outcome.Success? {
        entries := entries[k := outcome.result];
      }
      call.done := true;
      filled := filled[call.owner := outcome];
    }

    /** An undisturbed `Probe` call leaves exactly what its four steps leave, and returns what they return. */
    method ProbeAlone(k: Key, p: Caller, answer: Answer) returns (outcome: Outcome)
      requires Valid() && p !in calls && slots < maxConcurrent && k !in inFlight
      modifies this
      ensures Valid()
      ensures outcome == if k in old(entries) then Success(old(entries)[k]) else Judged(answer)
      ensures View() == if k in old(entries) then old(View()) else Completed(Entered(old(View()), k, p), k, p, outcome)
    {
      var verdict := Lookup(k, p);
      if verdict.Ready? {
        return Success(verdict.result);
      }
      var call := verdict.call;
      var ok := AcquireSlot();
      ReleaseSlot();
      outcome := Judged(answer);
      Settle(k, call, outcome);
    }
  }
}
