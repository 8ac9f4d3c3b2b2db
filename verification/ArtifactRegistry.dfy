/** The build-once artifact registry, under every interleaving of the processes that use it. */
module ArtifactRegistry {
  import opened Optional
  import opened Patterns
  import opened Text

  /** `secretSafe` stands for the secret scan over the record that carries the contract. */
  datatype Contract = Contract(
    imageDigest: string, manifestDigest: string, inputFingerprint: string, provenanceReference: string,
    signatureReference: string, secretSafe: bool)

  datatype Record = Record(fingerprint: string, artifact: Contract)

  predicate ValidContract(a: Contract) {
    && ImageReference(a.imageDigest) && Sha256Digest(a.manifestDigest) && Hex64(a.inputFingerprint)
    && RequiredLine(a.provenanceReference) && RequiredLine(a.signatureReference)
  }

  predicate ValidRecord(r: Record) {
    Hex64(r.fingerprint) && r.artifact.secretSafe && ValidContract(r.artifact) && r.artifact.inputFingerprint == r.fingerprint
  }

  // ---- the registry ------------------------------------------------------------------------------

  datatype State = State(claims: map<string, string>, records: map<string, Record>)

  datatype ClaimAnswer = Ready(record: Record) | ClaimedByOther | AlreadyClaimed | Miss | Refused

  predicate ClaimAccepted(fingerprint: string, owner: string) {
    Hex64(fingerprint) && RequiredLine(owner)
  }

  function ClaimOutcome(s: State, fingerprint: string, owner: string): ClaimAnswer {
    if !ClaimAccepted(fingerprint, owner) then Refused
    else if fingerprint in s.records then Ready(s.records[fingerprint])
    else if fingerprint in s.claims then (if s.claims[fingerprint] == owner then AlreadyClaimed else ClaimedByOther)
    else Miss
  }

  function Claimed(s: State, fingerprint: string, owner: string): State {
    if ClaimOutcome(s, fingerprint, owner).Miss? then s.(claims := s.claims[fingerprint := owner]) else s
  }

  predicate ReleaseAccepted(s: State, fingerprint: string, owner: string) {
    fingerprint in s.claims ==> s.claims[fingerprint] == owner
  }

  function Released(s: State, fingerprint: string, owner: string): State {
    if ReleaseAccepted(s, fingerprint, owner) then s.(claims := s.claims - {fingerprint}) else s
  }

  predicate HoldsClaim(s: State, fingerprint: string, owner: string) {
    fingerprint in s.claims && s.claims[fingerprint] == owner
  }

  predicate Conflicts(s: State, fingerprint: string, r: Record) {
    fingerprint in s.records && s.records[fingerprint].artifact != r.artifact
  }

  predicate PublishAccepted(s: State, fingerprint: string, owner: string, r: Record) {
    r.fingerprint == fingerprint && ValidRecord(r) && HoldsClaim(s, fingerprint, owner) && !Conflicts(s, fingerprint, r)
  }

  function Published(s: State, fingerprint: string, owner: string, r: Record): State {
    if PublishAccepted(s, fingerprint, owner, r)
    then State(s.claims - {fingerprint}, s.records[fingerprint := r])
    else s
  }

  /** The in-memory registry. */
  class MemoryRegistry {
    var claims: map<string, string>
    var records: map<string, Record>

    function View(): State
      reads this
    {
      State(claims, records)
    }

    constructor ()
      ensures View() == State(map[], map[])
    {
      claims, records := map[], map[];
    }

    /** `None` inside `Some` is a miss; `None` is a refused fingerprint. */
    method Lookup(fingerprint: string) returns (found: Option<Option<Record>>)
      ensures found == if !Hex64(fingerprint) then None
                       else Some(if fingerprint in records then Some(records[fingerprint]) else None)
    {
      if !Hex64(fingerprint) {
        return None;
      }
      if fingerprint in records {
        return Some(Some(records[fingerprint]));
      }
      return Some(None);
    }

    method Claim(fingerprint: string, owner: string) returns (answer: ClaimAnswer)
      modifies this
      ensures answer == ClaimOutcome(old(View()), fingerprint, owner)
      ensures View() == Claimed(old(View()), fingerprint, owner)
    {
      if !Hex64(fingerprint) || !RequiredLine(owner) {
        return Refused;
      }
      if fingerprint in records {
        return Ready(records[fingerprint]);
      }
      if fingerprint in claims && claims[fingerprint] != owner {
        return ClaimedByOther;
      }
      if fingerprint in claims {
        return AlreadyClaimed;
      }
      claims := claims[fingerprint := owner];
      return Miss;
    }

    method ReleaseClaim(fingerprint: string, owner: string) returns (ok: bool)
      modifies this
      ensures ok == ReleaseAccepted(old(View()), fingerprint, owner)
      ensures View() == Released(old(View()), fingerprint, owner)
    {
      if fingerprint !in claims {
        assert claims == claims - {fingerprint};
        return true;
      }
      if claims[fingerprint] != owner {
        return false;
      }
      claims := claims - {fingerprint};
      return true;
    }

    method Publish(fingerprint: string, owner: string, r: Record) returns (ok: bool)
      modifies this
      ensures ok == PublishAccepted(old(View()), fingerprint, owner, r)
      ensures View() == Published(old(View()), fingerprint, owner, r)
    {
      if r.fingerprint != fingerprint || !ValidRecord(r) {
        return false;
      }
      if fingerprint !in claims || claims[fingerprint] != owner {
        return false;
      }
      if fingerprint in records && records[fingerprint].artifact != r.artifact {
        return false;
      }
      records := records[fingerprint := r];
      claims := claims - {fingerprint};
      return true;
    }
  }

  // ---- processes ---------------------------------------------------------------------------------

  /** `ownerSecretSafe` stands for the secret scan over the ownership marker. */
  datatype Request = Request(fingerprint: string, owner: string, ownerSecretSafe: bool)

  predicate ValidRequest(q: Request) {
    Hex64(q.fingerprint) && RequiredLine(q.owner) && q.ownerSecretSafe
  }

  datatype Outcome = Success(record: Record, reused: bool) | Failure

  datatype Phase =
    | Missed | Building | Built(record: Record) | Releasing | Returned(outcome: Outcome) | Dead

  type Process = nat

  /** How a durable registry call ends: normally, or with an error before or after it took effect. */
  datatype Mode = Normal | FailedBefore | FailedAfter

  datatype Event =
    | Refuse(process: Process)
    | LookUp(process: Process, mode: Mode)
    | TakeClaim(process: Process, mode: Mode)
    | Build(process: Process, built: Option<Contract>)
    | PublishBuilt(process: Process, mode: Mode)
    | Release(process: Process, mode: Mode)
    | Die(process: Process)

  datatype World = World(registry: State, phases: map<Process, Phase>)

  const EMPTY := World(State(map[], map[]), map[])

  predicate At(w: World, p: Process, phase: Phase) {
    p in w.phases && w.phases[p] == phase
  }

  predicate Alive(phase: Phase) {
    !phase.Returned? && !phase.Dead?
  }

  predicate Enabled(request: Process -> Request, w: World, e: Event) {
    var p := e.process;
    match e
    case Refuse(_) => p !in w.phases
    case LookUp(_, _) => p !in w.phases && ValidRequest(request(p))
    case TakeClaim(_, _) => At(w, p, Missed)
    case Build(_, _) => At(w, p, Building)
    case PublishBuilt(_, _) => p in w.phases && w.phases[p].Built?
    case Release(_, _) => At(w, p, Releasing)
    case Die(_) => p in w.phases && Alive(w.phases[p])
  }

  function Effect(mode: Mode, before: State, after: State): State {
    if mode.FailedBefore? then before else after
  }

  function AfterLookup(s: State, fingerprint: string): Phase {
    if fingerprint in s.records
    then Returned(if ValidRecord(s.records[fingerprint]) then Success(s.records[fingerprint], true) else Failure)
    else Missed
  }

  function AfterClaim(a: ClaimAnswer): Phase {
    match a
    case Ready(r) => Returned(if ValidRecord(r) then Success(r, true) else Failure)
    case Miss => Building
    case _ => Returned(Failure)
  }

  function AfterBuild(q: Request, built: Option<Contract>): Phase {
    if built.Some? && ValidRecord(Record(q.fingerprint, built.value)) then Built(Record(q.fingerprint, built.value))
    else Releasing
  }

  function Step(request: Process -> Request, w: World, e: Event): World
    requires Enabled(request, w, e)
  {
    var p, q, s := e.process, request(e.process), w.registry;
    match e
    case Refuse(_) => w.(phases := w.phases[p := Returned(Failure)])
    case LookUp(_, mode) =>
      w.(phases := w.phases[p := if mode.Normal? then AfterLookup(s, q.fingerprint) else Returned(Failure)])
    case TakeClaim(_, mode) =>
      World(Effect(mode, s, Claimed(s, q.fingerprint, q.owner)),
            w.phases[p := if mode.Normal? then AfterClaim(ClaimOutcome(s, q.fingerprint, q.owner)) else Returned(Failure)])
    case Build(_, built) => w.(phases := w.phases[p := AfterBuild(q, built)])
    case PublishBuilt(_, mode) =>
      var r := w.phases[p].record;
      World(Effect(mode, s, Published(s, q.fingerprint, q.owner, r)),
            w.phases[p := if mode.Normal? && PublishAccepted(s, q.fingerprint, q.owner, r)
                          then Returned(Success(r, false)) else Releasing])
    case Release(_, mode) =>
      World(Effect(mode, s, Released(s, q.fingerprint, q.owner)), w.phases[p := Returned(Failure)])
    case Die(_) => w.(phases := w.phases[p := Dead])
  }

  predicate Runs(request: Process -> Request, events: seq<Event>)
    decreases |events|, 0
  {
    events == []
    || var front := events[..|events| - 1];
       Runs(request, front) && Enabled(request, After(request, front), events[|events| - 1])
  }

  function After(request: Process -> Request, events: seq<Event>): World
    requires Runs(request, events)
    decreases |events|, 1
  {
    if events == [] then EMPTY
    else Step(request, After(request, events[..|events| - 1]), events[|events| - 1])
  }

  // ---- the invariant -----------------------------------------------------------------------------

  /** Between winning the claim and giving it back: the only processes that may publish or release. */
  predicate Holding(w: World, p: Process) {
    p in w.phases && (w.phases[p].Building? || w.phases[p].Built? || w.phases[p].Releasing?)
  }

  predicate RegistrySound(s: State) {
    && s.claims.Keys !! s.records.Keys
    && (forall f | f in s.claims :: ClaimAccepted(f, s.claims[f]))
    && (forall f | f in s.records :: ValidRecord(s.records[f]) && s.records[f].fingerprint == f)
  }

  ghost predicate OneHolder(request: Process -> Request, w: World) {
    forall p, q | Holding(w, p) && Holding(w, q) && request(p).fingerprint == request(q).fingerprint :: p == q
  }

  predicate Backed(request: Process -> Request, w: World, p: Process)
    requires Holding(w, p)
  {
    || HoldsClaim(w.registry, request(p).fingerprint, request(p).owner)
    || (w.phases[p].Releasing? && request(p).fingerprint in w.registry.records)
  }

  ghost predicate AllBacked(request: Process -> Request, w: World) {
    forall p | Holding(w, p) :: Backed(request, w, p)
  }

  predicate RequestsSound(request: Process -> Request, w: World) {
    && (forall p | p in w.phases && (w.phases[p].Missed? || Holding(w, p)) :: ValidRequest(request(p)))
    && (forall p | p in w.phases && w.phases[p].Built? ::
          ValidRecord(w.phases[p].record) && w.phases[p].record.fingerprint == request(p).fingerprint)
  }

  predicate Succeeded(w: World, p: Process) {
    p in w.phases && w.phases[p].Returned? && w.phases[p].outcome.Success?
  }

  predicate SuccessesRecorded(request: Process -> Request, w: World) {
    forall p | p in w.phases && Succeeded(w, p) ::
      && request(p).fingerprint in w.registry.records
      && w.registry.records[request(p).fingerprint] == w.phases[p].outcome.record
  }

  predicate Fresh(w: World, p: Process) {
    Succeeded(w, p) && !w.phases[p].outcome.reused
  }

  ghost predicate OnePublisher(request: Process -> Request, w: World) {
    forall p, q | Fresh(w, p) && Fresh(w, q) && request(p).fingerprint == request(q).fingerprint :: p == q
  }

  ghost predicate Consistent(request: Process -> Request, w: World) {
    && RegistrySound(w.registry) && OneHolder(request, w) && AllBacked(request, w) && RequestsSound(request, w)
    && SuccessesRecorded(request, w) && OnePublisher(request, w)
  }

  lemma RegistryKept(request: Process -> Request, w: World, e: Event)
    requires Consistent(request, w) && Enabled(request, w, e)
    ensures RegistrySound(Step(request, w, e).registry)
    ensures forall f | f in w.registry.records ::
      f in Step(request, w, e).registry.records && Step(request, w, e).registry.records[f] == w.registry.records[f]
  {
    if e.PublishBuilt? {
      assert Holding(w, e.process);
    }
  }

  lemma HoldingChange(request: Process -> Request, w: World, e: Event, p: Process)
    requires Enabled(request, w, e)
    ensures
      Holding(Step(request, w, e), p) <==>
        if p != e.process then Holding(w, p)
        else match e
             case TakeClaim(_, mode) => mode.Normal? && ClaimOutcome(w.registry, request(p).fingerprint, request(p).owner).Miss?
             case Build(_, _) => true
             case PublishBuilt(_, mode) => !Succeeded(Step(request, w, e), p)
             case _ => false
  {
  }

  lemma HoldersKept(request: Process -> Request, w: World, e: Event)
    requires Consistent(request, w) && Enabled(request, w, e)
    ensures OneHolder(request, Step(request, w, e))
  {
    var w' := Step(request, w, e);
    forall p, q | Holding(w', p) && Holding(w', q) && request(p).fingerprint == request(q).fingerprint ensures p == q {
      HoldingChange(request, w, e, p);
      HoldingChange(request, w, e, q);
      assert Holding(w, p) ==> Backed(request, w, p);
      assert Holding(w, q) ==> Backed(request, w, q);
    }
  }

  /** A step writes the registry only at its own fingerprint. */
  lemma RegistryChange(request: Process -> Request, w: World, e: Event, f: string)
    requires Enabled(request, w, e) && f != request(e.process).fingerprint
    ensures f in Step(request, w, e).registry.claims <==> f in w.registry.claims
    ensures f in w.registry.claims ==> Step(request, w, e).registry.claims[f] == w.registry.claims[f]
    ensures f in Step(request, w, e).registry.records <==> f in w.registry.records
  {
  }

  /** A step of a process that holds nothing leaves an existing claim alone. */
  lemma ClaimKept(request: Process -> Request, w: World, e: Event, f: string)
    requires Consistent(request, w) && Enabled(request, w, e) && !Holding(w, e.process) && f in w.registry.claims
    ensures f in Step(request, w, e).registry.claims && Step(request, w, e).registry.claims[f] == w.registry.claims[f]
  {
  }

  lemma BackingKept(request: Process -> Request, w: World, e: Event)
    requires Consistent(request, w) && Enabled(request, w, e)
    ensures AllBacked(request, Step(request, w, e))
  {
    var w' := Step(request, w, e);
    RegistryKept(request, w, e);
    forall p | Holding(w', p) ensures Backed(request, w', p) {
      HoldingChange(request, w, e, p);
      assert Holding(w, p) ==> Backed(request, w, p);
      if p != e.process {
        if request(e.process).fingerprint != request(p).fingerprint {
          RegistryChange(request, w, e, request(p).fingerprint);
        } else if HoldsClaim(w.registry, request(p).fingerprint, request(p).owner) {
          ClaimKept(request, w, e, request(p).fingerprint);
        }
      }
    }
  }

  lemma RequestsKept(request: Process -> Request, w: World, e: Event)
    requires Consistent(request, w) && Enabled(request, w, e)
    ensures RequestsSound(request, Step(request, w, e))
  {
  }

  lemma SuccessesKept(request: Process -> Request, w: World, e: Event)
    requires Consistent(request, w) && Enabled(request, w, e)
    ensures SuccessesRecorded(request, Step(request, w, e))
  {
    RegistryKept(request, w, e);
  }

  lemma PublishersKept(request: Process -> Request, w: World, e: Event)
    requires Consistent(request, w) && Enabled(request, w, e)
    ensures OnePublisher(request, Step(request, w, e))
  {
    var w' := Step(request, w, e);
    forall p, q | Fresh(w', p) && Fresh(w', q) && request(p).fingerprint == request(q).fingerprint ensures p == q {
      assert p != e.process ==> Fresh(w, p);
      assert q != e.process ==> Fresh(w, q);
    }
  }

  lemma {:induction false} RunsConsistent(request: Process -> Request, events: seq<Event>)
    requires Runs(request, events)
    ensures Consistent(request, After(request, events))
  {
    if events != [] {
      var front, e := events[..|events| - 1], events[|events| - 1];
      RunsConsistent(request, front);
      RegistryKept(request, After(request, front), e);
      HoldersKept(request, After(request, front), e);
      BackingKept(request, After(request, front), e);
      RequestsKept(request, After(request, front), e);
      PublishersKept(request, After(request, front), e);
      SuccessesKept(request, After(request, front), e);
    }
  }

  // ---- what every run guarantees -----------------------------------------------------------------

  lemma {:induction false} RunPrefix(request: Process -> Request, events: seq<Event>, i: nat)
    requires Runs(request, events) && i <= |events|
    ensures Runs(request, events[..i])
  {
    if i == |events| {
      assert events[..i] == events;
    } else {
      assert events[..|events| - 1][..i] == events[..i];
      RunPrefix(request, events[..|events| - 1], i);
    }
  }

  /** At any moment a fingerprint is claimed or published, not both, and one process at most is building it. */
  lemma BuildOnce(request: Process -> Request, events: seq<Event>, p: Process, q: Process)
    requires Runs(request, events) && request(p).fingerprint == request(q).fingerprint
    ensures
      var w := After(request, events);
      && w.registry.claims.Keys !! w.registry.records.Keys
      && (Holding(w, p) && Holding(w, q) ==> p == q)
  {
    RunsConsistent(request, events);
  }

  /** A published record never changes and never vanishes. */
  lemma {:induction false} RecordsKept(request: Process -> Request, events: seq<Event>, i: nat, f: string)
    requires Runs(request, events) && i <= |events|
    ensures Runs(request, events[..i])
    ensures f in After(request, events[..i]).registry.records ==>
      && f in After(request, events).registry.records
      && After(request, events).registry.records[f] == After(request, events[..i]).registry.records[f]
  {
    RunPrefix(request, events, i);
    if i == |events| {
      assert events[..i] == events;
    } else {
      var front := events[..|events| - 1];
      assert front[..i] == events[..i];
      RecordsKept(request, front, i, f);
      RunsConsistent(request, front);
      RegistryKept(request, After(request, front), events[|events| - 1]);
    }
  }

  /** Any two successful calls for a fingerprint return the same valid record, and one at most built it. */
  lemma SuccessesAgree(request: Process -> Request, events: seq<Event>, p: Process, q: Process)
    requires Runs(request, events) && request(p).fingerprint == request(q).fingerprint
    requires Succeeded(After(request, events), p) && Succeeded(After(request, events), q)
    ensures
      var a, b := After(request, events).phases[p].outcome, After(request, events).phases[q].outcome;
      && a.record == b.record && ValidRecord(a.record) && a.record.fingerprint == request(p).fingerprint
      && (!a.reused && !b.reused ==> p == q)
  {
    RunsConsistent(request, events);
    var w := After(request, events);
    assert Fresh(w, p) && Fresh(w, q) ==> p == q;
  }

  /** The registry accepts every publication a live builder attempts; its conflict check never fires. */
  lemma PublicationAlwaysAccepted(request: Process -> Request, events: seq<Event>, p: Process, r: Record)
    requires Runs(request, events) && At(After(request, events), p, Built(r))
    ensures PublishAccepted(After(request, events).registry, request(p).fingerprint, request(p).owner, r)
    ensures request(p).fingerprint !in After(request, events).registry.records
  {
    RunsConsistent(request, events);
    var w := After(request, events);
    assert Holding(w, p);
    assert Backed(request, w, p);
  }

  predicate BuiltAt(request: Process -> Request, events: seq<Event>, i: nat, r: Record) {
    && i < |events| && events[i].Build? && events[i].built == Some(r.artifact)
    && request(events[i].process).fingerprint == r.fingerprint
  }

  predicate BuiltIn(request: Process -> Request, events: seq<Event>, r: Record) {
    exists i | 0 <= i < |events| :: BuiltAt(request, events, i, r)
  }

  lemma BuiltLater(request: Process -> Request, events: seq<Event>, r: Record)
    requires events != [] && BuiltIn(request, events[..|events| - 1], r)
    ensures BuiltIn(request, events, r)
  {
    var i :| 0 <= i < |events| - 1 && BuiltAt(request, events[..|events| - 1], i, r);
    assert BuiltAt(request, events, i, r);
  }

  predicate Sourced(request: Process -> Request, events: seq<Event>, w: World) {
    && (forall f | f in w.registry.records :: BuiltIn(request, events, w.registry.records[f]))
    && (forall p | p in w.phases && w.phases[p].Built? :: BuiltIn(request, events, w.phases[p].record))
  }

  lemma {:induction false} RunsSourced(request: Process -> Request, events: seq<Event>)
    requires Runs(request, events)
    ensures Sourced(request, events, After(request, events))
  {
    if events != [] {
      var front, e := events[..|events| - 1], events[|events| - 1];
      RunsSourced(request, front);
      var w, w' := After(request, front), After(request, events);
      forall r | BuiltIn(request, front, r) ensures BuiltIn(request, events, r) { BuiltLater(request, events, r); }
      if e.Build? && w'.phases[e.process].Built? {
        assert BuiltAt(request, events, |events| - 1, w'.phases[e.process].record);
      }
    }
  }

  /** Every successful call returns what some process of this run built for that very fingerprint. */
  lemma SuccessIsBuilt(request: Process -> Request, events: seq<Event>, p: Process) returns (i: nat)
    requires Runs(request, events) && Succeeded(After(request, events), p)
    ensures i < |events| && events[i].Build? && events[i].built == Some(After(request, events).phases[p].outcome.record.artifact)
    ensures request(events[i].process).fingerprint == request(p).fingerprint
  {
    RunsConsistent(request, events);
    RunsSourced(request, events);
    var r := After(request, events).phases[p].outcome.record;
    assert BuiltIn(request, events, r);
    var at :| 0 <= at < |events| && BuiltAt(request, events, at, r);
    i := at;
  }

  /** A claim nobody living holds: its process died, or an error hid the claim from it or lost its release. */
  ghost predicate Orphaned(request: Process -> Request, w: World, f: string) {
    f in w.registry.claims && forall p | Holding(w, p) :: request(p).fingerprint != f
  }

  lemma OrphanKept(request: Process -> Request, w: World, e: Event, f: string)
    requires Consistent(request, w) && Enabled(request, w, e) && Orphaned(request, w, f)
    ensures Orphaned(request, Step(request, w, e), f)
  {
    var w' := Step(request, w, e);
    if request(e.process).fingerprint == f {
      ClaimKept(request, w, e, f);
    } else {
      RegistryChange(request, w, e, f);
    }
    forall p | Holding(w', p) ensures request(p).fingerprint != f { HoldingChange(request, w, e, p); }
  }

  /** An orphaned claim is never cleared: from then on no call for that fingerprint succeeds. */
  lemma {:induction false} OrphanIsPermanent(request: Process -> Request, events: seq<Event>, i: nat, p: Process)
    requires Runs(request, events) && i <= |events| && Runs(request, events[..i])
    requires Orphaned(request, After(request, events[..i]), request(p).fingerprint)
    ensures Orphaned(request, After(request, events), request(p).fingerprint) && !Succeeded(After(request, events), p)
  {
    RunsConsistent(request, events);
    if i == |events| {
      assert events[..i] == events;
    } else {
      var front := events[..|events| - 1];
      assert front[..i] == events[..i];
      OrphanIsPermanent(request, front, i, p);
      RunsConsistent(request, front);
      OrphanKept(request, After(request, front), events[|events| - 1], request(p).fingerprint);
    }
  }

  /** A process that dies before its publication takes effect orphans its claim. */
  lemma DeathOrphans(request: Process -> Request, events: seq<Event>, p: Process)
    requires events != [] && events[|events| - 1] == Die(p) && Runs(request, events)
    requires Holding(After(request, events[..|events| - 1]), p)
    ensures Orphaned(request, After(request, events), request(p).fingerprint)
            <==> request(p).fingerprint !in After(request, events).registry.records
  {
    var front := events[..|events| - 1];
    RunsConsistent(request, front);
    var w, w' := After(request, front), After(request, events);
    assert Backed(request, w, p);
    forall q | Holding(w', q) ensures request(q).fingerprint != request(p).fingerprint {
      HoldingChange(request, w, events[|events| - 1], q);
      assert Holding(w, q) && q != p;
    }
  }

  /** The steps that turn a claim on their own fingerprint into an orphan. */
  predicate Orphans(request: Process -> Request, w: World, e: Event) {
    var f := request(e.process).fingerprint;
    match e
    case TakeClaim(p, mode) => mode.FailedAfter? && ClaimOutcome(w.registry, f, request(p).owner).Miss?
    case Release(_, mode) => mode.FailedBefore? && f in w.registry.claims
    case Die(p) => Holding(w, p) && f in w.registry.claims
    case _ => false
  }

  lemma OrphanKeepsOthers(request: Process -> Request, w: World, e: Event, f: string)
    requires Consistent(request, w) && Enabled(request, w, e) && request(e.process).fingerprint != f
    ensures Orphaned(request, Step(request, w, e), f) <==> Orphaned(request, w, f)
  {
    var w' := Step(request, w, e);
    RegistryChange(request, w, e, f);
    forall p | request(p).fingerprint == f ensures Holding(w', p) <==> Holding(w, p) { HoldingChange(request, w, e, p); }
  }

  lemma HolderLeaves(request: Process -> Request, w: World, e: Event)
    requires Consistent(request, w) && Enabled(request, w, e) && Holding(w, e.process)
    ensures var w', f := Step(request, w, e), request(e.process).fingerprint;
      Orphaned(request, w', f) <==> Orphans(request, w, e)
  {
    var w', f := Step(request, w, e), request(e.process).fingerprint;
    assert Backed(request, w, e.process);
    HoldingChange(request, w, e, e.process);
    forall p | p != e.process && request(p).fingerprint == f ensures !Holding(w', p) { HoldingChange(request, w, e, p); }
  }

  lemma OutsiderOrphans(request: Process -> Request, w: World, e: Event)
    requires Consistent(request, w) && Enabled(request, w, e) && !Holding(w, e.process)
    requires !Orphaned(request, w, request(e.process).fingerprint)
    ensures var w', f := Step(request, w, e), request(e.process).fingerprint;
      Orphaned(request, w', f) <==> Orphans(request, w, e)
  {
    var w', f := Step(request, w, e), request(e.process).fingerprint;
    HoldingChange(request, w, e, e.process);
    if f in w.registry.claims {
      var holder :| Holding(w, holder) && request(holder).fingerprint == f;
      HoldingChange(request, w, e, holder);
    } else {
      forall p | request(p).fingerprint == f && p != e.process ensures !Holding(w', p) || f in w.registry.records {
        HoldingChange(request, w, e, p);
        assert Holding(w, p) ==> Backed(request, w, p);
      }
    }
  }

  /**
    * Exactly how an orphan arises: a claim recorded by a call that then reports an error, a release that fails before
    * it takes effect, or the death of the claim's holder.
    */
  lemma OrphanArisesIff(request: Process -> Request, w: World, e: Event, f: string)
    requires Consistent(request, w) && Enabled(request, w, e) && !Orphaned(request, w, f)
    ensures Orphaned(request, Step(request, w, e), f) <==> request(e.process).fingerprint == f && Orphans(request, w, e)
  {
    if request(e.process).fingerprint != f {
      OrphanKeepsOthers(request, w, e, f);
    } else if Holding(w, e.process) {
      HolderLeaves(request, w, e);
    } else {
      OutsiderOrphans(request, w, e);
    }
  }

  const FINGERPRINT := seq(64, _ => '0')

  /** A run that reaches an orphan: look up, win the claim, die. Every later call for the fingerprint then fails. */
  lemma RunCanOrphan(request: Process -> Request, later: seq<Event>, p: Process)
    requires request(0) == Request(FINGERPRINT, "o", true) && request(p).fingerprint == FINGERPRINT
    requires Runs(request, [LookUp(0, Normal), TakeClaim(0, Normal), Die(0)] + later)
    ensures Runs(request, [LookUp(0, Normal), TakeClaim(0, Normal), Die(0)])
    ensures Orphaned(request, After(request, [LookUp(0, Normal), TakeClaim(0, Normal), Die(0)]), FINGERPRINT)
    ensures !Succeeded(After(request, [LookUp(0, Normal), TakeClaim(0, Normal), Die(0)] + later), p)
  {
    var events := [LookUp(0, Normal), TakeClaim(0, Normal), Die(0)];
    DyingRun(request);
    assert (events + later)[..3] == events;
    OrphanIsPermanent(request, events + later, 3, p);
  }

  lemma DyingRun(request: Process -> Request)
    requires request(0) == Request(FINGERPRINT, "o", true)
    ensures Runs(request, [LookUp(0, Normal), TakeClaim(0, Normal), Die(0)])
    ensures Orphaned(request, After(request, [LookUp(0, Normal), TakeClaim(0, Normal), Die(0)]), FINGERPRINT)
  {
    var one, two, three := [LookUp(0, Normal)], [LookUp(0, Normal), TakeClaim(0, Normal)],
      [LookUp(0, Normal), TakeClaim(0, Normal), Die(0)];
    assert one[..0] == [] && two[..1] == one && three[..2] == two;
    assert !IsSpace("o"[0]) && RequiredLine("o");
    assert Hex64(FINGERPRINT) && ValidRequest(request(0));
    assert Runs(request, one) && After(request, one) == World(EMPTY.registry, map[0 := Missed]);
    assert Runs(request, two);
    assert After(request, two) == World(State(map[FINGERPRINT := "o"], map[]), map[0 := Building]);
    assert Runs(request, three);
    assert After(request, three) == World(State(map[FINGERPRINT := "o"], map[]), map[0 := Dead]);
  }

  /** What the durable registry checks of a state file before using it. */
  predicate Readable(s: State) {
    && (forall f | f in s.claims :: Hex64(f) && RequiredLine(s.claims[f]))
    && (forall f | f in s.records :: Hex64(f) && ValidRecord(s.records[f]) && s.records[f].fingerprint == f)
  }

  /** Whatever the processes did, the state they left can be read back. */
  lemma {:induction false} StateStaysReadable(request: Process -> Request, events: seq<Event>)
    requires Runs(request, events)
    ensures Readable(After(request, events).registry)
  {
    RunsConsistent(request, events);
  }

  // ---- one call on its own -----------------------------------------------------------------------

  /** The whole call with nothing in between; `built` is what the builder would return. */
  function Ensured(s: State, q: Request, built: Option<Contract>): (State, Outcome) {
    if !ValidRequest(q) then (s, Failure)
    else if AfterLookup(s, q.fingerprint).Returned? then (s, AfterLookup(s, q.fingerprint).outcome)
    else
      var claimed := Claimed(s, q.fingerprint, q.owner);
      var won := AfterClaim(ClaimOutcome(s, q.fingerprint, q.owner));
      if won.Returned? then (claimed, won.outcome)
      else
        var made := AfterBuild(q, built);
        if made.Built? && PublishAccepted(claimed, q.fingerprint, q.owner, made.record)
        then (Published(claimed, q.fingerprint, q.owner, made.record), Success(made.record, false))
        else (Released(claimed, q.fingerprint, q.owner), Failure)
  }

  method EnsureImmutableArtifact(registry: MemoryRegistry, q: Request, built: Option<Contract>) returns (outcome: Outcome)
    modifies registry
    ensures (registry.View(), outcome) == Ensured(old(registry.View()), q, built)
  {
    if !ValidRequest(q) {
      return Failure;
    }
    var found := registry.Lookup(q.fingerprint);
    if found.None? {
      return Failure;
    }
    if found.value.Some? {
      return if ValidRecord(found.value.value) then Success(found.value.value, true) else Failure;
    }
    var claim := registry.Claim(q.fingerprint, q.owner);
    match claim {
      case Ready(r) => return if ValidRecord(r) then Success(r, true) else Failure;
      case Miss =>
      case _ => return Failure;
    }
    if built.Some? {
      var record := Record(q.fingerprint, built.value);
      if ValidRecord(record) {
        var published := registry.Publish(q.fingerprint, q.owner, record);
        if published {
          return Success(record, false);
        }
      }
    }
    var released := registry.ReleaseClaim(q.fingerprint, q.owner);
    return Failure;
  }

  /** A call that fails leaves the registry as it found it, so a later run can retry. */
  lemma FailureLeavesNoTrace(s: State, q: Request, built: Option<Contract>)
    requires Ensured(s, q, built).1.Failure?
    ensures Ensured(s, q, built).0 == s
  {
    if ValidRequest(q) && ClaimOutcome(s, q.fingerprint, q.owner).Miss? {
      assert s.claims[q.fingerprint := q.owner] - {q.fingerprint} == s.claims;
    }
  }

  /** After a success every later call for the fingerprint, by any owner, reuses that record and writes nothing. */
  lemma SuccessIsReused(s: State, q: Request, built: Option<Contract>, later: Request, rebuilt: Option<Contract>)
    requires RegistrySound(s) && Ensured(s, q, built).1.Success?
    requires ValidRequest(later) && later.fingerprint == q.fingerprint
    ensures var s' := Ensured(s, q, built).0;
      RegistrySound(s') && Ensured(s', later, rebuilt) == (s', Success(Ensured(s, q, built).1.record, true))
  {
  }
}
