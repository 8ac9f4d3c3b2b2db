/** The artifact registry does build: which calls succeed, and with what. */
module ArtifactProgress {
  import opened Optional
  import opened Patterns
  import opened Text
  import opened ArtifactRegistry

  /** A contract that may be published for the fingerprint. */
  predicate Publishable(fingerprint: string, a: Contract) {
    && Hex64(fingerprint) && a.inputFingerprint == fingerprint && a.secretSafe
    && ImageReference(a.imageDigest) && Sha256Digest(a.manifestDigest)
    && RequiredLine(a.provenanceReference) && RequiredLine(a.signatureReference)
  }

  // ---- one call on its own -----------------------------------------------------------------------

  /**
    * The whole call on a sound registry: an unacceptable request fails; a published record is reused; a claimed
    * fingerprint is blocked; otherwise a publishable build is stored and returned, its claim gone and every other key
    * untouched, and anything else the builder does fails. Every failure leaves the registry as it was.
    */
  lemma EnsuredIs(s: State, q: Request, built: Option<Contract>)
    requires RegistrySound(s)
    ensures Ensured(s, q, built)
         == if !(Hex64(q.fingerprint) && RequiredLine(q.owner) && q.ownerSecretSafe) then (s, Failure)
            else if q.fingerprint in s.records then (s, Success(s.records[q.fingerprint], true))
            else if q.fingerprint in s.claims then (s, Failure)
            else if built.Some? && Publishable(q.fingerprint, built.value) then
              var r := Record(q.fingerprint, built.value);
              (State(s.claims, s.records[q.fingerprint := r]), Success(r, false))
            else (s, Failure)
  {
    if ValidRequest(q) && q.fingerprint !in s.claims {
      assert s.claims[q.fingerprint := q.owner] - {q.fingerprint} == s.claims;
    }
  }

  /** The answer to a claim: refused on a bad fingerprint or owner, ready if published, blocked if claimed, else a miss. */
  lemma ClaimMeans(s: State, f: string, owner: string)
    ensures ClaimOutcome(s, f, owner)
         == if !Hex64(f) || !RequiredLine(owner) then Refused
            else if f in s.records then Ready(s.records[f])
            else if f in s.claims && s.claims[f] != owner then ClaimedByOther
            else if f in s.claims then AlreadyClaimed
            else Miss
    ensures ClaimOutcome(s, f, owner).Miss? ==> Claimed(s, f, owner) == s.(claims := s.claims[f := owner])
    ensures !ClaimOutcome(s, f, owner).Miss? ==> Claimed(s, f, owner) == s
    ensures Released(s, f, owner) == if f in s.claims && s.claims[f] != owner then s else s.(claims := s.claims - {f})
  {
  }

  // ---- runs --------------------------------------------------------------------------------------

  lemma OwnEventsOnly(request: Process -> Request, events: seq<Event>, p: Process)
    requires events != [] && Runs(request, events) && events[|events| - 1].process != p
    ensures var front := events[..|events| - 1];
      && (p in After(request, events).phases <==> p in After(request, front).phases)
      && (p in After(request, front).phases ==> After(request, events).phases[p] == After(request, front).phases[p])
  {
  }

  /** A process stays as its last step left it. */
  lemma {:induction false} PhaseKept(request: Process -> Request, events: seq<Event>, i: nat, p: Process)
    requires i <= |events| && Runs(request, events) && forall k | i <= k < |events| :: events[k].process != p
    ensures Runs(request, events[..i])
    ensures p in After(request, events[..i]).phases ==>
      p in After(request, events).phases && After(request, events).phases[p] == After(request, events[..i]).phases[p]
  {
    RunPrefix(request, events, i);
    if i == |events| {
      assert events[..i] == events;
    } else {
      var front := events[..|events| - 1];
      assert front[..i] == events[..i];
      PhaseKept(request, front, i, p);
      OwnEventsOnly(request, events, p);
    }
  }

  lemma PublishableIff(f: string, a: Contract)
    ensures ValidRecord(Record(f, a)) <==> Publishable(f, a)
  {
  }

  lemma BuiltByStep(request: Process -> Request, w: World, p: Process, a: Contract)
    requires Enabled(request, w, Build(p, Some(a))) && ValidRecord(Record(request(p).fingerprint, a))
    ensures At(Step(request, w, Build(p, Some(a))), p, Built(Record(request(p).fingerprint, a)))
  {
  }

  lemma LastStep(request: Process -> Request, events: seq<Event>)
    requires events != [] && Runs(request, events)
    ensures var front, e := events[..|events| - 1], events[|events| - 1];
      && Runs(request, front) && Enabled(request, After(request, front), e)
      && After(request, events) == Step(request, After(request, front), e)
  {
  }

  lemma BuildStep(request: Process -> Request, events: seq<Event>, i: nat, a: Contract)
    requires i < |events| && Runs(request, events) && events[i] == Build(events[i].process, Some(a))
    requires Publishable(request(events[i].process).fingerprint, a)
    ensures Runs(request, events[..i + 1])
    ensures At(After(request, events[..i + 1]), events[i].process, Built(Record(request(events[i].process).fingerprint, a)))
  {
    RunPrefix(request, events, i + 1);
    LastStep(request, events[..i + 1]);
    PublishableIff(request(events[i].process).fingerprint, a);
    BuiltByStep(request, After(request, events[..i + 1][..i]), events[i].process, a);
  }

  /**
    * In every run: a process whose builder returned a publishable contract, and whose next step is a publication that
    * works, returns success with exactly that contract, freshly built.
    */
  lemma BuilderSucceeds(request: Process -> Request, events: seq<Event>, i: nat, a: Contract)
    requires i < |events| - 1 && Runs(request, events) && events[i] == Build(events[i].process, Some(a))
    requires Publishable(request(events[i].process).fingerprint, a)
    requires forall k | i < k < |events| - 1 :: events[k].process != events[i].process
    requires events[|events| - 1] == PublishBuilt(events[i].process, Normal)
    ensures var p, f := events[i].process, request(events[i].process).fingerprint;
      && At(After(request, events), p, Returned(Success(Record(f, a), false)))
      && f in After(request, events).registry.records && After(request, events).registry.records[f] == Record(f, a)
      && f !in After(request, events).registry.claims
  {
    var p, front := events[i].process, events[..|events| - 1];
    var r := Record(request(p).fingerprint, a);
    assert front[..i + 1] == events[..i + 1];
    BuildStep(request, events, i, a);
    PhaseKept(request, front, i + 1, p);
    PublicationAlwaysAccepted(request, front, p, r);
  }

  lemma RunExtends(request: Process -> Request, events: seq<Event>, e: Event)
    requires Runs(request, events) && Enabled(request, After(request, events), e)
    ensures Runs(request, events + [e]) && After(request, events + [e]) == Step(request, After(request, events), e)
  {
    assert (events + [e])[..|events|] == events;
  }

  /**
    * From every reachable state with the fingerprint neither claimed nor published, a new process that is left alone
    * looks up, claims, builds and publishes successfully.
    */
  lemma FreshProcessPublishes(request: Process -> Request, events: seq<Event>, p: Process, a: Contract)
    requires Runs(request, events) && p !in After(request, events).phases
    requires var q := request(p); Hex64(q.fingerprint) && RequiredLine(q.owner) && q.ownerSecretSafe && Publishable(q.fingerprint, a)
    requires request(p).fingerprint !in After(request, events).registry.claims
    requires request(p).fingerprint !in After(request, events).registry.records
    ensures var all := events + [LookUp(p, Normal)] + [TakeClaim(p, Normal)] + [Build(p, Some(a))] + [PublishBuilt(p, Normal)];
      && Runs(request, all)
      && At(After(request, all), p, Returned(Success(Record(request(p).fingerprint, a), false)))
  {
    var one := events + [LookUp(p, Normal)];
    RunExtends(request, events, LookUp(p, Normal));
    var two := one + [TakeClaim(p, Normal)];
    RunExtends(request, one, TakeClaim(p, Normal));
    var three := two + [Build(p, Some(a))];
    RunExtends(request, two, Build(p, Some(a)));
    RunExtends(request, three, PublishBuilt(p, Normal));
    var all := three + [PublishBuilt(p, Normal)];
    assert all[|two|] == Build(p, Some(a));
    BuilderSucceeds(request, all, |two|, a);
  }
}
