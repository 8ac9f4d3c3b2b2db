/** Stage execution, and what whole recovery runs through it guarantee. */
module RecoveryExecution {
  import opened Optional
  import opened Text
  import opened Ordering
  import opened Patterns
  import opened RecoveryPlan
  import opened RecoveryOrder
  import P = Polling
  import C = RecoveryCompiler

  datatype ExecutionRequest = ExecutionRequest(
    plan: Plan, stageID: string, fixtureID: string, idempotencyKey: string, ownershipMarker: string,
    resourceReferences: map<string, string>, backupReferences: map<string, string>,
    approvalReference: string, reconciliationReference: string)

  datatype Evidence = Evidence(
    dataClass: string, destination: Destination, backupID: string, restoreID: string, fixtureID: string,
    retentionDays: int, encryptionVerified: bool, protectionVerified: bool, manifestVerified: bool,
    countsVerified: bool, applicationReadsVerified: bool, permissionsVerified: bool, secretReferencesVerified: bool,
    serviceHealthVerified: bool, writerIdentityRef: string, writerEpoch: string, singleWriterVerified: bool,
    splitBrainAbsent: bool, staleOriginRejected: bool, reconciliationVerified: bool, approvalVerified: bool,
    durationSeconds: int, rpoSeconds: int, rtoSeconds: int)

  datatype Attestation = Attestation(
    action: Action, resourceRefs: seq<string>, proofRefs: seq<string>, ownershipMarker: string,
    ownershipVerified: bool, idempotencyVerified: bool, evidence: seq<Evidence>)

  type Observation = P.Answer<Attestation>

  // ---- admission -------------------------------------------------------------------------------

  function FindStage(p: Plan, id: string): Option<Stage> {
    var k := StageIndex(p.stages, id, 0);
    if k < 0 then None else Some(p.stages[k])
  }

  predicate ReferencesSafe(refs: map<string, string>) {
    forall c | c in refs :: StableID(c) && RequiredLine(refs[c])
  }

  /** `ValidateResilienceExecutionRequest` accepts. */
  predicate Admitted(q: ExecutionRequest) {
    && !Blank(q.stageID) && !Blank(q.idempotencyKey) && RequiredLine(q.fixtureID) && RequiredLine(q.ownershipMarker)
    && SingleLine(q.approvalReference + q.reconciliationReference)
    && ReferencesSafe(q.resourceReferences) && ReferencesSafe(q.backupReferences)
    && var found := FindStage(q.plan, q.stageID);
    && found.Some?
    && RequiredLine(q.plan.fixtureID) && q.fixtureID == q.plan.fixtureID
    && RequiredLine(q.plan.ownershipMarker) && q.ownershipMarker == q.plan.ownershipMarker
    && (found.value.requiresApproval ==> !Blank(q.approvalReference))
    && (found.value.approvalReference != "" ==> q.approvalReference == found.value.approvalReference)
    && (found.value.requiresReconciliation ==> !Blank(q.reconciliationReference))
    && (found.value.reconciliationReference != "" ==> q.reconciliationReference == found.value.reconciliationReference)
  }

  // ---- evidence --------------------------------------------------------------------------------

  predicate NeedsEvidence(a: Action) {
    a == Backup || a == Restore || a == IntegrityCheck || a == Fence || a == Failover || a == Failback
  }

  predicate Guarded(s: Stage) {
    s.requiresSingleWriter || s.requiresSplitBrainCheck || s.requiresStaleOriginCheck || s.requiresReconciliation
    || s.requiresApproval
  }

  /** One evidence record passes the checks that do not depend on the stage's classes. */
  predicate RecordAcceptable(caps: map<string, Capability>, s: Stage, fixtureID: string, e: Evidence) {
    && StableID(e.dataClass) && e.fixtureID == fixtureID
    && (s.destination != NoDestination ==> e.destination == s.destination)
    && e.retentionDays >= 0 && e.durationSeconds >= 0 && e.rpoSeconds >= 0 && e.rtoSeconds >= 0
    && (Guarded(s) ==>
          && !Blank(e.writerIdentityRef) && !Blank(e.writerEpoch)
          && (s.requiresSingleWriter ==> e.singleWriterVerified)
          && (s.requiresSplitBrainCheck ==> e.splitBrainAbsent)
          && (s.requiresStaleOriginCheck ==> e.staleOriginRejected)
          && (s.requiresReconciliation ==> e.reconciliationVerified)
          && (s.requiresApproval ==> e.approvalVerified))
    && e.dataClass in caps
    && (caps[e.dataClass].retentionRequired ==> e.retentionDays > 0)
    && (caps[e.dataClass].encryptionRequired ==> e.encryptionVerified)
    && (caps[e.dataClass].protectionRequired ==> e.protectionVerified)
  }

  predicate OccursAt(s: string, i: nat, word: string) {
    i + |word| <= |s| && s[i..i + |word|] == word
  }

  predicate Contains(s: string, word: string) {
    exists i | 0 <= i < |s| :: OccursAt(s, i, word)
  }

  /** What a class's own record must show for the stage's action. */
  predicate Shows(a: Action, dataClass: string, e: Evidence) {
    match a
    case Backup => !Blank(e.backupID)
    case Restore => !Blank(e.restoreID) && e.serviceHealthVerified
    case IntegrityCheck =>
      && (e.manifestVerified || e.countsVerified || e.applicationReadsVerified)
      && e.permissionsVerified && e.serviceHealthVerified
      && (Contains(dataClass, "secret") ==> e.secretReferencesVerified)
    case Failover => e.serviceHealthVerified
    case _ => true
  }

  predicate OneRecordPerClass(es: seq<Evidence>) {
    forall i, j | 0 <= i < j < |es| :: es[i].dataClass != es[j].dataClass
  }

  predicate RecordFor(es: seq<Evidence>, i: nat, dataClass: string) {
    i < |es| && es[i].dataClass == dataClass
  }

  /** `validateResilienceOperationEvidence` accepts. */
  predicate EvidenceAccepted(caps: map<string, Capability>, s: Stage, fixtureID: string, es: seq<Evidence>) {
    NeedsEvidence(s.action) ==>
      && (forall i | 0 <= i < |es| :: RecordAcceptable(caps, s, fixtureID, es[i])) && OneRecordPerClass(es)
      && (forall c | c in s.dataClasses :: ClassShown(s.action, es, c))
  }

  predicate Indexed(es: seq<Evidence>, byClass: map<string, Evidence>) {
    && (forall i | 0 <= i < |es| :: es[i].dataClass in byClass && byClass[es[i].dataClass] == es[i])
    && (forall c | c in byClass :: exists i | 0 <= i < |es| :: RecordFor(es, i, c))
  }

  lemma IndexExtends(front: seq<Evidence>, e: Evidence, byClass: map<string, Evidence>)
    requires Indexed(front, byClass) && OneRecordPerClass(front)
    ensures e.dataClass !in byClass ==>
              Indexed(front + [e], byClass[e.dataClass := e]) && OneRecordPerClass(front + [e])
    ensures e.dataClass in byClass ==> !OneRecordPerClass(front + [e])
  {
    var all, extended := front + [e], byClass[e.dataClass := e];
    assert RecordFor(all, |front|, e.dataClass);
    if e.dataClass in byClass {
      var i :| 0 <= i < |front| && RecordFor(front, i, e.dataClass);
      assert all[i].dataClass == all[|front|].dataClass;
    } else {
      forall c {:trigger c in extended} | c in extended ensures exists i | 0 <= i < |all| :: RecordFor(all, i, c) {
        if c != e.dataClass {
          assert c in byClass;
          var i :| 0 <= i < |front| && RecordFor(front, i, c);
          assert RecordFor(all, i, c);
        }
      }
    }
  }

  /** The first loop: every record is acceptable, and no class has two. */
  method CollectEvidence(caps: map<string, Capability>, s: Stage, fixtureID: string, es: seq<Evidence>)
    returns (ok: bool, byClass: map<string, Evidence>)
    ensures ok <==> (forall i | 0 <= i < |es| :: RecordAcceptable(caps, s, fixtureID, es[i])) && OneRecordPerClass(es)
    ensures ok ==> Indexed(es, byClass)
  {
    byClass := map[];
    for k := 0 to |es|
      invariant forall i | 0 <= i < k :: RecordAcceptable(caps, s, fixtureID, es[i])
      invariant OneRecordPerClass(es[..k]) && Indexed(es[..k], byClass)
    {
      var e := es[k];
      assert es[..k + 1] == es[..k] + [e];
      IndexExtends(es[..k], e, byClass);
      if !RecordAcceptable(caps, s, fixtureID, e) {
        return false, byClass;
      }
      if e.dataClass in byClass {
        assert !OneRecordPerClass(es[..k + 1]);
        return false, byClass;
      }
      byClass := byClass[e.dataClass := e];
    }
    assert es[..|es|] == es;
    return true, byClass;
  }

  predicate ClassShown(a: Action, es: seq<Evidence>, c: string) {
    exists i | 0 <= i < |es| :: RecordFor(es, i, c) && Shows(a, c, es[i])
  }

  /** The second loop: every class of the stage has a record, and it shows what the action needs. */
  method CheckClasses(s: Stage, es: seq<Evidence>, byClass: map<string, Evidence>) returns (ok: bool)
    requires Indexed(es, byClass)
    ensures ok <==> forall c | c in s.dataClasses :: ClassShown(s.action, es, c)
  {
    for k := 0 to |s.dataClasses|
      invariant forall j | 0 <= j < k :: ClassShown(s.action, es, s.dataClasses[j])
    {
      var c := s.dataClasses[k];
      assert c in s.dataClasses;
      if c !in byClass || !Shows(s.action, c, byClass[c]) {
        return false;
      }
      ghost var i :| 0 <= i < |es| && RecordFor(es, i, c);
      assert byClass[c] == es[i];
    }
    return true;
  }

  method ValidateEvidence(d: Descriptor, s: Stage, fixtureID: string, es: seq<Evidence>) returns (ok: bool)
    ensures ok <==> EvidenceAccepted(CapabilityMap(d.dataClasses), s, fixtureID, es)
  {
    var caps := C.IndexCapabilities(d);
    if !NeedsEvidence(s.action) {
      return true;
    }
    var collected, byClass := CollectEvidence(caps, s, fixtureID, es);
    if !collected {
      return false;
    }
    ok := CheckClasses(s, es, byClass);
  }

  // ---- execution -------------------------------------------------------------------------------

  /** The provider's answers during one execution: the start call, then the polling trace. */
  datatype Provider = Provider(started: Option<Observation>, trace: seq<P.Turn<Observation>>)

  predicate InProgress(o: Observation) {
    o.status == P.Pending || o.status == P.Running
  }

  /** The observation execution judges: the start answer, or what polling made of it. */
  function Settled(policy: P.Policy, v: Provider): Option<Observation>
    requires P.ValidPolicy(policy) && policy.maxAttempts <= |v.trace|
  {
    if v.started.None? then None
    else if !InProgress(v.started.value) then v.started
    else if Blank(v.started.value.operationID) then None
    else
      var outcome := P.OperationResult(P.RESILIENCE_FAILED, v.trace, v.started.value.operationID, policy.maxAttempts);
      if outcome.Done? then Some(outcome.answer) else None
  }

  predicate Accepted(d: Descriptor, q: ExecutionRequest, s: Stage, o: Observation) {
    && o.status == P.Succeeded
    && (o.body.action != NoAction ==> o.body.action == s.action)
    && o.body.ownershipMarker == q.ownershipMarker && o.body.ownershipVerified && o.body.idempotencyVerified
    && EvidenceAccepted(CapabilityMap(d.dataClasses), s, q.fixtureID, o.body.evidence)
    && (o.operationID != "" || o.body.resourceRefs != [] || o.body.proofRefs != [])
  }

  /** A successful execution's observation, or `None` for any error. */
  function Execute(d: Descriptor, policy: P.Policy, q: ExecutionRequest, v: Provider): Option<Observation>
    requires P.ValidPolicy(policy) && policy.maxAttempts <= |v.trace|
  {
    if !Admitted(q) then None
    else
      var s, settled := FindStage(q.plan, q.stageID).value, Settled(policy, v);
      if settled.Some? && Accepted(d, q, s, settled.value) then settled else None
  }

  method ExecuteResilience(d: Descriptor, policy: P.Policy, q: ExecutionRequest, v: Provider)
    returns (result: Option<Observation>)
    requires P.ValidPolicy(policy) && policy.maxAttempts <= |v.trace|
    ensures result == Execute(d, policy, q, v)
  {
    if !Admitted(q) {
      return None;
    }
    var stage := FindStage(q.plan, q.stageID).value;
    if v.started.None? {
      return None;
    }
    var observation := v.started.value;
    if observation.operationID == "" && observation.status != P.Succeeded {
      assert Blank("");
      return None;
    }
    if InProgress(observation) {
      var outcome, _, _ := P.WaitForOperation(P.RESILIENCE_FAILED, v.trace, observation.operationID, policy);
      match outcome {
        case Done(answer) => observation := answer;
        case _ => return None;
      }
    }
    if observation.status != P.Succeeded {
      return None;
    }
    if observation.body.action != NoAction && observation.body.action != stage.action {
      return None;
    }
    if observation.body.ownershipMarker != q.ownershipMarker || !observation.body.ownershipVerified {
      return None;
    }
    if !observation.body.idempotencyVerified {
      return None;
    }
    var evidenced := ValidateEvidence(d, stage, q.fixtureID, observation.body.evidence);
    if !evidenced {
      return None;
    }
    if observation.operationID == "" && |observation.body.resourceRefs| == 0 && |observation.body.proofRefs| == 0 {
      return None;
    }
    return Some(observation);
  }

  // ---- whole runs ------------------------------------------------------------------------------

  /** One call of ExecuteResilience during a recovery: what was asked and what the provider answered. */
  datatype Call = Call(request: ExecutionRequest, provider: Provider)

  predicate Succeeds(d: Descriptor, policy: P.Policy, c: Call)
    requires P.ValidPolicy(policy)
  {
    policy.maxAttempts <= |c.provider.trace| && Execute(d, policy, c.request, c.provider).Some?
  }

  /** The stages whose executions succeeded, in order. */
  function Fired(d: Descriptor, policy: P.Policy, calls: seq<Call>): seq<string>
    requires P.ValidPolicy(policy)
  {
    if calls == [] then []
    else
      var last := calls[|calls| - 1];
      Fired(d, policy, calls[..|calls| - 1]) + if Succeeds(d, policy, last) then [last.request.stageID] else []
  }

  /** A run of one plan in which failures, retries, interruptions and resumptions are all just calls. */
  ghost predicate RecoveryRun(d: Descriptor, policy: P.Policy, p: Plan, calls: seq<Call>)
    requires P.ValidPolicy(policy)
  {
    && (forall i | 0 <= i < |calls| :: calls[i].request.plan == p)
    && Respects(p, Fired(d, policy, calls))
  }

  /** Call `k` is the one that fired the `i`-th stage. */
  predicate FiresAt(d: Descriptor, policy: P.Policy, calls: seq<Call>, k: nat, i: nat)
    requires P.ValidPolicy(policy)
  {
    && i < |Fired(d, policy, calls)| && k < |calls| && Succeeds(d, policy, calls[k])
    && calls[k].request.stageID == Fired(d, policy, calls)[i]
    && Fired(d, policy, calls[..k]) == Fired(d, policy, calls)[..i]
  }

  lemma {:induction false} FiredByCall(d: Descriptor, policy: P.Policy, calls: seq<Call>, i: nat) returns (k: nat)
    requires P.ValidPolicy(policy) && i < |Fired(d, policy, calls)|
    ensures FiresAt(d, policy, calls, k, i)
  {
    var n := |calls| - 1;
    var front := Fired(d, policy, calls[..n]);
    if i < |front| {
      k := FiredByCall(d, policy, calls[..n], i);
      assert calls[..n][..k] == calls[..k] && calls[..n][k] == calls[k];
      assert Fired(d, policy, calls)[..i] == front[..i];
    } else {
      assert Fired(d, policy, calls)[..i] == front;
      k := n;
    }
  }

  lemma {:induction false} FiredPrefix(d: Descriptor, policy: P.Policy, calls: seq<Call>, k: nat)
    requires P.ValidPolicy(policy) && k <= |calls|
    ensures |Fired(d, policy, calls[..k])| <= |Fired(d, policy, calls)|
    ensures Fired(d, policy, calls[..k]) == Fired(d, policy, calls)[..|Fired(d, policy, calls[..k])|]
    decreases |calls|
  {
    if k == |calls| {
      assert calls[..k] == calls;
    } else {
      var front := calls[..|calls| - 1];
      assert front[..k] == calls[..k];
      FiredPrefix(d, policy, front, k);
      assert Fired(d, policy, calls)[..|Fired(d, policy, front)|] == Fired(d, policy, front);
    }
  }

  /** A stage with distinct IDs is the one that lookup finds. */
  lemma FindFindsShape(p: Plan, e: Stage)
    requires NoRepeats(StageIDs(p.stages)) && HasShape(p, e)
    ensures FindStage(p, e.id).Some? && SameShape(e, FindStage(p, e.id).value)
  {
    var i :| 0 <= i < |p.stages| && SameShape(e, p.stages[i]);
    var k := StageIndex(p.stages, e.id, 0);
    assert StageIDs(p.stages)[i] == e.id && StageIDs(p.stages)[k] == e.id;
    SameIndex(StageIDs(p.stages), i, k);
  }

  lemma FailoverFiresLate(d: Descriptor, policy: P.Policy, p: Plan, classes: seq<DataClass>, to: Destination, failback: bool,
                          calls: seq<Call>, n: nat, c: DataClass)
    requires Built(p, classes, to, failback) && P.ValidPolicy(policy) && RecoveryRun(d, policy, p, calls)
    requires n < |calls| && Succeeds(d, policy, calls[n]) && calls[n].request.stageID == FAILOVER_ID
    requires c in classes
    ensures to in {AlternateRegion, AlternateProvider} && ClassDone(to, Fired(d, policy, calls[..n]), c)
  {
    var before, fired := Fired(d, policy, calls[..n]), Fired(d, policy, calls);
    assert calls[..n + 1][..n] == calls[..n];
    FiredPrefix(d, policy, calls, n + 1);
    FiredPrefix(d, policy, calls, n);
    var i := |before|;
    assert Fired(d, policy, calls[..n + 1]) == before + [FAILOVER_ID];
    assert fired[i] == FAILOVER_ID && fired[..i] == before;
    FailoverAfterEveryClass(p, classes, to, failback, fired, i, c);
  }

  /** Every successful call of a stage that requires approval carried one, equal to any the plan bound. */
  lemma ApprovalIsPresented(d: Descriptor, policy: P.Policy, q: ExecutionRequest, v: Provider)
    requires P.ValidPolicy(policy) && policy.maxAttempts <= |v.trace| && Execute(d, policy, q, v).Some?
    ensures var s := FindStage(q.plan, q.stageID).value;
            && (s.requiresApproval ==> !Blank(q.approvalReference))
            && (s.approvalReference != "" ==> q.approvalReference == s.approvalReference)
            && (s.requiresReconciliation ==> !Blank(q.reconciliationReference))
            && (s.reconciliationReference != "" ==> q.reconciliationReference == s.reconciliationReference)
            && q.fixtureID == q.plan.fixtureID && q.ownershipMarker == q.plan.ownershipMarker
  {
  }

  /** Which stages must be approved, reconciled and checked for a stale origin or a second writer. */
  predicate RiskMarked(s: Stage, to: Destination) {
    && (s.requiresApproval <==>
          s.action == Fence || s.action == Failover || s.action == Failback
          || (s.action == Restore && (to == SameRegion || s.dataClasses == ["queue"])))
    && (s.requiresReconciliation <==> s.action == Failback)
    && (s.requiresStaleOriginCheck <==> s.action == Failover || s.action == Failback)
    && (s.requiresSingleWriter <==> s.action == Fence || s.action == Failover || s.action == Failback)
    && (s.requiresSplitBrainCheck <==> s.action == Fence || s.action == Failover || s.action == Failback)
  }

  lemma ClassStagesMarked(c: DataClass, to: Destination)
    ensures RiskMarked(BackupStage(c, to), to) && RiskMarked(RestoreStage(c, to), to) && RiskMarked(IntegrityStage(c, to), to)
  {
  }

  lemma EmittedMarked(classes: seq<DataClass>, to: Destination, failback: bool, e: Stage)
    requires e in Emitted(classes, to, failback)
    ensures RiskMarked(e, to)
  {
    EmittedShapes(classes, to, failback, e);
    forall c | c in classes
      ensures RiskMarked(BackupStage(c, to), to) && RiskMarked(RestoreStage(c, to), to) && RiskMarked(IntegrityStage(c, to), to)
    {
      ClassStagesMarked(c, to);
    }
  }

  /** The stages of a compiled plan that cannot run unapproved: fence, failover, failback, and risky restores. */
  lemma RiskyStagesNeedApproval(d: Descriptor, r: Request, p: Plan, s: Stage)
    requires Compile(d, r) == Some(p) && s in p.stages
    ensures RiskMarked(s, Chosen(d, r).value)
  {
    var to, classes, failback := Chosen(d, r).value, SortedClasses(r), WantsFailback(r);
    CompiledIsBuilt(d, r, p);
    BuiltMarked(p, classes, to, failback, s);
  }

  lemma BuiltMarked(p: Plan, classes: seq<DataClass>, to: Destination, failback: bool, s: Stage)
    requires Built(p, classes, to, failback) && s in p.stages
    ensures RiskMarked(s, to)
  {
    var e :| e in Emitted(classes, to, failback) && SameShape(e, s);
    EmittedMarked(classes, to, failback, e);
  }

  predicate Risky(s: Stage, to: Destination) {
    || s.action == Fence || s.action == Failover || s.action == Failback
    || (s.action == Restore && (to == SameRegion || s.dataClasses == ["queue"]))
  }

  /**
    * In every run of a compiled plan, each risky stage that fired was fired by a call with a non-blank approval equal
    * to any the plan bound, and a failback also by one with the bound reconciliation reference.
    */
  lemma RiskyFiringIsApproved(d: Descriptor, r: Request, p: Plan, policy: P.Policy, calls: seq<Call>, i: nat) returns (k: nat)
    requires Compile(d, r) == Some(p) && P.ValidPolicy(policy) && RecoveryRun(d, policy, p, calls)
    requires i < |Fired(d, policy, calls)|
    ensures FiresAt(d, policy, calls, k, i) && FindStage(p, Fired(d, policy, calls)[i]).Some?
    ensures var s, q := FindStage(p, Fired(d, policy, calls)[i]).value, calls[k].request;
      && (Risky(s, Chosen(d, r).value) ==>
            !Blank(q.approvalReference) && (s.approvalReference != "" ==> q.approvalReference == s.approvalReference))
      && (s.action == Failback ==>
            && !Blank(q.reconciliationReference)
            && (s.reconciliationReference != "" ==> q.reconciliationReference == s.reconciliationReference))
  {
    k := FiredByCall(d, policy, calls, i);
    ApprovalIsPresented(d, policy, calls[k].request, calls[k].provider);
    RiskyStagesNeedApproval(d, r, p, FindStage(p, Fired(d, policy, calls)[i]).value);
  }
}
