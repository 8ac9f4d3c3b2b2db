/** What accepted evidence contains, field by field, and what a successful failover therefore stands on. */
module RecoveryEvidence {
  import opened Optional
  import opened Text
  import opened Patterns
  import opened Ordering
  import opened RecoveryPlan
  import opened RecoveryOrder
  import opened RecoveryContents
  import opened RecoveryExecution

  // ---- the fields ------------------------------------------------------------------------------

  ghost predicate Mentions(s: string, word: string) {
    exists before, after :: s == before + word + after
  }

  lemma ContainsIff(s: string, word: string)
    requires word != ""
    ensures Contains(s, word) <==> Mentions(s, word)
  {
    if Contains(s, word) {
      var i :| 0 <= i < |s| && OccursAt(s, i, word);
      assert s == s[..i] + word + s[i + |word|..];
    }
    if before, after :| s == before + word + after {
      assert OccursAt(s, |before|, word);
    }
  }

  /** The actions whose evidence is examined. */
  predicate Examined(a: Action) {
    a in {Backup, Restore, IntegrityCheck, Fence, Failover, Failback}
  }

  /** A record is about this recovery: its fixture, its destination, and nothing negative. */
  predicate Belongs(s: Stage, fixtureID: string, e: Evidence) {
    && StableID(e.dataClass) && e.fixtureID == fixtureID
    && (s.destination == NoDestination || e.destination == s.destination)
    && e.retentionDays >= 0 && e.durationSeconds >= 0 && e.rpoSeconds >= 0 && e.rtoSeconds >= 0
  }

  /** It vouches for the writer and for every safety check the stage asks for. */
  predicate Vouches(s: Stage, e: Evidence) {
    && ((s.requiresSingleWriter || s.requiresSplitBrainCheck || s.requiresStaleOriginCheck || s.requiresReconciliation
         || s.requiresApproval) ==> (!Blank(e.writerIdentityRef) && !Blank(e.writerEpoch)))
    && (s.requiresSingleWriter ==> e.singleWriterVerified) && (s.requiresSplitBrainCheck ==> e.splitBrainAbsent)
    && (s.requiresStaleOriginCheck ==> e.staleOriginRejected) && (s.requiresReconciliation ==> e.reconciliationVerified)
    && (s.requiresApproval ==> e.approvalVerified)
  }

  /** It honours what the class's row promises to keep, encrypt and protect. */
  predicate Honours(row: Capability, e: Evidence) {
    && (row.retentionRequired ==> e.retentionDays >= 1)
    && (row.encryptionRequired ==> e.encryptionVerified) && (row.protectionRequired ==> e.protectionVerified)
  }

  /** It proves what the stage did to the class. */
  ghost predicate Proves(a: Action, name: string, e: Evidence) {
    && (a == Backup ==> !Blank(e.backupID))
    && (a == Restore ==> !Blank(e.restoreID) && e.serviceHealthVerified)
    && (a == IntegrityCheck ==>
          && (e.manifestVerified || e.countsVerified || e.applicationReadsVerified)
          && e.permissionsVerified && e.serviceHealthVerified && (Mentions(name, "secret") ==> e.secretReferencesVerified))
    && (a == Failover ==> e.serviceHealthVerified)
  }

  predicate Sound(caps: map<string, Capability>, s: Stage, fixtureID: string, e: Evidence) {
    Belongs(s, fixtureID, e) && Vouches(s, e) && e.dataClass in caps && Honours(caps[e.dataClass], e)
  }

  ghost predicate ProvenFor(s: Stage, es: seq<Evidence>, name: string) {
    exists e | e in es :: e.dataClass == name && Proves(s.action, name, e)
  }

  lemma SoundIff(caps: map<string, Capability>, s: Stage, fixtureID: string, e: Evidence)
    ensures RecordAcceptable(caps, s, fixtureID, e) <==> Sound(caps, s, fixtureID, e)
  {
  }

  lemma ProvesIff(a: Action, name: string, e: Evidence)
    ensures Shows(a, name, e) <==> Proves(a, name, e)
  {
    ContainsIff(name, "secret");
  }

  lemma ProvenForIff(s: Stage, es: seq<Evidence>, name: string)
    ensures ClassShown(s.action, es, name) <==> ProvenFor(s, es, name)
  {
    forall e ensures Shows(s.action, name, e) <==> Proves(s.action, name, e) { ProvesIff(s.action, name, e); }
    if ClassShown(s.action, es, name) {
      var i :| 0 <= i < |es| && RecordFor(es, i, name) && Shows(s.action, name, es[i]);
      assert es[i] in es;
    }
    if ProvenFor(s, es, name) {
      var e :| e in es && e.dataClass == name && Proves(s.action, name, e);
      var i :| 0 <= i < |es| && es[i] == e;
      assert RecordFor(es, i, name);
    }
  }

  /**
   * The evidence check in fields: unless the action needs none, every record is sound, no two are for one class, and
   * every class of the stage has a record that proves what was done to it.
   */
  lemma EvidenceAcceptedIff(caps: map<string, Capability>, s: Stage, fixtureID: string, es: seq<Evidence>)
    ensures EvidenceAccepted(caps, s, fixtureID, es) <==>
              (Examined(s.action) ==>
                 && (forall e | e in es :: Sound(caps, s, fixtureID, e))
                 && (forall i, j | 0 <= i < j < |es| :: es[i].dataClass != es[j].dataClass)
                 && (forall name | name in s.dataClasses :: ProvenFor(s, es, name)))
  {
    forall name ensures ClassShown(s.action, es, name) <==> ProvenFor(s, es, name) { ProvenForIff(s, es, name); }
    forall e ensures RecordAcceptable(caps, s, fixtureID, e) <==> Sound(caps, s, fixtureID, e) { SoundIff(caps, s, fixtureID, e); }
    assert (forall e | e in es :: Sound(caps, s, fixtureID, e)) <==> forall i | 0 <= i < |es| :: RecordAcceptable(caps, s, fixtureID, es[i]);
  }

  // ---- the whole call --------------------------------------------------------------------------

  /** The first stage of the plan with this ID. */
  predicate FirstWithID(p: Plan, id: string, s: Stage) {
    exists k | 0 <= k < |p.stages| :: p.stages[k] == s && s.id == id && forall i | 0 <= i < k :: p.stages[i].id != id
  }

  /** The request is complete, belongs to its plan, and presents what its stage requires or was bound to. */
  predicate Presentable(q: ExecutionRequest, s: Stage) {
    && !Blank(q.stageID) && !Blank(q.idempotencyKey)
    && RequiredLine(q.fixtureID) && q.fixtureID == q.plan.fixtureID
    && RequiredLine(q.ownershipMarker) && q.ownershipMarker == q.plan.ownershipMarker
    && SingleLine(q.approvalReference) && SingleLine(q.reconciliationReference)
    && (forall c | c in q.resourceReferences :: StableID(c) && RequiredLine(q.resourceReferences[c]))
    && (forall c | c in q.backupReferences :: StableID(c) && RequiredLine(q.backupReferences[c]))
    && (s.requiresApproval ==> !Blank(q.approvalReference))
    && (s.approvalReference == "" || s.approvalReference == q.approvalReference)
    && (s.requiresReconciliation ==> !Blank(q.reconciliationReference))
    && (s.reconciliationReference == "" || s.reconciliationReference == q.reconciliationReference)
  }

  lemma FindIsFirst(p: Plan, id: string, s: Stage)
    ensures FindStage(p, id) == Some(s) <==> FirstWithID(p, id, s)
  {
    var k := StageIndex(p.stages, id, 0);
    if FirstWithID(p, id, s) {
      var j :| 0 <= j < |p.stages| && p.stages[j] == s && s.id == id && forall i | 0 <= i < j :: p.stages[i].id != id;
      assert k == j;
    }
  }

  lemma AdmittedIff(q: ExecutionRequest)
    ensures Admitted(q) <==> FindStage(q.plan, q.stageID).Some? && Presentable(q, FindStage(q.plan, q.stageID).value)
  {
    assert SingleLine(q.approvalReference + q.reconciliationReference)
      <==> SingleLine(q.approvalReference) && SingleLine(q.reconciliationReference);
  }

  /** The settled answer is a success for this stage and owner, with accepted evidence. */
  ghost predicate Acceptable(d: Descriptor, q: ExecutionRequest, s: Stage, o: Observation) {
    && Attributed(q.plan, o) && (o.body.action == s.action || o.body.action == NoAction)
    && (Examined(s.action) ==>
          && (forall e | e in o.body.evidence :: Sound(CapabilityMap(d.dataClasses), s, q.fixtureID, e))
          && (forall i, j | 0 <= i < j < |o.body.evidence| :: o.body.evidence[i].dataClass != o.body.evidence[j].dataClass)
          && (forall name | name in s.dataClasses :: ProvenFor(s, o.body.evidence, name)))
  }

  /** The answer to judge: a finished first answer, or the success that polling a pending one ended in. */
  predicate Concludes(policy: P.Policy, v: Provider, o: Observation)
    requires P.ValidPolicy(policy) && policy.maxAttempts <= |v.trace|
  {
    v.started.Some?
    && var first := v.started.value;
       if first.status == P.Pending || first.status == P.Running
       then && !Blank(first.operationID)
            && P.OperationResult("provider reported resilience operation failure", v.trace, first.operationID, policy.maxAttempts)
               == P.Done(o)
       else o == first
  }

  lemma SettledMeans(policy: P.Policy, v: Provider, o: Observation)
    requires P.ValidPolicy(policy) && policy.maxAttempts <= |v.trace|
    ensures Settled(policy, v) == Some(o) <==> Concludes(policy, v, o)
  {
  }

  /**
   * A call succeeds exactly when its request is presentable for the first stage of its ID and the settled answer is
   * acceptable for that stage; it then returns that answer.
   */
  lemma ExecutesIff(d: Descriptor, policy: P.Policy, q: ExecutionRequest, v: Provider, o: Observation)
    requires P.ValidPolicy(policy) && policy.maxAttempts <= |v.trace|
    ensures Execute(d, policy, q, v) == Some(o) <==>
              exists s :: FirstWithID(q.plan, q.stageID, s) && Presentable(q, s)
                && Concludes(policy, v, o) && Acceptable(d, q, s, o)
  {
    AdmittedIff(q);
    SettledMeans(policy, v, o);
    forall s ensures FindStage(q.plan, q.stageID) == Some(s) <==> FirstWithID(q.plan, q.stageID, s) {
      FindIsFirst(q.plan, q.stageID, s);
    }
    if FindStage(q.plan, q.stageID).Some? {
      EvidenceAcceptedIff(CapabilityMap(d.dataClasses), FindStage(q.plan, q.stageID).value, q.fixtureID, o.body.evidence);
    }
  }

  // ---- successful calls ------------------------------------------------------------------------

  /** The answer is a success that names this recovery's owner and points at something. */
  predicate Attributed(p: Plan, o: Observation) {
    && o.status == P.Succeeded && o.body.ownershipMarker == p.ownershipMarker && o.body.ownershipVerified
    && o.body.idempotencyVerified && (o.operationID != "" || o.body.resourceRefs != [] || o.body.proofRefs != [])
  }

  /** The record a successful call of a stage gave for one class. */
  ghost predicate Gave(d: Descriptor, policy: P.Policy, p: Plan, call: Call, s: Stage, name: string, e: Evidence)
    requires P.ValidPolicy(policy)
  {
    && Succeeds(d, policy, call) && FindStage(p, call.request.stageID) == Some(s)
    && e in Execute(d, policy, call.request, call.provider).value.body.evidence && e.dataClass == name
    && Attributed(p, Execute(d, policy, call.request, call.provider).value)
    && Sound(CapabilityMap(d.dataClasses), s, p.fixtureID, e) && Proves(s.action, name, e)
  }

  /** A successful call of an examined stage gave, for each of its classes, a record that proves what was done to it. */
  lemma SuccessGave(d: Descriptor, policy: P.Policy, p: Plan, call: Call, name: string) returns (s: Stage, e: Evidence)
    requires P.ValidPolicy(policy) && Succeeds(d, policy, call) && call.request.plan == p
    requires var found := FindStage(p, call.request.stageID);
             found.Some? ==> Examined(found.value.action) && name in found.value.dataClasses
    ensures Gave(d, policy, p, call, s, name, e)
  {
    s := FindStage(p, call.request.stageID).value;
    var es := Execute(d, policy, call.request, call.provider).value.body.evidence;
    EvidenceAcceptedIff(CapabilityMap(d.dataClasses), s, p.fixtureID, es);
    assert ProvenFor(s, es, name);
    e :| e in es && e.dataClass == name && Proves(s.action, name, e);
  }

  /** A record of a runtime change vouches for the writer: one of them, named, fenced from stale origins, approved. */
  predicate Attests(a: Action, e: Evidence) {
    && (a in {Fence, Failover, Failback} ==>
          && !Blank(e.writerIdentityRef) && !Blank(e.writerEpoch)
          && e.singleWriterVerified && e.splitBrainAbsent && e.approvalVerified)
    && (a in {Failover, Failback} ==> e.staleOriginRejected) && (a == Failback ==> e.reconciliationVerified)
  }

  predicate Guards(s: Stage) {
    && (s.action in {Fence, Failover, Failback} ==> s.requiresSingleWriter && s.requiresSplitBrainCheck && s.requiresApproval)
    && (s.action in {Failover, Failback} ==> s.requiresStaleOriginCheck) && (s.action == Failback ==> s.requiresReconciliation)
  }

  /** One of these calls succeeded at this action and gave such a record for the class and the destination. */
  ghost predicate Proven(d: Descriptor, policy: P.Policy, p: Plan, calls: seq<Call>, a: Action, name: string, to: Destination)
    requires P.ValidPolicy(policy)
  {
    exists k, s, e {:trigger Gave(d, policy, p, calls[k], s, name, e)} ::
      0 <= k < |calls| && Gave(d, policy, p, calls[k], s, name, e)
      && s.action == a && e.destination == to && Attests(a, e)
  }

  lemma CallProves(d: Descriptor, policy: P.Policy, p: Plan, calls: seq<Call>, k: nat, shape: Stage, name: string)
    requires P.ValidPolicy(policy) && NoRepeats(StageIDs(p.stages)) && HasShape(p, shape) && Guards(shape)
    requires k < |calls| && Succeeds(d, policy, calls[k]) && calls[k].request.plan == p && calls[k].request.stageID == shape.id
    requires Examined(shape.action) && name in shape.dataClasses && shape.destination != NoDestination
    ensures Proven(d, policy, p, calls, shape.action, name, shape.destination)
  {
    FindFindsShape(p, shape);
    var s, e := SuccessGave(d, policy, p, calls[k], name);
    assert Gave(d, policy, p, calls[k], s, name, e) && s.action == shape.action && e.destination == shape.destination;
  }

  lemma FiredProves(d: Descriptor, policy: P.Policy, p: Plan, calls: seq<Call>, n: nat, shape: Stage, name: string)
    requires P.ValidPolicy(policy) && RecoveryRun(d, policy, p, calls) && n <= |calls|
    requires NoRepeats(StageIDs(p.stages)) && HasShape(p, shape) && Guards(shape) && shape.id in Fired(d, policy, calls[..n])
    requires Examined(shape.action) && name in shape.dataClasses && shape.destination != NoDestination
    ensures Proven(d, policy, p, calls[..n], shape.action, name, shape.destination)
  {
    var fired := Fired(d, policy, calls[..n]);
    var i :| 0 <= i < |fired| && fired[i] == shape.id;
    var k := FiredByCall(d, policy, calls[..n], i);
    assert calls[..n][k] == calls[k];
    CallProves(d, policy, p, calls[..n], k, shape, name);
  }

  lemma NameInClasses(classes: seq<DataClass>, c: DataClass)
    requires c in classes
    ensures c.name in ClassNames(classes)
  {
    var i :| 0 <= i < |classes| && classes[i] == c;
    assert ClassNames(classes)[i] == c.name;
  }

  lemma RestoreIsProven(d: Descriptor, policy: P.Policy, p: Plan, classes: seq<DataClass>, to: Destination, failback: bool,
                        calls: seq<Call>, n: nat, c: DataClass)
    requires Built(p, classes, to, failback) && P.ValidPolicy(policy) && RecoveryRun(d, policy, p, calls) && to != NoDestination
    requires n <= |calls| && c in classes && RestoreID(c.name) in Fired(d, policy, calls[..n])
    ensures Proven(d, policy, p, calls[..n], Restore, c.name, to)
  {
    ClassShapes(p, classes, to, failback, c);
    FiredProves(d, policy, p, calls, n, RestoreStage(c, to), c.name);
  }

  lemma CheckIsProven(d: Descriptor, policy: P.Policy, p: Plan, classes: seq<DataClass>, to: Destination, failback: bool,
                      calls: seq<Call>, n: nat, c: DataClass)
    requires Built(p, classes, to, failback) && P.ValidPolicy(policy) && RecoveryRun(d, policy, p, calls) && to != NoDestination
    requires n <= |calls| && c in classes && IntegrityID(c.name) in Fired(d, policy, calls[..n])
    ensures Proven(d, policy, p, calls[..n], IntegrityCheck, c.name, to)
  {
    ClassShapes(p, classes, to, failback, c);
    FiredProves(d, policy, p, calls, n, IntegrityStage(c, to), c.name);
  }

  lemma BackupIsProven(d: Descriptor, policy: P.Policy, p: Plan, classes: seq<DataClass>, to: Destination, failback: bool,
                       calls: seq<Call>, n: nat, c: DataClass)
    requires Built(p, classes, to, failback) && P.ValidPolicy(policy) && RecoveryRun(d, policy, p, calls) && to != NoDestination
    requires n <= |calls| && c in classes && BackupID(c.name) in Fired(d, policy, calls[..n]) && !Rebuilt(c)
    ensures Proven(d, policy, p, calls[..n], Backup, c.name, to)
  {
    BuiltBackup(p, classes, to, failback, c);
    FiredProves(d, policy, p, calls, n, BackupStage(c, to), c.name);
  }

  lemma FenceIsProven(d: Descriptor, policy: P.Policy, p: Plan, classes: seq<DataClass>, to: Destination, failback: bool,
                      calls: seq<Call>, n: nat, c: DataClass)
    requires Built(p, classes, to, failback) && P.ValidPolicy(policy) && RecoveryRun(d, policy, p, calls) && RequiresFence(to)
    requires n <= |calls| && c in classes && FENCE_ID in Fired(d, policy, calls[..n])
    ensures Proven(d, policy, p, calls[..n], Fence, c.name, to)
  {
    RuntimeShapes(p, classes, to, failback);
    NameInClasses(classes, c);
    FiredProves(d, policy, p, calls, n, FenceStage(ClassNames(classes), to, BackupIDs(classes)), c.name);
  }

  lemma FailoverIsProven(d: Descriptor, policy: P.Policy, p: Plan, classes: seq<DataClass>, to: Destination, failback: bool,
                         calls: seq<Call>, n: nat, c: DataClass)
    requires Built(p, classes, to, failback) && P.ValidPolicy(policy) && RequiresFailover(to) && c in classes
    requires n < |calls| && Succeeds(d, policy, calls[n]) && calls[n].request.stageID == FAILOVER_ID && calls[n].request.plan == p
    ensures Proven(d, policy, p, calls[..n + 1], Failover, c.name, to)
  {
    RuntimeShapes(p, classes, to, failback);
    NameInClasses(classes, c);
    CallProves(d, policy, p, calls[..n + 1], n, FailoverStage(ClassNames(classes), to, IntegrityIDs(classes)), c.name);
  }

  /** What stood behind the failover call `n` for one class. */
  ghost predicate Earned(d: Descriptor, policy: P.Policy, p: Plan, calls: seq<Call>, n: nat, c: DataClass, to: Destination)
    requires P.ValidPolicy(policy) && n < |calls|
  {
    && Proven(d, policy, p, calls[..n], Restore, c.name, to) && Proven(d, policy, p, calls[..n], IntegrityCheck, c.name, to)
    && (!Rebuilt(c) ==> Proven(d, policy, p, calls[..n], Backup, c.name, to))
    && Proven(d, policy, p, calls[..n], Fence, c.name, to) && Proven(d, policy, p, calls[..n + 1], Failover, c.name, to)
  }

  lemma ClassIsProven(d: Descriptor, policy: P.Policy, p: Plan, classes: seq<DataClass>, to: Destination, failback: bool,
                      calls: seq<Call>, n: nat, c: DataClass)
    requires Built(p, classes, to, failback) && P.ValidPolicy(policy) && RecoveryRun(d, policy, p, calls) && to != NoDestination
    requires n <= |calls| && c in classes && IntegrityID(c.name) in Fired(d, policy, calls[..n])
    requires RestoreID(c.name) in Fired(d, policy, calls[..n])
    requires !Rebuilt(c) ==> BackupID(c.name) in Fired(d, policy, calls[..n])
    ensures Proven(d, policy, p, calls[..n], Restore, c.name, to) && Proven(d, policy, p, calls[..n], IntegrityCheck, c.name, to)
    ensures !Rebuilt(c) ==> Proven(d, policy, p, calls[..n], Backup, c.name, to)
  {
    RestoreIsProven(d, policy, p, classes, to, failback, calls, n, c);
    CheckIsProven(d, policy, p, classes, to, failback, calls, n, c);
    if !Rebuilt(c) { BackupIsProven(d, policy, p, classes, to, failback, calls, n, c); }
  }

  lemma BuiltIsEarned(d: Descriptor, policy: P.Policy, p: Plan, classes: seq<DataClass>, to: Destination, failback: bool,
                      calls: seq<Call>, n: nat, c: DataClass)
    requires Built(p, classes, to, failback) && P.ValidPolicy(policy) && RecoveryRun(d, policy, p, calls) && c in classes
    requires n < |calls| && Succeeds(d, policy, calls[n]) && calls[n].request.stageID == FAILOVER_ID
    ensures to in {AlternateRegion, AlternateProvider} && Earned(d, policy, p, calls, n, c, to)
  {
    FailoverFiresLate(d, policy, p, classes, to, failback, calls, n, c);
    ClassIsProven(d, policy, p, classes, to, failback, calls, n, c);
    FenceIsProven(d, policy, p, classes, to, failback, calls, n, c);
    FailoverIsProven(d, policy, p, classes, to, failback, calls, n, c);
  }

  /**
   * Whole-run recovery safety: in every run of a compiled plan, a successful failover call means that for each data
   * class earlier calls gave sound evidence, bound to the plan's fixture and destination: of a restore, with its identity
   * and service health; of the integrity check, with content, permissions, health and secret references; of a backup,
   * with its identity, unless the class is rebuilt; and of the fence, with writer identity, single writer, no split brain
   * and approval. The failover itself also rejected stale origins and showed service health.
   */
  lemma FailoverIsEarned(d: Descriptor, r: Request, p: Plan, policy: P.Policy, calls: seq<Call>, n: nat, c: DataClass)
    returns (to: Destination)
    requires Compile(d, r) == Some(p) && P.ValidPolicy(policy) && RecoveryRun(d, policy, p, calls)
    requires n < |calls| && Succeeds(d, policy, calls[n]) && calls[n].request.stageID == FAILOVER_ID
    requires c in r.dataClasses
    ensures to in {AlternateRegion, AlternateProvider} && Earned(d, policy, p, calls, n, c, to)
  {
    to := Chosen(d, r).value;
    CompiledIsBuilt(d, r, p);
    SortedMembers(r, c);
    BuiltIsEarned(d, policy, p, SortedClasses(r), to, WantsFailback(r), calls, n, c);
  }
}
