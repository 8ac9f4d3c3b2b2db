/** The recovery-plan compiler and the plan validator as the loops that run them. */
module RecoveryCompiler {
  import opened Optional
  import opened Text
  import opened Ordering
  import opened DependencyGraph
  import opened RecoveryPlan
  import opened RecoveryOrder

  // ---- small loops -----------------------------------------------------------------------------

  method IndexCapabilities(d: Descriptor) returns (caps: map<string, Capability>)
    ensures caps == CapabilityMap(d.dataClasses)
  {
    caps := map[];
    for k := 0 to |d.dataClasses|
      invariant caps == CapabilityMap(d.dataClasses[..k])
    {
      assert d.dataClasses[..k + 1][..k] == d.dataClasses[..k];
      caps := caps[d.dataClasses[k].name := d.dataClasses[k]];
    }
    assert d.dataClasses[..|d.dataClasses|] == d.dataClasses;
  }

  method UniqueResilienceStrings(values: seq<string>) returns (result: seq<string>)
    ensures result == UniqueStrings(values)
  {
    var seen: set<string> := {};
    result := [];
    for i := 0 to |values|
      invariant result == UniqueNonBlank(values[..i])
      invariant forall v :: v in seen <==> v in result
    {
      assert values[..i + 1][..i] == values[..i];
      var value := values[i];
      BlankTrimsAway(value);
      if TrimSpace(value) != "" && value !in seen {
        seen := seen + {value};
        result := result + [value];
      }
    }
    assert values[..|values|] == values;
    result := Sort(result, StrLe);
  }

  /** The requested destination every class supports, best first. */
  method CommonRecoveryDestination(requested: seq<Destination>, classes: seq<DataClass>, caps: map<string, Capability>)
    returns (chosen: Option<Destination>)
    ensures chosen == CommonDestination(requested, classes, caps)
  {
    var requestedSet: set<Destination> := {};
    for i := 0 to |requested|
      invariant forall d :: d in requestedSet <==> d in requested[..i]
    {
      requestedSet := requestedSet + {requested[i]};
    }
    assert requested[..|requested|] == requested;
    for k := 0 to 4
      invariant CommonDestination(requested, classes, caps) == ChooseDestination(k, requested, classes, caps)
    {
      if PRIORITY[k] in requestedSet {
        var common := true;
        var i := 0;
        while i < |classes| && common
          invariant i <= |classes|
          invariant common <==> forall c | c in classes[..i] :: c.name in caps && PRIORITY[k] in caps[c.name].destinations
        {
          common := classes[i].name in caps && PRIORITY[k] in caps[classes[i].name].destinations;
          i := i + 1;
        }
        assert common ==> classes[..i] == classes;
        if common {
          return Some(PRIORITY[k]);
        }
      }
    }
    return None;
  }

  method ReferenceKeys(refs: map<string, string>) returns (keys: seq<string>)
    ensures forall id :: id in keys <==> id in refs
  {
    keys := [];
    var rest := refs.Keys;
    while rest != {}
      invariant rest <= refs.Keys
      invariant forall id :: id in keys <==> id in refs && id !in rest
      decreases rest
    {
      var id :| id in rest;
      keys := keys + [id];
      rest := rest - {id};
    }
    forall id ensures id in Sort(keys, StrLe) <==> id in keys { SortMembers(keys, StrLe, id); }
    keys := Sort(keys, StrLe);
  }

  // ---- binding admission references ------------------------------------------------------------

  lemma IndexByIDs(s: seq<Stage>, t: seq<Stage>, id: string, from: nat)
    requires |s| == |t| && (forall i | 0 <= i < |s| :: s[i].id == t[i].id) && from <= |s|
    ensures StageIndex(s, id, from) == StageIndex(t, id, from)
    decreases |s| - from
  {
    if from < |s| { IndexByIDs(s, t, id, from + 1); }
  }

  lemma BoundIndex(stages: seq<Stage>, approvals: map<string, string>, reconciliations: map<string, string>, id: string)
    ensures StageIndex(BoundStages(stages, approvals, reconciliations), id, 0) == StageIndex(stages, id, 0)
  {
    IndexByIDs(stages, BoundStages(stages, approvals, reconciliations), id, 0);
  }

  function Only(refs: map<string, string>, ids: seq<string>): map<string, string> {
    map id | id in refs && id in ids :: refs[id]
  }

  lemma OnlyNext(refs: map<string, string>, keys: seq<string>, k: nat)
    requires k < |keys| && keys[k] in refs
    ensures Only(refs, keys[..k + 1]) == Only(refs, keys[..k])[keys[k] := refs[keys[k]]]
  {
    assert keys[..k + 1] == keys[..k] + [keys[k]];
  }

  /** Writing an approval into the first stage of its ID binds exactly that one more key. */
  lemma BindOneApproval(stages: seq<Stage>, approvals: map<string, string>, reconciliations: map<string, string>, id: string,
                        reference: string)
    requires StageIndex(stages, id, 0) >= 0
    ensures
      var k, bound := StageIndex(stages, id, 0), BoundStages(stages, approvals, reconciliations);
      bound[k := bound[k].(approvalReference := reference)] == BoundStages(stages, approvals[id := reference], reconciliations)
  {
    var k, bound := StageIndex(stages, id, 0), BoundStages(stages, approvals, reconciliations);
    var approved := BoundStages(stages, approvals[id := reference], reconciliations);
    forall i | 0 <= i < |stages|
      ensures approved[i] == if i == k then bound[i].(approvalReference := reference) else bound[i]
    {
      if stages[i].id == id { assert StageIndex(stages, stages[i].id, 0) == k; }
    }
  }

  lemma BindOneReconciliation(stages: seq<Stage>, approvals: map<string, string>, reconciliations: map<string, string>,
                              id: string, reference: string)
    requires StageIndex(stages, id, 0) >= 0
    ensures
      var k, bound := StageIndex(stages, id, 0), BoundStages(stages, approvals, reconciliations);
      bound[k := bound[k].(reconciliationReference := reference)]
      == BoundStages(stages, approvals, reconciliations[id := reference])
  {
    var k, bound := StageIndex(stages, id, 0), BoundStages(stages, approvals, reconciliations);
    var reconciled := BoundStages(stages, approvals, reconciliations[id := reference]);
    forall i | 0 <= i < |stages|
      ensures reconciled[i] == if i == k then bound[i].(reconciliationReference := reference) else bound[i]
    {
      if stages[i].id == id { assert StageIndex(stages, stages[i].id, 0) == k; }
    }
  }

  predicate AllNamed(stages: seq<Stage>, ids: seq<string>) {
    forall id | id in ids :: StageIndex(stages, id, 0) >= 0
  }

  lemma NextApproval(stages: seq<Stage>, approvals: map<string, string>, keys: seq<string>, k: nat)
    requires k < |keys| && keys[k] in approvals && StageIndex(stages, keys[k], 0) >= 0
    ensures
      var index, current := StageIndex(stages, keys[k], 0), BoundStages(stages, Only(approvals, keys[..k]), map[]);
      current[index := current[index].(approvalReference := approvals[keys[k]])]
      == BoundStages(stages, Only(approvals, keys[..k + 1]), map[])
  {
    BindOneApproval(stages, Only(approvals, keys[..k]), map[], keys[k], approvals[keys[k]]);
    OnlyNext(approvals, keys, k);
  }

  lemma NextReconciliation(stages: seq<Stage>, approvals: map<string, string>, reconciliations: map<string, string>,
                           keys: seq<string>, k: nat)
    requires k < |keys| && keys[k] in reconciliations && StageIndex(stages, keys[k], 0) >= 0
    ensures
      var index, current := StageIndex(stages, keys[k], 0), BoundStages(stages, approvals, Only(reconciliations, keys[..k]));
      current[index := current[index].(reconciliationReference := reconciliations[keys[k]])]
      == BoundStages(stages, approvals, Only(reconciliations, keys[..k + 1]))
  {
    BindOneReconciliation(stages, approvals, Only(reconciliations, keys[..k]), keys[k], reconciliations[keys[k]]);
    OnlyNext(reconciliations, keys, k);
  }

  lemma AllKeys(stages: seq<Stage>, refs: map<string, string>, keys: seq<string>)
    requires forall id :: id in keys <==> id in refs
    ensures Only(refs, keys) == refs && keys[..|keys|] == keys
    ensures AllNamed(stages, keys) <==> Targets(stages, refs)
  {
    if AllNamed(stages, keys) {
      forall id | id in refs ensures StageIndex(stages, id, 0) >= 0 { assert id in keys; }
    }
  }

  method BindApprovals(stages: seq<Stage>, approvals: map<string, string>) returns (bound: Option<seq<Stage>>)
    ensures bound.Some? <==> Targets(stages, approvals)
    ensures bound.Some? ==> bound.value == BoundStages(stages, approvals, map[])
  {
    var current := stages;
    var keys := ReferenceKeys(approvals);
    AllKeys(stages, approvals, keys);
    for k := 0 to |keys|
      invariant AllNamed(stages, keys[..k])
      invariant current == BoundStages(stages, Only(approvals, keys[..k]), map[])
    {
      BoundIndex(stages, Only(approvals, keys[..k]), map[], keys[k]);
      var index := StageIndex(current, keys[k], 0);
      if index < 0 {
        return None;
      }
      NextApproval(stages, approvals, keys, k);
      current := current[index := current[index].(approvalReference := approvals[keys[k]])];
    }
    return Some(current);
  }

  method BindReconciliations(stages: seq<Stage>, approvals: map<string, string>, reconciliations: map<string, string>)
    returns (bound: Option<seq<Stage>>)
    ensures bound.Some? <==> Targets(stages, reconciliations)
    ensures bound.Some? ==> bound.value == BoundStages(stages, approvals, reconciliations)
  {
    var current := BoundStages(stages, approvals, map[]);
    var keys := ReferenceKeys(reconciliations);
    AllKeys(stages, reconciliations, keys);
    assert Only(reconciliations, keys[..0]) == map[];
    for k := 0 to |keys|
      invariant AllNamed(stages, keys[..k])
      invariant current == BoundStages(stages, approvals, Only(reconciliations, keys[..k]))
    {
      BoundIndex(stages, approvals, Only(reconciliations, keys[..k]), keys[k]);
      var index := StageIndex(current, keys[k], 0);
      if index < 0 {
        return None;
      }
      NextReconciliation(stages, approvals, reconciliations, keys, k);
      current := current[index := current[index].(reconciliationReference := reconciliations[keys[k]])];
    }
    return Some(current);
  }

  /** Binds every reference to the first stage of its ID, or reports a key that names no stage. */
  method BindAdmissionReferences(stages: seq<Stage>, approvals: map<string, string>, reconciliations: map<string, string>)
    returns (bound: Option<seq<Stage>>)
    ensures bound.Some? <==> Targets(stages, approvals) && Targets(stages, reconciliations)
    ensures bound.Some? ==> bound.value == BoundStages(stages, approvals, reconciliations)
  {
    bound := BindApprovals(stages, approvals);
    if bound.Some? {
      bound := BindReconciliations(stages, approvals, reconciliations);
    }
  }

  // ---- emitting stages -------------------------------------------------------------------------

  predicate BackupReady(d: Descriptor, caps: map<string, Capability>, c: DataClass) {
    StageSuffix(c.name) != "" && (!RebuildOnly(c.backupMethod) ==> HasAction(d, caps, c.name, Backup))
  }

  predicate RestoreReady(d: Descriptor, caps: map<string, Capability>, c: DataClass) {
    HasAction(d, caps, c.name, Restore) && HasAction(d, caps, c.name, IntegrityCheck)
  }

  lemma NextBackup(classes: seq<DataClass>, to: Destination, i: nat)
    requires i < |classes|
    ensures
      var c := classes[i];
      && BackupStages(classes[..i + 1], to)
         == BackupStages(classes[..i], to) + (if RebuildOnly(c.backupMethod) then [] else [BackupStage(c, to)])
      && BackupIDs(classes[..i + 1])
         == BackupIDs(classes[..i]) + (if RebuildOnly(c.backupMethod) then [] else [BackupID(c.name)])
      && BackupProofs(classes[..i + 1])
         == BackupProofs(classes[..i]) + if RebuildOnly(c.backupMethod) then [] else ["backup:" + c.name]
  {
    assert classes[..i + 1][..i] == classes[..i];
  }

  lemma NextClass(classes: seq<DataClass>, to: Destination, i: nat)
    requires i < |classes|
    ensures
      var c := classes[i];
      && ClassStages(classes[..i + 1], to) == ClassStages(classes[..i], to) + [RestoreStage(c, to), IntegrityStage(c, to)]
      && IntegrityIDs(classes[..i + 1]) == IntegrityIDs(classes[..i]) + [IntegrityID(c.name)]
      && ClassProofs(classes[..i + 1]) == ClassProofs(classes[..i]) + ["restore:" + c.name, "integrity:" + c.name]
  {
    assert classes[..i + 1][..i] == classes[..i];
  }

  method EmitBackups(d: Descriptor, caps: map<string, Capability>, classes: seq<DataClass>, to: Destination)
    returns (ok: bool, stages: seq<Stage>, backupIDs: seq<string>, proofs: seq<string>)
    ensures ok <==> BackupsReady(d, caps, classes)
    ensures ok ==> stages == BackupStages(classes, to) && backupIDs == BackupIDs(classes) && proofs == BackupProofs(classes)
  {
    stages, backupIDs, proofs := [], [], [];
    for i := 0 to |classes|
      invariant BackupsReady(d, caps, classes[..i])
      invariant stages == BackupStages(classes[..i], to)
      invariant backupIDs == BackupIDs(classes[..i]) && proofs == BackupProofs(classes[..i])
    {
      NextBackup(classes, to, i);
      var c := classes[i];
      if StageSuffix(c.name) == "" {
        assert !BackupReady(d, caps, classes[i]);
        return false, stages, backupIDs, proofs;
      }
      if !RebuildOnly(c.backupMethod) {
        if !HasAction(d, caps, c.name, Backup) {
          assert !BackupReady(d, caps, classes[i]);
          return false, stages, backupIDs, proofs;
        }
        stages := stages + [BackupStage(c, to)];
        backupIDs := backupIDs + [BackupID(c.name)];
        proofs := proofs + ["backup:" + c.name];
      }
    }
    assert classes[..|classes|] == classes;
    ok := true;
  }

  method Restoring(c: DataClass, to: Destination) returns (stage: Stage)
    ensures stage == RestoreStage(c, to)
  {
    var dependencies := [];
    if !RebuildOnly(c.backupMethod) {
      dependencies := dependencies + [BackupID(c.name)];
    }
    if RequiresFence(to) {
      dependencies := dependencies + [FENCE_ID];
    }
    stage := PlainStage(RestoreID(c.name), Restore, [c.name], to, dependencies)
      .(requiresApproval := to == SameRegion || c.name == "queue");
  }

  lemma NextReady(d: Descriptor, caps: map<string, Capability>, classes: seq<DataClass>, i: nat)
    requires i < |classes| && RestoresReady(d, caps, classes[..i])
    ensures RestoreReady(d, caps, classes[i]) <==> RestoresReady(d, caps, classes[..i + 1])
    ensures RestoresReady(d, caps, classes) ==> RestoreReady(d, caps, classes[i])
  {
    assert classes[i] in classes && classes[i] in classes[..i + 1];
    assert classes[..i + 1] == classes[..i] + [classes[i]];
  }

  method EmitClasses(d: Descriptor, caps: map<string, Capability>, classes: seq<DataClass>, to: Destination)
    returns (ok: bool, stages: seq<Stage>, finals: seq<string>, proofs: seq<string>)
    ensures ok <==> RestoresReady(d, caps, classes)
    ensures ok ==> stages == ClassStages(classes, to) && finals == IntegrityIDs(classes) && proofs == ClassProofs(classes)
  {
    stages, finals, proofs := [], [], [];
    for i := 0 to |classes|
      invariant RestoresReady(d, caps, classes[..i])
      invariant stages == ClassStages(classes[..i], to)
      invariant finals == IntegrityIDs(classes[..i]) && proofs == ClassProofs(classes[..i])
    {
      NextClass(classes, to, i);
      NextReady(d, caps, classes, i);
      var c := classes[i];
      if !RestoreReady(d, caps, c) {
        return false, stages, finals, proofs;
      }
      var restore := Restoring(c, to);
      stages := stages + [restore, IntegrityStage(c, to)];
      proofs := proofs + ["restore:" + c.name, "integrity:" + c.name];
      finals := finals + [IntegrityID(c.name)];
    }
    assert classes[..|classes|] == classes;
    ok := true;
  }

  // ---- plan validation -------------------------------------------------------------------------

  /** The seen-set loop the validator repeats for stage IDs, classes and dependencies. */
  method Distinct(values: seq<string>) returns (ok: bool)
    ensures ok <==> NoRepeats(values)
  {
    var seen: set<string> := {};
    ok := true;
    for i := 0 to |values|
      invariant forall v :: v in seen <==> v in values[..i]
      invariant ok <==> NoRepeats(values[..i])
    {
      if values[i] in seen {
        var j :| 0 <= j < i && values[j] == values[i];
        assert values[..i + 1][j] == values[..i + 1][i];
        ok := false;
      }
      assert !NoRepeats(values[..i]) ==> !NoRepeats(values[..i + 1]) by {
        assert forall a | 0 <= a < i :: values[..i][a] == values[..i + 1][a];
      }
      seen := seen + {values[i]};
    }
    assert values[..|values|] == values;
  }

  method CheckStages(stages: seq<Stage>, known: seq<DataClass>) returns (ok: bool)
    ensures ok <==> (forall s | s in stages :: ValidStage(s, known)) && NoRepeats(StageIDs(stages))
  {
    ok := true;
    var ids: seq<string> := [];
    for i := 0 to |stages|
      invariant ok <==> forall s | s in stages[..i] :: ValidStage(s, known)
      invariant ids == StageIDs(stages[..i])
    {
      if !ValidStage(stages[i], known) {
        assert stages[i] in stages[..i + 1];
        ok := false;
      }
      ids := ids + [stages[i].id];
    }
    assert stages[..|stages|] == stages;
    var distinct := Distinct(ids);
    ok := ok && distinct;
  }

  method CheckDependencies(stages: seq<Stage>) returns (ok: bool)
    ensures ok <==> forall s | s in stages :: DependenciesSound(stages, s)
  {
    var knownStages: seq<string> := StageIDs(stages);
    ok := true;
    for i := 0 to |stages|
      invariant ok <==> forall s | s in stages[..i] :: DependenciesSound(stages, s)
    {
      var named := forall d | d in stages[i].dependsOn :: d in knownStages && d != stages[i].id;
      var distinct := Distinct(stages[i].dependsOn);
      assert named && distinct <==> DependenciesSound(stages, stages[i]);
      ok := ok && named && distinct;
    }
    assert stages[..|stages|] == stages;
  }

  method PlanCycles(stages: seq<Stage>) returns (at: Option<string>)
    ensures at.None? <==> Acyclic(StageGraph(stages))
  {
    var known: Graph := map[];
    var ids: seq<string> := [];
    for i := 0 to |stages|
      invariant known == StageGraph(stages[..i])
      invariant forall id :: id in ids <==> id in known
    {
      assert stages[..i + 1][..i] == stages[..i];
      known := known[stages[i].id := stages[i].dependsOn];
      ids := ids + [stages[i].id];
    }
    assert stages[..|stages|] == stages;
    at := FindCycle(known, ids);
  }

  method ValidateResiliencePlan(p: Plan, known: seq<DataClass>) returns (ok: bool)
    ensures ok <==> ValidPlan(p, known)
  {
    var stagesOk := CheckStages(p.stages, known);
    var dependenciesOk := CheckDependencies(p.stages);
    var cycle := PlanCycles(p.stages);
    ok := !Blank(p.adapterID) && RequiredLine(p.fixtureID) && RequiredLine(p.ownershipMarker) && p.stages != []
      && stagesOk && dependenciesOk && cycle.None? && p.requiredProofs != [];
  }

  // ---- the compiler ----------------------------------------------------------------------------

  predicate BackupsReady(d: Descriptor, caps: map<string, Capability>, classes: seq<DataClass>) {
    forall c | c in classes :: BackupReady(d, caps, c)
  }

  predicate RestoresReady(d: Descriptor, caps: map<string, Capability>, classes: seq<DataClass>) {
    forall c | c in classes :: RestoreReady(d, caps, c)
  }

  predicate RuntimeReady(d: Descriptor, to: Destination, r: Request) {
    && (RequiresFailover(to) ==> Failover in d.capabilities)
    && (WantsFailback(r) ==>
          RequiresFailover(to) && Failback in d.capabilities && !Blank(ReconciliationFor(r, FAILBACK_ID)))
    && Cleanup in d.capabilities
  }

  /** What the compiler's body needs between the destination choice and the binding of references. */
  predicate Assembles(d: Descriptor, caps: map<string, Capability>, classes: seq<DataClass>, to: Destination, r: Request) {
    && BackupsReady(d, caps, classes) && (RequiresFence(to) ==> Fence in d.capabilities)
    && RestoresReady(d, caps, classes) && RuntimeReady(d, to, r)
  }

  lemma ActionsByPart(d: Descriptor, caps: map<string, Capability>, classes: seq<DataClass>, to: Destination, r: Request)
    ensures
      Assembles(d, caps, classes, to, r) <==>
        && ActionsAvailable(d, caps, classes, to, WantsFailback(r))
        && (WantsFailback(r) ==> !Blank(ReconciliationFor(r, FAILBACK_ID)))
  {
    assert ActionsAvailable(d, caps, classes, to, WantsFailback(r)) ==> BackupsReady(d, caps, classes);
    assert ActionsAvailable(d, caps, classes, to, WantsFailback(r)) ==> RestoresReady(d, caps, classes);
    assert BackupsReady(d, caps, classes) && RestoresReady(d, caps, classes) ==>
      forall c | c in classes :: BackupReady(d, caps, c) && RestoreReady(d, caps, c);
  }

  function RuntimeStages(classes: seq<DataClass>, to: Destination, failback: bool): seq<Stage> {
    FailoverStages(classes, to) + FailbackStages(classes, to, failback)
    + [CleanupStage(ClassNames(classes), to, FinalIDs(classes, to, failback))]
  }

  function RuntimeProofs(to: Destination, failback: bool): seq<string> {
    FailoverProofs(to) + FailbackProofs(failback) + ["cleanup"]
  }

  method EmitRuntime(d: Descriptor, classes: seq<DataClass>, to: Destination, r: Request, integrity: seq<string>)
    returns (ok: bool, stages: seq<Stage>, proofs: seq<string>)
    requires integrity == IntegrityIDs(classes)
    ensures ok <==> RuntimeReady(d, to, r)
    ensures ok ==> stages == RuntimeStages(classes, to, WantsFailback(r)) && proofs == RuntimeProofs(to, WantsFailback(r))
  {
    var finals := integrity;
    stages := [];
    if RequiresFailover(to) {
      if Failover !in d.capabilities {
        return false, [], [];
      }
      stages := stages + [FailoverStage(ClassNames(classes), to, finals)];
      finals := [FAILOVER_ID];
    }
    assert stages == FailoverStages(classes, to);
    if WantsFailback(r) {
      if !RequiresFailover(to) || Failback !in d.capabilities || Blank(ReconciliationFor(r, FAILBACK_ID)) {
        return false, [], [];
      }
      stages := stages + [FailbackStage(ClassNames(classes), to, finals)];
      finals := [FAILBACK_ID];
    }
    if Cleanup !in d.capabilities {
      return false, [], [];
    }
    stages := stages + [CleanupStage(ClassNames(classes), to, finals)];
    proofs := FailoverProofs(to) + FailbackProofs(WantsFailback(r)) + ["cleanup"];
    ok := true;
  }

  lemma Regroup<T>(a: seq<T>, b: seq<T>, c: seq<T>, d: seq<T>, e: seq<T>, f: seq<T>)
    ensures a + b + c + (d + e + f) == a + b + c + d + e + f
  {
  }

  lemma EmittedByPart(classes: seq<DataClass>, to: Destination, failback: bool)
    ensures BackupStages(classes, to) + FenceStages(classes, to) + ClassStages(classes, to)
            + RuntimeStages(classes, to, failback) == Emitted(classes, to, failback)
    ensures BackupProofs(classes) + FenceProofs(to) + ClassProofs(classes) + RuntimeProofs(to, failback)
            == EmittedProofs(classes, to, failback)
  {
    Regroup(BackupStages(classes, to), FenceStages(classes, to), ClassStages(classes, to), FailoverStages(classes, to),
            FailbackStages(classes, to, failback), [CleanupStage(ClassNames(classes), to, FinalIDs(classes, to, failback))]);
    Regroup(BackupProofs(classes), FenceProofs(to), ClassProofs(classes), FailoverProofs(to), FailbackProofs(failback),
            ["cleanup"]);
  }

  method EmitFence(d: Descriptor, classes: seq<DataClass>, to: Destination, backupIDs: seq<string>)
    returns (ok: bool, stages: seq<Stage>)
    requires backupIDs == BackupIDs(classes)
    ensures ok <==> (RequiresFence(to) ==> Fence in d.capabilities)
    ensures ok ==> stages == FenceStages(classes, to)
  {
    if !RequiresFence(to) {
      return true, [];
    }
    return Fence in d.capabilities, [FenceStage(ClassNames(classes), to, backupIDs)];
  }

  method Assemble(d: Descriptor, caps: map<string, Capability>, classes: seq<DataClass>, to: Destination, r: Request)
    returns (ok: bool, stages: seq<Stage>, proofs: seq<string>)
    ensures ok <==> Assembles(d, caps, classes, to, r)
    ensures ok ==> stages == Emitted(classes, to, WantsFailback(r)) && proofs == EmittedProofs(classes, to, WantsFailback(r))
  {
    var backupsOk, backups, backupIDs, backupProofs := EmitBackups(d, caps, classes, to);
    if !backupsOk {
      return false, [], [];
    }
    var fenceOk, fence := EmitFence(d, classes, to, backupIDs);
    if !fenceOk {
      return false, [], [];
    }
    var classesOk, classStages, integrity, classProofs := EmitClasses(d, caps, classes, to);
    if !classesOk {
      return false, [], [];
    }
    var runtimeOk, runtime, runtimeProofs := EmitRuntime(d, classes, to, r, integrity);
    if !runtimeOk {
      return false, [], [];
    }
    EmittedByPart(classes, to, WantsFailback(r));
    return true, backups + fence + classStages + runtime,
           backupProofs + FenceProofs(to) + classProofs + runtimeProofs;
  }

  method ClassesUsable(caps: map<string, Capability>, classes: seq<DataClass>) returns (ok: bool)
    ensures ok <==> forall c | c in classes :: ClassUsable(caps, c)
  {
    for i := 0 to |classes|
      invariant forall c | c in classes[..i] :: ClassUsable(caps, c)
    {
      if !ClassUsable(caps, classes[i]) {
        return false;
      }
    }
    assert classes[..|classes|] == classes;
    return true;
  }

  /** Everything before a destination is chosen. */
  ghost predicate Admissible(d: Descriptor, r: Request) {
    && ValidDescriptor(d) && ValidRequest(r) && d.provider == r.provider
    && forall c | c in SortedClasses(r) :: ClassUsable(CapabilityMap(d.dataClasses), c)
  }

  /** Everything after it. */
  ghost predicate Plans(d: Descriptor, r: Request, to: Destination) {
    var emitted := Emitted(SortedClasses(r), to, WantsFailback(r));
    && Assembles(d, CapabilityMap(d.dataClasses), SortedClasses(r), to, r)
    && Targets(emitted, r.approvals) && Targets(emitted, r.reconciliations)
    && ValidPlan(Draft(d, r, to), r.dataClasses)
  }

  lemma CompileByPart(d: Descriptor, r: Request)
    ensures Accepts(d, r) <==> Admissible(d, r) && Chosen(d, r).Some? && Plans(d, r, Chosen(d, r).value)
  {
    if Chosen(d, r).Some? {
      ActionsByPart(d, CapabilityMap(d.dataClasses), SortedClasses(r), Chosen(d, r).value, r);
    }
  }

  method PlanFor(d: Descriptor, r: Request, caps: map<string, Capability>, classes: seq<DataClass>, to: Destination)
    returns (result: Option<Plan>)
    requires caps == CapabilityMap(d.dataClasses) && classes == SortedClasses(r)
    ensures result == if Plans(d, r, to) then Some(Draft(d, r, to)) else None
  {
    var ok, stages, proofs := Assemble(d, caps, classes, to, r);
    if !ok {
      return None;
    }
    var bound := BindAdmissionReferences(stages, r.approvals, r.reconciliations);
    if bound.None? {
      return None;
    }
    var required := UniqueResilienceStrings(proofs);
    var plan := Plan(d.id, r.fixtureID, r.ownershipMarker, bound.value, required);
    var valid := ValidateResiliencePlan(plan, r.dataClasses);
    if !valid {
      return None;
    }
    return Some(plan);
  }

  /** `CompileResiliencePlan`. */
  method CompileResiliencePlan(d: Descriptor, r: Request) returns (result: Option<Plan>)
    ensures result == Compile(d, r)
  {
    CompileByPart(d, r);
    if !ValidDescriptor(d) || !ValidRequest(r) || d.provider != r.provider {
      return None;
    }
    var classes := SortedClasses(r);
    var caps := IndexCapabilities(d);
    var usable := ClassesUsable(caps, classes);
    if !usable {
      return None;
    }
    var chosen := CommonRecoveryDestination(r.destinations, classes, caps);
    if chosen.None? {
      return None;
    }
    result := PlanFor(d, r, caps, classes, chosen.value);
  }
}
