/** Exactly which requests compile, in terms of the descriptor and the request. */
module RecoveryAcceptance {
  import opened Optional
  import opened Text
  import opened Ordering
  import opened Patterns
  import opened DependencyGraph
  import opened RecoveryPlan
  import opened RecoveryOrder
  import opened RecoveryStageIDs
  import opened RecoveryContents
  import opened RecoveryChoice

  // ---- the condition ---------------------------------------------------------------------------

  /** Both the adapter and the class's own row declare the action. */
  predicate Declares(d: Descriptor, row: Capability, a: Action) {
    a in d.capabilities && a in row.actions
  }

  /** Some row serves the class: usable, and with the actions its recovery needs. */
  predicate Served(d: Descriptor, c: DataClass) {
    exists row | row in d.dataClasses ::
      && row.name == c.name && (row.status == Supported || row.status == Certified || row.status == Experimental)
      && Declares(d, row, Restore) && Declares(d, row, IntegrityCheck) && (Rebuilt(c) || Declares(d, row, Backup))
  }

  predicate RuntimeServed(d: Descriptor, r: Request, to: Destination) {
    && Cleanup in d.capabilities
    && (to in {SameRegion, AlternateRegion, AlternateProvider} ==> Fence in d.capabilities)
    && (to in {AlternateRegion, AlternateProvider} ==> Failover in d.capabilities)
    && ("failback-runtime" in r.approvals ==>
          && to in {AlternateRegion, AlternateProvider} && Failback in d.capabilities
          && "failback-runtime" in r.reconciliations)
  }

  /** The stages that may carry an approval: fence, failover, failback, and restores of a queue or into the same region. */
  predicate Approvable(r: Request, to: Destination, id: string) {
    || (id == "fence-runtime" && to in {SameRegion, AlternateRegion, AlternateProvider})
    || (id == "failover-runtime" && to in {AlternateRegion, AlternateProvider})
    || id == "failback-runtime"
    || exists c | c in r.dataClasses :: id == "restore-" + StageSuffix(c.name) && (to == SameRegion || c.name == "queue")
  }

  ghost predicate Compilable(d: Descriptor, r: Request) {
    && ValidDescriptor(d) && ValidRequest(r) && d.provider == r.provider
    && SingleLine(r.fixtureID) && SingleLine(r.ownershipMarker)
    && SuffixesApart(r.dataClasses) && (forall c | c in r.dataClasses :: Served(d, c))
    && Chosen(d, r).Some? && RuntimeServed(d, r, Chosen(d, r).value)
    && (forall id | id in r.approvals :: Approvable(r, Chosen(d, r).value, id))
    && (forall id | id in r.reconciliations :: id == "failback-runtime" && id in r.approvals)
  }

  // ---- rows ------------------------------------------------------------------------------------

  lemma RowIs(d: Descriptor, row: Capability)
    requires ValidDescriptor(d) && row in d.dataClasses
    ensures row.name in CapabilityMap(d.dataClasses) && CapabilityMap(d.dataClasses)[row.name] == row
  {
    CapabilityMapFacts(d.dataClasses);
    CapabilityNamesDistinct(d.dataClasses);
  }

  lemma ServedIff(d: Descriptor, c: DataClass)
    requires ValidDescriptor(d)
    ensures var caps := CapabilityMap(d.dataClasses);
            Served(d, c) <==>
              && ClassUsable(caps, c) && HasAction(d, caps, c.name, Restore) && HasAction(d, caps, c.name, IntegrityCheck)
              && (!RebuildOnly(c.backupMethod) ==> HasAction(d, caps, c.name, Backup))
  {
    var caps := CapabilityMap(d.dataClasses);
    CapabilityMapFacts(d.dataClasses);
    if c.name in caps {
      var row := caps[c.name];
      assert row in d.dataClasses && ValidCapability(row);
      forall other | other in d.dataClasses && other.name == c.name ensures other == row { RowIs(d, other); }
    }
    forall row | row in d.dataClasses && row.name == c.name ensures c.name in caps { RowIs(d, row); }
  }

  lemma ServedNameStable(d: Descriptor, c: DataClass)
    requires ValidDescriptor(d) && Served(d, c)
    ensures StableID(c.name) && StageSuffix(c.name) != ""
  {
    var row :| row in d.dataClasses && row.name == c.name;
    assert ValidCapability(row);
    StableSuffix(c.name);
  }

  // ---- stages ----------------------------------------------------------------------------------

  lemma JoinedStable(word: string, name: string)
    requires StableID(name) && word != "" && forall i | 0 <= i < |word| :: 'a' <= word[i] <= 'z'
    ensures StableID(word + "-" + StageSuffix(name))
  {
    StableSuffix(name);
    var s, tail := word + "-" + StageSuffix(name), StageSuffix(name);
    assert s[|s| - 1] == tail[|tail| - 1] && tail[0] == name[0];
    forall i | 0 <= i < |s| ensures LowerAlnum(s[i]) || s[i] == '-' {
      if i > |word| { assert s[i] == tail[i - |word| - 1]; }
    }
    forall i | 0 <= i < |s| - 1 ensures LowerAlnum(s[i]) || LowerAlnum(s[i + 1]) {
      if i > |word| { assert s[i] == tail[i - |word| - 1] && s[i + 1] == tail[i - |word|]; }
    }
  }

  lemma ClassIDsStable(name: string)
    requires StableID(name)
    ensures StableID(BackupID(name)) && StableID(RestoreID(name)) && StableID(IntegrityID(name))
  {
    JoinedStable("backup", name);
    JoinedStable("restore", name);
    JoinedStable("integrity", name);
    assert "backup" + "-" == "backup-" && "restore" + "-" == "restore-" && "integrity" + "-" == "integrity-";
  }

  lemma RuntimeIDStable(word: string)
    requires word != "" && forall i | 0 <= i < |word| :: 'a' <= word[i] <= 'z'
    ensures StableID(word + "-" + "runtime")
  {
    var s := word + "-" + "runtime";
    assert s[|s| - 1] == 'e';
    forall i | 0 <= i < |s| ensures LowerAlnum(s[i]) || s[i] == '-' {
      if i > |word| { assert s[i] == "runtime"[i - |word| - 1]; }
    }
    forall i | 0 <= i < |s| - 1 ensures LowerAlnum(s[i]) || LowerAlnum(s[i + 1]) {
      if i >= |word| { assert s[i + 1] == "runtime"[i - |word|]; }
    }
  }

  lemma RuntimeIDsStable()
    ensures StableID(FENCE_ID) && StableID(FAILOVER_ID) && StableID(FAILBACK_ID) && StableID(CLEANUP_ID)
  {
    RuntimeIDStable("fence");
    RuntimeIDStable("failover");
    RuntimeIDStable("failback");
    RuntimeIDStable("cleanup");
    assert "fence" + "-" + "runtime" == FENCE_ID && "failover" + "-" + "runtime" == FAILOVER_ID;
    assert "failback" + "-" + "runtime" == FAILBACK_ID && "cleanup" + "-" + "runtime" == CLEANUP_ID;
  }

  /** Everything the validator asks of a stage apart from its references. */
  predicate ShapeSound(e: Stage, known: seq<DataClass>) {
    var guarded := e.action == Fence || e.action == Failover || e.action == Failback;
    && StableID(e.id) && ValidAction(e.action) && e.idempotent && e.dataClasses != []
    && (forall c | c in e.dataClasses :: c in ClassNames(known)) && NoRepeats(e.dataClasses)
    && ValidDestination(e.destination)
    && (e.requiresSingleWriter ==> guarded) && (e.requiresSplitBrainCheck ==> guarded)
    && (e.requiresStaleOriginCheck ==> e.action == Failover || e.action == Failback)
    && (e.requiresReconciliation <==> e.action == Failback)
    && (e.action == Failback ==>
          e.requiresApproval && e.requiresSingleWriter && e.requiresSplitBrainCheck && e.requiresStaleOriginCheck)
    && e.approvalReference == "" && e.reconciliationReference == ""
  }

  ghost predicate ClassesSound(classes: seq<DataClass>, known: seq<DataClass>) {
    && classes != [] && NoRepeats(ClassNames(classes))
    && (forall c | c in classes :: StableID(c.name) && c.name in ClassNames(known))
  }

  lemma ClassStageSound(classes: seq<DataClass>, known: seq<DataClass>, to: Destination, c: DataClass)
    requires ClassesSound(classes, known) && ValidDestination(to) && c in classes
    ensures ShapeSound(BackupStage(c, to), known) && ShapeSound(RestoreStage(c, to), known)
    ensures ShapeSound(IntegrityStage(c, to), known)
  {
    ClassIDsStable(c.name);
  }

  lemma RuntimeStageSound(classes: seq<DataClass>, known: seq<DataClass>, to: Destination, failback: bool)
    requires ClassesSound(classes, known) && ValidDestination(to)
    ensures ShapeSound(FenceStage(ClassNames(classes), to, BackupIDs(classes)), known)
    ensures ShapeSound(FailoverStage(ClassNames(classes), to, IntegrityIDs(classes)), known)
    ensures ShapeSound(FailbackStage(ClassNames(classes), to, [FAILOVER_ID]), known)
    ensures ShapeSound(CleanupStage(ClassNames(classes), to, FinalIDs(classes, to, failback)), known)
  {
    RuntimeIDsStable();
    forall n | n in ClassNames(classes) ensures n in ClassNames(known) {
      var i :| 0 <= i < |classes| && ClassNames(classes)[i] == n;
      assert classes[i] in classes;
    }
    assert ClassNames(classes) != [];
  }

  lemma EmittedSound(classes: seq<DataClass>, known: seq<DataClass>, to: Destination, failback: bool, e: Stage)
    requires ClassesSound(classes, known) && ValidDestination(to) && e in Emitted(classes, to, failback)
    ensures ShapeSound(e, known)
  {
    EmittedShapes(classes, to, failback, e);
    RuntimeStageSound(classes, known, to, failback);
    if c :| c in classes && (e == BackupStage(c, to) || e == RestoreStage(c, to) || e == IntegrityStage(c, to)) {
      ClassStageSound(classes, known, to, c);
    }
  }

  lemma ReferencesDecide(e: Stage, b: Stage, known: seq<DataClass>)
    requires ShapeSound(e, known) && SameShape(e, b)
    requires OptionalLine(b.approvalReference) && OptionalLine(b.reconciliationReference)
    ensures ValidStage(b, known) <==>
              && (b.approvalReference != "" ==> e.requiresApproval)
              && (b.reconciliationReference != "" ==> e.action == Failback)
              && (e.action == Failback ==> b.approvalReference != "" && b.reconciliationReference != "")
  {
  }

  function Reference(refs: map<string, string>, id: string): string {
    if id in refs then refs[id] else ""
  }

  lemma BoundAlone(stages: seq<Stage>, i: nat, approvals: map<string, string>, reconciliations: map<string, string>)
    requires NoRepeats(StageIDs(stages)) && i < |stages|
    requires stages[i].approvalReference == "" && stages[i].reconciliationReference == ""
    ensures var b := BoundStages(stages, approvals, reconciliations)[i];
            && SameShape(stages[i], b) && b.approvalReference == Reference(approvals, stages[i].id)
            && b.reconciliationReference == Reference(reconciliations, stages[i].id)
  {
    var k := StageIndex(stages, stages[i].id, 0);
    assert StageIDs(stages)[i] == stages[i].id && StageIDs(stages)[k] == stages[k].id;
    SameIndex(StageIDs(stages), i, k);
  }

  /** An emitted stage with this ID takes approvals. */
  ghost predicate TakesApproval(stages: seq<Stage>, id: string) {
    exists e | e in stages :: e.id == id && e.requiresApproval
  }

  ghost predicate TakesReconciliation(stages: seq<Stage>, id: string) {
    exists e | e in stages :: e.id == id && e.action == Failback
  }

  ghost predicate ReferencesFit(stages: seq<Stage>, r: Request) {
    && (forall id | id in r.approvals :: TakesApproval(stages, id))
    && (forall id | id in r.reconciliations :: TakesReconciliation(stages, id))
    && (forall e | e in stages && e.action == Failback :: e.id in r.approvals && e.id in r.reconciliations)
  }

  predicate BoundValid(stages: seq<Stage>, r: Request, known: seq<DataClass>) {
    forall b | b in BoundStages(stages, r.approvals, r.reconciliations) :: ValidStage(b, known)
  }

  lemma SameStage(stages: seq<Stage>, a: Stage, b: Stage)
    requires NoRepeats(StageIDs(stages)) && a in stages && b in stages && a.id == b.id
    ensures a == b
  {
    var i :| 0 <= i < |stages| && stages[i] == a;
    var k :| 0 <= k < |stages| && stages[k] == b;
    assert StageIDs(stages)[i] == StageIDs(stages)[k];
    SameIndex(StageIDs(stages), i, k);
  }

  lemma OneBoundValid(stages: seq<Stage>, r: Request, known: seq<DataClass>, i: nat)
    requires NoRepeats(StageIDs(stages)) && ValidReferences(r.approvals) && ValidReferences(r.reconciliations)
    requires i < |stages| && ShapeSound(stages[i], known)
    ensures var e := stages[i];
            ValidStage(BoundStages(stages, r.approvals, r.reconciliations)[i], known) <==>
              && (e.id in r.approvals ==> e.requiresApproval) && (e.id in r.reconciliations ==> e.action == Failback)
              && (e.action == Failback ==> e.id in r.approvals && e.id in r.reconciliations)
  {
    BoundAlone(stages, i, r.approvals, r.reconciliations);
    ReferencesDecide(stages[i], BoundStages(stages, r.approvals, r.reconciliations)[i], known);
  }

  lemma FitsIsValid(stages: seq<Stage>, r: Request, known: seq<DataClass>)
    requires NoRepeats(StageIDs(stages)) && ValidReferences(r.approvals) && ValidReferences(r.reconciliations)
    requires (forall e | e in stages :: ShapeSound(e, known)) && ReferencesFit(stages, r)
    ensures BoundValid(stages, r, known) && Targets(stages, r.approvals) && Targets(stages, r.reconciliations)
  {
    var bound := BoundStages(stages, r.approvals, r.reconciliations);
    forall i | 0 <= i < |stages| ensures ValidStage(bound[i], known) {
      OneBoundValid(stages, r, known, i);
      var e := stages[i];
      if e.id in r.approvals {
        var f :| f in stages && f.id == e.id && f.requiresApproval;
        SameStage(stages, e, f);
      }
      if e.id in r.reconciliations {
        var f :| f in stages && f.id == e.id && f.action == Failback;
        SameStage(stages, e, f);
      }
    }
    forall id | id in r.approvals ensures StageIndex(stages, id, 0) >= 0 {
      var f :| f in stages && f.id == id && f.requiresApproval;
    }
    forall id | id in r.reconciliations ensures StageIndex(stages, id, 0) >= 0 {
      var f :| f in stages && f.id == id && f.action == Failback;
    }
  }

  lemma ValidFits(stages: seq<Stage>, r: Request, known: seq<DataClass>)
    requires NoRepeats(StageIDs(stages)) && ValidReferences(r.approvals) && ValidReferences(r.reconciliations)
    requires forall e | e in stages :: ShapeSound(e, known)
    requires BoundValid(stages, r, known) && Targets(stages, r.approvals) && Targets(stages, r.reconciliations)
    ensures ReferencesFit(stages, r)
  {
    var bound := BoundStages(stages, r.approvals, r.reconciliations);
    forall i | 0 <= i < |stages|
      ensures var e := stages[i];
        && (e.id in r.approvals ==> e.requiresApproval) && (e.id in r.reconciliations ==> e.action == Failback)
        && (e.action == Failback ==> e.id in r.approvals && e.id in r.reconciliations)
    {
      assert bound[i] in bound;
      OneBoundValid(stages, r, known, i);
    }
    forall id | id in r.approvals ensures TakesApproval(stages, id) {
      assert stages[StageIndex(stages, id, 0)] in stages;
    }
    forall id | id in r.reconciliations ensures TakesReconciliation(stages, id) {
      assert stages[StageIndex(stages, id, 0)] in stages;
    }
  }

  // ---- which IDs take references ---------------------------------------------------------------

  lemma ApprovalTaken(r: Request, classes: seq<DataClass>, to: Destination, failback: bool, e: Stage)
    requires (forall c :: c in classes <==> c in r.dataClasses) && e in Emitted(classes, to, failback) && e.requiresApproval
    ensures Approvable(r, to, e.id)
  {
    EmittedPlays(classes, to, failback, e);
    if e.action == Restore {
      var c :| c in classes && e == RestoreStage(c, to);
      assert RestoreID(c.name) == "restore-" + StageSuffix(c.name);
    }
  }

  lemma RuntimeTaken(classes: seq<DataClass>, to: Destination, failback: bool)
    ensures to in {SameRegion, AlternateRegion, AlternateProvider} ==> TakesApproval(Emitted(classes, to, failback), FENCE_ID)
    ensures to in {AlternateRegion, AlternateProvider} ==> TakesApproval(Emitted(classes, to, failback), FAILOVER_ID)
    ensures failback ==> TakesApproval(Emitted(classes, to, failback), FAILBACK_ID)
  {
    var names, emitted := ClassNames(classes), Emitted(classes, to, failback);
    if RequiresFence(to) { assert FenceStage(names, to, BackupIDs(classes)) in emitted; }
    if RequiresFailover(to) { assert FailoverStage(names, to, IntegrityIDs(classes)) in emitted; }
    if failback { assert FailbackStage(names, to, [FAILOVER_ID]) in emitted; }
  }

  lemma RestoreTaken(classes: seq<DataClass>, to: Destination, failback: bool, c: DataClass)
    requires c in classes && (to == SameRegion || c.name == "queue")
    ensures TakesApproval(Emitted(classes, to, failback), "restore-" + StageSuffix(c.name))
  {
    ClassStageMembers(classes, to);
    assert RestoreStage(c, to) in Emitted(classes, to, failback) && RestoreID(c.name) == "restore-" + StageSuffix(c.name);
  }

  lemma ApprovableTaken(r: Request, classes: seq<DataClass>, to: Destination, failback: bool, id: string)
    requires (forall c :: c in classes <==> c in r.dataClasses) && Approvable(r, to, id)
    requires id == FAILBACK_ID ==> failback
    ensures TakesApproval(Emitted(classes, to, failback), id)
  {
    if c :| c in r.dataClasses && id == "restore-" + StageSuffix(c.name) && (to == SameRegion || c.name == "queue") {
      RestoreTaken(classes, to, failback, c);
    } else {
      RuntimeTaken(classes, to, failback);
    }
  }

  lemma FailbackTaken(classes: seq<DataClass>, to: Destination, failback: bool, id: string)
    ensures TakesReconciliation(Emitted(classes, to, failback), id) <==> failback && id == FAILBACK_ID
  {
    var emitted := Emitted(classes, to, failback);
    forall e | e in emitted && e.action == Failback ensures failback && e.id == FAILBACK_ID {
      EmittedPlays(classes, to, failback, e);
    }
    if failback { assert FailbackStage(ClassNames(classes), to, [FAILOVER_ID]) in emitted; }
  }

  lemma ReferencesFitIff(r: Request, classes: seq<DataClass>, to: Destination)
    requires forall c :: c in classes <==> c in r.dataClasses
    ensures ReferencesFit(Emitted(classes, to, WantsFailback(r)), r) <==>
              && (forall id | id in r.approvals :: Approvable(r, to, id))
              && (forall id | id in r.reconciliations :: id == FAILBACK_ID && WantsFailback(r))
              && (WantsFailback(r) ==> FAILBACK_ID in r.reconciliations)
  {
    var failback, emitted := WantsFailback(r), Emitted(classes, to, WantsFailback(r));
    forall id | id in r.reconciliations ensures TakesReconciliation(emitted, id) <==> failback && id == FAILBACK_ID {
      FailbackTaken(classes, to, failback, id);
    }
    forall id | id in r.approvals ensures TakesApproval(emitted, id) <==> Approvable(r, to, id) {
      if TakesApproval(emitted, id) {
        var e :| e in emitted && e.id == id && e.requiresApproval;
        ApprovalTaken(r, classes, to, failback, e);
      }
      if Approvable(r, to, id) { ApprovableTaken(r, classes, to, failback, id); }
    }
    forall e | e in emitted && e.action == Failback ensures failback && e.id == FAILBACK_ID {
      EmittedPlays(classes, to, failback, e);
    }
    if failback { assert FailbackStage(ClassNames(classes), to, [FAILOVER_ID]) in emitted; }
  }

  // ---- the draft -------------------------------------------------------------------------------

  lemma {:induction false} BackupsApart(classes: seq<DataClass>, to: Destination, failback: bool)
    requires NoRepeats(StageIDs(Emitted(classes, to, failback)))
    ensures NoRepeats(BackupIDs(classes)) && NoRepeats(IntegrityIDs(classes))
  {
    EmittedIDsDistinctIff(classes, to, failback);
    BackupIDsDistinct(classes);
    forall i, j | 0 <= i < j < |classes| ensures IntegrityIDs(classes)[i] != IntegrityIDs(classes)[j] {
      OneOfTwo(classes, i, j);
    }
  }

  lemma ClassDependenciesApart(c: DataClass, to: Destination)
    ensures NoRepeats(BackupStage(c, to).dependsOn) && NoRepeats(RestoreStage(c, to).dependsOn)
    ensures NoRepeats(IntegrityStage(c, to).dependsOn)
  {
    LettersOfIDs(c.name);
    assert BackupID(c.name) != FENCE_ID;
  }

  lemma RuntimeDependenciesApart(classes: seq<DataClass>, to: Destination, failback: bool)
    requires NoRepeats(BackupIDs(classes)) && NoRepeats(IntegrityIDs(classes))
    ensures NoRepeats(FenceStage(ClassNames(classes), to, BackupIDs(classes)).dependsOn)
    ensures NoRepeats(FailoverStage(ClassNames(classes), to, IntegrityIDs(classes)).dependsOn)
    ensures NoRepeats(FailbackStage(ClassNames(classes), to, [FAILOVER_ID]).dependsOn)
    ensures NoRepeats(CleanupStage(ClassNames(classes), to, FinalIDs(classes, to, failback)).dependsOn)
  {
  }

  lemma DependenciesApart(classes: seq<DataClass>, to: Destination, failback: bool, e: Stage)
    requires e in Emitted(classes, to, failback) && NoRepeats(StageIDs(Emitted(classes, to, failback)))
    ensures NoRepeats(e.dependsOn)
  {
    EmittedShapes(classes, to, failback, e);
    BackupsApart(classes, to, failback);
    RuntimeDependenciesApart(classes, to, failback);
    if c :| c in classes && (e == BackupStage(c, to) || e == RestoreStage(c, to) || e == IntegrityStage(c, to)) {
      ClassDependenciesApart(c, to);
    }
  }

  lemma BoundDependencies(emitted: seq<Stage>, approvals: map<string, string>, reconciliations: map<string, string>)
    requires forall e | e in emitted :: NoRepeats(e.dependsOn)
    ensures forall s | s in BoundStages(emitted, approvals, reconciliations) :: NoRepeats(s.dependsOn)
  {
    var bound := BoundStages(emitted, approvals, reconciliations);
    forall i | 0 <= i < |bound| ensures NoRepeats(bound[i].dependsOn) {
      assert bound[i].dependsOn == emitted[i].dependsOn && emitted[i] in emitted;
    }
  }

  lemma DependenciesByPart(stages: seq<Stage>)
    requires forall s | s in stages :: NoRepeats(s.dependsOn)
    requires forall i, dep | 0 <= i < |stages| && dep in stages[i].dependsOn :: dep in StageIDs(stages) && dep != stages[i].id
    ensures forall s | s in stages :: DependenciesSound(stages, s)
  {
    forall i | 0 <= i < |stages| ensures DependenciesSound(stages, stages[i]) { assert stages[i] in stages; }
  }

  lemma DraftIsBound(d: Descriptor, r: Request, to: Destination)
    ensures Draft(d, r, to).stages
            == BoundStages(Emitted(SortedClasses(r), to, WantsFailback(r)), r.approvals, r.reconciliations)
  {
  }

  lemma DraftDependenciesSound(d: Descriptor, r: Request, to: Destination)
    requires (WantsFailback(r) ==> RequiresFailover(to)) && NoRepeats(StageIDs(Draft(d, r, to).stages))
    ensures forall s | s in Draft(d, r, to).stages :: DependenciesSound(Draft(d, r, to).stages, s)
  {
    var emitted := Emitted(SortedClasses(r), to, WantsFailback(r));
    DraftGraphSound(d, r, to);
    DraftIDs(d, r, to);
    DraftIsBound(d, r, to);
    forall e | e in emitted ensures NoRepeats(e.dependsOn) { DependenciesApart(SortedClasses(r), to, WantsFailback(r), e); }
    BoundDependencies(emitted, r.approvals, r.reconciliations);
    DependenciesByPart(Draft(d, r, to).stages);
  }

  lemma ProofsNamed(classes: seq<DataClass>, to: Destination, failback: bool)
    ensures UniqueStrings(EmittedProofs(classes, to, failback)) != []
  {
    var proofs := EmittedProofs(classes, to, failback);
    assert proofs[|proofs| - 1] == "cleanup" && !IsSpace("cleanup"[0]);
    assert UniqueNonBlank(proofs) != [];
    SortKeeps(UniqueNonBlank(proofs), StrLe);
  }

  lemma ValidPlanByPart(p: Plan, known: seq<DataClass>)
    requires !Blank(p.adapterID) && !Blank(p.fixtureID) && !Blank(p.ownershipMarker) && p.stages != [] && p.requiredProofs != []
    requires Acyclic(StageGraph(p.stages))
    requires NoRepeats(StageIDs(p.stages)) ==> forall s | s in p.stages :: DependenciesSound(p.stages, s)
    ensures ValidPlan(p, known) <==>
              && SingleLine(p.fixtureID) && SingleLine(p.ownershipMarker) && NoRepeats(StageIDs(p.stages))
              && forall s | s in p.stages :: ValidStage(s, known)
  {
  }

  lemma SomeStage(classes: seq<DataClass>, to: Destination, failback: bool)
    ensures Emitted(classes, to, failback) != []
  {
  }

  lemma AdapterNamed(d: Descriptor)
    requires ValidDescriptor(d)
    ensures !Blank(d.id)
  {
    assert !IsSpace(d.id[0]);
  }

  lemma DraftParts(d: Descriptor, r: Request, to: Destination)
    requires ValidDescriptor(d) && ValidRequest(r)
    ensures var p := Draft(d, r, to);
      && p.fixtureID == r.fixtureID && p.ownershipMarker == r.ownershipMarker
      && !Blank(p.adapterID) && !Blank(p.fixtureID) && !Blank(p.ownershipMarker) && p.stages != [] && p.requiredProofs != []
  {
    ProofsNamed(SortedClasses(r), to, WantsFailback(r));
    AdapterNamed(d);
    SomeStage(SortedClasses(r), to, WantsFailback(r));
    DraftIsBound(d, r, to);
  }

  lemma DraftValidIff(d: Descriptor, r: Request, to: Destination)
    requires ValidDescriptor(d) && ValidRequest(r) && (WantsFailback(r) ==> RequiresFailover(to))
    ensures ValidPlan(Draft(d, r, to), r.dataClasses) <==>
              && SingleLine(r.fixtureID) && SingleLine(r.ownershipMarker) && NoRepeats(StageIDs(Draft(d, r, to).stages))
              && BoundValid(Emitted(SortedClasses(r), to, WantsFailback(r)), r, r.dataClasses)
  {
    var p := Draft(d, r, to);
    DraftParts(d, r, to);
    DraftIsBound(d, r, to);
    DraftGraphSound(d, r, to);
    if NoRepeats(StageIDs(p.stages)) { DraftDependenciesSound(d, r, to); }
    ValidPlanByPart(p, r.dataClasses);
  }

  lemma ClassesAreSound(d: Descriptor, r: Request)
    requires ValidDescriptor(d) && ValidRequest(r) && forall c | c in r.dataClasses :: Served(d, c)
    ensures ClassesSound(SortedClasses(r), r.dataClasses)
  {
    SortKeeps(r.dataClasses, ByName);
    SortedNames(r);
    forall c | c in SortedClasses(r) ensures StableID(c.name) && c.name in ClassNames(r.dataClasses) {
      SortedMembers(r, c);
      ServedNameStable(d, c);
      NameMember(r.dataClasses, c.name);
    }
  }

  /** The part of acceptance that judges the draft: references land where they may, and suffixes stay apart. */
  lemma DraftAcceptedIff(d: Descriptor, r: Request, to: Destination)
    requires ValidDescriptor(d) && ValidRequest(r) && (forall c | c in r.dataClasses :: Served(d, c)) && ValidDestination(to)
    requires WantsFailback(r) ==> RequiresFailover(to)
    ensures var emitted := Emitted(SortedClasses(r), to, WantsFailback(r));
            Targets(emitted, r.approvals) && Targets(emitted, r.reconciliations)
            && ValidPlan(Draft(d, r, to), r.dataClasses)
            <==>
            && SingleLine(r.fixtureID) && SingleLine(r.ownershipMarker) && SuffixesApart(r.dataClasses)
            && ReferencesFit(emitted, r)
  {
    var emitted := Emitted(SortedClasses(r), to, WantsFailback(r));
    DraftValidIff(d, r, to);
    DraftIDsDistinctIff(d, r, to);
    DraftIDs(d, r, to);
    ClassesAreSound(d, r);
    forall e | e in emitted ensures ShapeSound(e, r.dataClasses) {
      EmittedSound(SortedClasses(r), r.dataClasses, to, WantsFailback(r), e);
    }
    if SuffixesApart(r.dataClasses) {
      if ReferencesFit(emitted, r) { FitsIsValid(emitted, r, r.dataClasses); }
      if BoundValid(emitted, r, r.dataClasses) && Targets(emitted, r.approvals) && Targets(emitted, r.reconciliations) {
        ValidFits(emitted, r, r.dataClasses);
      }
    }
  }

  // ---- the whole condition ---------------------------------------------------------------------

  lemma ClassesServedIff(d: Descriptor, r: Request)
    requires ValidDescriptor(d)
    ensures var caps, classes := CapabilityMap(d.dataClasses), SortedClasses(r);
            (forall c | c in r.dataClasses :: Served(d, c)) <==>
              forall c | c in classes ::
                && ClassUsable(caps, c) && StageSuffix(c.name) != ""
                && (!RebuildOnly(c.backupMethod) ==> HasAction(d, caps, c.name, Backup))
                && HasAction(d, caps, c.name, Restore) && HasAction(d, caps, c.name, IntegrityCheck)
  {
    forall c ensures c in SortedClasses(r) <==> c in r.dataClasses { SortedMembers(r, c); }
    forall c ensures Served(d, c) <==>
              var caps := CapabilityMap(d.dataClasses);
              && ClassUsable(caps, c) && StageSuffix(c.name) != ""
              && (!RebuildOnly(c.backupMethod) ==> HasAction(d, caps, c.name, Backup))
              && HasAction(d, caps, c.name, Restore) && HasAction(d, caps, c.name, IntegrityCheck)
    {
      ServedIff(d, c);
      if Served(d, c) { ServedNameStable(d, c); }
    }
  }

  lemma RuntimeServedIff(d: Descriptor, r: Request, to: Destination)
    requires ValidRequest(r)
    ensures RuntimeServed(d, r, to) <==>
              && (RequiresFence(to) ==> Fence in d.capabilities) && (RequiresFailover(to) ==> Failover in d.capabilities)
              && (WantsFailback(r) ==> RequiresFailover(to) && Failback in d.capabilities) && Cleanup in d.capabilities
              && (WantsFailback(r) ==> !Blank(ReconciliationFor(r, FAILBACK_ID)))
  {
  }

  lemma ActionsServedIff(d: Descriptor, r: Request, to: Destination)
    requires ValidDescriptor(d) && ValidRequest(r)
    ensures (forall c | c in r.dataClasses :: Served(d, c)) && RuntimeServed(d, r, to) <==>
              && (forall c | c in SortedClasses(r) :: ClassUsable(CapabilityMap(d.dataClasses), c))
              && ActionsAvailable(d, CapabilityMap(d.dataClasses), SortedClasses(r), to, WantsFailback(r))
              && (WantsFailback(r) ==> !Blank(ReconciliationFor(r, FAILBACK_ID)))
  {
    ClassesServedIff(d, r);
    RuntimeServedIff(d, r, to);
  }

  lemma FitWhenServed(r: Request, to: Destination, d: Descriptor)
    requires RuntimeServed(d, r, to)
    ensures ReferencesFit(Emitted(SortedClasses(r), to, WantsFailback(r)), r) <==>
              && (forall id | id in r.approvals :: Approvable(r, to, id))
              && (forall id | id in r.reconciliations :: id == "failback-runtime" && id in r.approvals)
  {
    forall c ensures c in SortedClasses(r) <==> c in r.dataClasses { SortedMembers(r, c); }
    ReferencesFitIff(r, SortedClasses(r), to);
  }

  lemma ChosenIsValid(d: Descriptor, r: Request)
    requires ValidRequest(r) && Chosen(d, r).Some?
    ensures ValidDestination(Chosen(d, r).value)
  {
    ChosenIsRequested(0, r.destinations, SortedClasses(r), CapabilityMap(d.dataClasses));
  }

  ghost predicate InputsValid(d: Descriptor, r: Request) {
    ValidDescriptor(d) && ValidRequest(r) && d.provider == r.provider
  }

  ghost predicate Acts(d: Descriptor, r: Request, to: Destination) {
    && (forall c | c in SortedClasses(r) :: ClassUsable(CapabilityMap(d.dataClasses), c))
    && ActionsAvailable(d, CapabilityMap(d.dataClasses), SortedClasses(r), to, WantsFailback(r))
    && (WantsFailback(r) ==> !Blank(ReconciliationFor(r, FAILBACK_ID)))
  }

  ghost predicate DraftPasses(d: Descriptor, r: Request, to: Destination) {
    var emitted := Emitted(SortedClasses(r), to, WantsFailback(r));
    Targets(emitted, r.approvals) && Targets(emitted, r.reconciliations) && ValidPlan(Draft(d, r, to), r.dataClasses)
  }

  lemma AcceptsByPart(d: Descriptor, r: Request)
    ensures Accepts(d, r) <==>
              && InputsValid(d, r) && Chosen(d, r).Some? && Acts(d, r, Chosen(d, r).value)
              && DraftPasses(d, r, Chosen(d, r).value)
  {
  }

  ghost predicate AllServed(d: Descriptor, r: Request, to: Destination) {
    (forall c | c in r.dataClasses :: Served(d, c)) && RuntimeServed(d, r, to)
  }

  ghost predicate TextsFit(r: Request, to: Destination) {
    && SingleLine(r.fixtureID) && SingleLine(r.ownershipMarker) && SuffixesApart(r.dataClasses)
    && (forall id | id in r.approvals :: Approvable(r, to, id))
    && (forall id | id in r.reconciliations :: id == "failback-runtime" && id in r.approvals)
  }

  lemma CompilableByPart(d: Descriptor, r: Request)
    ensures Compilable(d, r) <==>
              && InputsValid(d, r) && Chosen(d, r).Some? && AllServed(d, r, Chosen(d, r).value)
              && TextsFit(r, Chosen(d, r).value)
  {
  }

  lemma ActsIff(d: Descriptor, r: Request, to: Destination)
    requires InputsValid(d, r)
    ensures Acts(d, r, to) <==> AllServed(d, r, to)
  {
    ActionsServedIff(d, r, to);
  }

  lemma FailbackServed(d: Descriptor, r: Request, to: Destination)
    requires RuntimeServed(d, r, to)
    ensures WantsFailback(r) ==> RequiresFailover(to)
  {
  }

  lemma DraftPassesIff(d: Descriptor, r: Request, to: Destination)
    requires InputsValid(d, r) && Chosen(d, r) == Some(to) && AllServed(d, r, to)
    ensures DraftPasses(d, r, to) <==> TextsFit(r, to)
  {
    ChosenIsValid(d, r);
    FailbackServed(d, r, to);
    DraftAcceptedIff(d, r, to);
    FitWhenServed(r, to, d);
  }

  /**
   * A request compiles exactly when both inputs are valid for one provider, the fixture and marker are single lines,
   * no two class names share a stage suffix, every class has a usable row with the actions it needs, some requested
   * destination serves all classes and the adapter has that destination's runtime actions, every approval names a
   * stage that takes one, and the only reconciliation is that of an approved failback.
   */
  lemma CompilesIff(d: Descriptor, r: Request)
    ensures Compile(d, r).Some? <==> Compilable(d, r)
  {
    AcceptsByPart(d, r);
    CompilableByPart(d, r);
    if InputsValid(d, r) && Chosen(d, r).Some? {
      ActsIff(d, r, Chosen(d, r).value);
      if AllServed(d, r, Chosen(d, r).value) { DraftPassesIff(d, r, Chosen(d, r).value); }
    }
  }

  lemma CompilesTo(d: Descriptor, r: Request, to: Destination)
    requires InputsValid(d, r) && Chosen(d, r) == Some(to) && AllServed(d, r, to) && TextsFit(r, to)
    ensures Compile(d, r) == Some(Draft(d, r, to))
  {
    CompilableByPart(d, r);
    CompilesIff(d, r);
  }

  /** Without a fence no request compiles that only asks for destinations which need one. */
  lemma UnfencedNeverCompiles(d: Descriptor, r: Request)
    requires Fence !in d.capabilities
    requires forall to | to in r.destinations :: to == SameRegion || to == AlternateRegion || to == AlternateProvider
    ensures Compile(d, r).None?
  {
    CompilesIff(d, r);
    ChosenIsRequested(0, r.destinations, SortedClasses(r), CapabilityMap(d.dataClasses));
  }
}
