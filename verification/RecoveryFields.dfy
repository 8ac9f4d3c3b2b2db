/** What the recovery validators accept, in fields. */
module RecoveryFields {
  import opened Text
  import opened Ordering
  import opened Patterns
  import opened DependencyGraph
  import opened RecoveryPlan

  const ACTIONS := {Backup, Restore, IntegrityCheck, Failover, Failback, Fence, Cleanup}
  const DESTINATIONS := {SameRegion, SameRegionIsolated, AlternateRegion, AlternateProvider}

  predicate Filled(s: string) {
    exists c | c in s :: !IsSpace(c)
  }

  lemma FilledMeans(s: string)
    ensures Filled(s) <==> !Blank(s)
  {
    assert forall i | 0 <= i < |s| :: s[i] in s;
    if !Blank(s) {
      var i :| 0 <= i < |s| && !IsSpace(s[i]);
      assert s[i] in s;
    }
  }

  predicate FilledLine(s: string) {
    Filled(s) && '\r' !in s && '\n' !in s && '\0' !in s
  }

  lemma RowsApart(rows: seq<Capability>)
    ensures NoRepeats(CapabilityNames(rows)) <==> forall i, j | 0 <= i < j < |rows| :: rows[i].name != rows[j].name
  {
    var names := CapabilityNames(rows);
    assert forall i | 0 <= i < |rows| :: names[i] == rows[i].name;
    if NoRepeats(names) {
      forall i, j | 0 <= i < j < |rows| ensures rows[i].name != rows[j].name { assert names[i] != names[j]; }
    }
  }

  lemma ClassesApart(classes: seq<DataClass>)
    ensures NoRepeats(ClassNames(classes)) <==> forall i, j | 0 <= i < j < |classes| :: classes[i].name != classes[j].name
  {
    var names := ClassNames(classes);
    assert forall i | 0 <= i < |classes| :: names[i] == classes[i].name;
    if NoRepeats(names) {
      forall i, j | 0 <= i < j < |classes| ensures classes[i].name != classes[j].name { assert names[i] != names[j]; }
    }
  }

  lemma StagesApart(stages: seq<Stage>)
    ensures NoRepeats(StageIDs(stages)) <==> forall i, j | 0 <= i < j < |stages| :: stages[i].id != stages[j].id
  {
    var names := StageIDs(stages);
    assert forall i | 0 <= i < |stages| :: names[i] == stages[i].id;
    if NoRepeats(names) {
      forall i, j | 0 <= i < j < |stages| ensures stages[i].id != stages[j].id { assert names[i] != names[j]; }
    }
  }

  // ---- the adapter -----------------------------------------------------------------------------

  /** A usable row lists polled actions; an unusable one gives its reason and lists nothing; promises name their means. */
  predicate SoundRow(c: Capability) {
    && StableID(c.name)
    && (if c.status in {Supported, Certified, Experimental} then c.actions != [] && c.pollingRequired
        else c.status in {Unavailable, Unsupported, Blocked} && Filled(c.reason) && c.actions == [] && c.destinations == [])
    && (c.retentionRequired ==> Filled(c.retentionPolicy)) && (c.encryptionRequired ==> Filled(c.encryptionBoundary))
    && (c.protectionRequired ==> Filled(c.protectionMechanism))
    && (forall a | a in c.actions :: a in ACTIONS) && (forall t | t in c.destinations :: t in DESTINATIONS)
    && NoRepeats(c.actions) && NoRepeats(c.destinations) && (Restore in c.actions ==> c.destinations != [])
  }

  lemma RowMeans(c: Capability)
    ensures ValidCapability(c) <==> SoundRow(c)
  {
    FilledMeans(c.reason);
    FilledMeans(c.retentionPolicy);
    FilledMeans(c.encryptionBoundary);
    FilledMeans(c.protectionMechanism);
    assert forall i | 0 <= i < |c.actions| :: c.actions[i] in c.actions;
    assert forall i | 0 <= i < |c.destinations| :: c.destinations[i] in c.destinations;
  }

  /** The descriptor validator in fields; its rows are all sound and no two are for one class. */
  lemma DescriptorMeans(d: Descriptor)
    ensures ValidDescriptor(d) <==>
              && d.versionsAccepted && StableID(d.id) && StableID(d.provider)
              && d.capabilities != [] && (forall a | a in d.capabilities :: a in ACTIONS) && NoRepeats(d.capabilities)
              && (forall c | c in d.dataClasses :: SoundRow(c))
              && forall i, j | 0 <= i < j < |d.dataClasses| :: d.dataClasses[i].name != d.dataClasses[j].name
  {
    forall c ensures ValidCapability(c) <==> SoundRow(c) { RowMeans(c); }
    RowsApart(d.dataClasses);
  }

  // ---- the request -----------------------------------------------------------------------------

  predicate SoundReferences(refs: map<string, string>) {
    forall id | id in refs :: StableID(id) && FilledLine(refs[id])
  }

  lemma ReferencesMean(refs: map<string, string>)
    ensures ValidReferences(refs) <==> SoundReferences(refs)
  {
    forall id | id in refs ensures RequiredLine(refs[id]) <==> FilledLine(refs[id]) { FilledMeans(refs[id]); }
  }

  /** The request validator in fields. */
  lemma RequestMeans(r: Request)
    ensures ValidRequest(r) <==>
              && r.otherwiseValid && StableID(r.provider) && Filled(r.fixtureID) && Filled(r.ownershipMarker)
              && r.ownershipMarker == r.architectureMarker && r.dataClasses != [] && r.destinations != []
              && (forall c | c in r.dataClasses :: Filled(c.name) && Filled(c.backupMethod) && c.complete)
              && (forall i, j | 0 <= i < j < |r.dataClasses| :: r.dataClasses[i].name != r.dataClasses[j].name)
              && (forall t | t in r.destinations :: t in DESTINATIONS) && NoRepeats(r.destinations)
              && SoundReferences(r.approvals) && SoundReferences(r.reconciliations)
  {
    FilledMeans(r.fixtureID);
    FilledMeans(r.ownershipMarker);
    ReferencesMean(r.approvals);
    ReferencesMean(r.reconciliations);
    forall c | c in r.dataClasses ensures (Filled(c.name) <==> !Blank(c.name)) && (Filled(c.backupMethod) <==> !Blank(c.backupMethod)) {
      FilledMeans(c.name);
      FilledMeans(c.backupMethod);
    }
    ClassesApart(r.dataClasses);
  }

  // ---- the plan --------------------------------------------------------------------------------

  predicate OptionalReference(s: string, required: bool) {
    s == "" || (FilledLine(s) && required)
  }

  /** Each safety check only where it belongs; a failback asks for all of them and has both references bound. */
  predicate SoundStage(s: Stage, known: set<string>) {
    && StableID(s.id) && s.action in ACTIONS && s.idempotent && (s.destination == NoDestination || s.destination in DESTINATIONS)
    && s.dataClasses != [] && (forall c | c in s.dataClasses :: c in known) && NoRepeats(s.dataClasses)
    && OptionalReference(s.approvalReference, s.requiresApproval)
    && OptionalReference(s.reconciliationReference, s.requiresReconciliation)
    && (s.requiresSingleWriter || s.requiresSplitBrainCheck ==> s.action in {Fence, Failover, Failback})
    && (s.requiresStaleOriginCheck ==> s.action in {Failover, Failback}) && (s.requiresReconciliation ==> s.action == Failback)
    && (s.action == Failback ==>
          && s.requiresApproval && s.requiresSingleWriter && s.requiresSplitBrainCheck && s.requiresStaleOriginCheck
          && s.requiresReconciliation && s.approvalReference != "" && s.reconciliationReference != "")
  }

  lemma StageMeans(s: Stage, known: seq<DataClass>)
    ensures ValidStage(s, known) <==> SoundStage(s, set c | c in known :: c.name)
  {
    FilledMeans(s.approvalReference);
    FilledMeans(s.reconciliationReference);
    forall n ensures n in ClassNames(known) <==> n in (set c | c in known :: c.name) { NameKnown(known, n); }
  }

  lemma NameKnown(known: seq<DataClass>, n: string)
    ensures n in ClassNames(known) <==> n in (set c | c in known :: c.name)
  {
    if n in ClassNames(known) {
      var i :| 0 <= i < |known| && ClassNames(known)[i] == n;
      assert known[i] in known;
    }
    if c :| c in known && c.name == n {
      var i :| 0 <= i < |known| && known[i] == c;
      assert ClassNames(known)[i] == n;
    }
  }

  /** Every dependency names another stage of the plan, once. */
  predicate SoundDependencies(stages: seq<Stage>, s: Stage) {
    && NoRepeats(s.dependsOn)
    && forall dep | dep in s.dependsOn :: dep != s.id && exists t | t in stages :: t.id == dep
  }

  lemma IDKnown(stages: seq<Stage>, id: string)
    ensures id in StageIDs(stages) <==> exists t | t in stages :: t.id == id
  {
    if id in StageIDs(stages) {
      var i :| 0 <= i < |stages| && StageIDs(stages)[i] == id;
      assert stages[i] in stages;
    }
    if t :| t in stages && t.id == id {
      var i :| 0 <= i < |stages| && stages[i] == t;
      assert StageIDs(stages)[i] == id;
    }
  }

  /** The plan validator in fields. */
  lemma PlanMeans(p: Plan, known: seq<DataClass>)
    ensures ValidPlan(p, known) <==>
              && Filled(p.adapterID) && FilledLine(p.fixtureID) && FilledLine(p.ownershipMarker)
              && p.stages != [] && p.requiredProofs != []
              && (forall s | s in p.stages :: SoundStage(s, set c | c in known :: c.name) && SoundDependencies(p.stages, s))
              && (forall i, j | 0 <= i < j < |p.stages| :: p.stages[i].id != p.stages[j].id)
              && Acyclic(StageGraph(p.stages))
  {
    FilledMeans(p.adapterID);
    FilledMeans(p.fixtureID);
    FilledMeans(p.ownershipMarker);
    forall s ensures ValidStage(s, known) <==> SoundStage(s, set c | c in known :: c.name) { StageMeans(s, known); }
    forall id ensures id in StageIDs(p.stages) <==> exists t | t in p.stages :: t.id == id { IDKnown(p.stages, id); }
    assert forall s :: DependenciesSound(p.stages, s) <==> SoundDependencies(p.stages, s);
    StagesApart(p.stages);
  }
}
