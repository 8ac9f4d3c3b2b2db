/** The provider-neutral recovery-plan compiler and the plan validator. */
module RecoveryPlan {
  import opened Optional
  import opened Text
  import opened Ordering
  import opened Patterns
  import opened DependencyGraph

  datatype Action =
    | Backup | Restore | IntegrityCheck | Failover | Failback | Fence | Cleanup | NoAction | OtherAction(text: string)

  datatype Destination =
    | SameRegion | SameRegionIsolated | AlternateRegion | AlternateProvider | NoDestination | OtherDestination(text: string)

  datatype Status = Supported | Certified | Experimental | Unavailable | Unsupported | Blocked | OtherStatus(text: string)

  datatype Capability = Capability(
    name: string, status: Status, actions: seq<Action>, destinations: seq<Destination>, reason: string,
    pollingRequired: bool, retentionRequired: bool, encryptionRequired: bool, protectionRequired: bool,
    retentionPolicy: string, encryptionBoundary: string, protectionMechanism: string)

  /** `versionsAccepted` stands for the extension API and adapter version checks. */
  datatype Descriptor = Descriptor(
    id: string, provider: string, versionsAccepted: bool, capabilities: seq<Action>, dataClasses: seq<Capability>)

  /** `complete` stands for the remaining required fields of a data-class policy. */
  datatype DataClass = DataClass(name: string, backupMethod: string, complete: bool)

  /** `otherwiseValid` stands for the parts of the architecture that planning never reads. */
  datatype Request = Request(
    provider: string, dataClasses: seq<DataClass>, destinations: seq<Destination>, architectureMarker: string,
    otherwiseValid: bool, fixtureID: string, ownershipMarker: string,
    approvals: map<string, string>, reconciliations: map<string, string>)

  datatype Stage = Stage(
    id: string, action: Action, dataClasses: seq<string>, destination: Destination, dependsOn: seq<string>,
    idempotent: bool, requiresApproval: bool, approvalReference: string, reconciliationReference: string,
    requiresSingleWriter: bool, requiresSplitBrainCheck: bool, requiresStaleOriginCheck: bool, requiresReconciliation: bool)

  datatype Plan = Plan(
    adapterID: string, fixtureID: string, ownershipMarker: string, stages: seq<Stage>, requiredProofs: seq<string>)

  const FENCE_ID := "fence-runtime"
  const FAILOVER_ID := "failover-runtime"
  const FAILBACK_ID := "failback-runtime"
  const CLEANUP_ID := "cleanup-runtime"

  // ---- names -----------------------------------------------------------------------------------

  function Lower(c: char): char {
    if 'A' <= c <= 'Z' then (c as int - 'A' as int + 'a' as int) as char else c
  }

  /** Every maximal run of other characters becomes one hyphen. */
  function Hyphenate(s: string): string {
    if s == "" then ""
    else
      var front := Hyphenate(s[..|s| - 1]);
      var c := Lower(s[|s| - 1]);
      if LowerAlnum(c) then front + [c]
      else if front != "" && front[|front| - 1] == '-' then front
      else front + "-"
  }

  function TrimHyphens(s: string): string {
    if s != "" && s[0] == '-' then TrimHyphens(s[1..])
    else if s != "" && s[|s| - 1] == '-' then TrimHyphens(s[..|s| - 1])
    else s
  }

  function StageSuffix(name: string): string {
    TrimHyphens(Hyphenate(TrimSpace(name)))
  }

  // ---- the small decisions ---------------------------------------------------------------------

  function LowerAll(s: string): string {
    if s == "" then "" else [Lower(s[0])] + LowerAll(s[1..])
  }

  predicate RebuildOnly(method': string) {
    LowerAll(TrimSpace(method')) in ["none", "rebuild", "recreate"]
  }

  predicate RequiresFailover(d: Destination) {
    d == AlternateRegion || d == AlternateProvider
  }

  predicate RequiresFence(d: Destination) {
    d == SameRegion || RequiresFailover(d)
  }

  predicate ValidAction(a: Action) {
    a != NoAction && !a.OtherAction?
  }

  predicate ValidDestination(d: Destination) {
    d != NoDestination && !d.OtherDestination?
  }

  predicate Usable(s: Status) {
    s == Supported || s == Certified || s == Experimental
  }

  // ---- inputs ----------------------------------------------------------------------------------

  predicate ValidCapability(c: Capability) {
    && StableID(c.name) && !c.status.OtherStatus?
    && (Usable(c.status) ==> c.actions != [])
    && (!Usable(c.status) ==> !Blank(c.reason) && c.actions == [] && c.destinations == [])
    && (c.actions != [] ==> c.pollingRequired)
    && (c.retentionRequired ==> !Blank(c.retentionPolicy))
    && (c.encryptionRequired ==> !Blank(c.encryptionBoundary))
    && (c.protectionRequired ==> !Blank(c.protectionMechanism))
    && (forall i | 0 <= i < |c.actions| :: ValidAction(c.actions[i])) && NoRepeats(c.actions)
    && (Restore in c.actions ==> c.destinations != [])
    && (forall i | 0 <= i < |c.destinations| :: ValidDestination(c.destinations[i])) && NoRepeats(c.destinations)
  }

  function CapabilityNames(cs: seq<Capability>): seq<string> {
    seq(|cs|, i requires 0 <= i < |cs| => cs[i].name)
  }

  function ClassNames(cs: seq<DataClass>): seq<string> {
    seq(|cs|, i requires 0 <= i < |cs| => cs[i].name)
  }

  predicate ValidDescriptor(d: Descriptor) {
    && d.versionsAccepted && StableID(d.id) && StableID(d.provider)
    && d.capabilities != [] && (forall a | a in d.capabilities :: ValidAction(a)) && NoRepeats(d.capabilities)
    && (forall c | c in d.dataClasses :: ValidCapability(c)) && NoRepeats(CapabilityNames(d.dataClasses))
  }

  predicate ValidReferences(refs: map<string, string>) {
    forall id | id in refs :: StableID(id) && RequiredLine(refs[id])
  }

  predicate ValidRequest(r: Request) {
    && r.otherwiseValid && StableID(r.provider)
    && r.dataClasses != [] && (forall c | c in r.dataClasses :: !Blank(c.name) && !Blank(c.backupMethod) && c.complete)
    && NoRepeats(ClassNames(r.dataClasses))
    && r.destinations != [] && (forall d | d in r.destinations :: ValidDestination(d)) && NoRepeats(r.destinations)
    && !Blank(r.fixtureID) && !Blank(r.ownershipMarker) && r.ownershipMarker == r.architectureMarker
    && ValidReferences(r.approvals) && ValidReferences(r.reconciliations)
  }

  // ---- selection -------------------------------------------------------------------------------

  predicate ByName(a: DataClass, b: DataClass) {
    StrLe(a.name, b.name)
  }

  function SortedClasses(r: Request): seq<DataClass> {
    Sort(r.dataClasses, ByName)
  }

  /** Later rows win, as in the map the source builds. */
  function CapabilityMap(cs: seq<Capability>): map<string, Capability> {
    if cs == [] then map[] else CapabilityMap(cs[..|cs| - 1])[cs[|cs| - 1].name := cs[|cs| - 1]]
  }

  predicate ClassUsable(caps: map<string, Capability>, c: DataClass) {
    c.name in caps && caps[c.name].status != Unavailable && caps[c.name].status != Unsupported
    && caps[c.name].status != Blocked
  }

  predicate SupportedByAll(d: Destination, classes: seq<DataClass>, caps: map<string, Capability>) {
    forall c | c in classes :: c.name in caps && d in caps[c.name].destinations
  }

  const PRIORITY := [AlternateProvider, AlternateRegion, SameRegionIsolated, SameRegion]

  function ChooseDestination(from: nat, requested: seq<Destination>, classes: seq<DataClass>, caps: map<string, Capability>)
    : (chosen: Option<Destination>)
    requires from <= 4
    decreases 4 - from
  {
    if from == 4 then None
    else if PRIORITY[from] in requested && SupportedByAll(PRIORITY[from], classes, caps) then Some(PRIORITY[from])
    else ChooseDestination(from + 1, requested, classes, caps)
  }

  function CommonDestination(requested: seq<Destination>, classes: seq<DataClass>, caps: map<string, Capability>): Option<Destination> {
    ChooseDestination(0, requested, classes, caps)
  }

  predicate HasAction(d: Descriptor, caps: map<string, Capability>, name: string, a: Action) {
    a in d.capabilities && name in caps && a in caps[name].actions
  }

  // ---- stages ----------------------------------------------------------------------------------

  function BackupID(name: string): string { "backup-" + StageSuffix(name) }
  function RestoreID(name: string): string { "restore-" + StageSuffix(name) }
  function IntegrityID(name: string): string { "integrity-" + StageSuffix(name) }

  function PlainStage(id: string, action: Action, classes: seq<string>, to: Destination, dependsOn: seq<string>): Stage {
    Stage(id, action, classes, to, dependsOn, true, false, "", "", false, false, false, false)
  }

  function BackupStage(c: DataClass, to: Destination): Stage {
    PlainStage(BackupID(c.name), Backup, [c.name], to, [])
  }

  function RestoreDependencies(c: DataClass, to: Destination): seq<string> {
    (if RebuildOnly(c.backupMethod) then [] else [BackupID(c.name)])
    + if RequiresFence(to) then [FENCE_ID] else []
  }

  function RestoreStage(c: DataClass, to: Destination): Stage {
    PlainStage(RestoreID(c.name), Restore, [c.name], to, RestoreDependencies(c, to))
      .(requiresApproval := to == SameRegion || c.name == "queue")
  }

  function IntegrityStage(c: DataClass, to: Destination): Stage {
    PlainStage(IntegrityID(c.name), IntegrityCheck, [c.name], to, [RestoreID(c.name)])
  }

  function FenceStage(classes: seq<string>, to: Destination, backups: seq<string>): Stage {
    PlainStage(FENCE_ID, Fence, classes, to, backups)
      .(requiresApproval := true, requiresSingleWriter := true, requiresSplitBrainCheck := true)
  }

  function FailoverStage(classes: seq<string>, to: Destination, finals: seq<string>): Stage {
    PlainStage(FAILOVER_ID, Failover, classes, to, finals)
      .(requiresApproval := true, requiresSingleWriter := true, requiresSplitBrainCheck := true,
        requiresStaleOriginCheck := true)
  }

  function FailbackStage(classes: seq<string>, to: Destination, finals: seq<string>): Stage {
    PlainStage(FAILBACK_ID, Failback, classes, to, finals)
      .(requiresApproval := true, requiresSingleWriter := true, requiresSplitBrainCheck := true,
        requiresStaleOriginCheck := true, requiresReconciliation := true)
  }

  function CleanupStage(classes: seq<string>, to: Destination, finals: seq<string>): Stage {
    PlainStage(CLEANUP_ID, Cleanup, classes, to, finals)
  }

  function BackupIDs(classes: seq<DataClass>): seq<string> {
    if classes == [] then []
    else
      var c := classes[|classes| - 1];
      BackupIDs(classes[..|classes| - 1]) + if RebuildOnly(c.backupMethod) then [] else [BackupID(c.name)]
  }

  function BackupStages(classes: seq<DataClass>, to: Destination): seq<Stage> {
    if classes == [] then []
    else
      var c := classes[|classes| - 1];
      BackupStages(classes[..|classes| - 1], to) + if RebuildOnly(c.backupMethod) then [] else [BackupStage(c, to)]
  }

  function ClassStages(classes: seq<DataClass>, to: Destination): seq<Stage> {
    if classes == [] then []
    else
      var c := classes[|classes| - 1];
      ClassStages(classes[..|classes| - 1], to) + [RestoreStage(c, to), IntegrityStage(c, to)]
  }

  function IntegrityIDs(classes: seq<DataClass>): seq<string> {
    seq(|classes|, i requires 0 <= i < |classes| => IntegrityID(classes[i].name))
  }

  predicate WantsFailback(r: Request) {
    FAILBACK_ID in r.approvals
  }

  function FenceStages(classes: seq<DataClass>, to: Destination): seq<Stage> {
    if RequiresFence(to) then [FenceStage(ClassNames(classes), to, BackupIDs(classes))] else []
  }

  function FailoverStages(classes: seq<DataClass>, to: Destination): seq<Stage> {
    if RequiresFailover(to) then [FailoverStage(ClassNames(classes), to, IntegrityIDs(classes))] else []
  }

  function FailbackStages(classes: seq<DataClass>, to: Destination, failback: bool): seq<Stage> {
    if failback then [FailbackStage(ClassNames(classes), to, [FAILOVER_ID])] else []
  }

  /** What cleanup waits for: the last of failback, failover and the integrity checks that exists. */
  function FinalIDs(classes: seq<DataClass>, to: Destination, failback: bool): seq<string> {
    if failback then [FAILBACK_ID] else if RequiresFailover(to) then [FAILOVER_ID] else IntegrityIDs(classes)
  }

  function Emitted(classes: seq<DataClass>, to: Destination, failback: bool): seq<Stage> {
    BackupStages(classes, to) + FenceStages(classes, to) + ClassStages(classes, to) + FailoverStages(classes, to)
    + FailbackStages(classes, to, failback)
    + [CleanupStage(ClassNames(classes), to, FinalIDs(classes, to, failback))]
  }

  // ---- proofs named by the plan ----------------------------------------------------------------

  function BackupProofs(classes: seq<DataClass>): seq<string> {
    if classes == [] then []
    else
      var c := classes[|classes| - 1];
      BackupProofs(classes[..|classes| - 1]) + if RebuildOnly(c.backupMethod) then [] else ["backup:" + c.name]
  }

  function ClassProofs(classes: seq<DataClass>): seq<string> {
    if classes == [] then []
    else
      var c := classes[|classes| - 1];
      ClassProofs(classes[..|classes| - 1]) + ["restore:" + c.name, "integrity:" + c.name]
  }

  function FenceProofs(to: Destination): seq<string> {
    if RequiresFence(to) then ["fencing", "single-writer", "split-brain"] else []
  }

  function FailoverProofs(to: Destination): seq<string> {
    if RequiresFailover(to) then ["failover", "single-writer", "split-brain", "stale-origin"] else []
  }

  function FailbackProofs(failback: bool): seq<string> {
    if failback then ["failback", "reconciliation", "single-writer", "split-brain", "stale-origin"] else []
  }

  function EmittedProofs(classes: seq<DataClass>, to: Destination, failback: bool): seq<string> {
    BackupProofs(classes) + FenceProofs(to) + ClassProofs(classes) + FailoverProofs(to) + FailbackProofs(failback)
    + ["cleanup"]
  }

  function UniqueNonBlank(values: seq<string>): seq<string> {
    if values == [] then []
    else
      var front, last := UniqueNonBlank(values[..|values| - 1]), values[|values| - 1];
      if Blank(last) || last in front then front else front + [last]
  }

  function UniqueStrings(values: seq<string>): seq<string> {
    Sort(UniqueNonBlank(values), StrLe)
  }

  // ---- admission references --------------------------------------------------------------------

  function StageIndex(stages: seq<Stage>, id: string, from: nat): (index: int)
    requires from <= |stages|
    ensures index == -1 || (from <= index < |stages| && stages[index].id == id)
    ensures forall i | from <= i < (if index < 0 then |stages| else index) :: stages[i].id != id
    decreases |stages| - from
  {
    if from == |stages| then -1 else if stages[from].id == id then from else StageIndex(stages, id, from + 1)
  }

  predicate Targets(stages: seq<Stage>, refs: map<string, string>) {
    forall id | id in refs :: StageIndex(stages, id, 0) >= 0
  }

  /** The stage at `i` after both reference maps are bound to the first stage of each named ID. */
  function BoundStage(stages: seq<Stage>, i: nat, approvals: map<string, string>, reconciliations: map<string, string>): Stage
    requires i < |stages|
  {
    var s := stages[i];
    var first := StageIndex(stages, s.id, 0) == i;
    s.(approvalReference := if first && s.id in approvals then approvals[s.id] else s.approvalReference,
       reconciliationReference :=
         if first && s.id in reconciliations then reconciliations[s.id] else s.reconciliationReference)
  }

  function BoundStages(stages: seq<Stage>, approvals: map<string, string>, reconciliations: map<string, string>): seq<Stage> {
    seq(|stages|, i requires 0 <= i < |stages| => BoundStage(stages, i, approvals, reconciliations))
  }

  // ---- plan validation -------------------------------------------------------------------------

  function StageGraph(stages: seq<Stage>): Graph {
    if stages == [] then map[] else StageGraph(stages[..|stages| - 1])[stages[|stages| - 1].id := stages[|stages| - 1].dependsOn]
  }

  function StageIDs(stages: seq<Stage>): seq<string> {
    seq(|stages|, i requires 0 <= i < |stages| => stages[i].id)
  }

  predicate ValidStage(s: Stage, known: seq<DataClass>) {
    var guarded := s.action == Fence || s.action == Failover || s.action == Failback;
    && StableID(s.id) && ValidAction(s.action) && s.idempotent && s.dataClasses != []
    && (forall c | c in s.dataClasses :: c in ClassNames(known)) && NoRepeats(s.dataClasses)
    && (s.destination != NoDestination ==> ValidDestination(s.destination))
    && OptionalLine(s.approvalReference) && OptionalLine(s.reconciliationReference)
    && (s.approvalReference != "" ==> s.requiresApproval)
    && (s.reconciliationReference != "" ==> s.requiresReconciliation)
    && (s.requiresSingleWriter ==> guarded) && (s.requiresSplitBrainCheck ==> guarded)
    && (s.requiresStaleOriginCheck ==> s.action == Failover || s.action == Failback)
    && (s.requiresReconciliation ==> s.action == Failback)
    && (s.action == Failback ==>
          s.requiresApproval && s.requiresSingleWriter && s.requiresSplitBrainCheck && s.requiresStaleOriginCheck
          && s.requiresReconciliation && s.approvalReference != "" && s.reconciliationReference != "")
  }

  predicate DependenciesSound(stages: seq<Stage>, s: Stage) {
    && (forall d | d in s.dependsOn :: d in StageIDs(stages) && d != s.id) && NoRepeats(s.dependsOn)
  }

  /** `ValidateResiliencePlan` accepts. */
  ghost predicate ValidPlan(p: Plan, known: seq<DataClass>) {
    && !Blank(p.adapterID) && RequiredLine(p.fixtureID) && RequiredLine(p.ownershipMarker)
    && p.stages != [] && (forall s | s in p.stages :: ValidStage(s, known)) && NoRepeats(StageIDs(p.stages))
    && (forall s | s in p.stages :: DependenciesSound(p.stages, s))
    && Acyclic(StageGraph(p.stages)) && p.requiredProofs != []
  }

  // ---- the compiler ----------------------------------------------------------------------------

  predicate ActionsAvailable(d: Descriptor, caps: map<string, Capability>, classes: seq<DataClass>, to: Destination, failback: bool) {
    && (forall c | c in classes ::
          StageSuffix(c.name) != ""
          && (!RebuildOnly(c.backupMethod) ==> HasAction(d, caps, c.name, Backup))
          && HasAction(d, caps, c.name, Restore) && HasAction(d, caps, c.name, IntegrityCheck))
    && (RequiresFence(to) ==> Fence in d.capabilities)
    && (RequiresFailover(to) ==> Failover in d.capabilities)
    && (failback ==> RequiresFailover(to) && Failback in d.capabilities)
    && Cleanup in d.capabilities
  }

  function ReconciliationFor(r: Request, id: string): string {
    if id in r.reconciliations then r.reconciliations[id] else ""
  }

  function Draft(d: Descriptor, r: Request, to: Destination): Plan {
    var classes := SortedClasses(r);
    Plan(d.id, r.fixtureID, r.ownershipMarker,
         BoundStages(Emitted(classes, to, WantsFailback(r)), r.approvals, r.reconciliations),
         UniqueStrings(EmittedProofs(classes, to, WantsFailback(r))))
  }

  /** Every check the compiler makes passes, for the destination it selects. */
  ghost predicate Accepts(d: Descriptor, r: Request) {
    var classes, caps := SortedClasses(r), CapabilityMap(d.dataClasses);
    && ValidDescriptor(d) && ValidRequest(r) && d.provider == r.provider
    && (forall c | c in classes :: ClassUsable(caps, c))
    && var chosen := CommonDestination(r.destinations, classes, caps);
    && chosen.Some?
    && ActionsAvailable(d, caps, classes, chosen.value, WantsFailback(r))
    && (WantsFailback(r) ==> !Blank(ReconciliationFor(r, FAILBACK_ID)))
    && var emitted := Emitted(classes, chosen.value, WantsFailback(r));
    && Targets(emitted, r.approvals) && Targets(emitted, r.reconciliations)
    && ValidPlan(Draft(d, r, chosen.value), r.dataClasses)
  }

  /** `None` is any compilation error. */
  ghost function Compile(d: Descriptor, r: Request): Option<Plan> {
    if Accepts(d, r)
    then Some(Draft(d, r, CommonDestination(r.destinations, SortedClasses(r), CapabilityMap(d.dataClasses)).value))
    else None
  }
}
