/** A run that completes the example recovery: the statements about whole runs speak of something. */
module RecoveryWitness {
  import opened Optional
  import opened Text
  import opened Ordering
  import opened RecoveryPlan
  import opened RecoveryOrder
  import opened RecoveryExecution
  import E = RecoveryExample

  const RECORD := Evidence("db", AlternateRegion, "b", "r", "fixture", 0, true, true, true, true, true, true, true, true,
                           "w", "e", true, true, true, true, true, 0, 0, 0)
  const PROVIDER := Provider(
    Some(P.Answer("op", P.Succeeded, "", Attestation(NoAction, [], [], "owner", true, true, [RECORD]))),
    [P.Turn(P.Alive, None, P.Alive)])
  const POLICY := P.Policy(1, 1, 1)

  // ---- when such calls succeed -----------------------------------------------------------------

  predicate FitsRecord(s: Stage) {
    && !Blank(s.id) && s.dataClasses == ["db"] && s.destination == AlternateRegion
    && s.approvalReference in ["", "ok"] && s.reconciliationReference in ["", "ok"]
  }

  predicate FitsCalls(p: Plan) {
    && p.fixtureID == "fixture" && p.ownershipMarker == "owner" && NoRepeats(StageIDs(p.stages))
    && forall i | 0 <= i < |p.stages| :: FitsRecord(p.stages[i])
  }

  function CallFor(p: Plan, id: string): Call {
    Call(ExecutionRequest(p, id, "fixture", "key", "owner", map[], map[], "ok", "ok"), PROVIDER)
  }

  lemma FindByPosition(p: Plan, i: nat)
    requires NoRepeats(StageIDs(p.stages)) && i < |p.stages|
    ensures FindStage(p, p.stages[i].id) == Some(p.stages[i])
  {
    var k := StageIndex(p.stages, p.stages[i].id, 0);
    assert StageIDs(p.stages)[i] == p.stages[i].id;
    if k >= 0 {
      assert StageIDs(p.stages)[k] == p.stages[k].id;
      SameIndex(StageIDs(p.stages), i, k);
    }
  }

  lemma Letters()
    ensures RequiredLine("w") && RequiredLine("e") && RequiredLine("b") && RequiredLine("r") && RequiredLine("ok")
  {
    assert !IsSpace("w"[0]) && !IsSpace("e"[0]) && !IsSpace("b"[0]) && !IsSpace("r"[0]) && !IsSpace("ok"[0]);
  }

  lemma Identities()
    ensures RequiredLine("fixture") && RequiredLine("owner") && !Blank("key") && SingleLine("ok" + "ok")
  {
    assert !IsSpace("fixture"[0]) && !IsSpace("owner"[0]) && !IsSpace("key"[0]);
    assert "ok" + "ok" == "okok";
  }

  lemma RecordAccepted(caps: map<string, Capability>, s: Stage)
    requires caps == map["db" := E.ROW] && FitsRecord(s)
    ensures EvidenceAccepted(caps, s, "fixture", [RECORD])
  {
    Letters();
    E.NamesStable();
    assert RecordAcceptable(caps, s, "fixture", RECORD);
    assert RecordFor([RECORD], 0, "db") && Shows(s.action, "db", RECORD);
  }

  lemma CallAdmitted(p: Plan, i: nat)
    requires FitsCalls(p) && i < |p.stages|
    ensures Admitted(CallFor(p, p.stages[i].id).request)
  {
    FindByPosition(p, i);
    Letters();
    Identities();
    assert FitsRecord(p.stages[i]);
  }

  lemma CallSucceeds(p: Plan, i: nat)
    requires FitsCalls(p) && i < |p.stages|
    ensures Succeeds(E.ADAPTER, POLICY, CallFor(p, p.stages[i].id))
  {
    CallAdmitted(p, i);
    FindByPosition(p, i);
    E.ClassesOfRequest();
    RecordAccepted(CapabilityMap(E.ADAPTER.dataClasses), p.stages[i]);
  }

  function CallAll(p: Plan): seq<Call> {
    seq(|p.stages|, i requires 0 <= i < |p.stages| => CallFor(p, p.stages[i].id))
  }

  lemma {:induction false} AllFire(d: Descriptor, policy: P.Policy, calls: seq<Call>)
    requires P.ValidPolicy(policy) && forall i | 0 <= i < |calls| :: Succeeds(d, policy, calls[i])
    ensures |Fired(d, policy, calls)| == |calls|
    ensures forall i | 0 <= i < |calls| :: Fired(d, policy, calls)[i] == calls[i].request.stageID
  {
    if calls != [] {
      AllFire(d, policy, calls[..|calls| - 1]);
    }
  }

  /** Where every call succeeds, calling the stages in list order completes an ordered plan. */
  lemma ListOrderCompletes(d: Descriptor, policy: P.Policy, p: Plan, calls: seq<Call>)
    requires P.ValidPolicy(policy) && Ordered(p.stages) && |calls| == |p.stages|
    requires forall i | 0 <= i < |calls| :: Succeeds(d, policy, calls[i])
    requires forall i | 0 <= i < |calls| :: calls[i].request.plan == p && calls[i].request.stageID == p.stages[i].id
    ensures RecoveryRun(d, policy, p, calls) && Fired(d, policy, calls) == StageIDs(p.stages)
  {
    AllFire(d, policy, calls);
    ListOrderRespects(p);
  }

  lemma FittingPlanCompletes(p: Plan)
    requires FitsCalls(p) && Ordered(p.stages)
    ensures RecoveryRun(E.ADAPTER, POLICY, p, CallAll(p))
    ensures Fired(E.ADAPTER, POLICY, CallAll(p)) == StageIDs(p.stages)
  {
    var calls := CallAll(p);
    forall i | 0 <= i < |calls| ensures Succeeds(E.ADAPTER, POLICY, calls[i]) { CallSucceeds(p, i); }
    ListOrderCompletes(E.ADAPTER, POLICY, p, calls);
  }

  // ---- the example plan fits -------------------------------------------------------------------

  lemma ExpectedFits(i: nat)
    requires i < 7
    ensures E.Expected()[i].dataClasses == ["db"] && E.Expected()[i].destination == AlternateRegion
    ensures E.Expected()[i].approvalReference == "" && E.Expected()[i].reconciliationReference == ""
  {
  }

  lemma ExampleStage(i: nat)
    requires i < 7
    ensures i < |E.Bound()| && FitsRecord(E.Bound()[i])
  {
    E.BoundIs(i);
    E.ExpectedStable(i);
    ExpectedFits(i);
    assert !IsSpace(E.Expected()[i].id[0]);
  }

  lemma ExampleFits(p: Plan)
    requires Compile(E.ADAPTER, E.REQUEST) == Some(p)
    ensures FitsCalls(p) && p.stages == E.Bound() && |p.stages| == 7 && StageIDs(p.stages) == E.PlannedIDs()
  {
    C.CompileByPart(E.ADAPTER, E.REQUEST);
    E.DestinationChosen();
    E.DraftIsExpected();
    E.PlannedIDsDistinct();
    E.BoundIs(0);
    forall i | 0 <= i < 7 ensures FitsRecord(p.stages[i]) { ExampleStage(i); }
  }

  /** The example plan runs to its end: backup, fence, restore, integrity, failover, failback and cleanup all succeed. */
  lemma FailoverRunExists() returns (p: Plan, calls: seq<Call>)
    ensures Compile(E.ADAPTER, E.REQUEST) == Some(p) && RecoveryRun(E.ADAPTER, POLICY, p, calls) && |calls| == 7
    ensures Fired(E.ADAPTER, POLICY, calls) == E.PlannedIDs()
    ensures Succeeds(E.ADAPTER, POLICY, calls[4]) && calls[4].request.stageID == FAILOVER_ID
  {
    E.FailbackPlanCompiles();
    p := Compile(E.ADAPTER, E.REQUEST).value;
    calls := CallAll(p);
    ExampleFits(p);
    CompiledIsOrdered(E.ADAPTER, E.REQUEST, p);
    FittingPlanCompletes(p);
    CallSucceeds(p, 4);
    assert StageIDs(p.stages)[4] == p.stages[4].id;
  }
}
