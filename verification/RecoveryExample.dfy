/** A complete recovery that compiles: the statements about compiled plans speak of something. */
module RecoveryExample {
  import opened Optional
  import opened Text
  import opened Patterns
  import opened Ordering
  import opened RecoveryPlan
  import opened RecoveryOrder
  import opened RecoveryAcceptance

  const CLASS := DataClass("db", "snapshot", true)
  const ROW := Capability("db", Supported, [Backup, Restore, IntegrityCheck], [AlternateRegion], "",
                          true, false, false, false, "", "", "")
  const ADAPTER := Descriptor("adapter", "cloud", true,
                              [Backup, Restore, IntegrityCheck, Fence, Failover, Failback, Cleanup], [ROW])
  const REFERENCES: map<string, string> := map[FAILBACK_ID := "ok"]
  const REQUEST := Request("cloud", [CLASS], [AlternateRegion], "owner", true, "fixture", "owner", REFERENCES, REFERENCES)

  lemma SuffixOfName()
    ensures StageSuffix("db") == "db"
  {
    assert TrimLeft("db") == "db";
    assert TrimRight("db") == "db";
    assert "db"[..1] == "d" && "db"[..1][..0] == "";
    assert Hyphenate("") == "";
    assert Hyphenate("d") == "d";
    assert Hyphenate("db") == "db";
  }

  lemma IDs()
    ensures BackupID("db") == "backup-db" && RestoreID("db") == "restore-db" && IntegrityID("db") == "integrity-db"
  {
    SuffixOfName();
  }

  predicate LowerWord(s: string) {
    s != "" && forall i | 0 <= i < |s| :: 'a' <= s[i] <= 'z'
  }

  lemma WordsAreStable(a: string, b: string)
    requires LowerWord(a) && LowerWord(b)
    ensures StableID(a) && StableID(a + "-" + b)
  {
    var s := a + "-" + b;
    assert s[|s| - 1] == b[|b| - 1];
    forall i | 0 <= i < |s| ensures LowerAlnum(s[i]) || s[i] == '-' {
      if i > |a| { assert s[i] == b[i - |a| - 1]; }
    }
  }

  lemma StageIDsStable()
    ensures StableID("backup-db") && StableID("restore-db") && StableID("integrity-db")
  {
    WordsAreStable("backup", "db");
    WordsAreStable("restore", "db");
    WordsAreStable("integrity", "db");
    assert "backup" + "-" + "db" == "backup-db";
    assert "restore" + "-" + "db" == "restore-db";
    assert "integrity" + "-" + "db" == "integrity-db";
  }

  lemma NamesStable()
    ensures StableID("db") && StableID("cloud") && StableID("adapter")
  {
    WordsAreStable("db", "db");
    WordsAreStable("cloud", "db");
    WordsAreStable("adapter", "db");
  }

  lemma NotBlank(s: string)
    requires LowerWord(s)
    ensures !Blank(s) && RequiredLine(s)
  {
    assert !IsSpace(s[0]);
  }

  lemma AdapterValid()
    ensures ValidDescriptor(ADAPTER)
  {
    NamesStable();
    assert ValidCapability(ROW);
  }

  lemma RequestValid()
    ensures ValidRequest(REQUEST)
  {
    NamesStable();
    RuntimeIDsStable();
    NotBlank("db");
    NotBlank("snapshot");
    NotBlank("fixture");
    NotBlank("owner");
    NotBlank("ok");
    assert ValidReferences(REFERENCES);
  }

  lemma ClassesOfRequest()
    ensures SortedClasses(REQUEST) == [CLASS] && ClassNames([CLASS]) == ["db"]
    ensures CapabilityMap(ADAPTER.dataClasses) == map["db" := ROW]
    ensures !RebuildOnly("snapshot") && WantsFailback(REQUEST)
  {
    assert REQUEST.dataClasses[1..] == [];
    assert Sort(REQUEST.dataClasses, ByName) == Insert(CLASS, Sort([], ByName), ByName);
    assert ADAPTER.dataClasses[..0] == [];
    NotRebuild();
  }

  lemma NotRebuild()
    ensures !RebuildOnly("snapshot")
  {
    assert TrimLeft("snapshot") == "snapshot";
    assert TrimRight("snapshot") == "snapshot";
    assert LowerAll("snapshot")[0] == 's';
  }

  lemma DestinationChosen()
    ensures Chosen(ADAPTER, REQUEST) == Some(AlternateRegion)
  {
    ClassesOfRequest();
    var caps := map["db" := ROW];
    assert SupportedByAll(AlternateRegion, [CLASS], caps);
    assert PRIORITY[0] !in REQUEST.destinations && PRIORITY[1] == AlternateRegion;
    assert ChooseDestination(1, REQUEST.destinations, [CLASS], caps) == Some(AlternateRegion);
    assert ChooseDestination(0, REQUEST.destinations, [CLASS], caps) == Some(AlternateRegion);
  }

  function Expected(): seq<Stage> {
    [BackupStage(CLASS, AlternateRegion),
     FenceStage(["db"], AlternateRegion, [BackupID("db")]),
     RestoreStage(CLASS, AlternateRegion),
     IntegrityStage(CLASS, AlternateRegion),
     FailoverStage(["db"], AlternateRegion, [IntegrityID("db")]),
     FailbackStage(["db"], AlternateRegion, [FAILOVER_ID]),
     CleanupStage(["db"], AlternateRegion, [FAILBACK_ID])]
  }

  lemma EmittedStages()
    ensures Emitted([CLASS], AlternateRegion, true) == Expected()
  {
    ClassesOfRequest();
    assert [CLASS][..0] == [];
    assert BackupStages([CLASS], AlternateRegion) == [BackupStage(CLASS, AlternateRegion)];
    assert BackupIDs([CLASS]) == [BackupID("db")];
    assert ClassStages([CLASS], AlternateRegion) == [RestoreStage(CLASS, AlternateRegion), IntegrityStage(CLASS, AlternateRegion)];
    assert IntegrityIDs([CLASS]) == [IntegrityID("db")];
  }

  function PlannedIDs(): seq<string> {
    ["backup-db", FENCE_ID, "restore-db", "integrity-db", FAILOVER_ID, FAILBACK_ID, CLEANUP_ID]
  }

  lemma PlannedIDsDistinct()
    ensures NoRepeats(PlannedIDs())
  {
    assert FAILOVER_ID[4] == 'o' && FAILBACK_ID[4] == 'b';
    assert |"backup-db"| == 9 && |FENCE_ID| == 13 && |"restore-db"| == 10 && |"integrity-db"| == 12;
    assert |FAILOVER_ID| == 16 && |FAILBACK_ID| == 16 && |CLEANUP_ID| == 15;
  }

  lemma IDsOfSeven(a: Stage, b: Stage, c: Stage, d: Stage, e: Stage, f: Stage, g: Stage)
    ensures StageIDs([a, b, c, d, e, f, g]) == [a.id, b.id, c.id, d.id, e.id, f.id, g.id]
  {
  }

  lemma ExpectedIDs()
    ensures StageIDs(Expected()) == PlannedIDs()
  {
    IDs();
    IDsOfSeven(BackupStage(CLASS, AlternateRegion), FenceStage(["db"], AlternateRegion, [BackupID("db")]),
               RestoreStage(CLASS, AlternateRegion), IntegrityStage(CLASS, AlternateRegion),
               FailoverStage(["db"], AlternateRegion, [IntegrityID("db")]),
               FailbackStage(["db"], AlternateRegion, [FAILOVER_ID]), CleanupStage(["db"], AlternateRegion, [FAILBACK_ID]));
  }

  function Bound(): seq<Stage> {
    BoundStages(Expected(), REFERENCES, REFERENCES)
  }

  /** Only the failback stage receives the references. */
  lemma BoundIs(i: nat)
    requires i < 7
    ensures |Bound()| == 7
    ensures Bound()[i] == if i == 5 then Expected()[i].(approvalReference := "ok", reconciliationReference := "ok") else Expected()[i]
    ensures StageIndex(Expected(), FAILBACK_ID, 0) == 5
  {
    ExpectedIDs();
    PlannedIDsDistinct();
    forall j | 0 <= j < 7 ensures Expected()[j].id == PlannedIDs()[j] {
      assert StageIDs(Expected())[j] == Expected()[j].id;
    }
    var index := StageIndex(Expected(), FAILBACK_ID, 0);
    assert Expected()[5].id == FAILBACK_ID;
    assert i != 5 ==> Expected()[i].id !in REFERENCES;
  }

  lemma PlannedStable(i: nat)
    requires i < 7
    ensures StableID(PlannedIDs()[i])
  {
    StageIDsStable();
    RuntimeIDsStable();
  }

  lemma ExpectedStable(i: nat)
    requires i < 7
    ensures StableID(Expected()[i].id)
  {
    ExpectedIDs();
    PlannedStable(i);
    assert StageIDs(Expected())[i] == Expected()[i].id;
  }

  lemma DraftIsExpected()
    ensures Draft(ADAPTER, REQUEST, AlternateRegion).stages == Bound() && StageIDs(Bound()) == PlannedIDs()
  {
    ClassesOfRequest();
    EmittedStages();
    ExpectedIDs();
    assert StageIDs(Bound()) == StageIDs(Expected());
  }

  lemma ClassServed()
    ensures Served(ADAPTER, CLASS)
  {
    assert Declares(ADAPTER, ROW, Backup) && Declares(ADAPTER, ROW, Restore) && Declares(ADAPTER, ROW, IntegrityCheck);
  }

  lemma InputsFit()
    ensures InputsValid(ADAPTER, REQUEST)
  {
    AdapterValid();
    RequestValid();
  }

  lemma RuntimeFits()
    ensures RuntimeServed(ADAPTER, REQUEST, AlternateRegion)
  {
  }

  lemma ServedAll()
    ensures AllServed(ADAPTER, REQUEST, AlternateRegion)
  {
    ClassServed();
    RuntimeFits();
  }

  lemma TextsAreFit()
    ensures TextsFit(REQUEST, AlternateRegion)
  {
    NotBlank("fixture");
    NotBlank("owner");
    assert Approvable(REQUEST, AlternateRegion, "failback-runtime");
  }

  /** A one-class recovery with fencing, failover and an approved failback compiles to these stages in this order. */
  lemma FailbackPlanCompiles()
    ensures Compile(ADAPTER, REQUEST).Some? && StageIDs(Compile(ADAPTER, REQUEST).value.stages) == PlannedIDs()
  {
    InputsFit();
    ServedAll();
    TextsAreFit();
    DestinationChosen();
    CompilesTo(ADAPTER, REQUEST, AlternateRegion);
    DraftIsExpected();
  }
}
