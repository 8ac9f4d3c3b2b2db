/** The order a compiled recovery plan forces on every run, interrupted or not. */
module RecoveryOrder {
  import opened Optional
  import opened Ordering
  import opened DependencyGraph
  import opened RecoveryPlan

  function Chosen(d: Descriptor, r: Request): Option<Destination> {
    CommonDestination(r.destinations, SortedClasses(r), CapabilityMap(d.dataClasses))
  }

  // ---- the emitted stages ----------------------------------------------------------------------

  predicate Named(stages: seq<Stage>, id: string) {
    exists i :: 0 <= i < |stages| && stages[i].id == id
  }

  /** Every dependency names a strictly earlier stage. */
  predicate Ordered(stages: seq<Stage>) {
    forall i, d | 0 <= i < |stages| && d in stages[i].dependsOn :: Named(stages[..i], d)
  }

  lemma NamedLater(stages: seq<Stage>, more: seq<Stage>, id: string)
    requires Named(stages, id)
    ensures Named(stages + more, id)
  {
    var i :| 0 <= i < |stages| && stages[i].id == id;
    assert (stages + more)[i].id == id;
  }

  lemma OrderedAppend(stages: seq<Stage>, s: Stage)
    requires Ordered(stages) && forall d | d in s.dependsOn :: Named(stages, d)
    ensures Ordered(stages + [s]) && Named(stages + [s], s.id)
  {
    var all := stages + [s];
    assert all[|stages|].id == s.id;
    forall i, d | 0 <= i < |all| && d in all[i].dependsOn ensures Named(all[..i], d) {
      if i < |stages| { assert all[..i] == stages[..i]; } else { assert all[..i] == stages; }
    }
  }

  lemma {:induction false} BackupsInOrder(classes: seq<DataClass>, to: Destination)
    ensures Ordered(BackupStages(classes, to))
  {
    if classes != [] {
      var front, c := classes[..|classes| - 1], classes[|classes| - 1];
      BackupsInOrder(front, to);
      if RebuildOnly(c.backupMethod) {
        assert BackupStages(classes, to) == BackupStages(front, to);
      } else {
        OrderedAppend(BackupStages(front, to), BackupStage(c, to));
        assert BackupStages(classes, to) == BackupStages(front, to) + [BackupStage(c, to)];
      }
    }
  }

  lemma {:induction false} BackupStageIDs(classes: seq<DataClass>, to: Destination)
    ensures StageIDs(BackupStages(classes, to)) == BackupIDs(classes)
  {
    if classes != [] {
      BackupStageIDs(classes[..|classes| - 1], to);
    }
  }

  lemma {:induction false} BackupMembers(classes: seq<DataClass>, to: Destination)
    ensures forall c | c in classes && !RebuildOnly(c.backupMethod) :: BackupStage(c, to) in BackupStages(classes, to)
    ensures forall s | s in BackupStages(classes, to) ::
              exists c :: c in classes && !RebuildOnly(c.backupMethod) && s == BackupStage(c, to)
  {
    if classes != [] {
      var front, c := classes[..|classes| - 1], classes[|classes| - 1];
      assert classes == front + [c];
      BackupMembers(front, to);
    }
  }

  lemma BackupsOrdered(classes: seq<DataClass>, to: Destination)
    ensures Ordered(BackupStages(classes, to))
    ensures StageIDs(BackupStages(classes, to)) == BackupIDs(classes)
    ensures forall c | c in classes && !RebuildOnly(c.backupMethod) :: BackupStage(c, to) in BackupStages(classes, to)
    ensures forall s | s in BackupStages(classes, to) ::
              exists c :: c in classes && !RebuildOnly(c.backupMethod) && s == BackupStage(c, to)
  {
    BackupsInOrder(classes, to);
    BackupStageIDs(classes, to);
    BackupMembers(classes, to);
  }

  lemma IDsAreNamed(stages: seq<Stage>, id: string)
    ensures id in StageIDs(stages) <==> Named(stages, id)
  {
    if Named(stages, id) {
      var i :| 0 <= i < |stages| && stages[i].id == id;
      assert StageIDs(stages)[i] == id;
    }
  }

  lemma MemberNamed(stages: seq<Stage>, s: Stage)
    requires s in stages
    ensures Named(stages, s.id)
  {
    var i :| 0 <= i < |stages| && stages[i] == s;
  }

  lemma OneClassOrdered(stages: seq<Stage>, c: DataClass, to: Destination)
    requires Ordered(stages) && forall d | d in RestoreDependencies(c, to) :: Named(stages, d)
    ensures Ordered(stages + [RestoreStage(c, to), IntegrityStage(c, to)])
    ensures Named(stages + [RestoreStage(c, to), IntegrityStage(c, to)], IntegrityID(c.name))
  {
    var restored := stages + [RestoreStage(c, to)];
    OrderedAppend(stages, RestoreStage(c, to));
    OrderedAppend(restored, IntegrityStage(c, to));
    assert restored + [IntegrityStage(c, to)] == stages + [RestoreStage(c, to), IntegrityStage(c, to)];
  }

  lemma {:induction false} ClassesOrdered(before: seq<Stage>, classes: seq<DataClass>, to: Destination)
    requires Ordered(before)
    requires forall c, d | c in classes && d in RestoreDependencies(c, to) :: Named(before, d)
    ensures Ordered(before + ClassStages(classes, to))
    ensures forall c | c in classes :: Named(before + ClassStages(classes, to), IntegrityID(c.name))
  {
    if classes == [] {
      assert before + ClassStages(classes, to) == before;
    } else {
      var front, c := classes[..|classes| - 1], classes[|classes| - 1];
      assert classes == front + [c];
      ClassesOrdered(before, front, to);
      var stages, last := before + ClassStages(front, to), [RestoreStage(c, to), IntegrityStage(c, to)];
      forall d | d in RestoreDependencies(c, to) ensures Named(stages, d) {
        NamedLater(before, ClassStages(front, to), d);
      }
      OneClassOrdered(stages, c, to);
      assert before + ClassStages(classes, to) == stages + last;
      forall c' | c' in front ensures Named(stages + last, IntegrityID(c'.name)) {
        NamedLater(stages, last, IntegrityID(c'.name));
      }
    }
  }

  function Prelude(classes: seq<DataClass>, to: Destination): seq<Stage> {
    BackupStages(classes, to) + FenceStages(classes, to)
  }

  lemma PreludeOrdered(classes: seq<DataClass>, to: Destination)
    ensures Ordered(Prelude(classes, to))
    ensures forall c, d | c in classes && d in RestoreDependencies(c, to) :: Named(Prelude(classes, to), d)
  {
    BackupsOrdered(classes, to);
    var backups := BackupStages(classes, to);
    forall d | d in BackupIDs(classes) ensures Named(backups, d) { IDsAreNamed(backups, d); }
    if RequiresFence(to) {
      OrderedAppend(backups, FenceStage(ClassNames(classes), to, BackupIDs(classes)));
    } else {
      assert Prelude(classes, to) == backups;
    }
    forall c, d | c in classes && d in RestoreDependencies(c, to) ensures Named(Prelude(classes, to), d) {
      if d != FENCE_ID || !RequiresFence(to) {
        MemberNamed(backups, BackupStage(c, to));
        NamedLater(backups, FenceStages(classes, to), d);
      }
    }
  }

  lemma ThroughFailover(classes: seq<DataClass>, to: Destination)
    ensures var stages := Prelude(classes, to) + ClassStages(classes, to) + FailoverStages(classes, to);
            && Ordered(stages)
            && (forall c | c in classes :: Named(stages, IntegrityID(c.name)))
            && (RequiresFailover(to) ==> Named(stages, FAILOVER_ID))
  {
    PreludeOrdered(classes, to);
    ClassesOrdered(Prelude(classes, to), classes, to);
    var stages := Prelude(classes, to) + ClassStages(classes, to);
    if RequiresFailover(to) {
      OrderedAppend(stages, FailoverStage(ClassNames(classes), to, IntegrityIDs(classes)));
      forall c | c in classes ensures Named(stages + FailoverStages(classes, to), IntegrityID(c.name)) {
        NamedLater(stages, FailoverStages(classes, to), IntegrityID(c.name));
      }
    } else {
      assert stages + FailoverStages(classes, to) == stages;
    }
  }

  /** Topological emission: list order is a schedule. */
  lemma EmittedOrdered(classes: seq<DataClass>, to: Destination, failback: bool)
    requires failback ==> RequiresFailover(to)
    ensures Ordered(Emitted(classes, to, failback))
  {
    ThroughFailover(classes, to);
    var stages := Prelude(classes, to) + ClassStages(classes, to) + FailoverStages(classes, to);
    var more := stages + FailbackStages(classes, to, failback);
    if failback {
      OrderedAppend(stages, FailbackStage(ClassNames(classes), to, [FAILOVER_ID]));
    } else {
      assert more == stages;
    }
    OrderedAppend(more, CleanupStage(ClassNames(classes), to, FinalIDs(classes, to, failback)));
    assert Emitted(classes, to, failback)
        == more + [CleanupStage(ClassNames(classes), to, FinalIDs(classes, to, failback))];
  }

  /** Binding admission references changes nothing else about a stage. */
  predicate SameShape(e: Stage, b: Stage) {
    b == e.(approvalReference := b.approvalReference, reconciliationReference := b.reconciliationReference)
  }

  lemma BindingKeepsOrder(stages: seq<Stage>, approvals: map<string, string>, reconciliations: map<string, string>)
    requires Ordered(stages)
    ensures Ordered(BoundStages(stages, approvals, reconciliations))
  {
    var bound := BoundStages(stages, approvals, reconciliations);
    forall i, d | 0 <= i < |bound| && d in bound[i].dependsOn ensures Named(bound[..i], d) {
      assert Named(stages[..i], d);
      var j :| 0 <= j < i && stages[..i][j].id == d;
      assert bound[..i][j].id == d;
    }
  }

  // ---- the dependency graph of an ordered list -------------------------------------------------

  lemma {:induction false} GraphOfStages(stages: seq<Stage>)
    requires NoRepeats(StageIDs(stages))
    ensures forall id :: id in StageGraph(stages) <==> id in StageIDs(stages)
    ensures forall i | 0 <= i < |stages| ::
              stages[i].id in StageGraph(stages) && StageGraph(stages)[stages[i].id] == stages[i].dependsOn
  {
    if stages != [] {
      var n := |stages| - 1;
      assert StageIDs(stages) == StageIDs(stages[..n]) + [stages[n].id];
      assert NoRepeats(StageIDs(stages[..n])) by {
        assert forall i | 0 <= i < n :: StageIDs(stages[..n])[i] == StageIDs(stages)[i];
      }
      GraphOfStages(stages[..n]);
      forall i | 0 <= i < n
        ensures stages[i].id in StageGraph(stages) && StageGraph(stages)[stages[i].id] == stages[i].dependsOn
      {
        assert StageIDs(stages)[i] != StageIDs(stages)[n];
        assert stages[..n][i] == stages[i];
        assert StageIDs(stages[..n])[i] == stages[i].id;
      }
    }
  }

  /** With distinct IDs, an ordered list passes the validator's dependency and cycle checks. */
  lemma OrderedIsAcyclic(stages: seq<Stage>)
    requires Ordered(stages) && NoRepeats(StageIDs(stages))
    ensures Acyclic(StageGraph(stages))
    ensures forall i, d | 0 <= i < |stages| && d in stages[i].dependsOn :: d in StageIDs(stages) && d != stages[i].id
  {
    GraphOfStages(stages);
    var g, order := StageGraph(stages), StageIDs(stages);
    forall i, d | 0 <= i < |stages| && d in stages[i].dependsOn
      ensures d in order[..i] && d in StageIDs(stages) && d != stages[i].id
    {
      DependencyIsEarlier(stages, i, d);
    }
    assert Scheduled(g, order) by {
      forall i, d | 0 <= i < |order| && order[i] in g && d in g[order[i]] && d in g ensures d in order[..i] {
        assert g[stages[i].id] == stages[i].dependsOn;
      }
    }
    ScheduleMeansAcyclic(g, order);
  }

  lemma DependencyIsEarlier(stages: seq<Stage>, i: nat, d: string)
    requires Ordered(stages) && NoRepeats(StageIDs(stages)) && i < |stages| && d in stages[i].dependsOn
    ensures d in StageIDs(stages)[..i] && d in StageIDs(stages) && d != stages[i].id
  {
    assert Named(stages[..i], d);
    var j :| 0 <= j < i && stages[..i][j].id == d;
    var order := StageIDs(stages);
    assert order[..i][j] == d && order[j] == d && order[j] != order[i];
  }

  /**
   * In every compiled plan the IDs are distinct and each dependency is earlier: list order is a schedule.
   */
  lemma CompiledIsOrdered(d: Descriptor, r: Request, p: Plan)
    requires Compile(d, r) == Some(p)
    ensures Ordered(p.stages) && NoRepeats(StageIDs(p.stages))
  {
    var to := Chosen(d, r).value;
    EmittedOrdered(SortedClasses(r), to, WantsFailback(r));
    BindingKeepsOrder(Emitted(SortedClasses(r), to, WantsFailback(r)), r.approvals, r.reconciliations);
  }

  // ---- membership ------------------------------------------------------------------------------

  lemma {:induction false} ClassStageMembers(classes: seq<DataClass>, to: Destination)
    ensures forall c | c in classes :: RestoreStage(c, to) in ClassStages(classes, to)
                                       && IntegrityStage(c, to) in ClassStages(classes, to)
    ensures forall s | s in ClassStages(classes, to) ::
              exists c :: c in classes && (s == RestoreStage(c, to) || s == IntegrityStage(c, to))
  {
    if classes != [] {
      var front, c := classes[..|classes| - 1], classes[|classes| - 1];
      assert classes == front + [c];
      ClassStageMembers(front, to);
    }
  }

  lemma SortedMembers(r: Request, c: DataClass)
    ensures c in SortedClasses(r) <==> c in r.dataClasses
  {
    SortMembers(r.dataClasses, ByName, c);
  }

  lemma EmittedShapes(classes: seq<DataClass>, to: Destination, failback: bool, e: Stage)
    requires e in Emitted(classes, to, failback)
    ensures || (exists c :: c in classes && (e == BackupStage(c, to) || e == RestoreStage(c, to) || e == IntegrityStage(c, to)))
            || e == FenceStage(ClassNames(classes), to, BackupIDs(classes))
            || e == FailoverStage(ClassNames(classes), to, IntegrityIDs(classes))
            || e == FailbackStage(ClassNames(classes), to, [FAILOVER_ID])
            || e == CleanupStage(ClassNames(classes), to, FinalIDs(classes, to, failback))
  {
    if e in BackupStages(classes, to) {
      BackupsOrdered(classes, to);
    } else if e in ClassStages(classes, to) {
      ClassStageMembers(classes, to);
    }
  }

  ghost predicate HasShape(p: Plan, e: Stage) {
    exists i :: 0 <= i < |p.stages| && SameShape(e, p.stages[i])
  }

  /** What every compiled plan is made of. */
  ghost predicate Built(p: Plan, classes: seq<DataClass>, to: Destination, failback: bool) {
    && classes != [] && NoRepeats(StageIDs(p.stages)) && (failback ==> RequiresFailover(to))
    && (forall e | e in Emitted(classes, to, failback) :: HasShape(p, e))
    && (forall s | s in p.stages :: exists e :: e in Emitted(classes, to, failback) && SameShape(e, s))
  }

  lemma BoundHasShape(stages: seq<Stage>, approvals: map<string, string>, reconciliations: map<string, string>)
    ensures forall e | e in stages ::
              exists i :: 0 <= i < |stages| && SameShape(e, BoundStages(stages, approvals, reconciliations)[i])
    ensures forall s | s in BoundStages(stages, approvals, reconciliations) :: exists e :: e in stages && SameShape(e, s)
  {
    var bound := BoundStages(stages, approvals, reconciliations);
    forall e | e in stages ensures exists i :: 0 <= i < |stages| && SameShape(e, bound[i]) {
      var i :| 0 <= i < |stages| && stages[i] == e;
      assert SameShape(e, bound[i]);
    }
    forall s | s in bound ensures exists e :: e in stages && SameShape(e, s) {
      var i :| 0 <= i < |bound| && bound[i] == s;
      assert SameShape(stages[i], s);
    }
  }

  lemma CompiledIsBuilt(d: Descriptor, r: Request, p: Plan)
    requires Compile(d, r) == Some(p)
    ensures Built(p, SortedClasses(r), Chosen(d, r).value, WantsFailback(r))
  {
    var emitted := Emitted(SortedClasses(r), Chosen(d, r).value, WantsFailback(r));
    SortKeeps(r.dataClasses, ByName);
    BoundHasShape(emitted, r.approvals, r.reconciliations);
    forall e | e in emitted ensures HasShape(p, e) {
      var i :| 0 <= i < |emitted| && SameShape(e, BoundStages(emitted, r.approvals, r.reconciliations)[i]);
      assert SameShape(e, p.stages[i]);
    }
  }

  // ---- runs ------------------------------------------------------------------------------------

  /** Each firing names a stage whose dependencies have all fired before; retries and resumptions may repeat. */
  predicate Respects(p: Plan, run: seq<string>) {
    forall i | 0 <= i < |run| :: Fires(p, run, i)
  }

  predicate Fires(p: Plan, run: seq<string>, i: nat)
    requires i < |run|
  {
    exists k :: 0 <= k < |p.stages| && p.stages[k].id == run[i] && forall d | d in p.stages[k].dependsOn :: d in run[..i]
  }

  /** Firing the stages in list order respects every dependency. */
  lemma ListOrderRespects(p: Plan)
    requires Ordered(p.stages)
    ensures Respects(p, StageIDs(p.stages))
  {
    var run := StageIDs(p.stages);
    forall i | 0 <= i < |run| ensures Fires(p, run, i) {
      forall d | d in p.stages[i].dependsOn ensures d in run[..i] {
        assert Named(p.stages[..i], d);
        var j :| 0 <= j < i && p.stages[..i][j].id == d;
        assert run[..i][j] == d;
      }
      assert p.stages[i].id == run[i];
    }
  }

  /** A resumed run may continue with any stage whose dependencies fired before the interruption. */
  lemma ResumeRespects(p: Plan, run: seq<string>, k: nat)
    requires Respects(p, run) && k < |p.stages|
    requires forall d | d in p.stages[k].dependsOn :: d in run
    ensures Respects(p, run + [p.stages[k].id])
  {
    var longer := run + [p.stages[k].id];
    forall i | 0 <= i < |longer| ensures Fires(p, longer, i) {
      if i < |run| { assert Fires(p, run, i); assert longer[..i] == run[..i]; } else { assert longer[..i] == run; }
    }
  }

  lemma SameIndex(ids: seq<string>, j: nat, k: nat)
    requires NoRepeats(ids) && j < |ids| && k < |ids| && ids[j] == ids[k]
    ensures j == k
  {
  }

  lemma FiredAfter(p: Plan, run: seq<string>, i: nat, e: Stage, dep: string)
    requires Respects(p, run) && i < |run| && NoRepeats(StageIDs(p.stages))
    requires HasShape(p, e) && run[i] == e.id && dep in e.dependsOn
    ensures dep in run[..i]
  {
    var k :| 0 <= k < |p.stages| && SameShape(e, p.stages[k]);
    assert Fires(p, run, i);
    var j :| 0 <= j < |p.stages| && p.stages[j].id == run[i] && forall d | d in p.stages[j].dependsOn :: d in run[..i];
    assert StageIDs(p.stages)[k] == StageIDs(p.stages)[j];
    SameIndex(StageIDs(p.stages), j, k);
  }

  lemma FiredEarlier(run: seq<string>, i: nat, id: string) returns (j: nat)
    requires i <= |run| && id in run[..i]
    ensures j < i && run[j] == id && forall x | x in run[..j] :: x in run[..i]
  {
    j :| 0 <= j < i && run[..i][j] == id;
    assert run[..j] == run[..i][..j];
  }

  lemma ClassShapes(p: Plan, classes: seq<DataClass>, to: Destination, failback: bool, c: DataClass)
    requires Built(p, classes, to, failback) && c in classes
    ensures HasShape(p, RestoreStage(c, to)) && HasShape(p, IntegrityStage(c, to))
    ensures !RebuildOnly(c.backupMethod) ==> BackupID(c.name) in BackupIDs(classes)
  {
    ClassStageMembers(classes, to);
    assert RestoreStage(c, to) in Emitted(classes, to, failback);
    assert IntegrityStage(c, to) in Emitted(classes, to, failback);
    BackupsOrdered(classes, to);
    if !RebuildOnly(c.backupMethod) {
      MemberNamed(BackupStages(classes, to), BackupStage(c, to));
      IDsAreNamed(BackupStages(classes, to), BackupID(c.name));
    }
  }

  lemma RuntimeShapes(p: Plan, classes: seq<DataClass>, to: Destination, failback: bool)
    requires Built(p, classes, to, failback)
    ensures RequiresFence(to) ==> HasShape(p, FenceStage(ClassNames(classes), to, BackupIDs(classes)))
    ensures RequiresFailover(to) ==> HasShape(p, FailoverStage(ClassNames(classes), to, IntegrityIDs(classes)))
    ensures failback ==> HasShape(p, FailbackStage(ClassNames(classes), to, [FAILOVER_ID]))
    ensures HasShape(p, CleanupStage(ClassNames(classes), to, FinalIDs(classes, to, failback)))
  {
    var names, emitted := ClassNames(classes), Emitted(classes, to, failback);
    if RequiresFence(to) { assert FenceStage(names, to, BackupIDs(classes)) in emitted; }
    if RequiresFailover(to) { assert FailoverStage(names, to, IntegrityIDs(classes)) in emitted; }
    if failback { assert FailbackStage(names, to, [FAILOVER_ID]) in emitted; }
    assert emitted[|emitted| - 1] == CleanupStage(names, to, FinalIDs(classes, to, failback));
  }

  lemma RuntimeIDsApart()
    ensures FENCE_ID != FAILOVER_ID && FENCE_ID != FAILBACK_ID && FAILOVER_ID != FAILBACK_ID
    ensures forall id | id in [FENCE_ID, FAILOVER_ID, FAILBACK_ID] :: id != CLEANUP_ID && id[0] == 'f'
  {
    assert FENCE_ID[0] == FAILOVER_ID[0] == FAILBACK_ID[0] == 'f' && CLEANUP_ID[0] == 'c';
    assert FENCE_ID[1] == 'e' && FAILOVER_ID[1] == FAILBACK_ID[1] == 'a' && FAILOVER_ID[4] == 'o' && FAILBACK_ID[4] == 'b';
  }

  lemma ClassIDLetter(classes: seq<DataClass>, id: string)
    requires ClassID(classes, id)
    ensures id != "" && id[0] != 'f'
  {
    var c :| c in classes && (id == RestoreID(c.name) || id == IntegrityID(c.name) || id == BackupID(c.name));
    assert BackupID(c.name)[0] == 'b' && RestoreID(c.name)[0] == 'r' && IntegrityID(c.name)[0] == 'i';
  }

  lemma EmittedRuntime(classes: seq<DataClass>, to: Destination, failback: bool, e: Stage)
    requires e in Emitted(classes, to, failback)
    ensures (e.id == FENCE_ID ==> RequiresFence(to)) && (e.id == FAILOVER_ID ==> RequiresFailover(to))
    ensures e.id == FAILBACK_ID ==> failback
  {
    EmittedKinds(classes, to, failback, e);
    RuntimeIDsApart();
    if ClassID(classes, e.id) { ClassIDLetter(classes, e.id); }
  }

  /** A runtime stage fires only in a plan that needs it. */
  lemma FiredIsNeeded(p: Plan, classes: seq<DataClass>, to: Destination, failback: bool, run: seq<string>, i: nat)
    requires Built(p, classes, to, failback) && Respects(p, run) && i < |run|
    ensures (run[i] == FENCE_ID ==> RequiresFence(to)) && (run[i] == FAILOVER_ID ==> RequiresFailover(to))
    ensures run[i] == FAILBACK_ID ==> failback
  {
    assert Fires(p, run, i);
    var k :| 0 <= k < |p.stages| && p.stages[k].id == run[i];
    assert p.stages[k] in p.stages;
    var e :| e in Emitted(classes, to, failback) && SameShape(e, p.stages[k]);
    EmittedRuntime(classes, to, failback, e);
  }

  /** A fence, when the destination needs one, follows every backup and precedes every restore. */
  lemma FenceSeparates(p: Plan, classes: seq<DataClass>, to: Destination, failback: bool, run: seq<string>, i: nat, c: DataClass)
    requires Built(p, classes, to, failback) && Respects(p, run) && i < |run| && c in classes
    ensures run[i] == FENCE_ID && !RebuildOnly(c.backupMethod) ==> BackupID(c.name) in run[..i]
    ensures run[i] == RestoreID(c.name) && to in {SameRegion, AlternateRegion, AlternateProvider} ==> FENCE_ID in run[..i]
    ensures run[i] == RestoreID(c.name) && !RebuildOnly(c.backupMethod) ==> BackupID(c.name) in run[..i]
  {
    ClassShapes(p, classes, to, failback, c);
    RuntimeShapes(p, classes, to, failback);
    FiredIsNeeded(p, classes, to, failback, run, i);
    if run[i] == FENCE_ID && !RebuildOnly(c.backupMethod) {
      FiredAfter(p, run, i, FenceStage(ClassNames(classes), to, BackupIDs(classes)), BackupID(c.name));
    }
    if run[i] == RestoreID(c.name) && RequiresFence(to) {
      FiredAfter(p, run, i, RestoreStage(c, to), FENCE_ID);
    }
    if run[i] == RestoreID(c.name) && !RebuildOnly(c.backupMethod) {
      FiredAfter(p, run, i, RestoreStage(c, to), BackupID(c.name));
    }
  }

  /** Everything a fired integrity check of a class stands on. */
  predicate ClassDone(to: Destination, done: seq<string>, c: DataClass) {
    && IntegrityID(c.name) in done && RestoreID(c.name) in done
    && (!RebuildOnly(c.backupMethod) ==> BackupID(c.name) in done)
    && (to in {SameRegion, AlternateRegion, AlternateProvider} ==> FENCE_ID in done)
  }

  lemma IntegrityImplies(p: Plan, classes: seq<DataClass>, to: Destination, failback: bool, run: seq<string>, i: nat, c: DataClass)
    requires Built(p, classes, to, failback) && Respects(p, run) && i <= |run| && c in classes
    requires IntegrityID(c.name) in run[..i]
    ensures ClassDone(to, run[..i], c)
  {
    ClassShapes(p, classes, to, failback, c);
    var j := FiredEarlier(run, i, IntegrityID(c.name));
    FiredAfter(p, run, j, IntegrityStage(c, to), RestoreID(c.name));
    var k := FiredEarlier(run, j, RestoreID(c.name));
    FenceSeparates(p, classes, to, failback, run, k, c);
  }

  lemma FinalIntegrity(classes: seq<DataClass>, c: DataClass)
    requires c in classes
    ensures IntegrityID(c.name) in IntegrityIDs(classes)
  {
    var k :| 0 <= k < |classes| && classes[k] == c;
    assert IntegrityIDs(classes)[k] == IntegrityID(c.name);
  }

  /** Failover comes only after every class was backed up (if it is), fenced, restored and checked. */
  lemma FailoverAfterEveryClass(p: Plan, classes: seq<DataClass>, to: Destination, failback: bool,
                                run: seq<string>, i: nat, c: DataClass)
    requires Built(p, classes, to, failback) && Respects(p, run) && i < |run| && c in classes
    requires run[i] == FAILOVER_ID
    ensures to in {AlternateRegion, AlternateProvider} && ClassDone(to, run[..i], c)
  {
    FiredIsNeeded(p, classes, to, failback, run, i);
    RuntimeShapes(p, classes, to, failback);
    FinalIntegrity(classes, c);
    FiredAfter(p, run, i, FailoverStage(ClassNames(classes), to, IntegrityIDs(classes)), IntegrityID(c.name));
    IntegrityImplies(p, classes, to, failback, run, i, c);
  }

  /** Failback exists only for a requested failback, and follows failover. */
  lemma FailbackAfterFailover(p: Plan, classes: seq<DataClass>, to: Destination, failback: bool, run: seq<string>, i: nat)
    requires Built(p, classes, to, failback) && Respects(p, run) && i < |run|
    requires run[i] == FAILBACK_ID
    ensures failback && to in {AlternateRegion, AlternateProvider} && FAILOVER_ID in run[..i]
  {
    FiredIsNeeded(p, classes, to, failback, run, i);
    RuntimeShapes(p, classes, to, failback);
    FiredAfter(p, run, i, FailbackStage(ClassNames(classes), to, [FAILOVER_ID]), FAILOVER_ID);
  }

  lemma CleanupAfterFinals(p: Plan, classes: seq<DataClass>, to: Destination, failback: bool, run: seq<string>, i: nat, c: DataClass)
    requires Built(p, classes, to, failback) && Respects(p, run) && i < |run| && c in classes
    requires run[i] == CLEANUP_ID
    ensures ClassDone(to, run[..i], c)
    ensures failback ==> FAILBACK_ID in run[..i]
    ensures RequiresFailover(to) ==> FAILOVER_ID in run[..i]
  {
    RuntimeShapes(p, classes, to, failback);
    var cleanup := CleanupStage(ClassNames(classes), to, FinalIDs(classes, to, failback));
    if RequiresFailover(to) {
      var j := i;
      if failback {
        FiredAfter(p, run, i, cleanup, FAILBACK_ID);
        j := FiredEarlier(run, i, FAILBACK_ID);
        FailbackAfterFailover(p, classes, to, failback, run, j);
      } else {
        FiredAfter(p, run, i, cleanup, FAILOVER_ID);
      }
      var k := FiredEarlier(run, j, FAILOVER_ID);
      FailoverAfterEveryClass(p, classes, to, failback, run, k, c);
    } else {
      FinalIntegrity(classes, c);
      FiredAfter(p, run, i, cleanup, IntegrityID(c.name));
      IntegrityImplies(p, classes, to, failback, run, i, c);
    }
  }

  predicate ClassID(classes: seq<DataClass>, id: string) {
    exists c :: c in classes && (id == RestoreID(c.name) || id == IntegrityID(c.name)
                                 || (id == BackupID(c.name) && !RebuildOnly(c.backupMethod)))
  }

  lemma EmittedKinds(classes: seq<DataClass>, to: Destination, failback: bool, e: Stage)
    requires e in Emitted(classes, to, failback)
    ensures e.id == CLEANUP_ID
         || (e.id == FENCE_ID && RequiresFence(to)) || (e.id == FAILOVER_ID && RequiresFailover(to))
         || (e.id == FAILBACK_ID && failback) || ClassID(classes, e.id)
  {
    if e in BackupStages(classes, to) {
      BackupsOrdered(classes, to);
    } else if e in ClassStages(classes, to) {
      ClassStageMembers(classes, to);
    }
  }

  /** Cleanup is last: when it fires, every other stage of the plan has fired. */
  lemma CleanupIsLast(p: Plan, classes: seq<DataClass>, to: Destination, failback: bool, run: seq<string>, i: nat, s: Stage)
    requires Built(p, classes, to, failback) && Respects(p, run) && i < |run| && s in p.stages
    requires run[i] == CLEANUP_ID && s.id != CLEANUP_ID
    ensures s.id in run[..i]
  {
    var e :| e in Emitted(classes, to, failback) && SameShape(e, s);
    EmittedKinds(classes, to, failback, e);
    var c := classes[0];
    if ClassID(classes, e.id) {
      c :| c in classes && (e.id == RestoreID(c.name) || e.id == IntegrityID(c.name)
                            || (e.id == BackupID(c.name) && !RebuildOnly(c.backupMethod)));
    }
    CleanupAfterFinals(p, classes, to, failback, run, i, c);
  }

  /** The order every dependency-respecting run of a compiled plan obeys, for each class and firing. */
  lemma CompiledRunOrder(d: Descriptor, r: Request, p: Plan, run: seq<string>, i: nat, c: DataClass)
    requires Compile(d, r) == Some(p) && Respects(p, run) && i < |run| && c in r.dataClasses
    ensures var to := Chosen(d, r).value;
            && (run[i] == FENCE_ID && !RebuildOnly(c.backupMethod) ==> BackupID(c.name) in run[..i])
            && (run[i] == RestoreID(c.name) && to in {SameRegion, AlternateRegion, AlternateProvider} ==> FENCE_ID in run[..i])
            && (run[i] == FAILOVER_ID ==> to in {AlternateRegion, AlternateProvider} && ClassDone(to, run[..i], c))
            && (run[i] == FAILBACK_ID ==> WantsFailback(r) && FAILOVER_ID in run[..i])
            && (run[i] == CLEANUP_ID ==> forall s | s in p.stages && s.id != CLEANUP_ID :: s.id in run[..i])
  {
    var to, classes, failback := Chosen(d, r).value, SortedClasses(r), WantsFailback(r);
    CompiledIsBuilt(d, r, p);
    SortedMembers(r, c);
    FenceSeparates(p, classes, to, failback, run, i, c);
    if run[i] == FAILOVER_ID {
      FailoverAfterEveryClass(p, classes, to, failback, run, i, c);
    }
    if run[i] == FAILBACK_ID {
      FailbackAfterFailover(p, classes, to, failback, run, i);
    }
    if run[i] == CLEANUP_ID {
      forall s | s in p.stages && s.id != CLEANUP_ID ensures s.id in run[..i] {
        CleanupIsLast(p, classes, to, failback, run, i, s);
      }
    }
  }
}
