/** What a compiled plan contains and in which order its actions fire, in terms of the request alone. */
module RecoveryContents {
  import opened Optional
  import opened Text
  import opened Ordering
  import opened RecoveryPlan
  import opened RecoveryOrder

  // ---- the stages, by action -------------------------------------------------------------------

  predicate Includes(stages: seq<Stage>, a: Action) {
    exists s | s in stages :: s.action == a
  }

  predicate Handles(stages: seq<Stage>, a: Action, name: string) {
    exists s | s in stages :: s.action == a && s.dataClasses == [name]
  }

  /** A class that is rebuilt rather than restored from a backup. */
  predicate Rebuilt(c: DataClass) {
    LowerAll(TrimSpace(c.backupMethod)) in {"none", "rebuild", "recreate"}
  }

  /** The word, in any mixture of ASCII cases. */
  predicate Says(s: string, word: string) {
    |s| == |word| && forall i | 0 <= i < |s| :: s[i] == word[i] || ('a' <= word[i] <= 'z' && s[i] as int + 32 == word[i] as int)
  }

  lemma {:induction false} LowerAllAt(s: string)
    ensures |LowerAll(s)| == |s| && forall i | 0 <= i < |s| :: LowerAll(s)[i] == Lower(s[i])
  {
    if s != "" {
      LowerAllAt(s[1..]);
    }
  }

  lemma LowerAllMeans(s: string, word: string)
    requires forall i | 0 <= i < |word| :: 'a' <= word[i] <= 'z'
    ensures LowerAll(s) == word <==> Says(s, word)
  {
    LowerAllAt(s);
    if Says(s, word) {
      forall i | 0 <= i < |s| ensures LowerAll(s)[i] == word[i] { assert Lower(s[i]) == word[i]; }
    }
  }

  /** A class is rebuilt exactly if its trimmed backup method says none, rebuild or recreate, in any case. */
  lemma RebuiltMeans(c: DataClass)
    ensures Rebuilt(c) <==> var m := TrimSpace(c.backupMethod); Says(m, "none") || Says(m, "rebuild") || Says(m, "recreate")
  {
    var m := TrimSpace(c.backupMethod);
    LowerAllMeans(m, "none");
    LowerAllMeans(m, "rebuild");
    LowerAllMeans(m, "recreate");
  }

  /** What each emitted stage is, told by its action. */
  predicate Plays(classes: seq<DataClass>, to: Destination, failback: bool, e: Stage) {
    && e.destination == to
    && match e.action
       case Backup => exists c | c in classes :: !Rebuilt(c) && e == BackupStage(c, to)
       case Restore => exists c | c in classes :: e == RestoreStage(c, to)
       case IntegrityCheck => exists c | c in classes :: e == IntegrityStage(c, to)
       case Fence => e == FenceStage(ClassNames(classes), to, BackupIDs(classes)) && RequiresFence(to)
       case Failover => e == FailoverStage(ClassNames(classes), to, IntegrityIDs(classes)) && RequiresFailover(to)
       case Failback => e == FailbackStage(ClassNames(classes), to, [FAILOVER_ID]) && failback
       case Cleanup => e == CleanupStage(ClassNames(classes), to, FinalIDs(classes, to, failback))
       case _ => false
  }

  lemma ClassStagePlays(classes: seq<DataClass>, to: Destination, failback: bool, e: Stage)
    requires e in BackupStages(classes, to) || e in ClassStages(classes, to)
    ensures Plays(classes, to, failback, e)
  {
    if e in BackupStages(classes, to) {
      BackupsOrdered(classes, to);
    } else {
      ClassStageMembers(classes, to);
    }
  }

  lemma RuntimeStagePlays(classes: seq<DataClass>, to: Destination, failback: bool, e: Stage)
    requires e in FenceStages(classes, to) || e in FailoverStages(classes, to) || e in FailbackStages(classes, to, failback)
          || e == CleanupStage(ClassNames(classes), to, FinalIDs(classes, to, failback))
    ensures Plays(classes, to, failback, e)
  {
  }

  lemma EmittedPlays(classes: seq<DataClass>, to: Destination, failback: bool, e: Stage)
    requires e in Emitted(classes, to, failback)
    ensures Plays(classes, to, failback, e)
  {
    if e in BackupStages(classes, to) || e in ClassStages(classes, to) {
      ClassStagePlays(classes, to, failback, e);
    } else {
      RuntimeStagePlays(classes, to, failback, e);
    }
  }

  lemma PlannedPlays(p: Plan, classes: seq<DataClass>, to: Destination, failback: bool, s: Stage) returns (e: Stage)
    requires Built(p, classes, to, failback) && s in p.stages
    ensures e in Emitted(classes, to, failback) && SameShape(e, s) && Plays(classes, to, failback, e)
  {
    e :| e in Emitted(classes, to, failback) && SameShape(e, s);
    EmittedPlays(classes, to, failback, e);
  }

  lemma ShapeInPlan(p: Plan, e: Stage) returns (s: Stage)
    requires HasShape(p, e)
    ensures s in p.stages && SameShape(e, s)
  {
    var i :| 0 <= i < |p.stages| && SameShape(e, p.stages[i]);
    s := p.stages[i];
  }

  lemma PlannedHas(p: Plan, e: Stage, a: Action)
    requires HasShape(p, e) && e.action == a
    ensures Includes(p.stages, a) && forall name | e.dataClasses == [name] :: Handles(p.stages, a, name)
  {
    var s := ShapeInPlan(p, e);
  }

  lemma BuiltRuntime(p: Plan, classes: seq<DataClass>, to: Destination, failback: bool)
    requires Built(p, classes, to, failback)
    ensures forall s | s in p.stages :: s.destination == to
    ensures Includes(p.stages, Fence) <==> RequiresFence(to)
    ensures Includes(p.stages, Failover) <==> RequiresFailover(to)
    ensures Includes(p.stages, Failback) <==> failback
    ensures Includes(p.stages, Cleanup)
  {
    RuntimeShapes(p, classes, to, failback);
    forall s | s in p.stages
      ensures s.destination == to && (s.action == Fence ==> RequiresFence(to)) && (s.action == Failover ==> RequiresFailover(to))
              && (s.action == Failback ==> failback)
    {
      var e := PlannedPlays(p, classes, to, failback, s);
    }
    if RequiresFence(to) { PlannedHas(p, FenceStage(ClassNames(classes), to, BackupIDs(classes)), Fence); }
    if RequiresFailover(to) { PlannedHas(p, FailoverStage(ClassNames(classes), to, IntegrityIDs(classes)), Failover); }
    if failback { PlannedHas(p, FailbackStage(ClassNames(classes), to, [FAILOVER_ID]), Failback); }
    PlannedHas(p, CleanupStage(ClassNames(classes), to, FinalIDs(classes, to, failback)), Cleanup);
  }

  lemma SameName(classes: seq<DataClass>, a: DataClass, b: DataClass)
    requires NoRepeats(ClassNames(classes)) && a in classes && b in classes && a.name == b.name
    ensures a == b
  {
    var i :| 0 <= i < |classes| && classes[i] == a;
    var k :| 0 <= k < |classes| && classes[k] == b;
    assert ClassNames(classes)[i] == ClassNames(classes)[k];
    SameIndex(ClassNames(classes), i, k);
  }

  lemma BackupOfClass(p: Plan, classes: seq<DataClass>, to: Destination, failback: bool, c: DataClass, s: Stage)
    requires Built(p, classes, to, failback) && c in classes && NoRepeats(ClassNames(classes))
    requires s in p.stages && s.action == Backup && s.dataClasses == [c.name]
    ensures !Rebuilt(c)
  {
    var e := PlannedPlays(p, classes, to, failback, s);
    var b :| b in classes && !Rebuilt(b) && e == BackupStage(b, to);
    assert e.dataClasses[0] == s.dataClasses[0];
    SameName(classes, b, c);
  }

  lemma BuiltBackup(p: Plan, classes: seq<DataClass>, to: Destination, failback: bool, c: DataClass)
    requires Built(p, classes, to, failback) && c in classes && !Rebuilt(c)
    ensures HasShape(p, BackupStage(c, to))
  {
    BackupsOrdered(classes, to);
    assert BackupStage(c, to) in Emitted(classes, to, failback);
  }

  lemma BuiltClass(p: Plan, classes: seq<DataClass>, to: Destination, failback: bool, c: DataClass)
    requires Built(p, classes, to, failback) && c in classes && NoRepeats(ClassNames(classes))
    ensures Handles(p.stages, Backup, c.name) <==> !Rebuilt(c)
    ensures Handles(p.stages, Restore, c.name) && Handles(p.stages, IntegrityCheck, c.name)
  {
    ClassShapes(p, classes, to, failback, c);
    PlannedHas(p, RestoreStage(c, to), Restore);
    PlannedHas(p, IntegrityStage(c, to), IntegrityCheck);
    if !Rebuilt(c) {
      BuiltBackup(p, classes, to, failback, c);
      PlannedHas(p, BackupStage(c, to), Backup);
    }
    forall s | s in p.stages && s.action == Backup && s.dataClasses == [c.name] ensures !Rebuilt(c) {
      BackupOfClass(p, classes, to, failback, c, s);
    }
  }

  lemma SortedNames(r: Request)
    requires NoRepeats(ClassNames(r.dataClasses))
    ensures NoRepeats(ClassNames(SortedClasses(r)))
  {
    var cs, sorted := r.dataClasses, SortedClasses(r);
    SortKeeps(cs, ByName);
    assert forall i | 0 <= i < |cs| :: ClassNames(cs)[i] == cs[i].name;
    assert NoRepeats(cs);
    NoRepeatsForgetsOrder(cs, sorted);
    forall i, j | 0 <= i < j < |sorted| ensures sorted[i].name != sorted[j].name {
      SortedMembers(r, sorted[i]);
      SortedMembers(r, sorted[j]);
      assert sorted[i] in sorted && sorted[j] in sorted;
      if sorted[i].name == sorted[j].name { SameName(cs, sorted[i], sorted[j]); }
    }
  }

  /**
   * What a compiled plan is made of: all its stages go to one requested destination; it fences exactly for the same
   * region, an alternate region or an alternate provider, fails over exactly for the last two, and fails back exactly
   * when that was approved; it restores and checks every class, and backs up exactly those that are not rebuilt.
   */
  lemma PlanContents(d: Descriptor, r: Request, p: Plan, c: DataClass) returns (to: Destination)
    requires Compile(d, r) == Some(p) && c in r.dataClasses
    ensures to in r.destinations && forall s | s in p.stages :: s.destination == to
    ensures Includes(p.stages, Fence) <==> to == SameRegion || to == AlternateRegion || to == AlternateProvider
    ensures Includes(p.stages, Failover) <==> to == AlternateRegion || to == AlternateProvider
    ensures Includes(p.stages, Failback) <==> "failback-runtime" in r.approvals
    ensures Includes(p.stages, Cleanup)
    ensures Handles(p.stages, Backup, c.name) <==> !Rebuilt(c)
    ensures Handles(p.stages, Restore, c.name) && Handles(p.stages, IntegrityCheck, c.name)
  {
    to := Chosen(d, r).value;
    CompiledIsBuilt(d, r, p);
    ChosenIsRequested(0, r.destinations, SortedClasses(r), CapabilityMap(d.dataClasses));
    BuiltRuntime(p, SortedClasses(r), to, WantsFailback(r));
    SortedNames(r);
    SortedMembers(r, c);
    BuiltClass(p, SortedClasses(r), to, WantsFailback(r), c);
  }

  lemma {:induction false} ChosenIsRequested(from: nat, requested: seq<Destination>, classes: seq<DataClass>, caps: map<string, Capability>)
    requires from <= 4
    ensures var chosen := ChooseDestination(from, requested, classes, caps);
            chosen.Some? ==> chosen.value in requested && SupportedByAll(chosen.value, classes, caps)
    decreases 4 - from
  {
    if from < 4 {
      ChosenIsRequested(from + 1, requested, classes, caps);
    }
  }

  // ---- the order, by action --------------------------------------------------------------------

  /** `t` must have fired before `s` does. */
  predicate Precedes(t: Stage, s: Stage) {
    match s.action
    case Fence => t.action == Backup
    case Restore => t.action == Fence || (t.action == Backup && t.dataClasses == s.dataClasses)
    case IntegrityCheck => t.action == Fence || ((t.action == Backup || t.action == Restore) && t.dataClasses == s.dataClasses)
    case Failover => t.action == Backup || t.action == Fence || t.action == Restore || t.action == IntegrityCheck
    case Failback => t.action != Failback && t.action != Cleanup
    case Cleanup => t.action != Cleanup
    case _ => false
  }

  lemma LettersOfIDs(name: string)
    ensures BackupID(name)[0] == 'b' && RestoreID(name)[0] == 'r' && IntegrityID(name)[0] == 'i'
    ensures FENCE_ID[0] == FAILOVER_ID[0] == FAILBACK_ID[0] == 'f' && CLEANUP_ID[0] == 'c'
  {
  }

  lemma FenceOrder(p: Plan, classes: seq<DataClass>, to: Destination, failback: bool, run: seq<string>, i: nat, s: Stage, t: Stage)
    requires Built(p, classes, to, failback) && Respects(p, run) && i < |run| && run[i] == s.id
    requires Plays(classes, to, failback, s) && Plays(classes, to, failback, t) && s.action == Fence && Precedes(t, s)
    ensures t.id in run[..i]
  {
    var b :| b in classes && !Rebuilt(b) && t == BackupStage(b, to);
    FenceSeparates(p, classes, to, failback, run, i, b);
  }

  lemma RestoreOrder(p: Plan, classes: seq<DataClass>, to: Destination, failback: bool, run: seq<string>, i: nat, s: Stage, t: Stage)
    requires Built(p, classes, to, failback) && Respects(p, run) && i < |run| && run[i] == s.id
    requires Plays(classes, to, failback, s) && Plays(classes, to, failback, t) && s.action == Restore && Precedes(t, s)
    ensures t.id in run[..i]
  {
    var c :| c in classes && s == RestoreStage(c, to);
    if t.action == Backup {
      var b :| b in classes && !Rebuilt(b) && t == BackupStage(b, to);
      assert t.dataClasses[0] == s.dataClasses[0];
      FenceSeparates(p, classes, to, failback, run, i, b);
    } else {
      FenceSeparates(p, classes, to, failback, run, i, c);
    }
  }

  lemma DoneBefore(classes: seq<DataClass>, to: Destination, failback: bool, done: seq<string>, c: DataClass, t: Stage)
    requires Plays(classes, to, failback, t) && ClassDone(to, done, c)
    requires t.action == Fence
          || ((t.action == Backup || t.action == Restore || t.action == IntegrityCheck) && t.dataClasses == [c.name])
    ensures t.id in done || (t.action == Backup && Rebuilt(c))
  {
    if t.action != Fence { assert t.dataClasses[0] == c.name; }
  }

  lemma BackupNeedsMethod(classes: seq<DataClass>, to: Destination, failback: bool, c: DataClass, t: Stage)
    requires Plays(classes, to, failback, t) && t.action == Backup && t.dataClasses == [c.name] && c in classes
    requires NoRepeats(ClassNames(classes))
    ensures !Rebuilt(c)
  {
    var b :| b in classes && !Rebuilt(b) && t == BackupStage(b, to);
    assert t.dataClasses[0] == c.name;
    SameName(classes, b, c);
  }

  lemma IntegrityOrder(p: Plan, classes: seq<DataClass>, to: Destination, failback: bool, run: seq<string>, i: nat, s: Stage, t: Stage)
    requires Built(p, classes, to, failback) && Respects(p, run) && i < |run| && run[i] == s.id && NoRepeats(ClassNames(classes))
    requires Plays(classes, to, failback, s) && Plays(classes, to, failback, t) && s.action == IntegrityCheck && Precedes(t, s)
    ensures t.id in run[..i]
  {
    var c :| c in classes && s == IntegrityStage(c, to);
    assert run[..i + 1][i] == s.id;
    IntegrityImplies(p, classes, to, failback, run, i + 1, c);
    DoneBefore(classes, to, failback, run[..i + 1], c, t);
    if t.action == Backup { BackupNeedsMethod(classes, to, failback, c, t); }
    PlaysLetter(classes, to, failback, t);
    LettersOfIDs(c.name);
  }

  lemma PlaysLetter(classes: seq<DataClass>, to: Destination, failback: bool, t: Stage)
    requires Plays(classes, to, failback, t)
    ensures t.id != ""
    ensures t.id[0] == match t.action case Backup => 'b' case Restore => 'r' case IntegrityCheck => 'i' case Cleanup => 'c' case _ => 'f'
  {
    LettersOfIDs("");
    match t.action
    case Backup =>
      var c :| c in classes && t == BackupStage(c, to);
      LettersOfIDs(c.name);
    case Restore =>
      var c :| c in classes && t == RestoreStage(c, to);
      LettersOfIDs(c.name);
    case IntegrityCheck =>
      var c :| c in classes && t == IntegrityStage(c, to);
      LettersOfIDs(c.name);
    case _ =>
  }

  /** The class a class stage is for. */
  lemma ClassOf(classes: seq<DataClass>, to: Destination, failback: bool, t: Stage) returns (c: DataClass)
    requires Plays(classes, to, failback, t) && (t.action == Backup || t.action == Restore || t.action == IntegrityCheck)
    ensures c in classes && t.dataClasses == [c.name]
  {
    if t.action == Backup {
      var b :| b in classes && !Rebuilt(b) && t == BackupStage(b, to);
      c := b;
    } else if t.action == Restore {
      var b :| b in classes && t == RestoreStage(b, to);
      c := b;
    } else {
      var b :| b in classes && t == IntegrityStage(b, to);
      c := b;
    }
  }

  lemma FailoverOrder(p: Plan, classes: seq<DataClass>, to: Destination, failback: bool, run: seq<string>, i: nat, t: Stage)
    requires Built(p, classes, to, failback) && Respects(p, run) && i < |run| && run[i] == FAILOVER_ID && NoRepeats(ClassNames(classes))
    requires Plays(classes, to, failback, t) && t.action in {Backup, Fence, Restore, IntegrityCheck}
    ensures t.id in run[..i]
  {
    var c := classes[0];
    if t.action != Fence {
      c := ClassOf(classes, to, failback, t);
      if t.action == Backup { BackupNeedsMethod(classes, to, failback, c, t); }
    }
    FailoverAfterEveryClass(p, classes, to, failback, run, i, c);
    DoneBefore(classes, to, failback, run[..i], c, t);
  }

  lemma FailbackOrder(p: Plan, classes: seq<DataClass>, to: Destination, failback: bool, run: seq<string>, i: nat, t: Stage)
    requires Built(p, classes, to, failback) && Respects(p, run) && i < |run| && run[i] == FAILBACK_ID && NoRepeats(ClassNames(classes))
    requires Plays(classes, to, failback, t) && t.action != Failback && t.action != Cleanup
    ensures t.id in run[..i]
  {
    FailbackAfterFailover(p, classes, to, failback, run, i);
    if t.action != Failover {
      var j := FiredEarlier(run, i, FAILOVER_ID);
      FailoverOrder(p, classes, to, failback, run, j, t);
      assert run[..i][..j] == run[..j];
    }
  }

  lemma BuiltOrder(p: Plan, classes: seq<DataClass>, to: Destination, failback: bool, run: seq<string>, i: nat, s: Stage, t: Stage)
    requires Built(p, classes, to, failback) && Respects(p, run) && i < |run| && NoRepeats(ClassNames(classes))
    requires s in p.stages && t in p.stages && run[i] == s.id && Precedes(t, s)
    ensures t.id in run[..i]
  {
    var e := PlannedPlays(p, classes, to, failback, s);
    var f := PlannedPlays(p, classes, to, failback, t);
    match s.action
    case Fence => FenceOrder(p, classes, to, failback, run, i, e, f);
    case Restore => RestoreOrder(p, classes, to, failback, run, i, e, f);
    case IntegrityCheck => IntegrityOrder(p, classes, to, failback, run, i, e, f);
    case Failover => FailoverOrder(p, classes, to, failback, run, i, f);
    case Failback => FailbackOrder(p, classes, to, failback, run, i, f);
    case Cleanup =>
      PlaysLetter(classes, to, failback, f);
      LettersOfIDs("");
      CleanupIsLast(p, classes, to, failback, run, i, t);
  }

  /**
   * In every respecting run of a compiled plan, by action: backups fire before the fence, the fence and a class's
   * backup before its restore, that before its check, all of these before failover, that before failback, and cleanup
   * last. With `PlanContents`, a plan to the same region, an alternate region or an alternate provider never restores
   * unfenced.
   */
  lemma RunOrder(d: Descriptor, r: Request, p: Plan, run: seq<string>, i: nat, s: Stage, t: Stage)
    requires Compile(d, r) == Some(p) && Respects(p, run) && i < |run|
    requires s in p.stages && t in p.stages && run[i] == s.id && Precedes(t, s)
    ensures t.id in run[..i]
  {
    CompiledIsBuilt(d, r, p);
    SortedNames(r);
    BuiltOrder(p, SortedClasses(r), Chosen(d, r).value, WantsFailback(r), run, i, s, t);
  }

  /** No restore fires unfenced in a run of a plan to one of the three fenced destinations. */
  lemma RestoresAreFenced(d: Descriptor, r: Request, p: Plan, run: seq<string>, i: nat, s: Stage) returns (fence: Stage)
    requires Compile(d, r) == Some(p) && Respects(p, run) && i < |run|
    requires s in p.stages && run[i] == s.id && s.action == Restore
    requires s.destination == SameRegion || s.destination == AlternateRegion || s.destination == AlternateProvider
    ensures fence in p.stages && fence.action == Fence && fence.id in run[..i]
  {
    assert r.dataClasses[0] in r.dataClasses;
    var to := PlanContents(d, r, p, r.dataClasses[0]);
    fence :| fence in p.stages && fence.action == Fence;
    RunOrder(d, r, p, run, i, s, fence);
  }
}
