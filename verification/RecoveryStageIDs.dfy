/** Stage IDs: why a draft never depends on itself, and when its IDs are distinct. */
module RecoveryStageIDs {
  import opened Ordering
  import opened Text
  import opened Patterns
  import opened DependencyGraph
  import opened RecoveryPlan
  import opened RecoveryOrder

  // ---- levels: what an ID's first letters say --------------------------------------------------

  /** Backup, fence, restore, integrity, failover, failback and cleanup IDs, told apart by their first letters. */
  function Level(id: string): nat {
    if |id| < 5 then 0
    else if id[0] == 'r' then 2
    else if id[0] == 'i' then 3
    else if id[0] == 'c' then 6
    else if id[0] == 'f' && id[1] == 'e' then 1
    else if id[0] == 'f' && id[4] == 'o' then 4
    else if id[0] == 'f' then 5
    else 0
  }

  lemma ClassLevels(name: string)
    ensures Level(BackupID(name)) == 0 && Level(RestoreID(name)) == 2 && Level(IntegrityID(name)) == 3
  {
    assert BackupID(name)[0] == 'b' && RestoreID(name)[0] == 'r' && IntegrityID(name)[0] == 'i';
  }

  lemma RuntimeLevels()
    ensures Level(FENCE_ID) == 1 && Level(FAILOVER_ID) == 4 && Level(FAILBACK_ID) == 5 && Level(CLEANUP_ID) == 6
  {
    assert FENCE_ID[1] == 'e' && FAILOVER_ID[1] == 'a' && FAILOVER_ID[4] == 'o' && FAILBACK_ID[1] == 'a' && FAILBACK_ID[4] == 'b';
  }

  lemma {:induction false} BackupLevels(classes: seq<DataClass>)
    ensures forall id | id in BackupIDs(classes) :: Level(id) == 0
  {
    if classes != [] {
      BackupLevels(classes[..|classes| - 1]);
      ClassLevels(classes[|classes| - 1].name);
    }
  }

  lemma IntegrityLevels(classes: seq<DataClass>)
    ensures forall id | id in IntegrityIDs(classes) :: Level(id) == 3
  {
    forall i | 0 <= i < |classes| ensures Level(IntegrityIDs(classes)[i]) == 3 { ClassLevels(classes[i].name); }
  }

  predicate Descends(s: Stage) {
    forall d | d in s.dependsOn :: Level(d) < Level(s.id)
  }

  lemma ClassStagesDescend(c: DataClass, to: Destination)
    ensures Descends(BackupStage(c, to)) && Descends(RestoreStage(c, to)) && Descends(IntegrityStage(c, to))
  {
    ClassLevels(c.name);
    RuntimeLevels();
    assert forall d | d in RestoreDependencies(c, to) :: d == BackupID(c.name) || d == FENCE_ID;
  }

  lemma RuntimeStagesDescend(classes: seq<DataClass>, to: Destination, failback: bool)
    ensures Descends(FenceStage(ClassNames(classes), to, BackupIDs(classes)))
    ensures Descends(FailoverStage(ClassNames(classes), to, IntegrityIDs(classes)))
    ensures Descends(FailbackStage(ClassNames(classes), to, [FAILOVER_ID]))
    ensures Descends(CleanupStage(ClassNames(classes), to, FinalIDs(classes, to, failback)))
  {
    RuntimeLevels();
    BackupLevels(classes);
    IntegrityLevels(classes);
  }

  lemma EmittedDescends(classes: seq<DataClass>, to: Destination, failback: bool, e: Stage)
    requires e in Emitted(classes, to, failback)
    ensures Descends(e)
  {
    EmittedShapes(classes, to, failback, e);
    RuntimeStagesDescend(classes, to, failback);
    forall c | c in classes
      ensures Descends(BackupStage(c, to)) && Descends(RestoreStage(c, to)) && Descends(IntegrityStage(c, to))
    {
      ClassStagesDescend(c, to);
    }
  }

  lemma {:induction false} GraphMember(stages: seq<Stage>, id: string) returns (i: nat)
    requires id in StageGraph(stages)
    ensures i < |stages| && stages[i].id == id && StageGraph(stages)[id] == stages[i].dependsOn
  {
    var n := |stages| - 1;
    if stages[n].id == id {
      i := n;
    } else {
      i := GraphMember(stages[..n], id);
    }
  }

  lemma {:induction false} PathDescendsLevels(g: Graph, p: seq<string>, n: nat)
    requires Path(g, p) && n < |p| && forall a, b | Edge(g, a, b) :: Level(b) < Level(a)
    ensures Level(p[n]) + n <= Level(p[0])
  {
    if n > 0 {
      PathDescendsLevels(g, p, n - 1);
      assert Edge(g, p[n - 1], p[n - 1 + 1]);
    }
  }

  /** Stages whose dependencies all stand on a lower level form no cycle, even when IDs repeat. */
  lemma DescendingIsAcyclic(stages: seq<Stage>)
    requires forall i | 0 <= i < |stages| :: Descends(stages[i])
    ensures Acyclic(StageGraph(stages))
  {
    var g := StageGraph(stages);
    forall a, b | Edge(g, a, b) ensures Level(b) < Level(a) {
      var i := GraphMember(stages, a);
      assert Descends(stages[i]);
    }
    forall p ensures !Cycle(g, p) {
      if |p| >= 2 && Path(g, p) {
        PathDescendsLevels(g, p, |p| - 1);
      }
    }
  }

  lemma KnownAndOther(stages: seq<Stage>, i: nat, dep: string)
    requires Ordered(stages) && i < |stages| && Descends(stages[i]) && dep in stages[i].dependsOn
    ensures dep in StageIDs(stages) && dep != stages[i].id
  {
    assert Named(stages[..i], dep);
    var j :| 0 <= j < i && stages[..i][j].id == dep;
    assert StageIDs(stages)[j] == dep;
  }

  lemma DraftDescends(d: Descriptor, r: Request, to: Destination)
    ensures forall i | 0 <= i < |Draft(d, r, to).stages| :: Descends(Draft(d, r, to).stages[i])
  {
    var emitted, bound := Emitted(SortedClasses(r), to, WantsFailback(r)), Draft(d, r, to).stages;
    forall i | 0 <= i < |bound| ensures Descends(bound[i]) {
      EmittedDescends(SortedClasses(r), to, WantsFailback(r), emitted[i]);
    }
  }

  lemma DraftOrdered(d: Descriptor, r: Request, to: Destination)
    requires WantsFailback(r) ==> RequiresFailover(to)
    ensures Ordered(Draft(d, r, to).stages)
  {
    EmittedOrdered(SortedClasses(r), to, WantsFailback(r));
    BindingKeepsOrder(Emitted(SortedClasses(r), to, WantsFailback(r)), r.approvals, r.reconciliations);
  }

  /** Whatever the class names, the unknown-dependency, self-dependency and cycle checks pass on the compiler's draft. */
  lemma DraftGraphSound(d: Descriptor, r: Request, to: Destination)
    requires WantsFailback(r) ==> RequiresFailover(to)
    ensures Acyclic(StageGraph(Draft(d, r, to).stages))
    ensures forall i, dep | 0 <= i < |Draft(d, r, to).stages| && dep in Draft(d, r, to).stages[i].dependsOn ::
              dep in StageIDs(Draft(d, r, to).stages) && dep != Draft(d, r, to).stages[i].id
  {
    var bound := Draft(d, r, to).stages;
    DraftDescends(d, r, to);
    DraftOrdered(d, r, to);
    DescendingIsAcyclic(bound);
    forall i, dep | 0 <= i < |bound| && dep in bound[i].dependsOn ensures dep in StageIDs(bound) && dep != bound[i].id {
      KnownAndOther(bound, i, dep);
    }
  }

  // ---- when the stage IDs are distinct ---------------------------------------------------------

  function Suffixes(classes: seq<DataClass>): seq<string> {
    seq(|classes|, i requires 0 <= i < |classes| => StageSuffix(classes[i].name))
  }

  lemma SameTail(prefix: string, a: string, b: string)
    ensures prefix + a == prefix + b <==> a == b
  {
    assert (prefix + a)[|prefix|..] == a && (prefix + b)[|prefix|..] == b;
  }

  lemma NoRepeatsConcat(a: seq<string>, b: seq<string>, level: nat)
    requires (forall id | id in a :: Level(id) < level) && forall id | id in b :: level <= Level(id)
    ensures NoRepeats(a + b) <==> NoRepeats(a) && NoRepeats(b)
  {
    assert forall i | 0 <= i < |a| :: (a + b)[i] == a[i];
    assert forall i | 0 <= i < |b| :: (a + b)[|a| + i] == b[i];
    if NoRepeats(a) && NoRepeats(b) {
      forall i, j | 0 <= i < j < |a + b| ensures (a + b)[i] != (a + b)[j] {
        if i < |a| { assert a[i] in a; }
        if j >= |a| { assert b[j - |a|] in b; }
        if i >= |a| { assert b[i - |a|] != b[j - |a|]; }
      }
    }
  }

  function PairID(c: DataClass, restore: bool): string {
    if restore then RestoreID(c.name) else IntegrityID(c.name)
  }

  function Flatten<T>(pairs: seq<(T, T)>): (r: seq<T>)
    ensures |r| == 2 * |pairs|
  {
    if pairs == [] then [] else Flatten(pairs[..|pairs| - 1]) + [pairs[|pairs| - 1].0, pairs[|pairs| - 1].1]
  }

  lemma {:induction false} FlattenedAt<T>(pairs: seq<(T, T)>, i: nat)
    requires i < |pairs|
    ensures Flatten(pairs)[2 * i] == pairs[i].0 && Flatten(pairs)[2 * i + 1] == pairs[i].1
  {
    if i < |pairs| - 1 {
      FlattenedAt(pairs[..|pairs| - 1], i);
    }
  }

  function ClassPairs(classes: seq<DataClass>, to: Destination): seq<(Stage, Stage)> {
    seq(|classes|, i requires 0 <= i < |classes| => (RestoreStage(classes[i], to), IntegrityStage(classes[i], to)))
  }

  lemma {:induction false} ClassStagesFlatten(classes: seq<DataClass>, to: Destination)
    ensures ClassStages(classes, to) == Flatten(ClassPairs(classes, to))
  {
    if classes != [] {
      var n := |classes| - 1;
      ClassStagesFlatten(classes[..n], to);
      assert ClassPairs(classes, to)[..n] == ClassPairs(classes[..n], to);
    }
  }

  lemma ClassIDAt(classes: seq<DataClass>, to: Destination, i: nat, restore: bool)
    requires i < |classes|
    ensures |ClassStages(classes, to)| == 2 * |classes|
    ensures ClassStages(classes, to)[if restore then 2 * i else 2 * i + 1].id == PairID(classes[i], restore)
  {
    ClassStagesFlatten(classes, to);
    FlattenedAt(ClassPairs(classes, to), i);
  }

  /** The ID at position `k` of the class stages, and which class it comes from. */
  lemma ClassIDOf(classes: seq<DataClass>, to: Destination, k: nat)
    requires k < |ClassStages(classes, to)|
    ensures k / 2 < |classes| && StageIDs(ClassStages(classes, to))[k] == PairID(classes[k / 2], k % 2 == 0)
  {
    ClassStagesFlatten(classes, to);
    ClassIDAt(classes, to, k / 2, k % 2 == 0);
    assert k == if k % 2 == 0 then 2 * (k / 2) else 2 * (k / 2) + 1;
  }

  lemma ClassIDsDistinct(classes: seq<DataClass>, to: Destination)
    requires NoRepeats(Suffixes(classes))
    ensures NoRepeats(StageIDs(ClassStages(classes, to)))
  {
    var ids := StageIDs(ClassStages(classes, to));
    forall p, q | 0 <= p < q < |ids| ensures ids[p] != ids[q] {
      ClassIDOf(classes, to, p);
      ClassIDOf(classes, to, q);
      OneOfTwo(classes, p / 2, q / 2);
    }
  }

  lemma ClassIDsRepeat(classes: seq<DataClass>, to: Destination, i: nat, j: nat)
    requires i < j < |classes| && Suffixes(classes)[i] == Suffixes(classes)[j]
    ensures !NoRepeats(StageIDs(ClassStages(classes, to)))
  {
    ClassIDAt(classes, to, i, true);
    ClassIDAt(classes, to, j, true);
    assert StageIDs(ClassStages(classes, to))[2 * i] == StageIDs(ClassStages(classes, to))[2 * j];
  }

  lemma ClassIDsDistinctIff(classes: seq<DataClass>, to: Destination)
    ensures NoRepeats(StageIDs(ClassStages(classes, to))) <==> NoRepeats(Suffixes(classes))
  {
    if NoRepeats(Suffixes(classes)) {
      ClassIDsDistinct(classes, to);
    } else {
      var i, j :| 0 <= i < j < |classes| && Suffixes(classes)[i] == Suffixes(classes)[j];
      ClassIDsRepeat(classes, to, i, j);
    }
  }

  /** Equal restore or integrity IDs come from equal suffixes, and the two kinds never meet. */
  lemma OneOfTwo(classes: seq<DataClass>, i: nat, j: nat)
    requires i < |classes| && j < |classes| && NoRepeats(Suffixes(classes))
    ensures var a, b := classes[i].name, classes[j].name;
      && (RestoreID(a) == RestoreID(b) <==> i == j) && (IntegrityID(a) == IntegrityID(b) <==> i == j)
      && RestoreID(a) != IntegrityID(b) && IntegrityID(a) != RestoreID(b)
  {
    var a, b := classes[i].name, classes[j].name;
    ClassLevels(a);
    ClassLevels(b);
    SameTail("restore-", StageSuffix(a), StageSuffix(b));
    SameTail("integrity-", StageSuffix(a), StageSuffix(b));
    assert Suffixes(classes)[i] == StageSuffix(a) && Suffixes(classes)[j] == StageSuffix(b);
  }

  lemma {:induction false} BackupIDFrom(classes: seq<DataClass>, id: string) returns (i: nat)
    requires id in BackupIDs(classes)
    ensures i < |classes| && id == BackupID(classes[i].name)
  {
    var n := |classes| - 1;
    if id in BackupIDs(classes[..n]) {
      i := BackupIDFrom(classes[..n], id);
    } else {
      i := n;
    }
  }

  lemma BackupIDNew(classes: seq<DataClass>)
    requires classes != [] && NoRepeats(Suffixes(classes))
    ensures BackupID(classes[|classes| - 1].name) !in BackupIDs(classes[..|classes| - 1])
  {
    var n := |classes| - 1;
    forall id | id in BackupIDs(classes[..n]) ensures id != BackupID(classes[n].name) {
      var i := BackupIDFrom(classes[..n], id);
      SameTail("backup-", StageSuffix(classes[i].name), StageSuffix(classes[n].name));
      assert Suffixes(classes)[i] != Suffixes(classes)[n];
    }
  }

  lemma {:induction false} BackupIDsDistinct(classes: seq<DataClass>)
    requires NoRepeats(Suffixes(classes))
    ensures NoRepeats(BackupIDs(classes))
  {
    if classes != [] {
      var n := |classes| - 1;
      assert Suffixes(classes[..n]) == Suffixes(classes)[..n];
      BackupIDsDistinct(classes[..n]);
      BackupIDNew(classes);
    }
  }

  function RuntimeTail(classes: seq<DataClass>, to: Destination, failback: bool): seq<string> {
    StageIDs(FailoverStages(classes, to)) + StageIDs(FailbackStages(classes, to, failback)) + [CLEANUP_ID]
  }

  lemma RuntimeTailDistinct(classes: seq<DataClass>, to: Destination, failback: bool)
    ensures NoRepeats(RuntimeTail(classes, to, failback)) && forall id | id in RuntimeTail(classes, to, failback) :: Level(id) >= 4
  {
    RuntimeLevels();
    assert StageIDs(FailoverStages(classes, to)) == if RequiresFailover(to) then [FAILOVER_ID] else [];
    assert StageIDs(FailbackStages(classes, to, failback)) == if failback then [FAILBACK_ID] else [];
    NoRepeatsConcat(StageIDs(FailoverStages(classes, to)), StageIDs(FailbackStages(classes, to, failback)), 5);
    NoRepeatsConcat(StageIDs(FailoverStages(classes, to)) + StageIDs(FailbackStages(classes, to, failback)), [CLEANUP_ID], 6);
  }

  lemma ClassIDLevels(classes: seq<DataClass>, to: Destination)
    ensures forall id | id in StageIDs(ClassStages(classes, to)) :: 2 <= Level(id) < 4
  {
    var ids := StageIDs(ClassStages(classes, to));
    forall k | 0 <= k < |ids| ensures 2 <= Level(ids[k]) < 4 {
      ClassIDOf(classes, to, k);
      ClassLevels(classes[k / 2].name);
    }
  }

  lemma StageIDsConcat(a: seq<Stage>, b: seq<Stage>)
    ensures StageIDs(a + b) == StageIDs(a) + StageIDs(b)
  {
  }

  lemma IDsOfSix(a: seq<Stage>, b: seq<Stage>, c: seq<Stage>, d: seq<Stage>, e: seq<Stage>, f: seq<Stage>)
    ensures StageIDs(a + b + c + d + e + f)
            == StageIDs(a) + StageIDs(b) + StageIDs(c) + (StageIDs(d) + StageIDs(e) + StageIDs(f))
  {
    StageIDsConcat(a, b);
    StageIDsConcat(a + b, c);
    StageIDsConcat(a + b + c, d);
    StageIDsConcat(a + b + c + d, e);
    StageIDsConcat(a + b + c + d + e, f);
  }

  lemma EmittedIDs(classes: seq<DataClass>, to: Destination, failback: bool)
    ensures StageIDs(Emitted(classes, to, failback))
            == BackupIDs(classes) + StageIDs(FenceStages(classes, to)) + StageIDs(ClassStages(classes, to))
               + RuntimeTail(classes, to, failback)
  {
    BackupStageIDs(classes, to);
    var cleanup := CleanupStage(ClassNames(classes), to, FinalIDs(classes, to, failback));
    IDsOfSix(BackupStages(classes, to), FenceStages(classes, to), ClassStages(classes, to), FailoverStages(classes, to),
             FailbackStages(classes, to, failback), [cleanup]);
    assert StageIDs([cleanup]) == [CLEANUP_ID];
  }

  /** Four lists on rising levels repeat nothing together exactly when none does alone. */
  lemma LayersDistinctIff(a: seq<string>, b: seq<string>, c: seq<string>, d: seq<string>)
    requires (forall id | id in a :: Level(id) < 1) && (forall id | id in b :: Level(id) == 1)
    requires (forall id | id in c :: 2 <= Level(id) < 4) && forall id | id in d :: 4 <= Level(id)
    ensures NoRepeats(a + b + c + d) <==> NoRepeats(a) && NoRepeats(b) && NoRepeats(c) && NoRepeats(d)
  {
    NoRepeatsConcat(a, b, 1);
    NoRepeatsConcat(a + b, c, 2);
    NoRepeatsConcat(a + b + c, d, 4);
  }

  lemma FenceIDs(classes: seq<DataClass>, to: Destination)
    ensures NoRepeats(StageIDs(FenceStages(classes, to)))
    ensures forall id | id in StageIDs(FenceStages(classes, to)) :: Level(id) == 1
  {
    RuntimeLevels();
  }

  lemma EmittedIDsDistinctIff(classes: seq<DataClass>, to: Destination, failback: bool)
    ensures NoRepeats(StageIDs(Emitted(classes, to, failback))) <==> NoRepeats(Suffixes(classes))
  {
    EmittedIDs(classes, to, failback);
    BackupLevels(classes);
    FenceIDs(classes, to);
    ClassIDLevels(classes, to);
    RuntimeTailDistinct(classes, to, failback);
    LayersDistinctIff(BackupIDs(classes), StageIDs(FenceStages(classes, to)), StageIDs(ClassStages(classes, to)),
                      RuntimeTail(classes, to, failback));
    ClassIDsDistinctIff(classes, to);
    if NoRepeats(Suffixes(classes)) {
      BackupIDsDistinct(classes);
    }
  }

  /** The class names, lower-cased and hyphenated, stay apart. */
  predicate SuffixesApart(classes: seq<DataClass>) {
    forall a, b | a in classes && b in classes && a.name != b.name :: StageSuffix(a.name) != StageSuffix(b.name)
  }

  lemma NamesDecide(classes: seq<DataClass>, a: DataClass, b: DataClass)
    requires NoRepeats(ClassNames(classes)) && a in classes && b in classes && a.name == b.name
    ensures a == b
  {
    var i :| 0 <= i < |classes| && classes[i] == a;
    var j :| 0 <= j < |classes| && classes[j] == b;
    assert ClassNames(classes)[i] == ClassNames(classes)[j];
  }

  lemma NamesStayDistinct(classes: seq<DataClass>, sorted: seq<DataClass>, i: nat, j: nat)
    requires NoRepeats(ClassNames(classes)) && multiset(classes) == multiset(sorted) && i < j < |sorted|
    ensures sorted[i] in classes && sorted[j] in classes && sorted[i].name != sorted[j].name
  {
    assert forall k | 0 <= k < |classes| :: ClassNames(classes)[k] == classes[k].name;
    assert NoRepeats(classes);
    NoRepeatsForgetsOrder(classes, sorted);
    assert sorted[i] in multiset(sorted) && sorted[j] in multiset(sorted);
    if sorted[i].name == sorted[j].name { NamesDecide(classes, sorted[i], sorted[j]); }
  }

  lemma SuffixMeets(classes: seq<DataClass>, sorted: seq<DataClass>, a: DataClass, b: DataClass)
    requires multiset(classes) == multiset(sorted) && a in classes && b in classes && a.name != b.name
    requires StageSuffix(a.name) == StageSuffix(b.name)
    ensures !NoRepeats(Suffixes(sorted))
  {
    assert a in multiset(sorted) && b in multiset(sorted);
    var i :| 0 <= i < |sorted| && sorted[i] == a;
    var j :| 0 <= j < |sorted| && sorted[j] == b;
    assert Suffixes(sorted)[i] == Suffixes(sorted)[j];
  }

  lemma SuffixesApartIff(classes: seq<DataClass>, sorted: seq<DataClass>)
    requires NoRepeats(ClassNames(classes)) && multiset(classes) == multiset(sorted)
    ensures NoRepeats(Suffixes(sorted)) <==> SuffixesApart(classes)
  {
    if SuffixesApart(classes) {
      forall i, j | 0 <= i < j < |sorted| ensures Suffixes(sorted)[i] != Suffixes(sorted)[j] {
        NamesStayDistinct(classes, sorted, i, j);
      }
    } else {
      var a, b :| a in classes && b in classes && a.name != b.name && StageSuffix(a.name) == StageSuffix(b.name);
      SuffixMeets(classes, sorted, a, b);
    }
  }

  lemma DraftIDs(d: Descriptor, r: Request, to: Destination)
    ensures StageIDs(Draft(d, r, to).stages) == StageIDs(Emitted(SortedClasses(r), to, WantsFailback(r)))
  {
  }

  /** The draft's stage IDs are distinct exactly when no two class names share a stage suffix. */
  lemma DraftIDsDistinctIff(d: Descriptor, r: Request, to: Destination)
    requires NoRepeats(ClassNames(r.dataClasses))
    ensures NoRepeats(StageIDs(Draft(d, r, to).stages)) <==> SuffixesApart(r.dataClasses)
  {
    DraftIDs(d, r, to);
    EmittedIDsDistinctIff(SortedClasses(r), to, WantsFailback(r));
    SortKeeps(r.dataClasses, ByName);
    SuffixesApartIff(r.dataClasses, SortedClasses(r));
  }

  // ---- which names share a suffix --------------------------------------------------------------

  function Dashed(name: string): string {
    seq(|name|, i requires 0 <= i < |name| => if name[i] == '.' then '-' else name[i])
  }

  lemma TrimsNothing(s: string)
    requires s != "" && !IsSpace(s[0]) && !IsSpace(s[|s| - 1])
    ensures TrimSpace(s) == s
  {
  }

  /** Lower-case words joined by single separators, possibly cut off after one. */
  predicate Words(s: string) {
    && (forall i | 0 <= i < |s| :: LowerAlnum(s[i]) || s[i] == '.' || s[i] == '-')
    && (forall i | 0 <= i < |s| - 1 :: LowerAlnum(s[i]) || LowerAlnum(s[i + 1]))
  }

  lemma {:induction false} WordsHyphenate(s: string)
    requires Words(s)
    ensures Hyphenate(s) == Dashed(s)
  {
    if s != "" {
      var front := s[..|s| - 1];
      WordsHyphenate(front);
      assert Dashed(s) == Dashed(front) + [if s[|s| - 1] == '.' then '-' else s[|s| - 1]];
    }
  }

  /** The suffix of a stable class name is the name with its dots replaced by hyphens. */
  lemma StableSuffix(name: string)
    requires StableID(name)
    ensures StageSuffix(name) == Dashed(name)
  {
    TrimsNothing(name);
    WordsHyphenate(name);
    assert Dashed(name)[0] == name[0] && Dashed(name)[|name| - 1] == name[|name| - 1];
  }

  /** Stable class names share a stage suffix exactly when they differ at most in which separators they use. */
  lemma SuffixesMeetIff(a: string, b: string)
    requires StableID(a) && StableID(b)
    ensures StageSuffix(a) == StageSuffix(b)
       <==> |a| == |b| && forall i | 0 <= i < |a| :: a[i] == b[i] || {a[i], b[i]} == {'.', '-'}
  {
    StableSuffix(a);
    StableSuffix(b);
    if StageSuffix(a) == StageSuffix(b) {
      forall i | 0 <= i < |a| ensures a[i] == b[i] || {a[i], b[i]} == {'.', '-'} {
        assert Dashed(a)[i] == Dashed(b)[i];
      }
    }
    if |a| == |b| && forall i | 0 <= i < |a| :: a[i] == b[i] || {a[i], b[i]} == {'.', '-'} {
      forall i | 0 <= i < |a| ensures Dashed(a)[i] == Dashed(b)[i] {
        assert a[i] in {a[i], b[i]} && b[i] in {a[i], b[i]};
      }
    }
  }

  /** Two different class names that share a stage suffix. */
  lemma SuffixesCanMeet()
    ensures StableID("a.b") && StableID("a-b") && StageSuffix("a.b") == StageSuffix("a-b")
  {
    SuffixesMeetIff("a.b", "a-b");
  }

  /** A request whose class names share a suffix never compiles, although its own checks accept it. */
  lemma SharedSuffixIsRefused(d: Descriptor, r: Request)
    requires !SuffixesApart(r.dataClasses)
    ensures Compile(d, r).None?
  {
    if Accepts(d, r) {
      var p := Compile(d, r).value;
      CompiledIsOrdered(d, r, p);
      DraftIDsDistinctIff(d, r, Chosen(d, r).value);
    }
  }
}
