/** What the compiler's result depends on: not the order of its inputs, and a fixed choice of destination and proofs. */
module RecoveryChoice {
  import opened Optional
  import opened Text
  import opened Ordering
  import opened RecoveryPlan
  import opened RecoveryOrder

  // ---- destination -----------------------------------------------------------------------------

  predicate Eligible(to: Destination, requested: seq<Destination>, classes: seq<DataClass>, caps: map<string, Capability>) {
    to in requested && SupportedByAll(to, classes, caps)
  }

  lemma {:induction false} ChooseFrom(from: nat, requested: seq<Destination>, classes: seq<DataClass>, caps: map<string, Capability>)
    requires from <= 4
    ensures match ChooseDestination(from, requested, classes, caps)
            case None => forall k | from <= k < 4 :: !Eligible(PRIORITY[k], requested, classes, caps)
            case Some(to) => exists k :: from <= k < 4 && PRIORITY[k] == to && Eligible(to, requested, classes, caps)
                                         && forall j | from <= j < k :: !Eligible(PRIORITY[j], requested, classes, caps)
    decreases 4 - from
  {
    if from < 4 && !Eligible(PRIORITY[from], requested, classes, caps) {
      ChooseFrom(from + 1, requested, classes, caps);
    } else if from < 4 {
      assert PRIORITY[from] == ChooseDestination(from, requested, classes, caps).value;
    }
  }

  /** Requested, and in the capability row of every class. */
  predicate Serves(to: Destination, requested: seq<Destination>, classes: seq<DataClass>, caps: map<string, Capability>) {
    to in requested && forall c | c in classes :: c.name in caps && to in caps[c.name].destinations
  }

  /**
   * The chosen destination is another provider if that is requested and serves every class, else another region, else
   * an isolated one in the same region, else the same region; nothing is chosen exactly if none of the four serves.
   */
  lemma {:induction false} DestinationIsBest(requested: seq<Destination>, classes: seq<DataClass>, caps: map<string, Capability>)
    ensures CommonDestination(requested, classes, caps)
         == if Serves(AlternateProvider, requested, classes, caps) then Some(AlternateProvider)
            else if Serves(AlternateRegion, requested, classes, caps) then Some(AlternateRegion)
            else if Serves(SameRegionIsolated, requested, classes, caps) then Some(SameRegionIsolated)
            else if Serves(SameRegion, requested, classes, caps) then Some(SameRegion)
            else None
  {
    ChooseFrom(0, requested, classes, caps);
    assert PRIORITY[0] == AlternateProvider && PRIORITY[1] == AlternateRegion;
    assert PRIORITY[2] == SameRegionIsolated && PRIORITY[3] == SameRegion;
    forall k | 0 <= k < 4
      ensures Eligible(PRIORITY[k], requested, classes, caps) <==> Serves(PRIORITY[k], requested, classes, caps)
    {
    }
  }

  // ---- required proofs -------------------------------------------------------------------------

  /** The proofs a stage must leave behind, read off the stage alone. */
  function ProofsOf(s: Stage): set<string> {
    match s.action
    case Backup => set c | c in s.dataClasses :: "backup:" + c
    case Restore => set c | c in s.dataClasses :: "restore:" + c
    case IntegrityCheck => set c | c in s.dataClasses :: "integrity:" + c
    case Fence => {"fencing", "single-writer", "split-brain"}
    case Failover => {"failover", "single-writer", "split-brain", "stale-origin"}
    case Failback => {"failback", "reconciliation", "single-writer", "split-brain", "stale-origin"}
    case Cleanup => {"cleanup"}
    case _ => {}
  }

  function ProofsOfAll(stages: seq<Stage>): set<string> {
    if stages == [] then {} else ProofsOfAll(stages[..|stages| - 1]) + ProofsOf(stages[|stages| - 1])
  }

  function Elements(s: seq<string>): set<string> {
    set x | x in s
  }

  lemma {:induction false} ProofsOfConcat(a: seq<Stage>, b: seq<Stage>)
    ensures ProofsOfAll(a + b) == ProofsOfAll(a) + ProofsOfAll(b)
  {
    if b == [] {
      assert a + b == a;
    } else {
      assert (a + b)[..|a + b| - 1] == a + b[..|b| - 1];
      ProofsOfConcat(a, b[..|b| - 1]);
    }
  }

  lemma OneClassProof(prefix: string, name: string)
    ensures (set c | c in [name] :: prefix + c) == {prefix + name}
  {
    assert name in [name];
  }

  lemma {:induction false} BackupProofsMatch(classes: seq<DataClass>, to: Destination)
    ensures ProofsOfAll(BackupStages(classes, to)) == Elements(BackupProofs(classes))
  {
    if classes != [] {
      var front, c := classes[..|classes| - 1], classes[|classes| - 1];
      BackupProofsMatch(front, to);
      OneClassProof("backup:", c.name);
      assert ProofsOf(BackupStage(c, to)) == {"backup:" + c.name};
      if !RebuildOnly(c.backupMethod) {
        assert BackupStages(classes, to)[..|BackupStages(classes, to)| - 1] == BackupStages(front, to);
      } else {
        assert BackupStages(classes, to) == BackupStages(front, to);
      }
    }
  }

  lemma {:induction false} ClassProofsMatch(classes: seq<DataClass>, to: Destination)
    ensures ProofsOfAll(ClassStages(classes, to)) == Elements(ClassProofs(classes))
  {
    if classes != [] {
      var front, c := classes[..|classes| - 1], classes[|classes| - 1];
      ClassProofsMatch(front, to);
      OneClassProof("restore:", c.name);
      OneClassProof("integrity:", c.name);
      var two := [RestoreStage(c, to), IntegrityStage(c, to)];
      ProofsOfConcat(ClassStages(front, to), two);
      assert two[..1] == [RestoreStage(c, to)] && two[..1][..0] == [];
      assert ProofsOfAll(two[..1]) == ProofsOfAll([]) + ProofsOf(two[0]);
      assert ProofsOfAll(two) == {"restore:" + c.name, "integrity:" + c.name};
    }
  }

  lemma SingleStageProofs(s: Stage)
    ensures ProofsOfAll([s]) == ProofsOf(s)
  {
    assert [s][..0] == [];
  }

  lemma SixParts(s1: seq<Stage>, s2: seq<Stage>, s3: seq<Stage>, s4: seq<Stage>, s5: seq<Stage>, s6: seq<Stage>)
    ensures ProofsOfAll(s1 + s2 + s3 + s4 + s5 + s6)
         == ProofsOfAll(s1) + ProofsOfAll(s2) + ProofsOfAll(s3) + ProofsOfAll(s4) + ProofsOfAll(s5) + ProofsOfAll(s6)
  {
    ProofsOfConcat(s1, s2);
    ProofsOfConcat(s1 + s2, s3);
    ProofsOfConcat(s1 + s2 + s3, s4);
    ProofsOfConcat(s1 + s2 + s3 + s4, s5);
    ProofsOfConcat(s1 + s2 + s3 + s4 + s5, s6);
  }

  lemma SixLists(p1: seq<string>, p2: seq<string>, p3: seq<string>, p4: seq<string>, p5: seq<string>, p6: seq<string>)
    ensures Elements(p1 + p2 + p3 + p4 + p5 + p6)
         == Elements(p1) + Elements(p2) + Elements(p3) + Elements(p4) + Elements(p5) + Elements(p6)
  {
  }

  lemma FenceProofsMatch(classes: seq<DataClass>, to: Destination)
    ensures ProofsOfAll(FenceStages(classes, to)) == Elements(FenceProofs(to))
  {
    if RequiresFence(to) { SingleStageProofs(FenceStages(classes, to)[0]); }
  }

  lemma FailoverProofsMatch(classes: seq<DataClass>, to: Destination)
    ensures ProofsOfAll(FailoverStages(classes, to)) == Elements(FailoverProofs(to))
  {
    if RequiresFailover(to) { SingleStageProofs(FailoverStages(classes, to)[0]); }
  }

  lemma FailbackProofsMatch(classes: seq<DataClass>, to: Destination, failback: bool)
    ensures ProofsOfAll(FailbackStages(classes, to, failback)) == Elements(FailbackProofs(failback))
  {
    if failback { SingleStageProofs(FailbackStages(classes, to, failback)[0]); }
  }

  lemma CleanupProofsMatch(classes: seq<DataClass>, to: Destination, finals: seq<string>)
    ensures ProofsOfAll([CleanupStage(ClassNames(classes), to, finals)]) == Elements(["cleanup"])
  {
    SingleStageProofs(CleanupStage(ClassNames(classes), to, finals));
  }

  lemma EmittedProofsMatch(classes: seq<DataClass>, to: Destination, failback: bool)
    ensures ProofsOfAll(Emitted(classes, to, failback)) == Elements(EmittedProofs(classes, to, failback))
  {
    var finals := FinalIDs(classes, to, failback);
    BackupProofsMatch(classes, to);
    ClassProofsMatch(classes, to);
    FenceProofsMatch(classes, to);
    FailoverProofsMatch(classes, to);
    FailbackProofsMatch(classes, to, failback);
    CleanupProofsMatch(classes, to, finals);
    SixParts(BackupStages(classes, to), FenceStages(classes, to), ClassStages(classes, to), FailoverStages(classes, to),
             FailbackStages(classes, to, failback), [CleanupStage(ClassNames(classes), to, finals)]);
    SixLists(BackupProofs(classes), FenceProofs(to), ClassProofs(classes), FailoverProofs(to), FailbackProofs(failback),
             ["cleanup"]);
  }

  lemma {:induction false} BindingKeepsProofs(stages: seq<Stage>, bound: seq<Stage>)
    requires |bound| == |stages| && forall i | 0 <= i < |stages| :: SameShape(stages[i], bound[i])
    ensures ProofsOfAll(bound) == ProofsOfAll(stages)
  {
    if stages != [] {
      BindingKeepsProofs(stages[..|stages| - 1], bound[..|bound| - 1]);
    }
  }

  lemma {:induction false} UniqueNonBlankFacts(values: seq<string>)
    ensures NoRepeats(UniqueNonBlank(values))
    ensures forall x :: x in UniqueNonBlank(values) <==> x in values && !Blank(x)
  {
    if values != [] {
      var front, last := values[..|values| - 1], values[|values| - 1];
      UniqueNonBlankFacts(front);
      assert values == front + [last];
    }
  }

  predicate StrictlySorted(s: seq<string>) {
    forall i, j | 0 <= i < j < |s| :: StrLt(s[i], s[j])
  }

  lemma UniqueStringsFacts(values: seq<string>)
    ensures StrictlySorted(UniqueStrings(values))
    ensures forall x :: x in UniqueStrings(values) <==> x in values && !Blank(x)
  {
    var unique := UniqueNonBlank(values);
    UniqueNonBlankFacts(values);
    StrLeIsRanking();
    SortSorts(unique, StrLe);
    SortKeeps(unique, StrLe);
    NoRepeatsForgetsOrder(unique, Sort(unique, StrLe));
    forall x ensures x in Sort(unique, StrLe) <==> x in unique { SortMembers(unique, StrLe, x); }
  }

  lemma {:induction false} ClassProofsNotBlank(classes: seq<DataClass>)
    ensures forall x | x in BackupProofs(classes) || x in ClassProofs(classes) :: !Blank(x)
  {
    if classes != [] {
      ClassProofsNotBlank(classes[..|classes| - 1]);
      var name := classes[|classes| - 1].name;
      assert ("backup:" + name)[0] == 'b' && ("restore:" + name)[0] == 'r' && ("integrity:" + name)[0] == 'i';
      assert !Blank("backup:" + name) && !Blank("restore:" + name) && !Blank("integrity:" + name);
    }
  }

  lemma RuntimeProofsNotBlank()
    ensures forall x | x in ["fencing", "single-writer", "split-brain", "failover", "stale-origin", "failback", "reconciliation", "cleanup"] ::
              !Blank(x)
  {
    forall x | x in ["fencing", "single-writer", "split-brain", "failover", "stale-origin", "failback", "reconciliation", "cleanup"]
      ensures !Blank(x)
    {
      assert !IsSpace(x[0]);
    }
  }

  lemma EmittedProofsNotBlank(classes: seq<DataClass>, to: Destination, failback: bool)
    ensures forall x | x in EmittedProofs(classes, to, failback) :: !Blank(x)
  {
    ClassProofsNotBlank(classes);
    RuntimeProofsNotBlank();
  }

  lemma ProofsExact(classes: seq<DataClass>, to: Destination, failback: bool)
    ensures StrictlySorted(UniqueStrings(EmittedProofs(classes, to, failback)))
    ensures Elements(UniqueStrings(EmittedProofs(classes, to, failback))) == ProofsOfAll(Emitted(classes, to, failback))
  {
    UniqueStringsFacts(EmittedProofs(classes, to, failback));
    EmittedProofsNotBlank(classes, to, failback);
    EmittedProofsMatch(classes, to, failback);
  }

  lemma CompiledParts(d: Descriptor, r: Request, p: Plan)
    requires Compile(d, r) == Some(p)
    ensures var classes, to, failback := SortedClasses(r), Chosen(d, r).value, WantsFailback(r);
            && p.stages == BoundStages(Emitted(classes, to, failback), r.approvals, r.reconciliations)
            && p.requiredProofs == UniqueStrings(EmittedProofs(classes, to, failback))
  {
  }

  lemma DraftProofsExact(p: Plan, classes: seq<DataClass>, to: Destination, failback: bool,
                         approvals: map<string, string>, reconciliations: map<string, string>)
    requires p.stages == BoundStages(Emitted(classes, to, failback), approvals, reconciliations)
    requires p.requiredProofs == UniqueStrings(EmittedProofs(classes, to, failback))
    ensures StrictlySorted(p.requiredProofs) && Elements(p.requiredProofs) == ProofsOfAll(p.stages)
  {
    ProofsExact(classes, to, failback);
    BindingKeepsProofs(Emitted(classes, to, failback), p.stages);
  }

  /** The plan's proof list is strictly sorted and holds exactly the proofs of its stages. */
  lemma RequiredProofsExact(d: Descriptor, r: Request, p: Plan)
    requires Compile(d, r) == Some(p)
    ensures StrictlySorted(p.requiredProofs) && Elements(p.requiredProofs) == ProofsOfAll(p.stages)
  {
    CompiledParts(d, r, p);
    DraftProofsExact(p, SortedClasses(r), Chosen(d, r).value, WantsFailback(r), r.approvals, r.reconciliations);
  }

  // ---- order of the inputs ---------------------------------------------------------------------

  /** The same request with its data classes and destinations listed in another order. */
  ghost predicate SameRequest(r: Request, r': Request) {
    && r' == r.(dataClasses := r'.dataClasses, destinations := r'.destinations)
    && multiset(r.dataClasses) == multiset(r'.dataClasses) && multiset(r.destinations) == multiset(r'.destinations)
  }

  /** The same capability row with its actions and destinations listed in another order. */
  ghost predicate SameRow(c: Capability, c': Capability) {
    && c' == c.(actions := c'.actions, destinations := c'.destinations)
    && multiset(c.actions) == multiset(c'.actions) && multiset(c.destinations) == multiset(c'.destinations)
  }

  ghost predicate SameRows(cs: seq<Capability>, cs': seq<Capability>) {
    |cs| == |cs'| && forall i | 0 <= i < |cs| :: SameRow(cs[i], cs'[i])
  }

  /** The same adapter with its capabilities, its rows, and each row's actions and destinations listed in another order. */
  ghost predicate SameAdapter(d: Descriptor, d': Descriptor) {
    exists rows :: SameDescriptor(d, d'.(dataClasses := rows)) && SameRows(rows, d'.dataClasses)
  }

  /** The same adapter with its capabilities and capability rows listed in another order. */
  ghost predicate SameDescriptor(d: Descriptor, d': Descriptor) {
    && d' == d.(capabilities := d'.capabilities, dataClasses := d'.dataClasses)
    && multiset(d.capabilities) == multiset(d'.capabilities) && multiset(d.dataClasses) == multiset(d'.dataClasses)
  }

  lemma SameMembers<T>(s: seq<T>, t: seq<T>)
    requires multiset(s) == multiset(t)
    ensures forall x :: x in s <==> x in t
    ensures s == [] <==> t == []
  {
    forall x ensures x in s <==> x in t {
      assert x in s <==> x in multiset(s);
      assert x in t <==> x in multiset(t);
    }
    assert |multiset(s)| == |s| && |multiset(t)| == |t|;
  }

  lemma CapabilityNamesDistinct(cs: seq<Capability>)
    ensures NoRepeats(CapabilityNames(cs))
       <==> NoRepeats(cs) && forall a, b | a in cs && b in cs && a.name == b.name :: a == b
  {
    if NoRepeats(CapabilityNames(cs)) {
      assert forall i | 0 <= i < |cs| :: CapabilityNames(cs)[i] == cs[i].name;
      forall i, j | 0 <= i < j < |cs| ensures cs[i].name != cs[j].name {
        assert CapabilityNames(cs)[i] != CapabilityNames(cs)[j];
      }
    }
  }

  lemma ClassNamesDistinct(cs: seq<DataClass>)
    ensures NoRepeats(ClassNames(cs))
       <==> NoRepeats(cs) && forall a, b | a in cs && b in cs && a.name == b.name :: a == b
  {
    if NoRepeats(ClassNames(cs)) {
      forall i, j | 0 <= i < j < |cs| ensures cs[i].name != cs[j].name {
        assert ClassNames(cs)[i] != ClassNames(cs)[j];
      }
    }
  }

  lemma {:induction false} CapabilityMapFacts(cs: seq<Capability>)
    ensures forall n | n in CapabilityMap(cs) :: CapabilityMap(cs)[n] in cs && CapabilityMap(cs)[n].name == n
    ensures forall c | c in cs :: c.name in CapabilityMap(cs)
  {
    if cs != [] {
      assert cs == cs[..|cs| - 1] + [cs[|cs| - 1]];
      CapabilityMapFacts(cs[..|cs| - 1]);
    }
  }

  lemma DescriptorForgetsOrder(d: Descriptor, d': Descriptor)
    requires SameDescriptor(d, d') && ValidDescriptor(d)
    ensures ValidDescriptor(d')
    ensures CapabilityMap(d.dataClasses) == CapabilityMap(d'.dataClasses)
    ensures forall a :: a in d.capabilities <==> a in d'.capabilities
  {
    SameMembers(d.capabilities, d'.capabilities);
    SameMembers(d.dataClasses, d'.dataClasses);
    NoRepeatsForgetsOrder(d.capabilities, d'.capabilities);
    CapabilityNamesDistinct(d.dataClasses);
    CapabilityNamesDistinct(d'.dataClasses);
    NoRepeatsForgetsOrder(d.dataClasses, d'.dataClasses);
    MapForgetsOrder(d.dataClasses, d'.dataClasses);
  }

  lemma MapForgetsOrder(cs: seq<Capability>, cs': seq<Capability>)
    requires forall c :: c in cs <==> c in cs'
    requires forall a, b | a in cs && b in cs && a.name == b.name :: a == b
    ensures CapabilityMap(cs) == CapabilityMap(cs')
  {
    CapabilityMapFacts(cs);
    CapabilityMapFacts(cs');
    var m, m' := CapabilityMap(cs), CapabilityMap(cs');
    forall n ensures n in m <==> n in m' {
      if n in m { assert m[n] in cs'; }
      if n in m' { assert m'[n] in cs; }
    }
    forall n | n in m ensures m[n] == m'[n] {
      assert m[n] in cs && m'[n] in cs;
    }
  }

  lemma RequestForgetsOrder(r: Request, r': Request)
    requires SameRequest(r, r') && ValidRequest(r)
    ensures ValidRequest(r') && SortedClasses(r) == SortedClasses(r')
    ensures forall t :: t in r.destinations <==> t in r'.destinations
    ensures forall n :: n in ClassNames(r.dataClasses) <==> n in ClassNames(r'.dataClasses)
  {
    SameMembers(r.destinations, r'.destinations);
    SameMembers(r.dataClasses, r'.dataClasses);
    NoRepeatsForgetsOrder(r.destinations, r'.destinations);
    ClassNamesDistinct(r.dataClasses);
    ClassNamesDistinct(r'.dataClasses);
    NoRepeatsForgetsOrder(r.dataClasses, r'.dataClasses);
    ByNameSorts(r.dataClasses, r'.dataClasses);
    SameNames(r.dataClasses, r'.dataClasses);
  }

  lemma SameNames(cs: seq<DataClass>, cs': seq<DataClass>)
    requires forall c :: c in cs <==> c in cs'
    ensures forall n :: n in ClassNames(cs) <==> n in ClassNames(cs')
  {
    forall n ensures n in ClassNames(cs) <==> exists c :: c in cs && c.name == n { NameMember(cs, n); }
    forall n ensures n in ClassNames(cs') <==> exists c :: c in cs' && c.name == n { NameMember(cs', n); }
  }

  lemma NameMember(cs: seq<DataClass>, n: string)
    ensures n in ClassNames(cs) <==> exists c :: c in cs && c.name == n
  {
    if n in ClassNames(cs) {
      var i :| 0 <= i < |cs| && ClassNames(cs)[i] == n;
      assert cs[i] in cs;
    }
    if c :| c in cs && c.name == n {
      var i :| 0 <= i < |cs| && cs[i] == c;
      assert ClassNames(cs)[i] == n;
    }
  }

  lemma ByNameSorts(cs: seq<DataClass>, cs': seq<DataClass>)
    requires multiset(cs) == multiset(cs')
    requires forall a, b | a in cs && b in cs && a.name == b.name :: a == b
    ensures Sort(cs, ByName) == Sort(cs', ByName)
  {
    StrLeIsRanking();
    assert Ranking(ByName);
    forall i, j | 0 <= i < |cs| && 0 <= j < |cs| && ByName(cs[i], cs[j]) && ByName(cs[j], cs[i]) ensures cs[i] == cs[j] {
      StrAntisymmetric(cs[i].name, cs[j].name);
    }
    SortForgetsOrder(cs, cs', ByName);
  }

  lemma {:induction false} DestinationForgetsOrder(from: nat, a: seq<Destination>, b: seq<Destination>, classes: seq<DataClass>, caps: map<string, Capability>)
    requires from <= 4 && forall t :: t in a <==> t in b
    ensures ChooseDestination(from, a, classes, caps) == ChooseDestination(from, b, classes, caps)
    decreases 4 - from
  {
    if from < 4 { DestinationForgetsOrder(from + 1, a, b, classes, caps); }
  }

  lemma PlanValidityForgetsOrder(p: Plan, known: seq<DataClass>, known': seq<DataClass>)
    requires forall n :: n in ClassNames(known) <==> n in ClassNames(known')
    requires ValidPlan(p, known)
    ensures ValidPlan(p, known')
  {
    forall s | s in p.stages ensures ValidStage(s, known') {
      assert ValidStage(s, known);
    }
  }

  lemma AcceptanceForgetsOrder(d: Descriptor, r: Request, d': Descriptor, r': Request)
    requires SameDescriptor(d, d') && SameRequest(r, r') && Accepts(d, r)
    ensures Accepts(d', r') && Compile(d', r') == Compile(d, r)
  {
    DescriptorForgetsOrder(d, d');
    RequestForgetsOrder(r, r');
    DestinationForgetsOrder(0, r.destinations, r'.destinations, SortedClasses(r), CapabilityMap(d.dataClasses));
    var to := Chosen(d, r).value;
    assert Chosen(d', r') == Some(to);
    assert Draft(d', r', to) == Draft(d, r, to);
    PlanValidityForgetsOrder(Draft(d, r, to), r.dataClasses, r'.dataClasses);
  }

  lemma RowsReordered(d: Descriptor, r: Request, d': Descriptor, r': Request)
    requires SameDescriptor(d, d') && SameRequest(r, r')
    ensures Compile(d, r) == Compile(d', r')
  {
    if Accepts(d, r) {
      AcceptanceForgetsOrder(d, r, d', r');
    } else if Accepts(d', r') {
      AcceptanceForgetsOrder(d', r', d, r);
    }
  }

  // ---- order inside a capability row -----------------------------------------------------------

  lemma RowForgetsOrder(c: Capability, c': Capability)
    requires SameRow(c, c') && ValidCapability(c)
    ensures ValidCapability(c')
    ensures (forall a :: a in c.actions <==> a in c'.actions) && forall t :: t in c.destinations <==> t in c'.destinations
  {
    SameMembers(c.actions, c'.actions);
    SameMembers(c.destinations, c'.destinations);
    NoRepeatsForgetsOrder(c.actions, c'.actions);
    NoRepeatsForgetsOrder(c.destinations, c'.destinations);
    forall i | 0 <= i < |c'.actions| ensures ValidAction(c'.actions[i]) { assert c'.actions[i] in c.actions; }
    forall i | 0 <= i < |c'.destinations| ensures ValidDestination(c'.destinations[i]) {
      assert c'.destinations[i] in c.destinations;
    }
  }

  ghost predicate SameCaps(m: map<string, Capability>, m': map<string, Capability>) {
    (forall n :: n in m <==> n in m') && forall n | n in m :: SameRow(m[n], m'[n])
  }

  lemma {:induction false} MapOfRows(cs: seq<Capability>, cs': seq<Capability>)
    requires SameRows(cs, cs')
    ensures SameCaps(CapabilityMap(cs), CapabilityMap(cs'))
  {
    if cs != [] {
      MapOfRows(cs[..|cs| - 1], cs'[..|cs| - 1]);
      assert SameRow(cs[|cs| - 1], cs'[|cs| - 1]);
    }
  }

  lemma RowsForgetOrder(d: Descriptor, d': Descriptor)
    requires SameRows(d.dataClasses, d'.dataClasses) && d' == d.(dataClasses := d'.dataClasses) && ValidDescriptor(d)
    ensures ValidDescriptor(d')
  {
    forall c | c in d'.dataClasses ensures ValidCapability(c) {
      var i :| 0 <= i < |d'.dataClasses| && d'.dataClasses[i] == c;
      assert ValidCapability(d.dataClasses[i]) && SameRow(d.dataClasses[i], c);
      RowForgetsOrder(d.dataClasses[i], c);
    }
    forall i | 0 <= i < |d.dataClasses| ensures CapabilityNames(d.dataClasses)[i] == CapabilityNames(d'.dataClasses)[i] {
      assert SameRow(d.dataClasses[i], d'.dataClasses[i]);
    }
    assert CapabilityNames(d.dataClasses) == CapabilityNames(d'.dataClasses);
  }

  /** What the compiler asks of a capability map, row order inside the rows aside. */
  lemma CapsForgetOrder(m: map<string, Capability>, m': map<string, Capability>)
    requires SameCaps(m, m')
    ensures forall c :: ClassUsable(m, c) <==> ClassUsable(m', c)
    ensures forall t, classes :: SupportedByAll(t, classes, m) <==> SupportedByAll(t, classes, m')
    ensures forall d, n, a :: HasAction(d, m, n, a) <==> HasAction(d, m', n, a)
  {
    forall n | n in m ensures (forall a :: a in m[n].actions <==> a in m'[n].actions)
                              && (forall t :: t in m[n].destinations <==> t in m'[n].destinations)
                              && m[n].status == m'[n].status
    {
      assert SameRow(m[n], m'[n]);
      SameMembers(m[n].actions, m'[n].actions);
      SameMembers(m[n].destinations, m'[n].destinations);
    }
  }

  lemma {:induction false} ChoiceForgetsOrder(from: nat, requested: seq<Destination>, classes: seq<DataClass>,
                                              m: map<string, Capability>, m': map<string, Capability>)
    requires from <= 4 && forall t :: SupportedByAll(t, classes, m) <==> SupportedByAll(t, classes, m')
    ensures ChooseDestination(from, requested, classes, m) == ChooseDestination(from, requested, classes, m')
    decreases 4 - from
  {
    if from < 4 { ChoiceForgetsOrder(from + 1, requested, classes, m, m'); }
  }

  lemma ActionsForgetOrder(d: Descriptor, d': Descriptor, m: map<string, Capability>, m': map<string, Capability>,
                           classes: seq<DataClass>, to: Destination, failback: bool)
    requires d.capabilities == d'.capabilities && forall n, a :: HasAction(d, m, n, a) <==> HasAction(d', m', n, a)
    ensures ActionsAvailable(d, m, classes, to, failback) <==> ActionsAvailable(d', m', classes, to, failback)
  {
  }

  lemma InsideRowsAccepted(d: Descriptor, d': Descriptor, r: Request)
    requires SameRows(d.dataClasses, d'.dataClasses) && d' == d.(dataClasses := d'.dataClasses) && Accepts(d, r)
    ensures Accepts(d', r) && Compile(d', r) == Compile(d, r)
  {
    var m, m', classes := CapabilityMap(d.dataClasses), CapabilityMap(d'.dataClasses), SortedClasses(r);
    var to := Chosen(d, r).value;
    RowsForgetOrder(d, d');
    MapOfRows(d.dataClasses, d'.dataClasses);
    CapsForgetOrder(m, m');
    ChoiceForgetsOrder(0, r.destinations, classes, m, m');
    assert forall n, a :: HasAction(d, m, n, a) <==> HasAction(d', m', n, a);
    ActionsForgetOrder(d, d', m, m', classes, to, WantsFailback(r));
    assert Draft(d', r, to) == Draft(d, r, to);
  }

  lemma SameRowsBack(cs: seq<Capability>, cs': seq<Capability>)
    requires SameRows(cs, cs')
    ensures SameRows(cs', cs)
  {
    forall i | 0 <= i < |cs'| ensures SameRow(cs'[i], cs[i]) { assert SameRow(cs[i], cs'[i]); }
  }

  lemma InsideRowsReordered(d: Descriptor, d': Descriptor, r: Request)
    requires SameRows(d.dataClasses, d'.dataClasses) && d' == d.(dataClasses := d'.dataClasses)
    ensures Compile(d, r) == Compile(d', r)
  {
    SameRowsBack(d.dataClasses, d'.dataClasses);
    if Accepts(d, r) {
      InsideRowsAccepted(d, d', r);
    } else if Accepts(d', r) {
      InsideRowsAccepted(d', d, r);
    }
  }

  /** Order-insensitivity: reordering the inputs changes neither success nor the plan. */
  lemma CompileForgetsOrder(d: Descriptor, r: Request, d': Descriptor, r': Request)
    requires SameAdapter(d, d') && SameRequest(r, r')
    ensures Compile(d, r) == Compile(d', r')
  {
    var rows :| SameDescriptor(d, d'.(dataClasses := rows)) && SameRows(rows, d'.dataClasses);
    RowsReordered(d, r, d'.(dataClasses := rows), r');
    InsideRowsReordered(d'.(dataClasses := rows), d', r');
  }
}
