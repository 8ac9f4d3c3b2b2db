/** Coverage boundaries in fields: what a valid one contains, and what the list of differences says. */
module CoverageFields {
  import opened Ordering
  import opened Patterns
  import opened Text
  import opened CoverageTransition

  /** A version starts with a digit and goes on in letters, digits and `._+-`. */
  predicate VersionText(s: string) {
    && s != "" && s[0] in "0123456789"
    && forall c | c in s :: 'a' <= c <= 'z' || 'A' <= c <= 'Z' || '0' <= c <= '9' || c == '.' || c == '_' || c == '+' || c == '-'
  }

  /** A path starts with a lower-case letter and goes on in lower-case letters, digits and `._+:-`. */
  predicate PathText(s: string) {
    && s != "" && 'a' <= s[0] <= 'z'
    && forall c | c in s :: 'a' <= c <= 'z' || '0' <= c <= '9' || c == '.' || c == '_' || c == '+' || c == ':' || c == '-'
  }

  lemma TextsMean(s: string)
    ensures (Major(s) <==> VersionText(s)) && (PathID(s) <==> PathText(s))
  {
    assert forall i | 0 <= i < |s| :: s[i] in s;
    if s != "" { assert s[0] in "0123456789" <==> '0' <= s[0] <= '9' by { DigitsMean(s[0]); } }
  }

  lemma DigitsMean(c: char)
    ensures c in "0123456789" <==> '0' <= c <= '9'
  {
    var digits := "0123456789";
    if '0' <= c <= '9' { assert digits[c as int - '0' as int] == c; }
  }

  /** Distinct regions: as many as the set of them. */
  lemma {:induction false} DistinctMeans(rs: seq<string>)
    ensures NoRepeats(rs) <==> |set r | r in rs| == |rs|
    ensures |set r | r in rs| <= |rs|
  {
    if rs != [] {
      var front, last := rs[..|rs| - 1], rs[|rs| - 1];
      DistinctMeans(front);
      assert (set r | r in rs) == (set r | r in front) + {last};
      assert last in front ==> (set r | r in rs) == (set r | r in front);
      if NoRepeats(front) && last !in front {
        assert NoRepeats(rs);
      }
      if NoRepeats(rs) {
        assert last !in front;
        assert NoRepeats(front);
      }
    }
  }

  predicate RegionsSound(b: Boundary) {
    |b.regions| >= 1 && |set r | r in b.regions| == |b.regions| && forall r | r in b.regions :: StableID(r)
  }

  predicate MajorsSound(b: Boundary) {
    |b.serviceMajors| >= 1 && forall role | role in b.serviceMajors :: StableID(role) && VersionText(b.serviceMajors[role])
  }

  lemma CollectionsMean(b: Boundary)
    ensures RegionsSound(b) <==> b.regions != [] && (forall r | r in b.regions :: StableID(r)) && NoRepeats(b.regions)
    ensures MajorsSound(b)
       <==> b.serviceMajors != map[] && forall role | role in b.serviceMajors :: StableID(role) && Major(b.serviceMajors[role])
  {
    DistinctMeans(b.regions);
    forall role | role in b.serviceMajors ensures Major(b.serviceMajors[role]) <==> VersionText(b.serviceMajors[role]) {
      TextsMean(b.serviceMajors[role]);
    }
  }

  predicate PathsSound(b: Boundary) {
    PathText(b.observabilityDestination) && PathText(b.edgePath) && PathText(b.recoveryDestination)
  }

  lemma PathsMean(b: Boundary)
    ensures PathsSound(b) <==> PathID(b.observabilityDestination) && PathID(b.edgePath) && PathID(b.recoveryDestination)
  {
    TextsMean(b.observabilityDestination);
    TextsMean(b.edgePath);
    TextsMean(b.recoveryDestination);
  }

  /** The boundary validator in fields. */
  lemma BoundaryMeans(b: Boundary)
    ensures ValidBoundary(b) <==>
      && StableID(b.provider) && StableID(b.computeMode) && StableID(b.kubernetesTopology) && StableID(b.ownershipBoundary)
      && StableID(b.resilienceProfileID) && StableID(b.recoveryFixtureID)
      && (Blank(b.networkProfile) || StableID(b.networkProfile)) && PathsSound(b) && RegionsSound(b) && MajorsSound(b)
      && (b.ownershipBoundary == "managed" || b.ownershipBoundary == "self-hosted" || b.ownershipBoundary == "mixed"
          || b.ownershipBoundary == "existing" || b.ownershipBoundary == "external")
      && ImageReference(b.artifactDigest)
      && !Blank(b.schemaFingerprint) && SingleLine(b.schemaFingerprint)
      && !Blank(b.migrationFingerprint) && SingleLine(b.migrationFingerprint)
      && !Blank(b.ownershipMarker) && SingleLine(b.ownershipMarker)
      && (Blank(b.configurationFingerprint) || SingleLine(b.configurationFingerprint))
  {
    PathsMean(b);
    CollectionsMean(b);
  }

  function Position(d: Dimension): nat {
    match d
    case Majors => 0
    case ObservabilityTarget => 1
    case EdgeTarget => 2
    case RecoveryTarget => 3
    case Network => 4
    case Configuration => 5
  }

  /** The differences among the first `n` dimensions, once each and in order. */
  predicate Lists(a: Boundary, b: Boundary, found: seq<Dimension>, n: nat) {
    && (forall i, j | 0 <= i < j < |found| :: Position(found[i]) < Position(found[j]))
    && (forall d :: d in found <==> Position(d) < n && Differs(a, b, d))
  }

  lemma AddLists(found: seq<Dimension>, a: Boundary, b: Boundary, d: Dimension)
    requires Lists(a, b, found, Position(d))
    ensures Lists(a, b, Add(found, a, b, d), Position(d) + 1)
  {
    forall i | 0 <= i < |found| ensures Position(found[i]) < Position(d) { assert found[i] in found; }
    forall x ensures Position(x) == Position(d) <==> x == d {}
  }

  lemma DifferencesListed(a: Boundary, b: Boundary)
    ensures Lists(a, b, Differences(a, b), 6)
  {
    var one := Add([], a, b, Majors);
    var two := Add(one, a, b, ObservabilityTarget);
    var three := Add(two, a, b, EdgeTarget);
    var four := Add(three, a, b, RecoveryTarget);
    var five := Add(four, a, b, Network);
    AddLists([], a, b, Majors);
    AddLists(one, a, b, ObservabilityTarget);
    AddLists(two, a, b, EdgeTarget);
    AddLists(three, a, b, RecoveryTarget);
    AddLists(four, a, b, Network);
    AddLists(five, a, b, Configuration);
  }

  /** The differences are listed once each, in the order of the dimensions, and each exactly if its field differs. */
  lemma DifferencesMean(a: Boundary, b: Boundary)
    ensures forall i, j | 0 <= i < j < |Differences(a, b)| :: Position(Differences(a, b)[i]) < Position(Differences(a, b)[j])
    ensures Majors in Differences(a, b) <==> !SameStringMap(a.serviceMajors, b.serviceMajors)
    ensures ObservabilityTarget in Differences(a, b) <==> a.observabilityDestination != b.observabilityDestination
    ensures EdgeTarget in Differences(a, b) <==> a.edgePath != b.edgePath
    ensures RecoveryTarget in Differences(a, b) <==> a.recoveryDestination != b.recoveryDestination
    ensures Network in Differences(a, b) <==> a.networkProfile != b.networkProfile
    ensures Configuration in Differences(a, b) <==> a.configurationFingerprint != b.configurationFingerprint
  {
    DifferencesListed(a, b);
  }
}
