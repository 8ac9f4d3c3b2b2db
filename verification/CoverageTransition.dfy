/** Cold and warm coverage boundaries: which transitions from a retained baseline are admitted. */
module CoverageTransition {
  import opened Ordering
  import opened Patterns
  import opened Text

  datatype Boundary = Boundary(
    provider: string, regions: seq<string>, computeMode: string, kubernetesTopology: string, networkProfile: string,
    ownershipBoundary: string, serviceMajors: map<string, string>, resilienceProfileID: string,
    observabilityDestination: string, edgePath: string, artifactDigest: string, schemaFingerprint: string,
    migrationFingerprint: string, recoveryFixtureID: string, recoveryDestination: string, ownershipMarker: string,
    configurationFingerprint: string)

  datatype Kind = ServiceMajor | Restore | Observability | Edge | NoChange | Unnamed | Unsupported | OtherKind(text: string)

  datatype Dimension = Majors | ObservabilityTarget | EdgeTarget | RecoveryTarget | Network | Configuration

  // ---- validation --------------------------------------------------------------------------------

  predicate Major(s: string) {
    && s != "" && '0' <= s[0] <= '9'
    && forall i | 0 <= i < |s| :: LowerAlnum(s[i]) || 'A' <= s[i] <= 'Z' || s[i] in "._+-"
  }

  predicate PathID(s: string) {
    && s != "" && 'a' <= s[0] <= 'z'
    && forall i | 0 <= i < |s| :: LowerAlnum(s[i]) || s[i] in "._+:-"
  }

  predicate ValidBoundary(b: Boundary) {
    && StableID(b.provider) && StableID(b.computeMode) && StableID(b.kubernetesTopology)
    && StableID(b.ownershipBoundary) && StableID(b.resilienceProfileID) && StableID(b.recoveryFixtureID)
    && (!Blank(b.networkProfile) ==> StableID(b.networkProfile))
    && PathID(b.observabilityDestination) && PathID(b.edgePath) && PathID(b.recoveryDestination)
    && b.regions != [] && (forall r | r in b.regions :: StableID(r)) && NoRepeats(b.regions)
    && b.ownershipBoundary in {"managed", "self-hosted", "mixed", "existing", "external"}
    && b.serviceMajors != map[] && (forall role | role in b.serviceMajors :: StableID(role) && Major(b.serviceMajors[role]))
    && ImageReference(b.artifactDigest)
    && RequiredLine(b.schemaFingerprint) && RequiredLine(b.migrationFingerprint) && RequiredLine(b.ownershipMarker)
    && (!Blank(b.configurationFingerprint) ==> SingleLine(b.configurationFingerprint))
  }

  // ---- comparing string lists through a joined string --------------------------------------------

  predicate NulFree(s: string) {
    forall i | 0 <= i < |s| :: s[i] != '\0'
  }

  function Join(parts: seq<string>): string {
    if parts == [] then "" else if |parts| == 1 then parts[0] else parts[0] + ['\0'] + Join(parts[1..])
  }

  /** The text before the first separator. */
  function Head(s: string): string {
    if s == "" || s[0] == '\0' then "" else [s[0]] + Head(s[1..])
  }

  lemma {:induction false} HeadOfPart(part: string, rest: string)
    requires NulFree(part) && (rest == "" || rest[0] == '\0')
    ensures Head(part + rest) == part
  {
    if part == "" {
      assert part + rest == rest;
    } else {
      assert (part + rest)[1..] == part[1..] + rest;
      HeadOfPart(part[1..], rest);
    }
  }

  lemma HeadOfJoin(parts: seq<string>)
    requires parts != [] && forall p | p in parts :: NulFree(p)
    ensures Head(Join(parts)) == parts[0]
    ensures |parts| == 1 ==> Join(parts) == parts[0]
    ensures |parts| > 1 ==> Join(parts) == parts[0] + ['\0'] + Join(parts[1..])
  {
    if |parts| == 1 {
      HeadOfPart(parts[0], "");
      assert parts[0] + "" == parts[0];
    } else {
      HeadOfPart(parts[0], ['\0'] + Join(parts[1..]));
      assert parts[0] + (['\0'] + Join(parts[1..])) == Join(parts);
    }
  }

  lemma SameTail(part: string, a: string, b: string)
    requires part + ['\0'] + a == part + ['\0'] + b
    ensures a == b
  {
    assert (part + ['\0'] + a)[|part| + 1..] == a;
    assert (part + ['\0'] + b)[|part| + 1..] == b;
  }

  lemma {:induction false} JoinSplits(a: seq<string>, b: seq<string>)
    requires a != [] && b != [] && (forall p | p in a :: NulFree(p)) && (forall p | p in b :: NulFree(p))
    requires Join(a) == Join(b)
    ensures a == b
  {
    HeadOfJoin(a);
    HeadOfJoin(b);
    assert a == [a[0]] + a[1..] && b == [b[0]] + b[1..];
    if |a| > 1 && |b| > 1 {
      SameTail(a[0], Join(a[1..]), Join(b[1..]));
      JoinSplits(a[1..], b[1..]);
    } else {
      assert |Join(a)| == |Join(b)|;
    }
  }

  /** On separator-free strings the joined text decides equality, but for the empty list against one empty string. */
  lemma JoinEqualIff(a: seq<string>, b: seq<string>)
    requires (forall p | p in a :: NulFree(p)) && (forall p | p in b :: NulFree(p))
    ensures Join(a) == Join(b) <==> a == b || (a in [[], [""]] && b in [[], [""]])
  {
    if a != [] && b != [] && Join(a) == Join(b) {
      JoinSplits(a, b);
    } else if a == [] && b != [] && Join(b) == "" {
      HeadOfJoin(b);
      assert b == [""];
    } else if b == [] && a != [] && Join(a) == "" {
      HeadOfJoin(a);
      assert a == [""];
    }
  }

  predicate SameStrings(a: seq<string>, b: seq<string>) {
    Join(Sort(a, StrLe)) == Join(Sort(b, StrLe))
  }

  lemma SingletonSort(a: seq<string>)
    ensures Sort(a, StrLe) == [] <==> a == []
    ensures Sort(a, StrLe) == [""] <==> a == [""]
  {
    SortedEqualIff(a, []);
    SortedEqualIff(a, [""]);
    assert Sort([""], StrLe) == [""];
    assert multiset(a) == multiset{} ==> a == [] by { if a != [] { assert a[0] in multiset(a); } }
    SortKeeps(a, StrLe);
    if Sort(a, StrLe) == [""] {
      assert |a| == 1;
      SortMembers(a, StrLe, a[0]);
      assert a == [a[0]];
    }
  }

  /** `sameStrings` compares multisets, but for the empty list against one empty string. */
  lemma SameStringsIff(a: seq<string>, b: seq<string>)
    requires (forall p | p in a :: NulFree(p)) && (forall p | p in b :: NulFree(p))
    ensures SameStrings(a, b) <==> multiset(a) == multiset(b) || (a in [[], [""]] && b in [[], [""]])
  {
    forall p | p in Sort(a, StrLe) ensures NulFree(p) { SortMembers(a, StrLe, p); }
    forall p | p in Sort(b, StrLe) ensures NulFree(p) { SortMembers(b, StrLe, p); }
    JoinEqualIff(Sort(a, StrLe), Sort(b, StrLe));
    SortedEqualIff(a, b);
    SingletonSort(a);
    SingletonSort(b);
  }

  /** A separator inside a string makes two different lists compare equal. */
  lemma SeparatorConfusesLists()
    ensures SameStrings(["a\0b"], ["a", "b"]) && multiset(["a\0b"]) != multiset(["a", "b"])
  {
    assert Join(["a\0b"]) == "a\0b";
    assert ["a", "b"][1..] == ["b"];
    assert Join(["a", "b"]) == "a" + ['\0'] + "b";
    assert "a" + ['\0'] + "b" == "a\0b";
    assert Sort(["a\0b"], StrLe) == ["a\0b"];
    assert Sort(["b"], StrLe) == ["b"];
    assert Sort(["a", "b"], StrLe) == ["a", "b"];
    assert "a\0b" in multiset(["a\0b"]) && "a\0b" !in multiset(["a", "b"]);
  }

  // ---- comparing maps from one side --------------------------------------------------------------

  function ValueOf(m: map<string, string>, k: string): string {
    if k in m then m[k] else ""
  }

  predicate SameStringMap(a: map<string, string>, b: map<string, string>) {
    |a| == |b| && forall k | k in a :: ValueOf(b, k) == a[k]
  }

  method CompareMaps(a: map<string, string>, b: map<string, string>) returns (same: bool)
    ensures same == SameStringMap(a, b)
  {
    if |a| != |b| {
      return false;
    }
    var rest := a.Keys;
    while rest != {}
      invariant rest <= a.Keys
      invariant forall k | k in a && k !in rest :: ValueOf(b, k) == a[k]
      decreases rest
    {
      var k :| k in rest;
      if ValueOf(b, k) != a[k] {
        return false;
      }
      rest := rest - {k};
    }
    return true;
  }

  lemma {:induction false} SubsetOfEqualSize<T>(a: set<T>, b: set<T>)
    requires a <= b && |a| == |b|
    ensures a == b
  {
    assert b == a + (b - a);
    assert |b - a| == 0;
  }

  /** Comparing one way is map equality, provided no empty value hides a missing key. */
  lemma SameStringMapIff(a: map<string, string>, b: map<string, string>)
    ensures SameStringMap(a, b) && (forall k | k in a && a[k] == "" :: k in b) <==> a == b
  {
    if SameStringMap(a, b) && (forall k | k in a && a[k] == "" :: k in b) {
      assert a.Keys <= b.Keys;
      assert |a.Keys| == |a| && |b.Keys| == |b|;
      SubsetOfEqualSize(a.Keys, b.Keys);
      forall k | k in a ensures a[k] == b[k] {}
    }
  }

  /** An empty value does hide one. */
  lemma EmptyValueHidesMissingKey()
    ensures SameStringMap(map["a" := ""], map["b" := ""]) && map["a" := ""] != map["b" := ""]
  {
    assert |map["a" := ""]| == |map["b" := ""]|;
    assert "a" in map["a" := ""] && "a" !in map["b" := ""];
  }

  // ---- the transition check ----------------------------------------------------------------------

  predicate SameCold(a: Boundary, b: Boundary) {
    && a.provider == b.provider && SameStrings(a.regions, b.regions) && a.computeMode == b.computeMode
    && a.kubernetesTopology == b.kubernetesTopology && a.networkProfile == b.networkProfile
    && a.ownershipBoundary == b.ownershipBoundary && a.resilienceProfileID == b.resilienceProfileID
    && a.configurationFingerprint == b.configurationFingerprint && a.artifactDigest == b.artifactDigest
    && a.schemaFingerprint == b.schemaFingerprint && a.migrationFingerprint == b.migrationFingerprint
    && a.recoveryFixtureID == b.recoveryFixtureID && a.ownershipMarker == b.ownershipMarker
  }

  predicate Differs(a: Boundary, b: Boundary, d: Dimension) {
    match d
    case Majors => !SameStringMap(a.serviceMajors, b.serviceMajors)
    case ObservabilityTarget => a.observabilityDestination != b.observabilityDestination
    case EdgeTarget => a.edgePath != b.edgePath
    case RecoveryTarget => a.recoveryDestination != b.recoveryDestination
    case Network => a.networkProfile != b.networkProfile
    case Configuration => a.configurationFingerprint != b.configurationFingerprint
  }

  function Add(found: seq<Dimension>, a: Boundary, b: Boundary, d: Dimension): seq<Dimension> {
    if Differs(a, b, d) then found + [d] else found
  }

  function WarmDifferences(a: Boundary, b: Boundary): seq<Dimension> {
    Add(Add(Add(Add([], a, b, Majors), a, b, ObservabilityTarget), a, b, EdgeTarget), a, b, RecoveryTarget)
  }

  function Differences(a: Boundary, b: Boundary): seq<Dimension> {
    Add(Add(WarmDifferences(a, b), a, b, Network), a, b, Configuration)
  }

  predicate KindAllows(kind: Kind, differences: seq<Dimension>) {
    if differences == [] then kind == Unnamed || kind == NoChange
    else match kind
      case ServiceMajor => differences == [Majors]
      case Restore => differences == [RecoveryTarget]
      case Observability => differences == [ObservabilityTarget]
      case Edge => differences == [EdgeTarget]
      case _ => false
  }

  predicate Accepted(a: Boundary, b: Boundary, kind: Kind) {
    ValidBoundary(a) && ValidBoundary(b) && SameCold(a, b) && KindAllows(kind, Differences(a, b))
  }

  lemma AddIs(found: seq<Dimension>, a: Boundary, b: Boundary, d: Dimension, x: Dimension)
    ensures Add(found, a, b, d) == [] <==> found == [] && !Differs(a, b, d)
    ensures Add(found, a, b, d) == [x] <==> if Differs(a, b, d) then found == [] && d == x else found == [x]
  {
    if Differs(a, b, d) {
      assert Add(found, a, b, d)[|found|] == d;
      assert found == [] && d == x ==> Add(found, a, b, d) == [x];
    }
  }

  predicate OnlyDiffers(a: Boundary, b: Boundary, x: Dimension) {
    && Differs(a, b, x)
    && (x.Majors? || !Differs(a, b, Majors)) && (x.ObservabilityTarget? || !Differs(a, b, ObservabilityTarget))
    && (x.EdgeTarget? || !Differs(a, b, EdgeTarget)) && (x.RecoveryTarget? || !Differs(a, b, RecoveryTarget))
  }

  predicate NoneDiffers(a: Boundary, b: Boundary) {
    !Differs(a, b, Majors) && !Differs(a, b, ObservabilityTarget) && !Differs(a, b, EdgeTarget) && !Differs(a, b, RecoveryTarget)
  }

  /** No warm dimension differs, or exactly the given one. */
  lemma WarmDifferencesAre(a: Boundary, b: Boundary, x: Dimension)
    ensures WarmDifferences(a, b) == [] <==> NoneDiffers(a, b)
    ensures WarmDifferences(a, b) == [x] <==> OnlyDiffers(a, b, x) && !x.Network? && !x.Configuration?
  {
    var one := Add([], a, b, Majors);
    var two := Add(one, a, b, ObservabilityTarget);
    var three := Add(two, a, b, EdgeTarget);
    AddIs([], a, b, Majors, x);
    AddIs(one, a, b, ObservabilityTarget, x);
    AddIs(two, a, b, EdgeTarget, x);
    AddIs(three, a, b, RecoveryTarget, x);
  }

  predicate KindFits(a: Boundary, b: Boundary, kind: Kind) {
    match kind
    case ServiceMajor => OnlyDiffers(a, b, Majors)
    case Restore => OnlyDiffers(a, b, RecoveryTarget)
    case Observability => OnlyDiffers(a, b, ObservabilityTarget)
    case Edge => OnlyDiffers(a, b, EdgeTarget)
    case NoChange => NoneDiffers(a, b)
    case Unnamed => NoneDiffers(a, b)
    case _ => false
  }

  /** What each kind demands, once the cold dimensions agree. */
  lemma KindMeans(a: Boundary, b: Boundary, kind: Kind)
    requires SameCold(a, b)
    ensures KindAllows(kind, Differences(a, b)) <==> KindFits(a, b, kind)
  {
    assert Differences(a, b) == WarmDifferences(a, b);
    match kind {
      case ServiceMajor => WarmDifferencesAre(a, b, Majors);
      case Restore => WarmDifferencesAre(a, b, RecoveryTarget);
      case Observability => WarmDifferencesAre(a, b, ObservabilityTarget);
      case Edge => WarmDifferencesAre(a, b, EdgeTarget);
      case _ => WarmDifferencesAre(a, b, Majors);
    }
  }

  method CoverageDifferences(a: Boundary, b: Boundary) returns (result: seq<Dimension>)
    ensures result == Differences(a, b)
  {
    result := [];
    var sameMajors := CompareMaps(a.serviceMajors, b.serviceMajors);
    if !sameMajors {
      result := result + [Majors];
    }
    if a.observabilityDestination != b.observabilityDestination {
      result := result + [ObservabilityTarget];
    }
    if a.edgePath != b.edgePath {
      result := result + [EdgeTarget];
    }
    if a.recoveryDestination != b.recoveryDestination {
      result := result + [RecoveryTarget];
    }
    assert result == WarmDifferences(a, b);
    if a.networkProfile != b.networkProfile {
      result := result + [Network];
    }
    if a.configurationFingerprint != b.configurationFingerprint {
      result := result + [Configuration];
    }
  }

  method CheckKind(kind: Kind, differences: seq<Dimension>) returns (ok: bool)
    ensures ok == KindAllows(kind, differences)
  {
    if |differences| == 0 {
      return kind == Unnamed || kind == NoChange;
    }
    if |differences| != 1 {
      return false;
    }
    assert differences == [differences[0]];
    match kind {
      case ServiceMajor => return differences[0] == Majors;
      case Restore => return differences[0] == RecoveryTarget;
      case Observability => return differences[0] == ObservabilityTarget;
      case Edge => return differences[0] == EdgeTarget;
      case _ => return false;
    }
  }

  method ValidateCoverageTransition(a: Boundary, b: Boundary, kind: Kind) returns (ok: bool)
    ensures ok == Accepted(a, b, kind)
  {
    if !ValidBoundary(a) || !ValidBoundary(b) || !SameCold(a, b) {
      return false;
    }
    var differences := CoverageDifferences(a, b);
    ok := CheckKind(kind, differences);
  }

  // ---- what acceptance means ---------------------------------------------------------------------

  /** Equal but for the order of the regions. */
  ghost predicate SameBoundary(a: Boundary, b: Boundary) {
    multiset(a.regions) == multiset(b.regions) && b == a.(regions := b.regions)
  }

  /** `b` is `a` with the one dimension the kind names actually changed, and the regions possibly reordered. */
  ghost predicate ChangesOnly(a: Boundary, b: Boundary, kind: Kind) {
    match kind
    case ServiceMajor => a.serviceMajors != b.serviceMajors && SameBoundary(a.(serviceMajors := b.serviceMajors), b)
    case Restore =>
      a.recoveryDestination != b.recoveryDestination && SameBoundary(a.(recoveryDestination := b.recoveryDestination), b)
    case Observability =>
      && a.observabilityDestination != b.observabilityDestination
      && SameBoundary(a.(observabilityDestination := b.observabilityDestination), b)
    case Edge => a.edgePath != b.edgePath && SameBoundary(a.(edgePath := b.edgePath), b)
    case NoChange => SameBoundary(a, b)
    case Unnamed => SameBoundary(a, b)
    case _ => false
  }

  lemma StableIDIsNulFree(s: string)
    requires StableID(s)
    ensures NulFree(s) && s != ""
  {
  }

  lemma RegionListsCompare(a: seq<string>, b: seq<string>)
    requires a != [] && b != [] && (forall r | r in a :: StableID(r)) && (forall r | r in b :: StableID(r))
    ensures SameStrings(a, b) <==> multiset(a) == multiset(b)
  {
    forall r | r in a ensures NulFree(r) && r != "" { StableIDIsNulFree(r); }
    forall r | r in b ensures NulFree(r) && r != "" { StableIDIsNulFree(r); }
    assert a[0] in a && b[0] in b;
    SameStringsIff(a, b);
  }

  lemma RegionsCompare(a: Boundary, b: Boundary)
    requires ValidBoundary(a) && ValidBoundary(b)
    ensures SameStrings(a.regions, b.regions) <==> multiset(a.regions) == multiset(b.regions)
  {
    RegionListsCompare(a.regions, b.regions);
  }

  lemma MajorsCompare(a: Boundary, b: Boundary)
    requires ValidBoundary(a) && ValidBoundary(b)
    ensures SameStringMap(a.serviceMajors, b.serviceMajors) <==> a.serviceMajors == b.serviceMajors
  {
    SameStringMapIff(a.serviceMajors, b.serviceMajors);
  }

  /** Field by field, where the two comparisons are faithful. */
  lemma FitsIff(a: Boundary, b: Boundary, kind: Kind)
    requires SameStrings(a.regions, b.regions) <==> multiset(a.regions) == multiset(b.regions)
    requires SameStringMap(a.serviceMajors, b.serviceMajors) <==> a.serviceMajors == b.serviceMajors
    ensures SameCold(a, b) && KindFits(a, b, kind) <==> ChangesOnly(a, b, kind)
  {
  }

  /** A transition is accepted exactly when both ends are valid and it changes just the dimension its kind names. */
  lemma AcceptedIff(a: Boundary, b: Boundary, kind: Kind)
    ensures Accepted(a, b, kind) <==> ValidBoundary(a) && ValidBoundary(b) && ChangesOnly(a, b, kind)
  {
    if ValidBoundary(a) && ValidBoundary(b) {
      RegionsCompare(a, b);
      MajorsCompare(a, b);
      FitsIff(a, b, kind);
      if SameCold(a, b) {
        KindMeans(a, b, kind);
      }
    }
  }

  lemma ChangeSymmetric(a: Boundary, b: Boundary, kind: Kind)
    requires ChangesOnly(a, b, kind)
    ensures ChangesOnly(b, a, kind)
  {
  }

  /** Acceptance does not depend on the direction of the change. */
  lemma AcceptanceSymmetric(a: Boundary, b: Boundary, kind: Kind)
    ensures Accepted(a, b, kind) <==> Accepted(b, a, kind)
  {
    AcceptedIff(a, b, kind);
    AcceptedIff(b, a, kind);
    if ChangesOnly(a, b, kind) {
      ChangeSymmetric(a, b, kind);
    } else if ChangesOnly(b, a, kind) {
      ChangeSymmetric(b, a, kind);
    }
  }

  // ---- fingerprints ------------------------------------------------------------------------------

  function Canonical(b: Boundary): Boundary {
    b.(regions := Sort(b.regions, StrLe))
  }

  lemma CanonicalIff(a: Boundary, b: Boundary)
    ensures Canonical(a) == Canonical(b) <==> SameBoundary(a, b)
  {
    SortedEqualIff(a.regions, b.regions);
  }

  /** `digest` stands for the SHA-256 of the JSON text of a canonical boundary. */
  ghost predicate Injective(digest: Boundary -> string) {
    forall a, b :: digest(a) == digest(b) ==> a == b
  }

  /** Two valid boundaries have one fingerprint exactly when the unchanged transition between them is accepted. */
  lemma FingerprintIsNoChange(digest: Boundary -> string, a: Boundary, b: Boundary)
    requires Injective(digest) && ValidBoundary(a) && ValidBoundary(b)
    ensures digest(Canonical(a)) == digest(Canonical(b)) <==> Accepted(a, b, NoChange)
  {
    AcceptedIff(a, b, NoChange);
    CanonicalIff(a, b);
  }

  // ---- chains ------------------------------------------------------------------------------------

  predicate Chain(boundaries: seq<Boundary>, kinds: seq<Kind>) {
    && |boundaries| == |kinds| + 1
    && forall i | 0 <= i < |kinds| :: Accepted(boundaries[i], boundaries[i + 1], kinds[i])
  }

  /** The thirteen cold dimensions agree, the regions as a multiset. */
  ghost predicate ColdAgrees(a: Boundary, b: Boundary) {
    multiset(a.regions) == multiset(b.regions)
    && b == a.(regions := b.regions, serviceMajors := b.serviceMajors, recoveryDestination := b.recoveryDestination,
               observabilityDestination := b.observabilityDestination, edgePath := b.edgePath)
  }

  /** The cold dimensions agree, and a warm one differs only if some kind names it. */
  ghost predicate MovedOnly(first: Boundary, last: Boundary, kinds: seq<Kind>) {
    && ColdAgrees(first, last)
    && (ServiceMajor !in kinds ==> last.serviceMajors == first.serviceMajors)
    && (Restore !in kinds ==> last.recoveryDestination == first.recoveryDestination)
    && (Observability !in kinds ==> last.observabilityDestination == first.observabilityDestination)
    && (Edge !in kinds ==> last.edgePath == first.edgePath)
  }

  lemma MovedOnce(first: Boundary, before: Boundary, last: Boundary, kinds: seq<Kind>, kind: Kind)
    requires MovedOnly(first, before, kinds) && ChangesOnly(before, last, kind)
    ensures MovedOnly(first, last, kinds + [kind])
  {
  }

  ghost predicate Steps(boundaries: seq<Boundary>, kinds: seq<Kind>) {
    && |boundaries| == |kinds| + 1
    && forall i | 0 <= i < |kinds| :: ChangesOnly(boundaries[i], boundaries[i + 1], kinds[i])
  }

  lemma ChainSteps(boundaries: seq<Boundary>, kinds: seq<Kind>)
    requires Chain(boundaries, kinds)
    ensures Steps(boundaries, kinds)
  {
    forall i | 0 <= i < |kinds| ensures ChangesOnly(boundaries[i], boundaries[i + 1], kinds[i]) {
      AcceptedIff(boundaries[i], boundaries[i + 1], kinds[i]);
    }
  }

  lemma StepsPrefix(boundaries: seq<Boundary>, kinds: seq<Kind>, n: nat)
    requires Steps(boundaries, kinds) && n < |kinds|
    ensures Steps(boundaries[..n + 1], kinds[..n]) && ChangesOnly(boundaries[n], boundaries[n + 1], kinds[n])
  {
  }

  lemma {:induction false} StepsMoveOnly(boundaries: seq<Boundary>, kinds: seq<Kind>)
    requires Steps(boundaries, kinds)
    ensures MovedOnly(boundaries[0], boundaries[|kinds|], kinds)
  {
    if kinds != [] {
      var n := |kinds| - 1;
      StepsPrefix(boundaries, kinds, n);
      StepsMoveOnly(boundaries[..n + 1], kinds[..n]);
      assert boundaries[..n + 1][|kinds[..n]|] == boundaries[n] && boundaries[..n + 1][0] == boundaries[0];
      MovedOnce(boundaries[0], boundaries[n], boundaries[n + 1], kinds[..n], kinds[n]);
      assert kinds == kinds[..n] + [kinds[n]];
    }
  }

  /** Along any chain the cold dimensions stay put, and a warm one moves only if some step names it. */
  lemma ChainKeepsCold(boundaries: seq<Boundary>, kinds: seq<Kind>)
    requires Chain(boundaries, kinds)
    ensures MovedOnly(boundaries[0], boundaries[|kinds|], kinds)
  {
    ChainSteps(boundaries, kinds);
    StepsMoveOnly(boundaries, kinds);
  }
}
