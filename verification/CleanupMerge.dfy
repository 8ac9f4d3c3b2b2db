/** What a merge of the live inventory into the ledger does, and when the merged ledger is still valid. */
module CleanupMerge {
  import opened Text
  import opened CleanupLedger

  // ---- hypotheses the code does not enforce ----------------------------------------------------

  predicate NoColon(s: string) { ':' !in s }

  predicate DistinctIdentities(rs: seq<Resource>) {
    forall i, j | 0 <= i < j < |rs| :: rs[i].identity != "" ==> rs[i].identity != rs[j].identity
  }

  predicate WellFormed(rs: seq<Resource>, observed: seq<Observation>) {
    && (forall i | 0 <= i < |rs| :: NoColon(rs[i].kind))
    && (forall j | 0 <= j < |observed| :: NoColon(observed[j].kind))
    && (forall i, j | 0 <= i < |rs| && 0 <= j < |observed| ::
          rs[i].identity == "" && observed[j].owned ==> rs[i].name != observed[j].identity)
    && DistinctIdentities(rs)
  }

  // ---- provenance of merged entries ------------------------------------------------------------

  predicate Untouched(rs: seq<Resource>, merged: seq<Resource>, i: nat) {
    i < |rs| && i < |merged| && merged[i] == rs[i]
  }

  predicate TouchedBy(rs: seq<Resource>, merged: seq<Resource>, i: nat, o: Observation) {
    && o.owned && i < |merged| && merged[i].identity == o.identity
    && if i < |rs| then Matches(rs[i], o) && merged[i] == Bind(rs[i], o) else merged[i] == Adopt(o)
  }

  ghost predicate Explained(rs: seq<Resource>, observed: seq<Observation>, merged: seq<Resource>, i: nat) {
    Untouched(rs, merged, i) || exists j :: 0 <= j < |observed| && TouchedBy(rs, merged, i, observed[j])
  }

  lemma PrefixValid(observed: seq<Observation>)
    requires ValidInventory(observed) && observed != []
    ensures ValidInventory(observed[..|observed| - 1])
  {
  }

  /** An entry already tied to an earlier observation does not match a later one. */
  lemma TouchedMatchesNothingElse(rs: seq<Resource>, front: seq<Observation>, merged: seq<Resource>, i: nat, o: Observation)
    requires i < |merged| && Explained(rs, front, merged, i)
    requires o.identity != "" && forall j | 0 <= j < |front| :: front[j].identity != "" && front[j].identity != o.identity
    ensures Matches(merged[i], o) ==> Untouched(rs, merged, i)
  {
    if !Untouched(rs, merged, i) {
      var j :| 0 <= j < |front| && TouchedBy(rs, merged, i, front[j]);
      assert merged[i].identity == front[j].identity;
    }
  }

  /** Each merged entry is an old one unchanged, or one owned observation bound to an old one or adopted. */
  lemma {:induction false} MergeProvenance(rs: seq<Resource>, observed: seq<Observation>)
    requires ValidInventory(observed)
    ensures |rs| <= |Merge(rs, observed)|
    ensures forall i | 0 <= i < |Merge(rs, observed)| :: Explained(rs, observed, Merge(rs, observed), i)
  {
    if observed != [] {
      var n := |observed| - 1;
      var front, o := observed[..n], observed[n];
      PrefixValid(observed);
      MergeProvenance(rs, front);
      var before, after := Merge(rs, front), Merge(rs, observed);
      var index := InventoryMatch(before, o);
      forall i | 0 <= i < |after| ensures Explained(rs, observed, after, i) {
        if o.owned && i == (if index >= 0 then index else |before|) {
          if index >= 0 {
            TouchedMatchesNothingElse(rs, front, before, i, o);
          }
          assert TouchedBy(rs, after, i, observed[n]);
        } else {
          assert after[i] == before[i];
          assert Explained(rs, front, before, i);
          if !Untouched(rs, before, i) {
            var j :| 0 <= j < |front| && TouchedBy(rs, before, i, front[j]);
            assert TouchedBy(rs, after, i, observed[j]);
          }
        }
      }
    }
  }

  // ---- the entry each owned observation is written to ------------------------------------------

  /** The owned observation `m` takes the unbound entry `n`: same kind and name, and no entry holds its identity. */
  predicate Takes(rs: seq<Resource>, observed: seq<Observation>, n: nat, m: nat)
    requires n < |rs| && m < |observed|
  {
    observed[m].owned && SameName(rs[n], observed[m]) && IdentityMatch(rs, observed[m], 0) < 0
  }

  predicate Taken(rs: seq<Resource>, observed: seq<Observation>, n: nat)
    requires n < |rs|
  {
    exists m | 0 <= m < |observed| :: Takes(rs, observed, n, m)
  }

  /** The ledger entry observation `j` is bound to, in terms of the ledger and the inventory alone. */
  function Target(rs: seq<Resource>, observed: seq<Observation>, j: nat): (index: int)
    requires j < |observed|
    ensures -1 <= index < |rs| && (index >= 0 ==> Matches(rs[index], observed[j]))
  {
    var byIdentity, byName := IdentityMatch(rs, observed[j], 0), NameMatch(rs, observed[j], 0);
    if byIdentity >= 0 then byIdentity
    else if byName >= 0 && Taken(rs, observed[..j], byName) then -1
    else byName
  }

  /** What a merge writes for observation `j`. */
  function Written(rs: seq<Resource>, observed: seq<Observation>, j: nat): Resource
    requires j < |observed|
  {
    var index := Target(rs, observed, j);
    if index >= 0 then Bind(rs[index], observed[j]) else Adopt(observed[j])
  }

  lemma IdentityKept(rs: seq<Resource>, front: seq<Observation>, merged: seq<Resource>, i: nat, o: Observation)
    requires i < |merged| && |rs| <= |merged| && Explained(rs, front, merged, i)
    requires o.identity != "" && forall j | 0 <= j < |front| :: front[j].identity != "" && front[j].identity != o.identity
    ensures SameIdentity(merged[i], o) <==> i < |rs| && SameIdentity(rs[i], o)
  {
    if !Untouched(rs, merged, i) {
      var j :| 0 <= j < |front| && TouchedBy(rs, merged, i, front[j]);
    }
  }

  lemma IdentityMatchKept(rs: seq<Resource>, observed: seq<Observation>)
    requires ValidInventory(observed) && observed != []
    ensures var n := |observed| - 1;
            IdentityMatch(Merge(rs, observed[..n]), observed[n], 0) == IdentityMatch(rs, observed[n], 0)
  {
    var n := |observed| - 1;
    var o, merged := observed[n], Merge(rs, observed[..n]);
    PrefixValid(observed);
    MergeProvenance(rs, observed[..n]);
    forall i | 0 <= i < |merged| ensures SameIdentity(merged[i], o) <==> i < |rs| && SameIdentity(rs[i], o) {
      IdentityKept(rs, observed[..n], merged, i, o);
    }
    var before, after := IdentityMatch(rs, o, 0), IdentityMatch(merged, o, 0);
    if before >= 0 { assert SameIdentity(merged[before], o); }
    if after >= 0 { assert SameIdentity(rs[after], o); }
  }

  /** An accepted ledger has one unbound entry of each kind and name. */
  lemma OneUnbound(rs: seq<Resource>, o: Observation, i: nat, k: nat)
    requires ValidResources(rs) && i < |rs| && k < |rs| && SameName(rs[i], o) && SameName(rs[k], o)
    ensures i == k
  {
    assert Key(rs[i]) == Key(rs[k]);
  }

  lemma UnboundIsOld(rs: seq<Resource>, observed: seq<Observation>, i: nat)
    requires ValidInventory(observed) && i < |Merge(rs, observed)| && Merge(rs, observed)[i].identity == ""
    ensures i < |rs| && Merge(rs, observed)[i] == rs[i]
  {
    MergeProvenance(rs, observed);
    assert Explained(rs, observed, Merge(rs, observed), i);
    UnboundIsUntouched(rs, observed, Merge(rs, observed), i);
  }

  /** Which entry the last observation matches when its turn comes. */
  lemma LastMatch(rs: seq<Resource>, observed: seq<Observation>)
    requires ValidResources(rs) && ValidInventory(observed) && observed != []
    ensures var n := |observed| - 1;
            var before, o := Merge(rs, observed[..n]), observed[n];
            var byName := NameMatch(rs, o, 0);
            && |rs| <= |before|
            && InventoryMatch(before, o)
               == if IdentityMatch(rs, o, 0) >= 0 then IdentityMatch(rs, o, 0)
                  else if byName >= 0 && before[byName].identity == "" then byName else -1
  {
    var n := |observed| - 1;
    var before, o := Merge(rs, observed[..n]), observed[n];
    PrefixValid(observed);
    MergeProvenance(rs, observed[..n]);
    IdentityMatchKept(rs, observed);
    var byName, found := NameMatch(rs, o, 0), NameMatch(before, o, 0);
    if found >= 0 {
      UnboundIsOld(rs, observed[..n], found);
      OneUnbound(rs, o, found, byName);
    }
    if byName >= 0 && before[byName].identity == "" {
      UnboundIsOld(rs, observed[..n], byName);
      assert SameName(before[byName], o);
    }
  }

  lemma TakenNext(rs: seq<Resource>, observed: seq<Observation>, n: nat)
    requires n < |rs| && observed != []
    ensures Taken(rs, observed, n) <==> Taken(rs, observed[..|observed| - 1], n) || Takes(rs, observed, n, |observed| - 1)
  {
    var front := observed[..|observed| - 1];
    if Taken(rs, front, n) {
      var m :| 0 <= m < |front| && Takes(rs, front, n, m);
      assert Takes(rs, observed, n, m);
    }
    if Taken(rs, observed, n) {
      var m :| 0 <= m < |observed| && Takes(rs, observed, n, m);
      assert m < |front| ==> Takes(rs, front, n, m);
    }
  }

  lemma MergeOneAt(rs: seq<Resource>, o: Observation, i: nat)
    requires i < |rs|
    ensures i < |MergeOne(rs, o)|
    ensures MergeOne(rs, o)[i] == if o.owned && InventoryMatch(rs, o) == i then Bind(rs[i], o) else rs[i]
  {
  }

  lemma UnboundNext(rs: seq<Resource>, observed: seq<Observation>, n: nat)
    requires ValidResources(rs) && ValidInventory(observed) && observed != []
    requires n < |rs| && rs[n].identity == "" && rs[n].name != "" && n < |Merge(rs, observed[..|observed| - 1])|
    ensures var last := |observed| - 1;
            && n < |Merge(rs, observed)|
            && (Merge(rs, observed)[n].identity == ""
                <==> Merge(rs, observed[..last])[n].identity == "" && !Takes(rs, observed, n, last))
  {
    var last := |observed| - 1;
    var before, o := Merge(rs, observed[..last]), observed[last];
    PrefixValid(observed);
    LastMatch(rs, observed);
    MergeOneAt(before, o, n);
    if SameName(rs[n], o) { OneUnbound(rs, o, n, NameMatch(rs, o, 0)); }
    if before[n].identity == "" { UnboundIsOld(rs, observed[..last], n); }
  }

  /** An unbound entry stays so exactly while no owned observation takes it. */
  lemma {:induction false} UnboundIff(rs: seq<Resource>, observed: seq<Observation>, n: nat)
    requires ValidResources(rs) && ValidInventory(observed) && n < |rs| && rs[n].identity == "" && rs[n].name != ""
    ensures n < |Merge(rs, observed)|
    ensures Merge(rs, observed)[n].identity == "" <==> !Taken(rs, observed, n)
  {
    if observed != [] {
      PrefixValid(observed);
      UnboundIff(rs, observed[..|observed| - 1], n);
      TakenNext(rs, observed, n);
      UnboundNext(rs, observed, n);
    }
  }

  lemma LastTarget(rs: seq<Resource>, observed: seq<Observation>)
    requires ValidResources(rs) && ValidInventory(observed) && observed != []
    ensures var n := |observed| - 1;
            var before := Merge(rs, observed[..n]);
            && |rs| <= |before| && InventoryMatch(before, observed[n]) == Target(rs, observed, n)
            && (Target(rs, observed, n) >= 0 ==> before[Target(rs, observed, n)] == rs[Target(rs, observed, n)])
  {
    var n := |observed| - 1;
    var before, o := Merge(rs, observed[..n]), observed[n];
    LastMatch(rs, observed);
    PrefixValid(observed);
    var byName, index := NameMatch(rs, o, 0), InventoryMatch(before, o);
    if byName >= 0 { UnboundIff(rs, observed[..n], byName); }
    if index >= 0 {
      MergeProvenance(rs, observed[..n]);
      assert Explained(rs, observed[..n], before, index);
      TouchedMatchesNothingElse(rs, observed[..n], before, index, o);
    }
  }

  lemma WrittenByPrefix(rs: seq<Resource>, observed: seq<Observation>, j: nat)
    requires j < |observed| - 1
    ensures Written(rs, observed[..|observed| - 1], j) == Written(rs, observed, j)
  {
    assert observed[..|observed| - 1][..j] == observed[..j];
  }

  predicate Holds(rs: seq<Resource>, r: Resource) {
    exists i | 0 <= i < |rs| :: rs[i] == r
  }

  lemma WrittenIdentity(rs: seq<Resource>, observed: seq<Observation>, j: nat)
    requires j < |observed|
    ensures Written(rs, observed, j).identity == observed[j].identity
  {
  }

  lemma OtherStays(rs: seq<Resource>, o: Observation, i: nat)
    requires i < |rs| && rs[i].identity != "" && rs[i].identity != o.identity
    ensures i < |MergeOne(rs, o)| && MergeOne(rs, o)[i] == rs[i]
  {
    MergeOneAt(rs, o, i);
  }

  /** What a merge writes for an owned observation is in the merged ledger. */
  lemma {:induction false} WrittenIsHeld(rs: seq<Resource>, observed: seq<Observation>, j: nat)
    requires ValidResources(rs) && ValidInventory(observed) && j < |observed| && observed[j].owned
    ensures Holds(Merge(rs, observed), Written(rs, observed, j))
  {
    var n := |observed| - 1;
    var before, after := Merge(rs, observed[..n]), Merge(rs, observed);
    PrefixValid(observed);
    LastTarget(rs, observed);
    var index := Target(rs, observed, n);
    if j == n {
      assert after[if index >= 0 then index else |before|] == Written(rs, observed, j);
    } else {
      WrittenByPrefix(rs, observed, j);
      WrittenIsHeld(rs, observed[..n], j);
      var i :| 0 <= i < |before| && before[i] == Written(rs, observed, j);
      WrittenIdentity(rs, observed, j);
      OtherStays(before, observed[n], i);
    }
  }

  ghost predicate WrittenOrOld(rs: seq<Resource>, observed: seq<Observation>, merged: seq<Resource>, i: nat) {
    Untouched(rs, merged, i)
    || (i < |merged| && exists j | 0 <= j < |observed| && observed[j].owned :: merged[i] == Written(rs, observed, j))
  }

  /** Every merged entry is an old one unchanged, or what the merge writes for some owned observation. */
  lemma {:induction false} MergeWrites(rs: seq<Resource>, observed: seq<Observation>, i: nat)
    requires ValidResources(rs) && ValidInventory(observed) && i < |Merge(rs, observed)|
    ensures WrittenOrOld(rs, observed, Merge(rs, observed), i)
  {
    if observed != [] {
      var n := |observed| - 1;
      var before, after := Merge(rs, observed[..n]), Merge(rs, observed);
      PrefixValid(observed);
      LastTarget(rs, observed);
      var index := Target(rs, observed, n);
      if observed[n].owned && i == (if index >= 0 then index else |before|) {
        assert after[i] == Written(rs, observed, n);
      } else {
        assert after[i] == before[i];
        MergeWrites(rs, observed[..n], i);
        if !Untouched(rs, before, i) {
          var j :| 0 <= j < n && observed[..n][j].owned && before[i] == Written(rs, observed[..n], j);
          WrittenByPrefix(rs, observed, j);
          assert observed[j].owned && after[i] == Written(rs, observed, j);
        }
      }
    }
  }

  // ---- coverage --------------------------------------------------------------------------------

  predicate HeldBy(rs: seq<Resource>, identity: string, i: nat) {
    i < |rs| && rs[i].identity == identity
  }

  ghost predicate HeldOnce(rs: seq<Resource>, identity: string) {
    exists i {:trigger HeldBy(rs, identity, i)} ::
      HeldBy(rs, identity, i) && forall k | 0 <= k < |rs| && HeldBy(rs, identity, k) :: k == i
  }

  lemma {:induction false} MergeKeepsIdentitiesDistinct(rs: seq<Resource>, observed: seq<Observation>)
    requires DistinctIdentities(rs)
    ensures DistinctIdentities(Merge(rs, observed))
  {
    if observed != [] {
      MergeKeepsIdentitiesDistinct(rs, observed[..|observed| - 1]);
    }
  }

  lemma {:induction false} MergeCovers(rs: seq<Resource>, observed: seq<Observation>, j: nat)
    requires ValidInventory(observed) && j < |observed| && observed[j].owned
    ensures exists i :: HeldBy(Merge(rs, observed), observed[j].identity, i)
  {
    var n := |observed| - 1;
    var before := Merge(rs, observed[..n]);
    var index := InventoryMatch(before, observed[n]);
    if j == n {
      assert HeldBy(Merge(rs, observed), observed[j].identity, if index >= 0 then index else |before|);
    } else {
      PrefixValid(observed);
      MergeCovers(rs, observed[..n], j);
      var i :| HeldBy(before, observed[j].identity, i);
      assert HeldBy(Merge(rs, observed), observed[j].identity, i);
    }
  }

  lemma AtMostOneHolder(rs: seq<Resource>, identity: string)
    requires DistinctIdentities(rs) && identity != ""
    requires exists i :: HeldBy(rs, identity, i)
    ensures HeldOnce(rs, identity)
  {
    var i :| HeldBy(rs, identity, i);
    forall k | 0 <= k < |rs| && HeldBy(rs, identity, k) ensures k == i {
    }
  }

  /** Merge coverage: every owned observation's identity is held by exactly one entry. */
  lemma MergeHoldsEachOwnedIdentityOnce(rs: seq<Resource>, observed: seq<Observation>, j: nat)
    requires ValidInventory(observed) && DistinctIdentities(rs)
    requires j < |observed| && observed[j].owned
    ensures HeldOnce(Merge(rs, observed), observed[j].identity)
  {
    var merged := Merge(rs, observed);
    MergeCovers(rs, observed, j);
    MergeKeepsIdentitiesDistinct(rs, observed);
    AtMostOneHolder(merged, observed[j].identity);
  }

  /** Unowned observations are never adopted: an identity only they carry enters no entry. */
  lemma MergeNeverAdoptsUnowned(rs: seq<Resource>, observed: seq<Observation>, j: nat, i: nat)
    requires ValidInventory(observed)
    requires j < |observed| && !observed[j].owned
    requires i < |Merge(rs, observed)|
    ensures Merge(rs, observed)[i].identity == observed[j].identity ==> Untouched(rs, Merge(rs, observed), i)
  {
    var merged := Merge(rs, observed);
    MergeProvenance(rs, observed);
    assert Explained(rs, observed, merged, i);
    if !Untouched(rs, merged, i) {
      var k :| 0 <= k < |observed| && TouchedBy(rs, merged, i, observed[k]);
      assert k != j;
      assert observed[k].identity != observed[j].identity;
    }
  }

  // ---- validity --------------------------------------------------------------------------------

  function Tail(r: Resource): string {
    if !Blank(r.identity) then r.identity else r.name
  }

  lemma {:induction false} SplitAtColon(a: string, x: string, b: string, y: string)
    requires NoColon(a) && NoColon(b) && a + ":" + x == b + ":" + y
    ensures a == b && x == y
  {
    var s := a + ":" + x;
    assert forall i | 0 <= i < |a| :: s[i] == a[i];
    assert forall i | 0 <= i < |b| :: s[i] == b[i];
    assert s[|a|] == ':' && s[|b|] == ':';
    assert |a| == |b|;
    assert a == s[..|a|] && b == s[..|b|];
    assert x == s[|a| + 1..] && y == s[|b| + 1..];
  }

  lemma SameKeySameTail(r: Resource, t: Resource)
    requires NoColon(r.kind) && NoColon(t.kind) && Key(r) != "" && Key(r) == Key(t)
    ensures r.kind == t.kind && Tail(r) == Tail(t)
  {
    SplitAtColon(r.kind, Tail(r), t.kind, Tail(t));
  }

  lemma MergedKinds(rs: seq<Resource>, observed: seq<Observation>)
    requires ValidInventory(observed) && WellFormed(rs, observed)
    ensures forall i | 0 <= i < |Merge(rs, observed)| :: NoColon(Merge(rs, observed)[i].kind)
  {
    var merged := Merge(rs, observed);
    MergeProvenance(rs, observed);
    forall i | 0 <= i < |merged| ensures NoColon(merged[i].kind) {
      assert Explained(rs, observed, merged, i);
    }
  }

  /** What a merge writes for each owned observation passes the ledger's line, rank and secret-name checks. */
  predicate FieldsAcceptable(rs: seq<Resource>, observed: seq<Observation>) {
    forall j | 0 <= j < |observed| && observed[j].owned :: ValidResource(Written(rs, observed, j))
  }

  predicate EntriesValid(rs: seq<Resource>) {
    forall i | 0 <= i < |rs| :: ValidResource(rs[i])
  }

  lemma MergedEntriesValidIff(rs: seq<Resource>, observed: seq<Observation>)
    requires ValidResources(rs) && ValidInventory(observed)
    ensures EntriesValid(Merge(rs, observed)) <==> FieldsAcceptable(rs, observed)
  {
    var merged := Merge(rs, observed);
    if EntriesValid(merged) {
      forall j | 0 <= j < |observed| && observed[j].owned ensures ValidResource(Written(rs, observed, j)) {
        WrittenIsHeld(rs, observed, j);
      }
    }
    if FieldsAcceptable(rs, observed) {
      forall i | 0 <= i < |merged| ensures ValidResource(merged[i]) { MergeWrites(rs, observed, i); }
    }
  }

  lemma MergedKeysDistinct(rs: seq<Resource>, observed: seq<Observation>)
    requires ValidResources(rs) && ValidInventory(observed) && WellFormed(rs, observed)
    requires EntriesValid(Merge(rs, observed))
    ensures ValidResources(Merge(rs, observed))
  {
    var merged := Merge(rs, observed);
    MergeProvenance(rs, observed);
    MergedKinds(rs, observed);
    MergeKeepsIdentitiesDistinct(rs, observed);
    forall i | 0 <= i < |merged| ensures Key(merged[i]) != "" {
      assert ValidResource(merged[i]);
    }
    forall i, k | 0 <= i < k < |merged| ensures Key(merged[i]) != Key(merged[k]) {
      TailsDiffer(rs, observed, i, k);
      if Key(merged[i]) == Key(merged[k]) {
        SameKeySameTail(merged[i], merged[k]);
      }
    }
  }

  /**
   * Under the hypotheses a merge breaks the ledger exactly when what it writes for some owned observation is not
   * acceptable by itself; it never does so through keys.
   */
  lemma MergedLedgerValidIff(h: Header, rs: seq<Resource>, observed: seq<Observation>)
    requires ValidLedger(h, rs) && ValidInventory(observed) && WellFormed(rs, observed)
    ensures ValidLedger(h, Merge(rs, observed)) <==> FieldsAcceptable(rs, observed)
  {
    MergedEntriesValidIff(rs, observed);
    if EntriesValid(Merge(rs, observed)) { MergedKeysDistinct(rs, observed); }
  }

  lemma TailsDiffer(rs: seq<Resource>, observed: seq<Observation>, i: nat, k: nat)
    requires ValidResources(rs) && ValidInventory(observed)
    requires WellFormed(rs, observed)
    requires i < k < |Merge(rs, observed)| && |rs| <= |Merge(rs, observed)|
    requires DistinctIdentities(Merge(rs, observed))
    requires Explained(rs, observed, Merge(rs, observed), i) && Explained(rs, observed, Merge(rs, observed), k)
    requires ValidResource(Merge(rs, observed)[i]) && ValidResource(Merge(rs, observed)[k])
    ensures Key(Merge(rs, observed)[i]) != Key(Merge(rs, observed)[k])
         || Tail(Merge(rs, observed)[i]) != Tail(Merge(rs, observed)[k])
  {
    var m := Merge(rs, observed);
    if !Untouched(rs, m, i) {
      var j :| 0 <= j < |observed| && TouchedBy(rs, m, i, observed[j]);
      assert Tail(m[i]) == observed[j].identity;
      if m[k].identity == "" {
        assert Untouched(rs, m, k) by { UnboundIsUntouched(rs, observed, m, k); }
        assert rs[k].name != observed[j].identity;
      }
    } else if !Untouched(rs, m, k) {
      var j :| 0 <= j < |observed| && TouchedBy(rs, m, k, observed[j]);
      assert Tail(m[k]) == observed[j].identity;
      if m[i].identity == "" {
        assert rs[i].name != observed[j].identity;
      }
    }
  }

  lemma UnboundIsUntouched(rs: seq<Resource>, observed: seq<Observation>, merged: seq<Resource>, i: nat)
    requires ValidInventory(observed) && i < |merged| && merged[i].identity == ""
    requires Explained(rs, observed, merged, i)
    ensures Untouched(rs, merged, i)
  {
    assert forall j | 0 <= j < |observed| :: observed[j].identity != "";
  }

  const SECRET_KIND := Observation("database-token", "", "", "db-1", true, true, false, false)

  /** The validators differ: an inventory that is accepted can leave a ledger that is not. */
  lemma AcceptedInventoryCanInvalidateLedger()
    ensures ValidInventory([SECRET_KIND]) && WellFormed([], [SECRET_KIND])
    ensures ValidResources([]) && !ValidResources(Merge([], [SECRET_KIND]))
  {
    MergeIntoNothing(SECRET_KIND);
    SecretKindIsSensitive(Adopt(SECRET_KIND));
    assert !ValidResource(Merge([], [SECRET_KIND])[0]);
    assert !Blank("db-1") by { assert !IsSpace("db-1"[0]); }
    assert !Blank("database-token") by { assert !IsSpace("database-token"[0]); }
    assert ValidObservation([SECRET_KIND][0]);
  }

  lemma MergeIntoNothing(o: Observation)
    requires o.owned
    ensures Merge([], [o]) == [Adopt(o)]
  {
    assert [o][..0] == [];
    assert Merge([], [o][..0]) == [];
  }

  lemma SecretKindIsSensitive(r: Resource)
    requires r.kind == "database-token"
    ensures Sensitive(Fields(r))
  {
    var s := Fields(r);
    assert s[..14] == r.kind;
    assert s[9..14] == "token" by { assert s[9..14] == r.kind[9..14]; }
    assert s[9] == 't' && s[10] == 'o' && s[11] == 'k' && s[12] == 'e' && s[13] == 'n' by {
      assert forall i | 0 <= i < 5 :: s[9 + i] == s[9..14][i];
    }
    assert WordAt(s, 9, "token");
    assert SensitiveAt(s, 9);
  }
}
