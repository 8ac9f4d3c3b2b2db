/** Which inventories let some accepted ledger name an unowned resource. */
module CleanupExposure {
  import opened Optional
  import opened Text
  import opened CleanupLedger
  import opened CleanupMerge
  import opened CleanupSafety
  import opened CleanupSettle
  import opened CleanupDetails
  import opened CleanupForeign
  import opened CleanupConvergence

  // ---- the lookup is the last namesake ---------------------------------------------------------

  predicate Namesake(o: Observation, kind: string, name: string) {
    o.kind == kind && o.name == name
  }

  /** The last observation of a kind and name. */
  function LastNamed(observed: seq<Observation>, kind: string, name: string): Option<Observation> {
    if observed == [] then None
    else
      var o := observed[|observed| - 1];
      if Namesake(o, kind, name) then Some(o) else LastNamed(observed[..|observed| - 1], kind, name)
  }

  /** While no observed kind clashes with its own, an unbound entry is looked up as the last observation of its kind and name. */
  lemma {:induction false} LookupIsLast(observed: seq<Observation>, r: Resource)
    requires r.identity == "" && r.name != "" && forall o | o in observed :: !Clashing(r.kind, o.kind)
    ensures Lookup(IndexInventory(observed), r) == LastNamed(observed, r.kind, r.name)
  {
    if observed != [] {
      var o := observed[|observed| - 1];
      LookupIsLast(observed[..|observed| - 1], r);
      KeysOfTwoKinds(o.identity, r.kind, r.name, "");
      assert o in observed;
      if NameKey(r.kind, r.name) == NameKey(o.kind, o.name) { NameKeySplits(r.kind, r.name, o.kind, o.name); }
    }
  }

  lemma NamesakeLookup(observed: seq<Observation>, r: Resource, o: Observation)
    requires (forall k | 0 <= k < |observed| :: NoColon(observed[k].kind)) && o in observed && SameName(r, o)
    ensures Lookup(IndexInventory(observed), r) == LastNamed(observed, o.kind, o.name)
  {
    forall x | x in observed ensures !Clashing(r.kind, x.kind) { NoColonNoClash(r.kind, x.kind); }
    LookupIsLast(observed, r);
  }

  // ---- secret words around a letter none of them has -------------------------------------------

  predicate NoZ(word: string) {
    forall j | 0 <= j < |word| :: word[j] != 'z'
  }

  lemma WordAround(a: string, b: string, i: nat, word: string)
    requires NoZ(word) && word != "" && WordAt(a + "z" + b, i, word)
    ensures if i < |a| then WordAt(a, i, word) else i > |a| && WordAt(b, i - |a| - 1, word)
  {
    var s := a + "z" + b;
    assert s[|a|] == 'z' && forall j | 0 <= j < |b| :: s[|a| + 1 + j] == b[j];
    forall k | i <= k < i + |word| ensures s[k] != 'z' { assert Fold(s[i + (k - i)]) == word[k - i]; }
    if i < |a| {
      forall j | 0 <= j < |word| ensures Fold(a[i + j]) == word[j] { assert Fold(s[i + j]) == word[j]; }
    } else {
      forall j | 0 <= j < |word| ensures Fold(b[i - |a| - 1 + j]) == word[j] { assert Fold(s[i + j]) == word[j]; }
    }
  }

  lemma NoneHasZ()
    ensures NoZ("password") && NoZ("secret") && NoZ("token") && NoZ("key")
    ensures NoZ("api") && NoZ("access") && NoZ("private")
  {
  }

  lemma KeyWordAround(a: string, b: string, i: nat, stem: string)
    requires NoZ(stem) && stem != "" && KeyWordAt(a + "z" + b, i, stem)
    ensures if i < |a| then KeyWordAt(a, i, stem) else i > |a| && KeyWordAt(b, i - |a| - 1, stem)
  {
    NoneHasZ();
    var s, k := a + "z" + b, i + |stem|;
    assert s[|a|] == 'z' && forall j | 0 <= j < |b| :: s[|a| + 1 + j] == b[j];
    WordAround(a, b, i, stem);
    if WordAt(s, k, "key") {
      WordAround(a, b, k, "key");
    } else {
      WordAround(a, b, k + 1, "key");
    }
  }

  lemma SensitiveAround(a: string, b: string, i: nat)
    requires SensitiveAt(a + "z" + b, i)
    ensures if i < |a| then SensitiveAt(a, i) else i > |a| && SensitiveAt(b, i - |a| - 1)
  {
    NoneHasZ();
    var s := a + "z" + b;
    if WordAt(s, i, "password") { WordAround(a, b, i, "password"); }
    if WordAt(s, i, "secret") { WordAround(a, b, i, "secret"); }
    if WordAt(s, i, "token") { WordAround(a, b, i, "token"); }
    if KeyWordAt(s, i, "api") { KeyWordAround(a, b, i, "api"); }
    if KeyWordAt(s, i, "access") { KeyWordAround(a, b, i, "access"); }
    if KeyWordAt(s, i, "private") { KeyWordAround(a, b, i, "private"); }
  }

  lemma SensitiveHalves(a: string, b: string)
    ensures Sensitive(a + "z" + b) ==> Sensitive(a) || Sensitive(b)
  {
    var s := a + "z" + b;
    if Sensitive(s) {
      var i :| 0 <= i < |s| && SensitiveAt(s, i);
      SensitiveAround(a, b, i);
    }
  }

  /** No part of a text without a secret word has one. */
  lemma PartNotSensitive(a: string, b: string, c: string)
    requires !Sensitive(a + b + c)
    ensures !Sensitive(b)
  {
    PrefixNotSensitive(a + b, c);
    forall i | 0 <= i < |b| ensures !SensitiveAt(b, i) {
      if SensitiveAt(b, i) { SensitiveShifted(a, b, i); }
    }
  }

  lemma WordShifted(a: string, b: string, i: nat, word: string)
    requires WordAt(b, i, word)
    ensures WordAt(a + b, |a| + i, word)
  {
    forall j | 0 <= j < |word| ensures Fold((a + b)[|a| + i + j]) == word[j] { assert Fold(b[i + j]) == word[j]; }
  }

  lemma KeyWordShifted(a: string, b: string, i: nat, stem: string)
    requires KeyWordAt(b, i, stem)
    ensures KeyWordAt(a + b, |a| + i, stem)
  {
    var k := i + |stem|;
    WordShifted(a, b, i, stem);
    if WordAt(b, k, "key") { WordShifted(a, b, k, "key"); } else { WordShifted(a, b, k + 1, "key"); }
  }

  lemma SensitiveShifted(a: string, b: string, i: nat)
    requires i < |b| && SensitiveAt(b, i)
    ensures SensitiveAt(a + b, |a| + i)
  {
    if WordAt(b, i, "password") { WordShifted(a, b, i, "password"); }
    if WordAt(b, i, "secret") { WordShifted(a, b, i, "secret"); }
    if WordAt(b, i, "token") { WordShifted(a, b, i, "token"); }
    if KeyWordAt(b, i, "api") { KeyWordShifted(a, b, i, "api"); }
    if KeyWordAt(b, i, "access") { KeyWordShifted(a, b, i, "access"); }
    if KeyWordAt(b, i, "private") { KeyWordShifted(a, b, i, "private"); }
  }

  lemma FieldsNotSensitive(r: Resource)
    requires ValidResource(r)
    ensures !Sensitive(r.kind) && !Sensitive(r.name) && !Sensitive(r.identity)
  {
    assert Fields(r) == "" + r.kind + (r.role + r.name + r.identity + r.detail);
    assert Fields(r) == (r.kind + r.role) + r.name + (r.identity + r.detail);
    assert Fields(r) == (r.kind + r.role + r.name) + r.identity + r.detail;
    PartNotSensitive("", r.kind, r.role + r.name + r.identity + r.detail);
    PartNotSensitive(r.kind + r.role, r.name, r.identity + r.detail);
    PartNotSensitive(r.kind + r.role + r.name, r.identity, r.detail);
  }

  // ---- the inventory alone ---------------------------------------------------------------------

  /** Owned namesakes can be bound by identity: no ledger may hold a text with a secret word. */
  predicate NamesakesStorable(observed: seq<Observation>, kind: string, name: string) {
    forall m | 0 <= m < |observed| && observed[m].owned && Namesake(observed[m], kind, name) :: !Sensitive(observed[m].identity)
  }

  /** An unowned resource with a name, whose last namesake is owned, live, unprotected and not delayed. */
  predicate Masked(observed: seq<Observation>, j: nat) {
    && j < |observed| && !observed[j].owned && observed[j].name != ""
    && Deletable(LastNamed(observed, observed[j].kind, observed[j].name))
    && !Sensitive(observed[j].kind) && !Sensitive(observed[j].name)
    && NamesakesStorable(observed, observed[j].kind, observed[j].name)
  }

  lemma ExposedIsMasked(rs: seq<Resource>, observed: seq<Observation>, n: nat) returns (j: nat)
    requires ValidResources(rs) && ValidInventory(observed) && (forall k | 0 <= k < |observed| :: NoColon(observed[k].kind))
    requires Exposed(rs, observed, n)
    ensures Masked(observed, j)
  {
    var r := rs[n];
    var o :| o in observed && !o.owned && SameName(r, o);
    j :| 0 <= j < |observed| && observed[j] == o;
    NamesakeLookup(observed, r, o);
    FieldsNotSensitive(r);
    forall m | 0 <= m < |observed| && observed[m].owned && Namesake(observed[m], o.kind, o.name)
      ensures !Sensitive(observed[m].identity)
    {
      var i := IdentityMatch(rs, observed[m], 0);
      assert SameName(r, observed[m]) && i >= 0;
      FieldsNotSensitive(rs[i]);
    }
  }

  // ---- a ledger that exposes a masked resource -------------------------------------------------

  function HolderKind(kind: string): string {
    if kind == "z" then "zz" else "z"
  }

  function Holder(kind: string, identity: string): Resource {
    Resource(HolderKind(kind), "", "", identity, 0, Claimed, "")
  }

  function Unbound(kind: string, name: string): Resource {
    Resource(kind, "z", name, "", 0, Claimed, "")
  }

  /** One entry for each owned namesake, bound to it by identity. */
  function Holders(observed: seq<Observation>, kind: string, name: string): seq<Resource> {
    if observed == [] then []
    else
      var o := observed[|observed| - 1];
      Holders(observed[..|observed| - 1], kind, name)
      + if o.owned && Namesake(o, kind, name) then [Holder(kind, o.identity)] else []
  }

  predicate HolderOf(observed: seq<Observation>, kind: string, name: string, r: Resource, m: nat) {
    m < |observed| && observed[m].owned && Namesake(observed[m], kind, name) && r == Holder(kind, observed[m].identity)
  }

  lemma {:induction false} HolderFrom(observed: seq<Observation>, kind: string, name: string, i: nat) returns (m: nat)
    requires i < |Holders(observed, kind, name)|
    ensures HolderOf(observed, kind, name, Holders(observed, kind, name)[i], m)
  {
    var n := |observed| - 1;
    if i < |Holders(observed[..n], kind, name)| {
      m := HolderFrom(observed[..n], kind, name, i);
    } else {
      m := n;
    }
  }

  lemma {:induction false} HoldersCover(observed: seq<Observation>, kind: string, name: string, m: nat)
    requires m < |observed| && observed[m].owned && Namesake(observed[m], kind, name)
    ensures Holder(kind, observed[m].identity) in Holders(observed, kind, name)
  {
    var n := |observed| - 1;
    if m < n {
      HoldersCover(observed[..n], kind, name, m);
    }
  }

  lemma HolderKeys(kind: string, a: string, b: string)
    requires !Blank(a) && !Blank(b)
    ensures Key(Holder(kind, a)) == Key(Holder(kind, b)) <==> a == b
  {
    if Key(Holder(kind, a)) == Key(Holder(kind, b)) { SplitAtColon(HolderKind(kind), a, HolderKind(kind), b); }
  }

  lemma {:induction false} HoldersDistinct(observed: seq<Observation>, kind: string, name: string)
    requires ValidInventory(observed)
    ensures DistinctKeys(Holders(observed, kind, name))
  {
    if observed != [] {
      var n := |observed| - 1;
      PrefixValid(observed);
      HoldersDistinct(observed[..n], kind, name);
      var front := Holders(observed[..n], kind, name);
      forall i | 0 <= i < |front| ensures Key(front[i]) != Key(Holder(kind, observed[n].identity)) {
        var m := HolderFrom(observed[..n], kind, name, i);
        HolderKeys(kind, observed[m].identity, observed[n].identity);
      }
    }
  }

  lemma Letters()
    ensures RequiredLine("z") && RequiredLine("zz") && !Sensitive("z") && !Sensitive("") && NoColon("z") && NoColon("zz")
  {
    assert !IsSpace("z"[0]) && !IsSpace("zz"[0]);
    SensitiveHalves("", "");
    assert "" + "z" + "" == "z";
  }

  lemma HolderValid(kind: string, identity: string)
    requires RequiredLine(identity) && !Sensitive(identity)
    ensures ValidResource(Holder(kind, identity)) && Key(Holder(kind, identity)) == HolderKind(kind) + ":" + identity
  {
    Letters();
    SensitiveHalves("", identity);
    SensitiveHalves("z", identity);
    assert Fields(Holder(kind, identity)) == HolderKind(kind) + identity;
    assert "z" + identity == "" + "z" + identity && "zz" + identity == "z" + "z" + identity;
  }

  lemma UnboundValid(kind: string, name: string)
    requires RequiredLine(kind) && RequiredLine(name) && !Sensitive(kind) && !Sensitive(name)
    ensures ValidResource(Unbound(kind, name)) && Key(Unbound(kind, name)) == kind + ":" + name
  {
    Letters();
    SensitiveHalves(kind, name);
    assert Fields(Unbound(kind, name)) == kind + "z" + name;
  }

  lemma HolderIsNotUnbound(kind: string, name: string, identity: string)
    requires NoColon(kind)
    ensures HolderKind(kind) + ":" + identity != kind + ":" + name
  {
    Letters();
    if HolderKind(kind) + ":" + identity == kind + ":" + name { SplitAtColon(HolderKind(kind), identity, kind, name); }
  }

  /** The owned namesakes, each bound by identity, and one unbound entry of the same kind and name. */
  function Exposing(observed: seq<Observation>, kind: string, name: string): seq<Resource> {
    Holders(observed, kind, name) + [Unbound(kind, name)]
  }

  lemma HoldersValid(observed: seq<Observation>, kind: string, name: string, i: nat)
    requires ValidInventory(observed) && NamesakesStorable(observed, kind, name) && i < |Holders(observed, kind, name)|
    ensures var r := Holders(observed, kind, name)[i];
            ValidResource(r) && r.identity != "" && r.kind == HolderKind(kind) && Key(r) == r.kind + ":" + r.identity
  {
    var m := HolderFrom(observed, kind, name, i);
    assert ValidObservation(observed[m]);
    HolderValid(kind, observed[m].identity);
  }

  lemma ExposingValid(observed: seq<Observation>, j: nat)
    requires ValidInventory(observed) && Masked(observed, j) && NoColon(observed[j].kind)
    ensures ValidResources(Exposing(observed, observed[j].kind, observed[j].name))
  {
    var kind, name := observed[j].kind, observed[j].name;
    var holders, rs := Holders(observed, kind, name), Exposing(observed, kind, name);
    assert ValidObservation(observed[j]);
    UnboundValid(kind, name);
    HoldersDistinct(observed, kind, name);
    forall i | 0 <= i < |holders| ensures ValidResource(holders[i]) && Key(holders[i]) != "" && Key(holders[i]) != Key(Unbound(kind, name)) {
      HoldersValid(observed, kind, name, i);
      HolderIsNotUnbound(kind, name, holders[i].identity);
    }
  }

  lemma ExposingIsFirst(observed: seq<Observation>, j: nat)
    requires ValidInventory(observed) && Masked(observed, j) && NoColon(observed[j].kind)
    requires var kind, name := observed[j].kind, observed[j].name;
             var rs, n := Exposing(observed, kind, name), |Holders(observed, kind, name)|;
             n < |Merge(rs, observed)| && Merge(rs, observed)[n] == rs[n]
    ensures var kind, name := observed[j].kind, observed[j].name;
            !Shadowed(Merge(Exposing(observed, kind, name), observed), |Holders(observed, kind, name)|)
  {
    var kind, name := observed[j].kind, observed[j].name;
    var holders, rs := Holders(observed, kind, name), Exposing(observed, kind, name);
    var merged := Merge(rs, observed);
    MergeEvolves(rs, observed);
    UnboundValid(kind, name);
    forall i | 0 <= i < |holders| ensures Key(merged[i]) != Key(merged[|holders|]) {
      HoldersValid(observed, kind, name, i);
      assert rs[i] == holders[i] && Follows(rs[i], merged[i]);
      HolderIsNotUnbound(kind, name, holders[i].identity);
      assert Key(merged[i]) == Key(holders[i]);
    }
  }

  lemma MaskedIsExposed(observed: seq<Observation>, j: nat)
    requires ValidInventory(observed) && (forall k | 0 <= k < |observed| :: NoColon(observed[k].kind)) && Masked(observed, j)
    ensures var rs := Exposing(observed, observed[j].kind, observed[j].name); ValidResources(rs) && Exposes(rs, observed)
  {
    var kind, name := observed[j].kind, observed[j].name;
    var rs, n := Exposing(observed, kind, name), |Holders(observed, kind, name)|;
    ExposingValid(observed, j);
    assert rs[n] == Unbound(kind, name);
    NamesakeLookup(observed, rs[n], observed[j]);
    forall m | 0 <= m < |observed| && observed[m].owned && SameName(rs[n], observed[m])
      ensures IdentityMatch(rs, observed[m], 0) >= 0
    {
      HoldersCover(observed, kind, name, m);
      var i :| 0 <= i < n && Holders(observed, kind, name)[i] == Holder(kind, observed[m].identity);
      assert ValidObservation(observed[m]) && SameIdentity(rs[i], observed[m]);
    }
    LeftUnboundIff(rs, observed, n);
    UnboundIff(rs, observed, n);
    UnboundIsOld(rs, observed, n);
    ExposingIsFirst(observed, j);
    assert observed[j] in observed && SameName(rs[n], observed[j]);
    assert Exposed(rs, observed, n);
  }

  lemma ExposesIff(observed: seq<Observation>)
    requires ValidInventory(observed) && forall k | 0 <= k < |observed| :: NoColon(observed[k].kind)
    ensures (exists rs :: ValidResources(rs) && Exposes(rs, observed)) <==> exists j :: Masked(observed, j)
  {
    if rs :| ValidResources(rs) && Exposes(rs, observed) {
      var n :| Exposed(rs, observed, n);
      var j := ExposedIsMasked(rs, observed, n);
    }
    if j :| Masked(observed, j) {
      MaskedIsExposed(observed, j);
    }
  }

  /** The next pass from some accepted ledger calls Delete for an entry that names an unowned resource. */
  ghost predicate Endangers(s: Services, o: Options, observed: seq<Observation>) {
    exists rs :: ValidResources(rs) && NamesForeign(Sweep(s, o, rs, observed).log, observed)
  }

  /**
   * For colon-free kinds and services that do not fail, some accepted ledger lets a pass name an unowned resource of
   * this inventory exactly when the inventory masks one: the last observation of its kind and name is owned and can
   * be deleted.
   */
  lemma InventoryEndangersIff(s: Services, o: Options, observed: seq<Observation>)
    requires ValidInventory(observed) && forall k | 0 <= k < |observed| :: NoColon(observed[k].kind)
    requires Reliable(s) && !o.dryRun
    ensures Endangers(s, o, observed) <==> exists j :: Masked(observed, j)
  {
    ExposesIff(observed);
    forall rs | ValidResources(rs)
      ensures NamesForeign(Sweep(s, o, rs, observed).log, observed) <==> Exposes(rs, observed)
    {
      SweepReliable(s, o, rs, observed);
      DeletesOnlyOwnedIff(s, o, rs, observed);
    }
  }
}
