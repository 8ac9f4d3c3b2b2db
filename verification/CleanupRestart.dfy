/** Which of the ledgers a pass leaves behind the next pass accepts. */
module CleanupRestart {
  import opened CleanupTexts
  import opened Optional
  import opened Text
  import opened CleanupLedger
  import opened CleanupSafety
  import opened CleanupSettle
  import opened CleanupDetails

  // ---- one entry -------------------------------------------------------------------------------

  /** What the secret scan sees of an entry before its detail. */
  function Prefix(r: Resource): string {
    r.kind + r.role + r.name + r.identity
  }

  /** Recording this entry as deleted would spell a sensitive word. */
  predicate Stranding(r: Resource) {
    EndsInPasswor(Prefix(r))
  }

  predicate Unchanging(s: Status) {
    s != Intended && !s.Unsupported?
  }

  lemma LineOfKnownStart(t: string)
    requires Innocent(t) && KnownStart(t)
    ensures RequiredLine(t)
  {
    assert !IsSpace(t[0]);
  }

  /** An accepted entry stays acceptable under another text exactly when the text does not complete a sensitive word. */
  lemma RetoldValidIff(a: Resource, status: Status, t: string)
    requires ValidResource(a) && Key(a) != "" && Unchanging(status) && Innocent(t) && KnownStart(t)
    ensures ValidResource(a.(status := status, detail := t)) <==> !(Stranding(a) && Starts(t, 'd', 'e', 'l'))
  {
    LineOfKnownStart(t);
    PrefixNotSensitive(Prefix(a), a.detail);
    WrittenSensitiveIff(Prefix(a), t);
    assert Fields(a.(status := status, detail := t)) == Prefix(a) + t;
  }

  lemma RestatedValid(a: Resource, status: Status)
    requires ValidResource(a) && Key(a) != "" && Unchanging(status)
    ensures ValidResource(a.(status := status))
  {
    assert Fields(a.(status := status)) == Fields(a);
  }

  predicate Retold(a: Resource, b: Resource) {
    && b == a.(status := b.status, detail := b.detail) && Unchanging(b.status)
    && b.detail in [a.detail, UNCONFIRMED, PROTECTED, DELAYED, VANISHED]
  }

  /** Every text but the one for a deletion is harmless after every accepted entry. */
  lemma RetoldValid(a: Resource, b: Resource)
    requires ValidResource(a) && Key(a) != "" && Retold(a, b)
    ensures ValidResource(b)
  {
    if b.detail == a.detail {
      RestatedValid(a, b.status);
    } else {
      UnconfirmedText();
      ProtectedText();
      DelayedText();
      VanishedText();
      RetoldValidIff(a, b.status, b.detail);
    }
  }

  lemma DeletedValidIff(a: Resource)
    requires ValidResource(a) && Key(a) != ""
    ensures ValidResource(a.(status := Gone, detail := DELETED)) <==> !Stranding(a)
  {
    DeletedText();
    RetoldValidIff(a, Gone, DELETED);
  }

  /** A provider message that the ledger can hold as the detail of this entry; multi-line ones are replaced. */
  predicate MessageFits(r: Resource, message: string) {
    SingleLine(message) ==> (message == "" || !Blank(message)) && !Sensitive(Prefix(r) + message)
  }

  lemma RejectedValidIff(a: Resource, message: string)
    requires ValidResource(a) && Key(a) != "" && a.status == Deleting
    ensures ValidResource(a.(detail := FailureDetail(message))) <==> MessageFits(a, message)
  {
    var entry := a.(detail := FailureDetail(message));
    assert Fields(entry) == Prefix(a) + FailureDetail(message);
    if !SingleLine(message) {
      ReplacementText();
      LineOfKnownStart(DELETE_FAILED);
      RetoldValidIff(a, Deleting, DELETE_FAILED);
    }
  }

  // ---- the log ---------------------------------------------------------------------------------

  /** A deletion that succeeded whose entry then spells a sensitive word. */
  predicate Stranded(log: seq<Event>) {
    exists r | r in Deletions(log) :: Stranding(r)
  }

  lemma StrandedAppend(log: seq<Event>, e: Event)
    ensures Stranded(log + [e]) <==> Stranded(log) || (e.Delete? && e.deleted == DeleteOk && Stranding(e.resource))
  {
    DeletionsAppend(log, e);
    if Stranded(log) {
      var r :| r in Deletions(log) && Stranding(r);
      assert r in Deletions(log + [e]);
    }
    if e.Delete? && e.deleted == DeleteOk && Stranding(e.resource) {
      assert e.resource in Deletions(log + [e]);
    }
  }

  /** The save that records a rejected deletion, the only one whose text comes from the provider. */
  predicate RecordsRejection(log: seq<Event>, i: nat) {
    0 < i < |log| && log[i].Save? && log[i - 1].Delete? && log[i - 1].deleted.DeleteFailed?
  }

  predicate RejectionFits(log: seq<Event>, i: nat)
    requires RecordsRejection(log, i)
  {
    MessageFits(log[i - 1].resource, log[i - 1].deleted.message)
  }

  predicate SaveRule(log: seq<Event>, i: nat) {
    i < |log| && log[i].Save? ==>
      (ValidResources(log[i].resources) <==>
         !Stranded(log[..i]) && (RecordsRejection(log, i) ==> RejectionFits(log, i)))
  }

  predicate SavesRuled(log: seq<Event>) {
    forall i | 0 <= i < |log| :: SaveRule(log, i)
  }

  lemma RuleKept(log: seq<Event>, e: Event, i: nat)
    requires i < |log| && SaveRule(log, i)
    ensures SaveRule(log + [e], i)
  {
    assert (log + [e])[..i] == log[..i];
  }

  lemma RulesAppend(log: seq<Event>, e: Event)
    requires SavesRuled(log) && SaveRule(log + [e], |log|)
    ensures SavesRuled(log + [e])
  {
    forall i | 0 <= i < |log + [e]| ensures SaveRule(log + [e], i) {
      if i < |log| { RuleKept(log, e, i); }
    }
  }

  predicate NoRejections(log: seq<Event>) {
    forall i | 0 <= i < |log| && log[i].Delete? :: log[i].deleted == DeleteOk
  }

  // ---- the pass --------------------------------------------------------------------------------

  predicate AllValid(rs: seq<Resource>) {
    forall k | 0 <= k < |rs| :: ValidResource(rs[k])
  }

  /** Entries are named apart; any that is no longer acceptable is finished. */
  predicate Orderly(rs: seq<Resource>) {
    && (forall k | 0 <= k < |rs| :: Key(rs[k]) != "" && (ValidResource(rs[k]) || rs[k].status == Gone))
    && DistinctKeys(rs)
  }

  predicate Running(p: Pass) {
    p.failure.None? && Orderly(p.resources) && NoRejections(p.log) && (AllValid(p.resources) <==> !Stranded(p.log))
  }

  predicate Ruled(p: Pass) {
    SavesRuled(p.log) && (p.failure.None? ==> Running(p))
  }

  lemma PlainSaveRuled(log: seq<Event>, rs: seq<Resource>, saved: SaveOutcome)
    requires NoRejections(log) && (ValidResources(rs) <==> !Stranded(log))
    ensures SaveRule(log + [Save(rs, saved)], |log|)
  {
    var all := log + [Save(rs, saved)];
    assert all[..|log|] == log;
    assert |log| > 0 ==> all[|log| - 1] == log[|log| - 1];
  }

  lemma PersistRuled(s: Services, o: Options, p: Pass)
    requires Ruled(p) && p.failure.None?
    ensures Ruled(Persist(s, o, p))
  {
    if o.persist {
      var save := Save(p.resources, s.save(p.log));
      PlainSaveRuled(p.log, p.resources, s.save(p.log));
      RulesAppend(p.log, save);
      StrandedAppend(p.log, save);
    }
  }

  lemma KeysKept(rs: seq<Resource>, i: nat, r: Resource)
    requires i < |rs| && Key(r) == Key(rs[i])
    ensures forall k | 0 <= k < |rs| :: Key(rs[i := r][k]) == Key(rs[k])
    ensures DistinctKeys(rs) ==> DistinctKeys(rs[i := r])
  {
  }

  lemma RetoldOrderly(rs: seq<Resource>, i: nat, r: Resource)
    requires Orderly(rs) && i < |rs| && rs[i].status != Gone && Retold(rs[i], r)
    ensures Orderly(rs[i := r]) && (AllValid(rs[i := r]) <==> AllValid(rs))
  {
    KeysKept(rs, i, r);
    RetoldValid(rs[i], r);
    assert AllValid(rs[i := r]) <==> forall k | 0 <= k < |rs| && k != i :: ValidResource(rs[k]);
  }

  lemma RetoldRuled(p: Pass, q: Pass, index: nat, r: Resource)
    requires Ruled(p) && p.failure.None? && index < |p.resources| && p.resources[index].status != Gone
    requires Retold(p.resources[index], r)
    requires q.resources == p.resources[index := r] && q.log == p.log && q.failure.None?
    ensures Ruled(q)
  {
    RetoldOrderly(p.resources, index, r);
  }

  lemma OthersValid(rs: seq<Resource>, index: nat, r: Resource)
    requires Orderly(rs) && index < |rs| && ValidResource(rs[index]) && Key(r) == Key(rs[index])
    ensures ValidResources(rs[index := r]) <==> AllValid(rs) && ValidResource(r)
  {
    KeysKept(rs, index, r);
    var next := rs[index := r];
    assert next[index] == r;
    assert AllValid(next) <==> (forall k | 0 <= k < |rs| && k != index :: ValidResource(rs[k])) && ValidResource(r);
  }

  lemma RejectionSaveRuled(log: seq<Event>, rs: seq<Resource>, e: Event, saved: SaveOutcome)
    requires e.Delete? && e.deleted.DeleteFailed?
    requires ValidResources(rs) <==> !Stranded(log) && MessageFits(e.resource, e.deleted.message)
    ensures SaveRule(log + [e] + [Save(rs, saved)], |log| + 1)
  {
    var all := log + [e] + [Save(rs, saved)];
    assert all[..|log| + 1] == log + [e] && all[|log|] == e;
    StrandedAppend(log, e);
    assert RecordsRejection(all, |log| + 1);
  }

  lemma RejectionRuled(s: Services, o: Options, p: Pass, index: nat, message: string)
    requires Ruled(p) && p.failure.None? && index < |p.resources| && p.resources[index].status == Deleting
    ensures var e := Delete(p.resources[index], DeleteFailed(message));
            var entry := p.resources[index].(detail := FailureDetail(message));
            SavesRuled(Persist(s, o, Put(p.(log := p.log + [e]), index, entry)).log)
  {
    var e := Delete(p.resources[index], DeleteFailed(message));
    var entry := p.resources[index].(detail := FailureDetail(message));
    RulesAppend(p.log, e);
    if o.persist {
      var next := p.resources[index := entry];
      OthersValid(p.resources, index, entry);
      RejectedValidIff(p.resources[index], message);
      RejectionSaveRuled(p.log, next, e, s.save(p.log + [e]));
      RulesAppend(p.log + [e], Save(next, s.save(p.log + [e])));
    }
  }

  lemma DeletionRuled(p: Pass, index: nat)
    requires Ruled(p) && p.failure.None? && index < |p.resources| && p.resources[index].status == Deleting
    ensures var r := p.resources[index]; var gone := r.(status := Gone, detail := DELETED);
            Ruled(p.(log := p.log + [Delete(r, DeleteOk)], resources := p.resources[index := gone],
                     deleted := p.deleted + [Key(r)]))
  {
    var r := p.resources[index];
    var e, gone := Delete(r, DeleteOk), r.(status := Gone, detail := DELETED);
    RulesAppend(p.log, e);
    StrandedAppend(p.log, e);
    DeletedValidIff(r);
    KeysKept(p.resources, index, gone);
    OthersValid(p.resources, index, gone);
    var next := p.resources[index := gone];
    assert next[index] == gone && forall k | 0 <= k < |next| && k != index :: next[k] == p.resources[k];
    assert AllValid(next) <==> AllValid(p.resources) && ValidResource(gone);
  }

  lemma DeleteLiveRuled(s: Services, o: Options, index: nat, p: Pass)
    requires Ruled(p) && p.failure.None? && index < |p.resources| && p.resources[index].status != Gone
    ensures Ruled(DeleteLive(s, o, index, p))
  {
    var deleting := p.resources[index].(status := Deleting);
    var p0 := Put(p, index, deleting);
    RetoldRuled(p, p0, index, deleting);
    PersistRuled(s, o, p0);
    var p1 := Persist(s, o, p0);
    if p1.failure.None? {
      assert p1.resources[index] == deleting;
      match s.delete(p1.log, deleting)
      case DeleteFailed(m) => RejectionRuled(s, o, p1, index, m);
      case DeleteOk =>
        DeletionRuled(p1, index);
        var p2 := p1.(log := p1.log + [Delete(deleting, DeleteOk)]);
        var p3 := Put(p2, index, deleting.(status := Gone, detail := DELETED));
        PersistRuled(s, o, p3.(deleted := p3.deleted + [Key(deleting)]));
    }
  }

  lemma TreatRuled(s: Services, o: Options, inventory: map<string, Observation>, index: nat, p: Pass)
    requires Ruled(p) && p.failure.None? && index < |p.resources|
    ensures Ruled(Treat(s, o, inventory, index, p))
  {
    var r := p.resources[index];
    var seen := Lookup(inventory, r);
    if Absorbing(r.status) {
    } else if seen.Some? && !seen.value.owned {
      var r' := r.(status := Refused, detail := UNCONFIRMED);
      var q := Put(p, index, r').(refused := p.refused + [Key(r)]);
      RetoldRuled(p, q, index, r');
      PersistRuled(s, o, q);
    } else if seen.Some? && seen.value.isProtected {
      var r' := r.(status := Claimed, detail := PROTECTED);
      var q := Put(p, index, r').(pending := p.pending + [Key(r)]);
      RetoldRuled(p, q, index, r');
      PersistRuled(s, o, q);
    } else if seen.Some? && seen.value.delayed {
      var r' := r.(status := Tombstone, detail := DELAYED);
      var q := Put(p, index, r').(pending := p.pending + [Key(r)]);
      RetoldRuled(p, q, index, r');
      PersistRuled(s, o, q);
    } else if seen.None? && (r.identity != "" || r.status != Claimed) && (r.status == Claimed || r.status == Deleting) {
      var r' := r.(status := Gone, detail := VANISHED);
      var q := Put(p, index, r').(gone := p.gone + [Key(r)]);
      RetoldRuled(p, q, index, r');
      PersistRuled(s, o, q);
    } else if seen.Some? && seen.value.live && !o.dryRun {
      DeleteLiveRuled(s, o, index, p);
    }
  }

  lemma {:induction false} DriveRuled(s: Services, o: Options, inventory: map<string, Observation>,
                                      snapshot: seq<Resource>, p: Pass)
    requires Ruled(p) && p.failure.None?
    ensures Ruled(Drive(s, o, inventory, snapshot, p))
  {
    if snapshot != [] {
      DriveRuled(s, o, inventory, snapshot[..|snapshot| - 1], p);
      var before := Drive(s, o, inventory, snapshot[..|snapshot| - 1], p);
      var index := KeyIndex(before.resources, Key(snapshot[|snapshot| - 1]), 0);
      if before.failure.None? && index >= 0 {
        TreatRuled(s, o, inventory, index, before);
      }
    }
  }

  lemma SweepRuled(s: Services, o: Options, h: Header, rs: seq<Resource>, observed: seq<Observation>)
    requires ValidLedger(h, Merge(rs, observed))
    ensures Ruled(Sweep(s, o, rs, observed))
  {
    PersistRuled(s, o, Pass(Merge(rs, observed), [], [], [], [], [], None));
    var start := Start(s, o, rs, observed);
    if start.failure.None? {
      DriveRuled(s, o, IndexInventory(observed), RankSorted(start.resources), start);
    }
  }

  /**
   * Exactly when the next pass accepts a ledger this pass saved: no entry deleted so far ends, before its detail, in
   * "passwor", and a save that records a rejected deletion holds a message of several lines, an empty one, or one that is
   * not blank and names no secret after that entry's own fields.
   */
  lemma SavedLedgerRestarts(s: Services, o: Options, h: Header, rs: seq<Resource>, observed: seq<Observation>, i: nat)
    requires ValidLedger(h, Merge(rs, observed))
    requires i < |Sweep(s, o, rs, observed).log| && Sweep(s, o, rs, observed).log[i].Save?
    ensures var log := Sweep(s, o, rs, observed).log;
            ValidLedger(h, log[i].resources) <==>
              && (forall r | r in Deletions(log[..i]) :: !EndsInPasswor(Prefix(r)))
              && (RecordsRejection(log, i) ==> RejectionFits(log, i))
  {
    SweepRuled(s, o, h, rs, observed);
    var log := Sweep(s, o, rs, observed).log;
    assert SaveRule(log, i);
  }

  /** The same for the ledger an error-free pass reports. */
  lemma ReportedLedgerRestarts(s: Services, o: Options, h: Header, rs: seq<Resource>, observed: seq<Observation>)
    requires ValidLedger(h, Merge(rs, observed)) && Sweep(s, o, rs, observed).failure.None?
    ensures var p := Sweep(s, o, rs, observed);
            ValidLedger(h, p.resources) <==> forall r | r in Deletions(p.log) :: !EndsInPasswor(Prefix(r))
  {
    SweepRuled(s, o, h, rs, observed);
  }
}
