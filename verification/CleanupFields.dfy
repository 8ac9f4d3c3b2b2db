/** What the cleanup validators accept and what a merge writes, in fields and letters. */
module CleanupFields {
  import opened Text
  import opened CleanupLedger
  import opened CleanupMerge

  // ---- secret-bearing names --------------------------------------------------------------------

  /** A way of writing the lower-case letter `l` that the case-insensitive scan takes for it. */
  predicate Writes(c: char, l: char) {
    || c == l || ('a' <= l <= 'z' && c as int == l as int - 'a' as int + 'A' as int)
    || (l == 'k' && c == '\U{212A}') || (l == 's' && c == '\U{17F}')
  }

  /** The lower-case letters, and the two joints of a key name. */
  predicate Plain(l: char) {
    'a' <= l <= 'z' || l == '_' || l == '-'
  }

  lemma FoldWrites(c: char, l: char)
    requires Plain(l)
    ensures Fold(c) == l <==> Writes(c, l)
  {
  }

  /** `word` stands at `i`, in any mixture of cases. */
  predicate Spelled(s: string, i: nat, word: string) {
    i + |word| <= |s| && forall j | 0 <= j < |word| :: Writes(s[i + j], word[j])
  }

  predicate PlainWord(word: string) {
    forall j | 0 <= j < |word| :: Plain(word[j])
  }

  lemma WordIsSpelled(s: string, i: nat, word: string)
    requires PlainWord(word)
    ensures WordAt(s, i, word) <==> Spelled(s, i, word)
  {
    if i + |word| <= |s| {
      forall j | 0 <= j < |word| ensures Fold(s[i + j]) == word[j] <==> Writes(s[i + j], word[j]) { FoldWrites(s[i + j], word[j]); }
    }
  }

  lemma SpelledInTwo(s: string, i: nat, a: string, b: string)
    ensures Spelled(s, i, a + b) <==> Spelled(s, i, a) && Spelled(s, i + |a|, b)
  {
    if Spelled(s, i, a + b) {
      forall j | 0 <= j < |b| ensures Writes(s[i + |a| + j], b[j]) { assert Writes(s[i + (|a| + j)], (a + b)[|a| + j]); }
      forall j | 0 <= j < |a| ensures Writes(s[i + j], a[j]) { assert Writes(s[i + j], (a + b)[j]); }
    }
    if Spelled(s, i, a) && Spelled(s, i + |a|, b) {
      forall j | 0 <= j < |a + b| ensures Writes(s[i + j], (a + b)[j]) {
        if j >= |a| { assert Writes(s[i + |a| + (j - |a|)], b[j - |a|]); }
      }
    }
  }

  /** A stem, and "key" right after it or after one joint. */
  predicate KeySpelled(s: string, i: nat, stem: string) {
    Spelled(s, i, stem + "key") || Spelled(s, i, stem + "_key") || Spelled(s, i, stem + "-key")
  }

  lemma JointSpelled(s: string, k: nat, joint: char)
    requires joint == '_' || joint == '-'
    ensures Spelled(s, k, [joint]) <==> k < |s| && s[k] == joint
  {
    if k < |s| { assert Writes(s[k + 0], [joint][0]) <==> s[k] == joint; }
  }

  lemma KeyIsSpelled(s: string, i: nat, stem: string)
    requires PlainWord(stem)
    ensures KeyWordAt(s, i, stem) <==> KeySpelled(s, i, stem)
  {
    var k := i + |stem|;
    WordIsSpelled(s, i, stem);
    WordIsSpelled(s, k, "key");
    WordIsSpelled(s, k + 1, "key");
    SpelledInTwo(s, i, stem, "key");
    SpelledInTwo(s, i, stem, "_key");
    SpelledInTwo(s, i, stem, "-key");
    assert "_" + "key" == "_key" && "-" + "key" == "-key";
    SpelledInTwo(s, k, "_", "key");
    SpelledInTwo(s, k, "-", "key");
    JointSpelled(s, k, '_');
    JointSpelled(s, k, '-');
    assert "_" == ['_'] && "-" == ['-'];
  }

  /** A text names a secret exactly when one of these words stands in it, in any mixture of cases. */
  predicate NamesSecret(s: string) {
    exists i | 0 <= i < |s| ::
      || Spelled(s, i, "password") || Spelled(s, i, "secret") || Spelled(s, i, "token")
      || KeySpelled(s, i, "api") || KeySpelled(s, i, "access") || KeySpelled(s, i, "private")
  }

  lemma WordsArePlain()
    ensures PlainWord("password") && PlainWord("secret") && PlainWord("token") && PlainWord("api") && PlainWord("access")
    ensures PlainWord("private")
  {
  }

  lemma SensitiveIff(s: string)
    ensures Sensitive(s) <==> NamesSecret(s)
  {
    WordsArePlain();
    forall i | 0 <= i < |s|
      ensures SensitiveAt(s, i) <==>
                || Spelled(s, i, "password") || Spelled(s, i, "secret") || Spelled(s, i, "token")
                || KeySpelled(s, i, "api") || KeySpelled(s, i, "access") || KeySpelled(s, i, "private")
    {
      WordIsSpelled(s, i, "password");
      WordIsSpelled(s, i, "secret");
      WordIsSpelled(s, i, "token");
      KeyIsSpelled(s, i, "api");
      KeyIsSpelled(s, i, "access");
      KeyIsSpelled(s, i, "private");
    }
  }

  // ---- what is accepted ------------------------------------------------------------------------

  predicate Line(s: string) {
    '\r' !in s && '\n' !in s && '\0' !in s
  }

  predicate FilledLine(s: string) {
    Line(s) && exists c | c in s :: !IsSpace(c)
  }

  lemma LinesMean(s: string)
    ensures (RequiredLine(s) <==> FilledLine(s)) && (OptionalLine(s) <==> s == "" || FilledLine(s))
  {
    if !Blank(s) {
      var i :| 0 <= i < |s| && !IsSpace(s[i]);
      assert s[i] in s;
    }
    assert forall i | 0 <= i < |s| :: s[i] in s;
  }

  predicate SoundEntry(r: Resource) {
    && FilledLine(r.kind) && (r.role == "" || FilledLine(r.role)) && (r.name == "" || FilledLine(r.name))
    && (r.identity == "" || FilledLine(r.identity)) && (r.detail == "" || FilledLine(r.detail))
    && r.rank >= 0 && r.status in {Intended, Claimed, Deleting, Gone, Tombstone, Refused}
    && (if r.status == Intended then r.name != "" else r.name != "" || r.identity != "")
    && !NamesSecret(r.kind + r.role + r.name + r.identity + r.detail)
  }

  lemma EntryMeans(r: Resource)
    ensures ValidResource(r) <==> SoundEntry(r)
  {
    LinesMean(r.kind);
    LinesMean(r.role);
    LinesMean(r.name);
    LinesMean(r.identity);
    LinesMean(r.detail);
    SensitiveIff(Fields(r));
  }

  /** The key of an entry: its kind, and its identity or, without one, its name. */
  predicate Named(r: Resource, key: string) {
    key == r.kind + ":" + if r.identity != "" then r.identity else r.name
  }

  lemma KeyMeans(r: Resource)
    requires SoundEntry(r)
    ensures Named(r, Key(r))
  {
    LinesMean(r.identity);
    LinesMean(r.name);
    if r.identity != "" { assert !Blank(r.identity); }
    if r.name != "" { assert !Blank(r.name); }
  }

  /** The ledger validator in fields: a sound header, sound entries, and no two with one kind and one identity or name. */
  lemma LedgerMeans(h: Header, rs: seq<Resource>)
    ensures ValidLedger(h, rs) <==>
              && h.version == 1 && FilledLine(h.runID) && FilledLine(h.marker) && FilledLine(h.provider)
              && (h.region == "" || FilledLine(h.region)) && (h.project == "" || FilledLine(h.project))
              && (h.profile == "" || FilledLine(h.profile)) && FilledLine(h.claimedAt) && h.claimedAtParses
              && !NamesSecret(h.runID + h.marker + h.provider + h.region + h.project + h.profile)
              && (forall i | 0 <= i < |rs| :: SoundEntry(rs[i]))
              && forall i, j | 0 <= i < j < |rs| :: !Named(rs[j], Key(rs[i]))
  {
    LinesMean(h.runID);
    LinesMean(h.marker);
    LinesMean(h.provider);
    LinesMean(h.region);
    LinesMean(h.project);
    LinesMean(h.profile);
    LinesMean(h.claimedAt);
    SensitiveIff(h.runID + h.marker + h.provider + h.region + h.project + h.profile);
    EntriesMean(rs);
  }

  lemma EntriesMean(rs: seq<Resource>)
    ensures ValidResources(rs) <==>
              && (forall i | 0 <= i < |rs| :: SoundEntry(rs[i])) && forall i, j | 0 <= i < j < |rs| :: !Named(rs[j], Key(rs[i]))
  {
    forall i | 0 <= i < |rs| ensures ValidResource(rs[i]) <==> SoundEntry(rs[i]) { EntryMeans(rs[i]); }
    forall i | 0 <= i < |rs| && SoundEntry(rs[i]) ensures Named(rs[i], Key(rs[i])) && Key(rs[i]) != "" { KeyMeans(rs[i]); }
  }

  /** The inventory validator in fields. */
  lemma InventoryMeans(observed: seq<Observation>)
    ensures ValidInventory(observed) <==>
              && (forall o | o in observed ::
                    && FilledLine(o.identity) && FilledLine(o.kind) && (o.role == "" || FilledLine(o.role))
                    && (o.name == "" || FilledLine(o.name)) && !(o.live && o.delayed))
              && forall i, j | 0 <= i < j < |observed| :: observed[i].identity != observed[j].identity
  {
    forall o | o in observed
      ensures ValidObservation(o) <==>
                && FilledLine(o.identity) && FilledLine(o.kind) && (o.role == "" || FilledLine(o.role))
                && (o.name == "" || FilledLine(o.name)) && !(o.live && o.delayed)
    {
      LinesMean(o.identity);
      LinesMean(o.kind);
      LinesMean(o.role);
      LinesMean(o.name);
    }
    assert forall i | 0 <= i < |observed| :: observed[i] in observed;
  }

  // ---- what a merge writes ---------------------------------------------------------------------

  function Or(own: string, observed: string): string {
    if own != "" then own else observed
  }

  /**
   * In fields, what the merged ledger holds for an owned observation: the entry it belongs to, with every empty text
   * filled from the observation, its rank kept if it had one, and `claimed` for `intended`; or a new entry that copies
   * the observation, a tombstone if it is delayed.
   */
  lemma WrittenFields(rs: seq<Resource>, observed: seq<Observation>, j: nat) returns (i: nat)
    requires ValidResources(rs) && ValidInventory(observed) && j < |observed| && observed[j].owned
    ensures i < |Merge(rs, observed)| && Merge(rs, observed)[i].identity == observed[j].identity
    ensures var w, o, t := Merge(rs, observed)[i], observed[j], Target(rs, observed, j);
            if t >= 0 then
              && w.kind == rs[t].kind && w.role == Or(rs[t].role, o.role) && w.name == Or(rs[t].name, o.name)
              && (rs[t].rank != 0 ==> w.rank == rs[t].rank) && w.detail == rs[t].detail
              && w.status == if rs[t].status == Intended then Claimed else rs[t].status
            else
              && w.kind == o.kind && w.role == o.role && w.name == o.name
              && w.detail == "adopted from " + "owning-service inventory" && w.status == if o.delayed then Tombstone else Claimed
  {
    WrittenIsHeld(rs, observed, j);
    i :| 0 <= i < |Merge(rs, observed)| && Merge(rs, observed)[i] == Written(rs, observed, j);
    var t := Target(rs, observed, j);
    if t >= 0 { assert ValidResource(rs[t]); }
  }
}
