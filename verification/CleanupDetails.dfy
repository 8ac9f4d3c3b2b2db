/** The detail texts a pass writes, and the one that can complete a sensitive word. */
module CleanupDetails {
  import opened CleanupTexts
  import opened CleanupLedger

  // ---- texts that cannot name a secret ---------------------------------------------------------

  /** Lower-case words without a k. */
  predicate PlainText(t: string) {
    forall i | 0 <= i < |t| :: t[i] != 'k' && ('a' <= t[i] <= 'z' || t[i] == ' ' || t[i] == '-' || t[i] == ';')
  }

  predicate NoDoubleS(t: string) {
    forall i | 0 <= i < |t| - 1 :: t[i] != 's' || t[i + 1] != 's'
  }

  predicate NoCR(t: string) {
    forall i | 0 <= i < |t| - 1 :: t[i] != 'c' || t[i + 1] != 'r'
  }

  /** Every sensitive word has a k, a double s, or a c before an r. */
  predicate Innocent(t: string) {
    PlainText(t) && NoDoubleS(t) && NoCR(t)
  }

  lemma WordLetters(t: string, i: nat)
    ensures WordAt(t, i, "password") ==> i + 8 <= |t| && Fold(t[i + 2]) == 's' && Fold(t[i + 3]) == 's'
    ensures WordAt(t, i, "secret") ==> i + 6 <= |t| && Fold(t[i + 2]) == 'c' && Fold(t[i + 3]) == 'r'
    ensures WordAt(t, i, "token") ==> i + 5 <= |t| && Fold(t[i + 2]) == 'k'
    ensures WordAt(t, i, "key") ==> i + 3 <= |t| && Fold(t[i]) == 'k'
  {
    if WordAt(t, i, "password") { assert "password"[2] == 's' && "password"[3] == 's'; }
    if WordAt(t, i, "secret") { assert "secret"[2] == 'c' && "secret"[3] == 'r'; }
    if WordAt(t, i, "token") { assert "token"[2] == 'k'; }
    if WordAt(t, i, "key") { assert "key"[0] == 'k'; assert Fold(t[i + 0]) == "key"[0]; }
  }

  lemma InnocentWords(t: string, i: nat)
    requires Innocent(t)
    ensures !WordAt(t, i, "password") && !WordAt(t, i, "secret") && !WordAt(t, i, "token") && !WordAt(t, i, "key")
  {
    WordLetters(t, i);
    assert i + 3 < |t| ==> (t[i + 2] != 's' || t[i + 2 + 1] != 's') && (t[i + 2] != 'c' || t[i + 2 + 1] != 'r');
  }

  lemma InnocentIsNotSensitive(t: string)
    requires Innocent(t)
    ensures !Sensitive(t)
  {
    forall i | 0 <= i < |t| ensures !SensitiveAt(t, i) {
      InnocentWords(t, i);
      forall k: nat ensures !WordAt(t, k, "key") { InnocentWords(t, k); }
    }
  }

  // ---- the texts a pass writes -----------------------------------------------------------------

  predicate Starts(t: string, a: char, b: char, c: char) {
    |t| >= 3 && t[0] == a && t[1] == b && t[2] == c
  }

  predicate PlainStart(t: string) {
    Starts(t, 'o', 'w', 'n') || Starts(t, 'r', 'e', 's') || Starts(t, 'p', 'r', 'o') || Starts(t, 'a', 'd', 'o')
  }

  lemma Appended(a: string, b: string)
    requires Innocent(a) && Innocent(b) && a != "" && a[|a| - 1] == ' '
    ensures Innocent(a + b)
  {
    var t := a + b;
    forall i | 0 <= i < |t| - 1 ensures (t[i] != 's' || t[i + 1] != 's') && (t[i] != 'c' || t[i + 1] != 'r') {
      if i >= |a| { assert t[i] == b[i - |a|] && t[i + 1] == b[i - |a| + 1]; }
    }
  }

  lemma StartsWith(a: string, b: string)
    requires |a| >= 3
    ensures PlainStart(a + b) == PlainStart(a) && Starts(a + b, 'd', 'e', 'l') == Starts(a, 'd', 'e', 'l')
  {
  }

  lemma OwningInventory()
    ensures Innocent("owning-service inventory ")
  {
    assert Innocent("owning-service ");
    assert Innocent("inventory ");
    Appended("owning-service ", "inventory ");
    assert "owning-service " + "inventory " == "owning-service inventory ";
  }

  lemma Confirmation()
    ensures Innocent("did not confirm ownership")
  {
    assert Innocent("did not confirm ");
    assert Innocent("ownership");
    Appended("did not confirm ", "ownership");
    assert "did not confirm " + "ownership" == "did not confirm ownership";
  }

  lemma ContainsThis()
    ensures Innocent("contains this resource")
  {
  }

  lemma Disappearance()
    ensures Innocent("no longer contains this resource")
  {
    assert Innocent("no longer ");
    ContainsThis();
    Appended("no longer ", "contains this resource");
    assert "no longer " + "contains this resource" == "no longer contains this resource";
  }

  lemma Protection()
    ensures Innocent("resource is protected; ")
  {
    assert Innocent("resource is ");
    assert Innocent("protected; ");
    Appended("resource is ", "protected; ");
    assert "resource is " + "protected; " == "resource is protected; ";
  }

  lemma NoAttempt()
    ensures Innocent("deletion was not attempted")
  {
    assert Innocent("deletion was ");
    assert Innocent("not attempted");
    Appended("deletion was ", "not attempted");
    assert "deletion was " + "not attempted" == "deletion was not attempted";
  }

  lemma OwningInventoryLast()
    ensures Innocent("owning-service inventory")
  {
    assert Innocent("owning-service ");
    assert Innocent("inventory");
    Appended("owning-service ", "inventory");
    assert "owning-service " + "inventory" == "owning-service inventory";
  }

  lemma UnconfirmedText()
    ensures Innocent(UNCONFIRMED) && PlainStart(UNCONFIRMED)
  {
    var a, b := "owning-service inventory ", "did not confirm ownership";
    OwningInventory();
    Confirmation();
    Appended(a, b);
    StartsWith(a, b);
  }

  lemma ProtectedText()
    ensures Innocent(PROTECTED) && PlainStart(PROTECTED)
  {
    var a, b := "resource is protected; ", "deletion was not attempted";
    Protection();
    NoAttempt();
    Appended(a, b);
    StartsWith(a, b);
  }

  lemma DeletionTombstone()
    ensures Innocent("deletion tombstone")
  {
  }

  lemma DelayedText()
    ensures Innocent(DELAYED) && PlainStart(DELAYED)
  {
    var a, b := "provider-mandated ", "deletion tombstone";
    assert Innocent("provider-mandated ");
    DeletionTombstone();
    Appended(a, b);
    StartsWith(a, b);
  }

  lemma VanishedText()
    ensures Innocent(VANISHED) && PlainStart(VANISHED)
  {
    var a, b := "owning-service inventory ", "no longer contains this resource";
    OwningInventory();
    Disappearance();
    Appended(a, b);
    StartsWith(a, b);
  }

  lemma ReplacementText()
    ensures Innocent(DELETE_FAILED) && PlainStart(DELETE_FAILED)
  {
    var a, b := "provider ", "delete failed";
    assert Innocent(a);
    assert Innocent(b);
    Appended(a, b);
    StartsWith(a, b);
  }

  lemma DeletedText()
    ensures Innocent(DELETED) && Starts(DELETED, 'd', 'e', 'l')
  {
    var a, b := "deleted through ", "owning-service inventory";
    assert Innocent("deleted through ");
    OwningInventoryLast();
    Appended(a, b);
    StartsWith(a, b);
  }

  lemma AdoptedText()
    ensures Innocent(ADOPTED) && PlainStart(ADOPTED)
  {
    var a, b := "adopted from ", "owning-service inventory";
    assert Innocent("adopted from ");
    OwningInventoryLast();
    Appended(a, b);
    StartsWith(a, b);
  }

  // ---- sensitive words across the end of a prefix ----------------------------------------------

  /** The text ends, case-folded, in all but the last letter of "password". */
  predicate EndsInPasswor(p: string) {
    |p| >= 7 && WordAt(p, |p| - 7, "passwor")
  }

  /** The letter a word must continue with when the prefix ends inside it. */
  lemma Continues(p: string, t: string, i: nat, word: string)
    requires WordAt(p + t, i, word) && i < |p|
    ensures i + |word| <= |p| ==> WordAt(p, i, word)
    ensures i + |word| > |p| ==> |t| > 0 && Fold(t[0]) == word[|p| - i]
    ensures i + |word| > |p| + 1 ==> |t| > 1 && Fold(t[1]) == word[|p| - i + 1]
    ensures i + |word| > |p| + 2 ==> |t| > 2 && Fold(t[2]) == word[|p| - i + 2]
  {
    assert forall j | 0 <= j < |word| :: Fold((p + t)[i + j]) == word[j];
    if i + |word| > |p| { assert (p + t)[i + (|p| - i)] == t[0]; }
    if i + |word| > |p| + 1 { assert (p + t)[i + (|p| - i + 1)] == t[1]; }
    if i + |word| > |p| + 2 { assert (p + t)[i + (|p| - i + 2)] == t[2]; }
  }

  predicate KnownStart(t: string) {
    PlainStart(t) || Starts(t, 'd', 'e', 'l')
  }

  lemma PasswordAcross(p: string, t: string, i: nat)
    requires KnownStart(t) && i < |p| && WordAt(p + t, i, "password")
    ensures WordAt(p, i, "password") || (|p| - i == 7 && Starts(t, 'd', 'e', 'l'))
  {
    Continues(p, t, i, "password");
  }

  lemma SecretAcross(p: string, t: string, i: nat)
    requires KnownStart(t) && i < |p| && WordAt(p + t, i, "secret")
    ensures WordAt(p, i, "secret")
  {
    Continues(p, t, i, "secret");
  }

  lemma TokenAcross(p: string, t: string, i: nat)
    requires KnownStart(t) && i < |p| && WordAt(p + t, i, "token")
    ensures WordAt(p, i, "token")
  {
    Continues(p, t, i, "token");
  }

  predicate Stem(stem: string) {
    stem == "api" || stem == "access" || stem == "private"
  }

  lemma StemAcross(p: string, t: string, i: nat, stem: string)
    requires KnownStart(t) && i < |p| && Stem(stem) && WordAt(p + t, i, stem)
    ensures WordAt(p, i, stem)
  {
    Continues(p, t, i, stem);
  }

  lemma CharAt(p: string, t: string, k: nat)
    requires t != "" && k <= |p|
    ensures (p + t)[k] == if k < |p| then p[k] else t[0]
  {
  }

  lemma KeyAcross(p: string, t: string, k: nat)
    requires KnownStart(t) && k <= |p| && WordAt(p + t, k, "key")
    ensures WordAt(p, k, "key")
  {
    CharAt(p, t, k);
    assert Fold((p + t)[k + 0]) == "key"[0];
    if k < |p| {
      Continues(p, t, k, "key");
    }
  }

  lemma KeyWordAcross(p: string, t: string, i: nat, stem: string)
    requires KnownStart(t) && i < |p| && Stem(stem) && KeyWordAt(p + t, i, stem)
    ensures KeyWordAt(p, i, stem)
  {
    StemAcross(p, t, i, stem);
    CharAt(p, t, i + |stem|);
    if WordAt(p + t, i + |stem|, "key") {
      KeyAcross(p, t, i + |stem|);
    } else {
      KeyAcross(p, t, i + |stem| + 1);
    }
  }

  lemma SensitiveWithin(p: string, t: string, i: nat)
    requires i < |p| && SensitiveAt(p, i)
    ensures SensitiveAt(p + t, i)
  {
  }

  /** A sensitive word that starts in the prefix lies in it, unless the text completes "password". */
  lemma SensitiveAcross(p: string, t: string, i: nat)
    requires KnownStart(t) && i < |p| && SensitiveAt(p + t, i)
    ensures SensitiveAt(p, i) || (|p| - i == 7 && Starts(t, 'd', 'e', 'l') && WordAt(p + t, i, "password"))
  {
    if WordAt(p + t, i, "password") { PasswordAcross(p, t, i); }
    if WordAt(p + t, i, "secret") { SecretAcross(p, t, i); }
    if WordAt(p + t, i, "token") { TokenAcross(p, t, i); }
    if KeyWordAt(p + t, i, "api") { KeyWordAcross(p, t, i, "api"); }
    if KeyWordAt(p + t, i, "access") { KeyWordAcross(p, t, i, "access"); }
    if KeyWordAt(p + t, i, "private") { KeyWordAcross(p, t, i, "private"); }
  }

  lemma CompletesPassword(p: string, t: string)
    requires EndsInPasswor(p) && Starts(t, 'd', 'e', 'l')
    ensures Sensitive(p + t)
  {
    var i := |p| - 7;
    forall j | 0 <= j < 8 ensures Fold((p + t)[i + j]) == "password"[j] {
      if j < 7 { assert Fold(p[i + j]) == "passwor"[j]; }
    }
    assert SensitiveAt(p + t, i);
  }

  lemma PasswordEnds(p: string, t: string)
    requires |p| >= 7 && WordAt(p + t, |p| - 7, "password")
    ensures EndsInPasswor(p)
  {
    forall j | 0 <= j < 7 ensures Fold(p[|p| - 7 + j]) == "passwor"[j] {
      assert Fold((p + t)[|p| - 7 + j]) == "password"[j];
    }
  }

  lemma SensitiveAfter(p: string, t: string, i: nat)
    requires |p| <= i < |p + t| && SensitiveAt(p + t, i)
    ensures SensitiveAt(t, i - |p|)
  {
    forall k: nat, word: string | k >= |p| && WordAt(p + t, k, word) ensures WordAt(t, k - |p|, word) {
      forall j | 0 <= j < |word| ensures Fold(t[k - |p| + j]) == word[j] {
        assert (p + t)[k + j] == t[k - |p| + j];
      }
    }
  }

  /** Writing one of the texts after an innocent prefix names a secret only where DELETED follows "passwor". */
  lemma WrittenSensitiveIff(p: string, t: string)
    requires !Sensitive(p) && Innocent(t) && KnownStart(t)
    ensures Sensitive(p + t) <==> EndsInPasswor(p) && Starts(t, 'd', 'e', 'l')
  {
    InnocentIsNotSensitive(t);
    if EndsInPasswor(p) && Starts(t, 'd', 'e', 'l') {
      CompletesPassword(p, t);
    }
    if Sensitive(p + t) {
      var i :| 0 <= i < |p + t| && SensitiveAt(p + t, i);
      if i >= |p| {
        SensitiveAfter(p, t, i);
      } else {
        SensitiveAcross(p, t, i);
        if |p| - i == 7 && WordAt(p + t, i, "password") { PasswordEnds(p, t); }
      }
    }
  }

  lemma PrefixNotSensitive(p: string, t: string)
    requires !Sensitive(p + t)
    ensures !Sensitive(p)
  {
    forall i | 0 <= i < |p| ensures !SensitiveAt(p, i) {
      if SensitiveAt(p, i) { SensitiveWithin(p, t, i); }
    }
  }
}
