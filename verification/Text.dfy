/** The value-or-nothing result used throughout. */
module Optional {
  datatype Option<+T> = None | Some(value: T)
}

/** Line and blank checks shared by the SDK validators, over Unicode code points. */
module Text {

  /** The white space that Go's `strings.TrimSpace` removes. */
  predicate IsSpace(c: char) {
    || '\U{9}' <= c <= '\U{D}' || c == ' ' || c == '\U{85}' || c == '\U{A0}' || c == '\U{1680}'
    || '\U{2000}' <= c <= '\U{200A}' || c == '\U{2028}' || c == '\U{2029}' || c == '\U{202F}'
    || c == '\U{205F}' || c == '\U{3000}'
  }

  /** The white-space code points. */
  lemma SpaceMeans(c: char)
    ensures IsSpace(c)
       <==> c as int in {9, 10, 11, 12, 13, 32, 133, 160, 5760, 8192, 8193, 8194, 8195, 8196, 8197, 8198, 8199, 8200, 8201, 8202,
                         8232, 8233, 8239, 8287, 12288}
  {
  }

  function TrimLeft(s: string): string {
    if s != "" && IsSpace(s[0]) then TrimLeft(s[1..]) else s
  }

  function TrimRight(s: string): string {
    if s != "" && IsSpace(s[|s| - 1]) then TrimRight(s[..|s| - 1]) else s
  }

  function TrimSpace(s: string): string {
    TrimRight(TrimLeft(s))
  }

  /** `strings.TrimSpace(s) == ""`; see `BlankTrimsAway`. */
  predicate Blank(s: string) {
    forall i | 0 <= i < |s| :: IsSpace(s[i])
  }

  lemma {:induction false} TrimLeftSuffix(s: string)
    ensures |TrimLeft(s)| <= |s| && TrimLeft(s) == s[|s| - |TrimLeft(s)|..]
    ensures TrimLeft(s) == "" <==> Blank(s)
    ensures TrimLeft(s) != "" ==> !IsSpace(TrimLeft(s)[0])
  {
    if s != "" && IsSpace(s[0]) {
      TrimLeftSuffix(s[1..]);
      assert forall i | 0 < i < |s| :: s[i] == s[1..][i - 1];
    }
  }

  lemma {:induction false} TrimRightKeepsHead(s: string)
    requires s != "" && !IsSpace(s[0])
    ensures TrimRight(s) != ""
  {
    if IsSpace(s[|s| - 1]) {
      TrimRightKeepsHead(s[..|s| - 1]);
    }
  }

  lemma BlankTrimsAway(s: string)
    ensures TrimSpace(s) == "" <==> Blank(s)
  {
    TrimLeftSuffix(s);
    if TrimLeft(s) != "" {
      TrimRightKeepsHead(TrimLeft(s));
    }
  }

  lemma {:induction false} TrimRightPrefix(s: string)
    ensures TrimRight(s) <= s && Blank(s[|TrimRight(s)|..]) && (TrimRight(s) != "" ==> !IsSpace(TrimRight(s)[|TrimRight(s)| - 1]))
  {
    if s != "" && IsSpace(s[|s| - 1]) {
      var front := s[..|s| - 1];
      TrimRightPrefix(front);
      assert s[|TrimRight(s)|..] == front[|TrimRight(s)|..] + [s[|s| - 1]];
    }
  }

  lemma {:induction false} TrimLeftRest(s: string)
    ensures |TrimLeft(s)| <= |s| && Blank(s[..|s| - |TrimLeft(s)|])
  {
    if s != "" && IsSpace(s[0]) {
      TrimLeftRest(s[1..]);
      assert s[..|s| - |TrimLeft(s)|] == [s[0]] + s[1..][..|s| - 1 - |TrimLeft(s)|];
    }
  }

  /** Trimming cuts white space off both ends, and all of it. */
  lemma TrimSpaceMeans(s: string) returns (a: string, b: string)
    ensures s == a + TrimSpace(s) + b && Blank(a) && Blank(b)
    ensures TrimSpace(s) == "" || (!IsSpace(TrimSpace(s)[0]) && !IsSpace(TrimSpace(s)[|TrimSpace(s)| - 1]))
  {
    var left := TrimLeft(s);
    TrimLeftSuffix(s);
    TrimLeftRest(s);
    TrimRightPrefix(left);
    a, b := s[..|s| - |left|], left[|TrimSpace(s)|..];
    assert s == a + left && left == TrimSpace(s) + b;
  }

  predicate SingleLine(s: string) {
    '\r' !in s && '\n' !in s && '\0' !in s
  }

  predicate RequiredLine(s: string) {
    !Blank(s) && SingleLine(s)
  }

  predicate OptionalLine(s: string) {
    s == "" || RequiredLine(s)
  }
}

/** The identifier and digest patterns several components share. */
module Patterns {
  predicate LowerAlnum(c: char) {
    'a' <= c <= 'z' || '0' <= c <= '9'
  }

  /** The stable-ID pattern: lower-case words joined by single dots or hyphens, starting with a letter. */
  predicate StableID(s: string) {
    && s != "" && 'a' <= s[0] <= 'z' && LowerAlnum(s[|s| - 1])
    && (forall i | 0 <= i < |s| :: LowerAlnum(s[i]) || s[i] == '.' || s[i] == '-')
    && (forall i | 0 <= i < |s| - 1 :: LowerAlnum(s[i]) || LowerAlnum(s[i + 1]))
  }

  predicate LowerHex(c: char) {
    '0' <= c <= '9' || 'a' <= c <= 'f'
  }

  predicate Hex64(s: string) {
    |s| == 64 && forall i | 0 <= i < |s| :: LowerHex(s[i])
  }

  predicate Sha256Digest(s: string) {
    |s| == 71 && s[..7] == "sha256:" && Hex64(s[7..])
  }

  predicate ImageReference(s: string) {
    && |s| > 72 && s[|s| - 72] == '@' && Sha256Digest(s[|s| - 71..])
    && forall i | 0 <= i < |s| - 72 :: s[i] != '@' && s[i] !in {' ', '\t', '\n', '\r', '\U{000C}'}
  }
}

/** The same patterns as their grammars say them. */
module PatternGrammars {
  import opened Text
  import opened Patterns

  predicate AllLowerAlnum(s: string) {
    s != "" && forall i | 0 <= i < |s| :: 'a' <= s[i] <= 'z' || '0' <= s[i] <= '9'
  }

  /** A stable ID is a lower-case word that starts with a letter, or a shorter one, a dot or hyphen, and one more word. */
  lemma StableIDGrammar(s: string)
    ensures StableID(s)
       <==> || (AllLowerAlnum(s) && 'a' <= s[0] <= 'z')
            || exists i | 0 <= i < |s| :: StableID(s[..i]) && (s[i] == '.' || s[i] == '-') && AllLowerAlnum(s[i + 1..])
  {
    if StableID(s) && !AllLowerAlnum(s) {
      var i := LastJoint(s, |s|);
      ShorterStable(s, i);
    }
    forall i | 0 <= i < |s| && StableID(s[..i]) && (s[i] == '.' || s[i] == '-') && AllLowerAlnum(s[i + 1..]) ensures StableID(s) {
      LongerStable(s, i);
    }
  }

  lemma {:induction false} LastJoint(s: string, n: nat) returns (i: nat)
    requires n <= |s| && (exists k | 0 <= k < n :: !LowerAlnum(s[k]))
    ensures i < n && !LowerAlnum(s[i]) && forall k | i < k < n :: LowerAlnum(s[k])
  {
    if LowerAlnum(s[n - 1]) {
      i := LastJoint(s, n - 1);
    } else {
      i := n - 1;
    }
  }

  lemma ShorterStable(s: string, i: nat)
    requires StableID(s) && i < |s| && !LowerAlnum(s[i]) && forall k | i < k < |s| :: LowerAlnum(s[k])
    ensures StableID(s[..i]) && (s[i] == '.' || s[i] == '-') && AllLowerAlnum(s[i + 1..])
  {
    assert i > 0 && i < |s| - 1;
    var k := i - 1;
    assert LowerAlnum(s[k + 1]) || LowerAlnum(s[k]);
    assert s[..i][|s[..i]| - 1] == s[i - 1];
  }

  lemma LongerStable(s: string, i: nat)
    requires i < |s| && StableID(s[..i]) && (s[i] == '.' || s[i] == '-') && AllLowerAlnum(s[i + 1..])
    ensures StableID(s)
  {
    var front, tail := s[..i], s[i + 1..];
    assert s[|s| - 1] == tail[|tail| - 1] && s[0] == front[0];
    forall k | 0 <= k < |s| ensures LowerAlnum(s[k]) || s[k] == '.' || s[k] == '-' {
      if k < i { assert s[k] == front[k]; } else if k > i { assert s[k] == tail[k - i - 1]; }
    }
    forall k | 0 <= k < |s| - 1 ensures LowerAlnum(s[k]) || LowerAlnum(s[k + 1]) {
      if k < i - 1 {
        assert s[k] == front[k] && s[k + 1] == front[k + 1];
      } else if k == i - 1 {
        assert s[k] == front[|front| - 1];
      } else {
        assert s[k + 1] == tail[k - i];
      }
    }
  }

  predicate HexDigits(s: string) {
    |s| == 64 && forall i | 0 <= i < |s| :: '0' <= s[i] <= '9' || 'a' <= s[i] <= 'f'
  }

  /** The white space and the at sign that an image name must not contain. */
  predicate NameChar(c: char) {
    c != '@' && c != ' ' && c != '\t' && c != '\n' && c != '\r' && c != '\U{000C}'
  }

  /** A digest is sixty-four lower-case hexadecimal digits after "sha256:". */
  lemma DigestGrammar(s: string)
    ensures Hex64(s) <==> HexDigits(s)
    ensures Sha256Digest(s) <==> exists digits :: HexDigits(digits) && s == "sha256:" + digits
  {
    if Sha256Digest(s) { assert s == "sha256:" + s[7..]; }
    if digits :| HexDigits(digits) && s == "sha256:" + digits { assert s[..7] == "sha256:" && s[7..] == digits; }
  }

  predicate ImageName(name: string) {
    name != "" && forall i | 0 <= i < |name| :: NameChar(name[i])
  }

  lemma ImageSplits(s: string) returns (name: string, digest: string)
    requires ImageReference(s)
    ensures ImageName(name) && Sha256Digest(digest) && s == name + "@" + digest
  {
    var n := |s| - 72;
    name, digest := s[..n], s[n + 1..];
    assert forall i | 0 <= i < n :: NameChar(s[i]);
    assert s == s[..n] + [s[n]] + s[n + 1..];
  }

  lemma ImageJoins(name: string, digest: string)
    requires ImageName(name) && Sha256Digest(digest)
    ensures ImageReference(name + "@" + digest)
  {
    var s := name + "@" + digest;
    var n := |s| - 72;
    assert n == |name| && s[n] == '@' && s[n + 1..] == digest;
    forall i | 0 <= i < n ensures s[i] != '@' && s[i] !in {' ', '\t', '\n', '\r', '\U{000C}'} { assert s[i] == name[i] && NameChar(name[i]); }
  }

  /** An image reference is a name, an at sign and a digest. */
  lemma ImageGrammar(s: string)
    ensures ImageReference(s) <==> exists name, digest :: ImageName(name) && Sha256Digest(digest) && s == name + "@" + digest
  {
    if ImageReference(s) { var name, digest := ImageSplits(s); }
    if name, digest :| ImageName(name) && Sha256Digest(digest) && s == name + "@" + digest { ImageJoins(name, digest); }
  }
}

/** Sorting as the standard library's stable sorts do it, with the facts every client needs. */
module Ordering {

  /** Go's string order: bytewise, which is the code-point order for UTF-8. */
  predicate StrLe(a: string, b: string) {
    a == "" || (b != "" && (a[0] < b[0] || (a[0] == b[0] && StrLe(a[1..], b[1..]))))
  }

  predicate StrLt(a: string, b: string) {
    a != b && StrLe(a, b)
  }

  lemma StrTotal(a: string, b: string)
    ensures StrLe(a, b) || StrLe(b, a)
  {
  }

  /** Code point by code point: `a` is a prefix of `b`, or has the lesser character where they first differ. */
  lemma {:induction false} StrLeMeans(a: string, b: string)
    ensures StrLe(a, b)
       <==> a <= b || exists k | 0 <= k < |a| :: k < |b| && a[..k] == b[..k] && (a[k] as int) < (b[k] as int)
  {
    if a != "" && b != "" && a[0] == b[0] {
      StrLeMeans(a[1..], b[1..]);
      assert a == [a[0]] + a[1..] && b == [b[0]] + b[1..];
      forall k | 0 <= k < |a[1..]| && k < |b[1..]|
        ensures a[1..][..k] == b[1..][..k] <==> a[..k + 1] == b[..k + 1]
      {
        assert a[..k + 1] == [a[0]] + a[1..][..k] && b[..k + 1] == [b[0]] + b[1..][..k];
      }
      forall k | 0 < k < |a| && k < |b| ensures a[k] == a[1..][k - 1] && b[k] == b[1..][k - 1] {}
    } else if a != "" && b != "" {
      assert a[..0] == b[..0];
    }
  }

  lemma StrAntisymmetric(a: string, b: string)
    requires StrLe(a, b) && StrLe(b, a)
    ensures a == b
  {
    if a != "" {
      StrAntisymmetric(a[1..], b[1..]);
      assert a == [a[0]] + a[1..] && b == [b[0]] + b[1..];
    }
  }

  lemma StrTransitive(a: string, b: string, c: string)
    requires StrLe(a, b) && StrLe(b, c)
    ensures StrLe(a, c)
  {
    if a != "" && a[0] == b[0] == c[0] {
      StrTransitive(a[1..], b[1..], c[1..]);
    }
  }

  lemma StrLeIsRanking()
    ensures Ranking(StrLe)
  {
    forall a, b ensures StrLe(a, b) || StrLe(b, a) { StrTotal(a, b); }
    forall a, b, c | StrLe(a, b) && StrLe(b, c) ensures StrLe(a, c) { StrTransitive(a, b, c); }
  }

  ghost predicate Ranking<T(!new)>(le: (T, T) -> bool) {
    && (forall a, b :: le(a, b) || le(b, a))
    && (forall a, b, c :: le(a, b) && le(b, c) ==> le(a, c))
  }

  ghost predicate Sorted<T>(s: seq<T>, le: (T, T) -> bool) {
    forall i, j | 0 <= i < j < |s| :: le(s[i], s[j])
  }

  function Insert<T>(x: T, s: seq<T>, le: (T, T) -> bool): seq<T> {
    if s == [] then [x]
    else if le(x, s[0]) then [x] + s
    else [s[0]] + Insert(x, s[1..], le)
  }

  /** A stable sort: equal elements keep their order. */
  function Sort<T>(s: seq<T>, le: (T, T) -> bool): seq<T> {
    if s == [] then [] else Insert(s[0], Sort(s[1..], le), le)
  }

  lemma {:induction false} InsertKeeps<T>(x: T, s: seq<T>, le: (T, T) -> bool)
    ensures multiset(Insert(x, s, le)) == multiset{x} + multiset(s)
  {
    if s != [] && !le(x, s[0]) {
      InsertKeeps(x, s[1..], le);
      assert s == [s[0]] + s[1..];
    }
  }

  lemma {:induction false} InsertSorts<T(!new)>(x: T, s: seq<T>, le: (T, T) -> bool)
    requires Ranking(le) && Sorted(s, le)
    ensures Sorted(Insert(x, s, le), le)
  {
    if s != [] && !le(x, s[0]) {
      InsertSorts(x, s[1..], le);
      var rest := Insert(x, s[1..], le);
      InsertKeeps(x, s[1..], le);
      forall j | 0 <= j < |rest| ensures le(s[0], rest[j]) {
        assert rest[j] in multiset(rest);
        if rest[j] != x {
          assert rest[j] in s[1..];
        }
      }
    }
  }

  lemma {:induction false} SortKeeps<T>(s: seq<T>, le: (T, T) -> bool)
    ensures multiset(Sort(s, le)) == multiset(s)
    ensures |Sort(s, le)| == |s|
  {
    if s != [] {
      SortKeeps(s[1..], le);
      InsertKeeps(s[0], Sort(s[1..], le), le);
      assert s == [s[0]] + s[1..];
    }
    assert |multiset(Sort(s, le))| == |Sort(s, le)|;
  }

  lemma {:induction false} SortSorts<T(!new)>(s: seq<T>, le: (T, T) -> bool)
    requires Ranking(le)
    ensures Sorted(Sort(s, le), le)
  {
    if s != [] {
      SortSorts(s[1..], le);
      InsertSorts(s[0], Sort(s[1..], le), le);
    }
  }

  lemma SortMembers<T>(s: seq<T>, le: (T, T) -> bool, x: T)
    ensures x in Sort(s, le) <==> x in s
  {
    SortKeeps(s, le);
    assert x in Sort(s, le) <==> x in multiset(Sort(s, le));
  }

  ghost predicate TiesEqual<T>(s: seq<T>, le: (T, T) -> bool) {
    forall i, j | 0 <= i < |s| && 0 <= j < |s| && le(s[i], s[j]) && le(s[j], s[i]) :: s[i] == s[j]
  }

  lemma HeadIsLeast<T(!new)>(s: seq<T>, x: T, le: (T, T) -> bool)
    requires Ranking(le) && Sorted(s, le) && x in s
    ensures le(s[0], x)
  {
    var i :| 0 <= i < |s| && s[i] == x;
    assert le(x, x);
  }

  lemma HeadsAgree<T(!new)>(s: seq<T>, t: seq<T>, le: (T, T) -> bool)
    requires Ranking(le) && Sorted(s, le) && Sorted(t, le)
    requires multiset(s) == multiset(t) && TiesEqual(s, le) && s != [] && t != []
    ensures s[0] == t[0]
  {
    assert s[0] in multiset(t) && t[0] in multiset(s);
    HeadIsLeast(s, t[0], le);
    HeadIsLeast(t, s[0], le);
    var i :| 0 <= i < |s| && s[i] == t[0];
    assert s[0] == s[i];
  }

  lemma TailsAgree<T>(s: seq<T>, t: seq<T>)
    requires s != [] && t != [] && s[0] == t[0] && multiset(s) == multiset(t)
    ensures multiset(s[1..]) == multiset(t[1..])
  {
    assert s == [s[0]] + s[1..] && t == [t[0]] + t[1..];
    assert multiset(s[1..]) == multiset(s) - multiset{s[0]};
    assert multiset(t[1..]) == multiset(t) - multiset{t[0]};
  }

  /** A sorted arrangement is unique when ties are equal elements. */
  lemma {:induction false} SortedUnique<T(!new)>(s: seq<T>, t: seq<T>, le: (T, T) -> bool)
    requires Ranking(le) && Sorted(s, le) && Sorted(t, le)
    requires multiset(s) == multiset(t)
    requires TiesEqual(s, le)
    ensures s == t
  {
    assert |multiset(s)| == |s| && |multiset(t)| == |t|;
    if s != [] {
      HeadsAgree(s, t, le);
      TailsAgree(s, t);
      SortedUnique(s[1..], t[1..], le);
      assert s == [s[0]] + s[1..] && t == [t[0]] + t[1..];
    }
  }

  /** The order of the input does not matter to a sort whose ties are equal elements. */
  lemma SortForgetsOrder<T(!new)>(s: seq<T>, t: seq<T>, le: (T, T) -> bool)
    requires Ranking(le)
    requires multiset(s) == multiset(t)
    requires TiesEqual(s, le)
    ensures Sort(s, le) == Sort(t, le)
  {
    SortKeeps(s, le);
    SortKeeps(t, le);
    SortSorts(s, le);
    SortSorts(t, le);
    forall i | 0 <= i < |s| ensures Sort(s, le)[i] in s { SortMembers(s, le, Sort(s, le)[i]); }
    SortedUnique(Sort(s, le), Sort(t, le), le);
  }

  /** Two string lists sort to the same list exactly when one reorders the other. */
  lemma SortedEqualIff(a: seq<string>, b: seq<string>)
    ensures Sort(a, StrLe) == Sort(b, StrLe) <==> multiset(a) == multiset(b)
  {
    StrLeIsRanking();
    SortKeeps(a, StrLe);
    SortKeeps(b, StrLe);
    if multiset(a) == multiset(b) {
      forall i, j | 0 <= i < |a| && 0 <= j < |a| && StrLe(a[i], a[j]) && StrLe(a[j], a[i]) ensures a[i] == a[j] {
        StrAntisymmetric(a[i], a[j]);
      }
      SortForgetsOrder(a, b, StrLe);
    }
  }

  predicate NoRepeats<T(==)>(s: seq<T>) {
    forall i, j | 0 <= i < j < |s| :: s[i] != s[j]
  }

  lemma HeadFresh<T>(s: seq<T>)
    requires s != []
    ensures NoRepeats(s) <==> s[0] !in s[1..] && NoRepeats(s[1..])
  {
    assert forall i | 0 < i < |s| :: s[i] == s[1..][i - 1];
  }

  lemma NoRepeatsIsMultiset<T>(s: seq<T>)
    ensures NoRepeats(s) <==> forall x | x in s :: multiset(s)[x] == 1
  {
    if s != [] {
      assert s == [s[0]] + s[1..];
      NoRepeatsIsMultiset(s[1..]);
      if NoRepeats(s) {
        assert NoRepeats(s[1..]);
        assert s[0] !in s[1..];
        assert multiset(s[1..])[s[0]] == 0;
        forall x | x in s ensures multiset(s)[x] == 1 {
          if x != s[0] { assert x in s[1..]; }
        }
      } else if forall x | x in s :: multiset(s)[x] == 1 {
        assert multiset(s)[s[0]] == 1;
        assert s[0] !in s[1..];
        forall x | x in s[1..] ensures multiset(s[1..])[x] == 1 { assert x in s; }
        HeadFresh(s);
      }
    }
  }

  lemma NoRepeatsForgetsOrder<T>(s: seq<T>, t: seq<T>)
    requires multiset(s) == multiset(t) && NoRepeats(s)
    ensures NoRepeats(t)
  {
    NoRepeatsIsMultiset(s);
    NoRepeatsIsMultiset(t);
    forall x | x in t ensures multiset(t)[x] == 1 { assert x in multiset(t); assert x in s; }
  }
}
