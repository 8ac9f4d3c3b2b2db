/** What a start exports at each place: which texts are placeholders, and which value wins. */
module DeploymentLeaves {
  import opened Optional
  import opened DeploymentConfig

  // ---- which texts are placeholders --------------------------------------------------------------

  predicate Spaces(s: string) {
    forall i | 0 <= i < |s| :: Space(s[i])
  }

  predicate Ending(s: string) {
    s == "" || s == "\n"
  }

  /** The text is the placeholder of a variable without a default. */
  ghost predicate Plain(s: string, name: string) {
    exists a, b, end :: Spaces(a) && Spaces(b) && Ending(end) && s == "#env(" + a + name + b + ")" + end
  }

  /** The text is the placeholder of a variable with a default. */
  ghost predicate Defaulted(s: string, name: string, fallback: string) {
    exists a, b, c, end ::
      Spaces(a) && Spaces(b) && Spaces(c) && Ending(end)
      && s == "#env(" + a + name + b + "," + c + "\"" + fallback + "\")" + end
  }

  lemma {:induction false} SkipSpaceSplits(s: string) returns (a: string)
    ensures Spaces(a) && s == a + SkipSpace(s) && (SkipSpace(s) == "" || !Space(SkipSpace(s)[0]))
  {
    if s != "" && Space(s[0]) {
      var rest := SkipSpaceSplits(s[1..]);
      a := [s[0]] + rest;
    } else {
      a := "";
    }
  }

  lemma {:induction false} SkipSpaceStops(a: string, rest: string)
    requires Spaces(a) && (rest == "" || !Space(rest[0]))
    ensures SkipSpace(a + rest) == rest
  {
    if a == "" {
      assert a + rest == rest;
    } else {
      assert (a + rest)[1..] == a[1..] + rest;
      SkipSpaceStops(a[1..], rest);
    }
  }

  lemma {:induction false} SpanSplits(s: string, p: char -> bool)
    ensures var r := Span(s, p); s == r.0 + r.1 && (forall i | 0 <= i < |r.0| :: p(r.0[i])) && (r.1 == "" || !p(r.1[0]))
  {
    if s != "" && p(s[0]) {
      SpanSplits(s[1..], p);
      var rest := Span(s[1..], p);
      assert s == [s[0]] + (rest.0 + rest.1) == ([s[0]] + rest.0) + rest.1;
    }
  }

  /** The name and what follows it. */
  lemma HeadParses(a: string, name: string, b: string, rest: string)
    requires Spaces(a) && Name(name) && Spaces(b) && rest != "" && !Space(rest[0]) && !Word(rest[0])
    ensures var s := "#env(" + a + name + b + rest;
      && Starts(s, "#env(")
      && Span(SkipSpace(s[5..]), Word) == (name, b + rest) && SkipSpace(b + rest) == rest
  {
    var s := "#env(" + a + name + b + rest;
    assert s[5..] == a + (name + (b + rest));
    assert (name + (b + rest))[0] == name[0];
    SkipSpaceStops(a, name + (b + rest));
    assert b + rest != "" && !Word((b + rest)[0]);
    SpanStops(name, b + rest, Word);
    SkipSpaceStops(b, rest);
  }

  lemma PlainParses(s: string, name: string)
    requires Name(name) && Plain(s, name)
    ensures Parse(s) == Some(Placeholder(name, None))
  {
    var a, b, end :| Spaces(a) && Spaces(b) && Ending(end) && s == "#env(" + a + name + b + ")" + end;
    assert s == "#env(" + a + name + b + (")" + end);
    HeadParses(a, name, b, ")" + end);
    assert ")" + "" == ")" && ")" + "\n" == ")\n";
  }

  lemma TailParses(c: string, fallback: string, end: string)
    requires Spaces(c) && QuoteFree(fallback) && Ending(end)
    ensures var after := "," + c + "\"" + fallback + "\")" + end;
      && after != "" && after[0] == ',' && Starts(after, ",") && !Closes(after)
      && SkipSpace(after[1..]) == "\"" + fallback + "\")" + end
      && Span(("\"" + fallback + "\")" + end)[1..], x => x != '\"') == (fallback, "\")" + end)
      && ("\")" + end)[1..] == ")" + end
  {
    var after, quoted := "," + c + "\"" + fallback + "\")" + end, "\"" + fallback + "\")" + end;
    assert after[1..] == c + quoted && quoted[0] == '\"';
    SkipSpaceStops(c, quoted);
    assert quoted[1..] == fallback + ("\")" + end);
    SpanStops(fallback, "\")" + end, x => x != '\"');
  }

  lemma ParseByPart(s: string, name: string, rest: string, quoted: string, fallback: string, closing: string)
    requires Starts(s, "#env(") && Span(SkipSpace(s[5..]), Word) == (name, rest) && name != "" && !Closes(SkipSpace(rest))
    requires Starts(SkipSpace(rest), ",") && SkipSpace(SkipSpace(rest)[1..]) == quoted && Starts(quoted, "\"")
    requires Span(quoted[1..], x => x != '\"') == (fallback, closing) && closing != "" && Closes(closing[1..])
    ensures Parse(s) == Some(Placeholder(name, Some(fallback)))
  {
  }

  lemma EndingCloses(end: string)
    requires Ending(end)
    ensures Closes(")" + end)
  {
    assert ")" + "" == ")" && ")" + "\n" == ")\n";
  }

  lemma PartsParse(a: string, name: string, b: string, after: string, fallback: string, end: string, quoted: string)
    requires Spaces(a) && Name(name) && Spaces(b) && after != "" && after[0] == ',' && Starts(after, ",") && !Closes(after)
    requires SkipSpace(after[1..]) == quoted && Starts(quoted, "\"") && Ending(end)
    requires Span(quoted[1..], x => x != '\"') == (fallback, "\")" + end) && ("\")" + end)[1..] == ")" + end
    ensures Parse("#env(" + a + name + b + after) == Some(Placeholder(name, Some(fallback)))
  {
    HeadParses(a, name, b, after);
    EndingCloses(end);
    ParseByPart("#env(" + a + name + b + after, name, b + after, quoted, fallback, "\")" + end);
  }

  lemma DefaultedParses(s: string, name: string, fallback: string)
    requires Name(name) && QuoteFree(fallback) && Defaulted(s, name, fallback)
    ensures Parse(s) == Some(Placeholder(name, Some(fallback)))
  {
    var a, b, c, end :| Spaces(a) && Spaces(b) && Spaces(c) && Ending(end)
                        && s == "#env(" + a + name + b + "," + c + "\"" + fallback + "\")" + end;
    var after, quoted := "," + c + "\"" + fallback + "\")" + end, "\"" + fallback + "\")" + end;
    assert s == "#env(" + a + name + b + after;
    TailParses(c, fallback, end);
    PartsParse(a, name, b, after, fallback, end, quoted);
  }

  lemma HeadSplits(s: string) returns (a: string, b: string)
    requires Starts(s, "#env(")
    ensures var named := Span(SkipSpace(s[5..]), Word);
      && Spaces(a) && Spaces(b) && s == "#env(" + a + named.0 + b + SkipSpace(named.1)
      && forall i | 0 <= i < |named.0| :: Word(named.0[i])
  {
    a := SkipSpaceSplits(s[5..]);
    SpanSplits(SkipSpace(s[5..]), Word);
    var named := Span(SkipSpace(s[5..]), Word);
    b := SkipSpaceSplits(named.1);
    assert s == s[..5] + s[5..];
    assert s == "#env(" + (a + (named.0 + (b + SkipSpace(named.1))));
  }

  lemma ParsedIsPlain(s: string, name: string)
    requires Parse(s) == Some(Placeholder(name, None))
    ensures Name(name) && Plain(s, name)
  {
    var a, b := HeadSplits(s);
    var after := SkipSpace(Span(SkipSpace(s[5..]), Word).1);
    var end := after[1..];
    assert after == ")" + end && Ending(end);
    assert s == "#env(" + a + name + b + ")" + end;
  }

  /** What follows the name when a default does. */
  lemma TailSplits(after: string) returns (c: string, end: string)
    requires Starts(after, ",") && Starts(SkipSpace(after[1..]), "\"")
    requires var fallback := Span(SkipSpace(after[1..])[1..], x => x != '\"');
             fallback.1 != "" && Closes(fallback.1[1..])
    ensures var fallback := Span(SkipSpace(after[1..])[1..], x => x != '\"').0;
      Spaces(c) && Ending(end) && QuoteFree(fallback) && after == "," + c + "\"" + fallback + "\")" + end
  {
    c := SkipSpaceSplits(after[1..]);
    var quoted := SkipSpace(after[1..]);
    SpanSplits(quoted[1..], x => x != '\"');
    var fallback := Span(quoted[1..], x => x != '\"');
    end := fallback.1[2..];
    assert fallback.1 == "\"" + fallback.1[1..] && fallback.1[1..] == ")" + end;
    assert quoted == "\"" + quoted[1..] && after == "," + after[1..];
    assert after == "," + (c + ("\"" + (fallback.0 + ("\"" + (")" + end)))));
    assert "\"" + ")" == "\")";
  }

  lemma ParsedIsDefaulted(s: string, name: string, fallback: string)
    requires Parse(s) == Some(Placeholder(name, Some(fallback)))
    ensures Name(name) && QuoteFree(fallback) && Defaulted(s, name, fallback)
  {
    var a, b := HeadSplits(s);
    var after := SkipSpace(Span(SkipSpace(s[5..]), Word).1);
    var c, end := TailSplits(after);
    assert s == "#env(" + a + name + b + after;
    assert s == "#env(" + a + name + b + "," + c + "\"" + fallback + "\")" + end;
  }

  /** The pattern exactly: white space around the name and before the default, and at most one newline at the end. */
  lemma ParsesIff(s: string, name: string, fallback: string)
    ensures Parse(s) == Some(Placeholder(name, None)) <==> Name(name) && Plain(s, name)
    ensures Parse(s) == Some(Placeholder(name, Some(fallback))) <==> Name(name) && QuoteFree(fallback) && Defaulted(s, name, fallback)
  {
    if Parse(s) == Some(Placeholder(name, None)) { ParsedIsPlain(s, name); }
    if Name(name) && Plain(s, name) { PlainParses(s, name); }
    if Parse(s) == Some(Placeholder(name, Some(fallback))) { ParsedIsDefaulted(s, name, fallback); }
    if Name(name) && QuoteFree(fallback) && Defaulted(s, name, fallback) { DefaultedParses(s, name, fallback); }
  }

  // ---- which value wins --------------------------------------------------------------------------

  /** `y` is what the text `s` stands for: the variable if it is set, else the default, else nothing; else the text itself. */
  ghost predicate StandsFor(env: Environment, s: string, y: string) {
    && (forall name | Name(name) && Plain(s, name) :: y == if name in env then env[name] else "")
    && (forall name, fallback | Name(name) && QuoteFree(fallback) && Defaulted(s, name, fallback) ::
          y == if name in env then env[name] else fallback)
    && (NoPlaceholder(s) ==> y == s)
  }

  ghost predicate NoPlaceholder(s: string) {
    && (forall name | Name(name) :: !Plain(s, name))
    && (forall name, fallback | Name(name) && QuoteFree(fallback) :: !Defaulted(s, name, fallback))
  }

  /** Resolving a text gives what it stands for, and nothing else. */
  lemma ResolvesIff(env: Environment, s: string, v: Value)
    ensures Resolve(env, Str(s)) == v <==> v.Str? && StandsFor(env, s, v.text)
  {
    forall name | Name(name) && Plain(s, name) ensures Parse(s) == Some(Placeholder(name, None)) { PlainParses(s, name); }
    forall name, fallback | Name(name) && QuoteFree(fallback) && Defaulted(s, name, fallback)
      ensures Parse(s) == Some(Placeholder(name, Some(fallback)))
    {
      DefaultedParses(s, name, fallback);
    }
    match Parse(s)
    case None =>
    case Some(Placeholder(name, None)) => ParsedIsPlain(s, name);
    case Some(Placeholder(name, Some(fallback))) => ParsedIsDefaulted(s, name, fallback);
  }

  /** Written the usual way: the variable wins over the default, the default over nothing. */
  lemma VariableWins(env: Environment, name: string, fallback: string)
    requires Name(name) && QuoteFree(fallback)
    ensures Resolve(env, Str("#env(" + name + ")")) == Str(if name in env then env[name] else "")
    ensures Resolve(env, Str("#env(" + name + ", \"" + fallback + "\")")) == Str(if name in env then env[name] else fallback)
  {
    ParseName(name);
    ParseNameAndDefault(name, fallback);
  }

  // ---- the leaves of a tree ----------------------------------------------------------------------

  lemma {:induction false} ReadResolved(env: Environment, v: Value, path: seq<Key>)
    ensures Read(Resolve(env, v), path) == Resolved(env, Read(v, path))
    decreases path
  {
    if path != [] && v.Arr? {
      FindResolved(env, v.entries, path[0]);
      var child := Find(v.entries, path[0]);
      if child.Some? { ReadResolved(env, child.value, path[1..]); }
    }
  }

  /** A leaf after resolving: a text is what it stands for, any other scalar is itself. */
  ghost predicate Becomes(env: Environment, y: Value, x: Value) {
    if y.Str? then x.Str? && StandsFor(env, y.text, x.text) else x == y
  }

  lemma LeafResolved(env: Environment, v: Value, path: seq<Key>, x: Value)
    ensures LeafAt(Resolve(env, v), path, x) <==> exists y :: LeafAt(v, path, y) && Becomes(env, y, x)
  {
    ReadResolved(env, v, path);
    var was := Read(v, path);
    if was.Some? && !was.value.Arr? {
      if was.value.Str? { ResolvesIff(env, was.value.text, x); }
      assert LeafAt(v, path, was.value);
      assert Becomes(env, was.value, x) <==> Resolve(env, was.value) == x;
    }
  }

  // ---- a start -----------------------------------------------------------------------------------

  /** The named credential is what the password variable holds. */
  predicate Credentialed(environment: Environment) {
    "MAGELIFT_LOCAL_EMAIL_CREDENTIAL_ENV" in environment
    && var named := environment["MAGELIFT_LOCAL_EMAIL_CREDENTIAL_ENV"];
       EnvironmentName(named) && named in environment
  }

  /** The environment the placeholders see. */
  ghost predicate Sees(environment: Environment, env: Environment) {
    forall name ::
      if name == "MAGELIFT_LOCAL_EMAIL_PASSWORD" && Credentialed(environment)
      then name in env && env[name] == environment[environment["MAGELIFT_LOCAL_EMAIL_CREDENTIAL_ENV"]]
      else (name in env <==> name in environment) && (name in env ==> env[name] == environment[name])
  }

  lemma CredentialSeen(environment: Environment)
    ensures Sees(environment, WithCredential(environment))
  {
  }

  /** The leaf before resolving: the override's, or the configuration's where the override has nothing at or above. */
  predicate PickedAt(configuration: Value, override: Option<Value>, path: seq<Key>, y: Value) {
    match override
    case None => LeafAt(configuration, path, y)
    case Some(o) => LeafAt(o, path, y) || (Read(o, path).None? && !Shadows(o, path) && LeafAt(configuration, path, y))
  }

  /** The override: the variable is set to more than white space and decodes to an array. */
  function Given(environment: Environment, decode: string -> Option<Value>): Option<Value> {
    if "MAGENTO_DC__OVERRIDE" in environment && decode(environment["MAGENTO_DC__OVERRIDE"]).Some?
       && decode(environment["MAGENTO_DC__OVERRIDE"]).value.Arr?
       && exists c | c in environment["MAGENTO_DC__OVERRIDE"] :: c !in [' ', '\t', '\n', '\r', '\0', '\U{000B}']
    then decode(environment["MAGENTO_DC__OVERRIDE"])
    else None
  }

  lemma OverrideIsGiven(environment: Environment, decode: string -> Option<Value>)
    ensures var override := Override(WithCredential(environment), decode);
      Given(environment, decode) == if override.None? then None else Some(Arr(override.value))
  {
    assert OVERRIDE == "MAGENTO_DC__OVERRIDE" && OVERRIDE[4] == 'N' && PASSWORD[4] == 'L';
    if OVERRIDE in environment {
      var s := environment[OVERRIDE];
      assert OnlyTrimmed(s) <==> forall c | c in s :: c in [' ', '\t', '\n', '\r', '\0', '\U{000B}'] by {
        assert forall i | 0 <= i < |s| :: s[i] in s;
      }
    }
  }

  lemma MergedPicks(configuration: Value, overlay: Entries, path: seq<Key>, y: Value)
    requires WellFormed(configuration) && configuration.Arr? && WellFormed(Arr(overlay))
    ensures LeafAt(Arr(Merge(configuration.entries, overlay)), path, y) <==> PickedAt(configuration, Some(Arr(overlay)), path, y)
  {
    MergedLeaves(configuration, Arr(overlay), path, y);
  }

  /**
    * What a start exports at every place: the override's leaf, or the configuration's where the override has nothing at
    * or above it, with a placeholder replaced by the variable it names, else its default, else nothing.
    */
  lemma ExportedLeaves(environment: Environment, configuration: Value, decode: string -> Option<Value>, path: seq<Key>, x: Value)
    requires WellFormed(configuration) && configuration.Arr?
    requires forall s | decode(s).Some? :: WellFormed(decode(s).value)
    ensures var env := WithCredential(environment);
      && Sees(environment, env) && Exported(environment, configuration, decode).Some?
      && (LeafAt(Exported(environment, configuration, decode).value, path, x) <==>
            exists y :: PickedAt(configuration, Given(environment, decode), path, y) && Becomes(env, y, x))
  {
    var env := WithCredential(environment);
    CredentialSeen(environment);
    OverrideIsGiven(environment, decode);
    var override := Override(env, decode);
    var tree := if override.None? then configuration else Arr(Merge(configuration.entries, override.value));
    LeafResolved(env, tree, path, x);
    if override.Some? {
      forall y ensures LeafAt(tree, path, y) <==> PickedAt(configuration, Some(Arr(override.value)), path, y) {
        MergedPicks(configuration, override.value, path, y);
      }
    }
  }
}
