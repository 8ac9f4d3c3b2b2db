/** Resolving environment placeholders in the deployment configuration, and merging an override into it. */
module DeploymentConfig {
  import opened Optional

  datatype Key = IntKey(index: int) | StrKey(name: string)

  datatype Value = Null | Bool(b: bool) | Int(i: int) | Float(x: real) | Str(text: string) | Arr(entries: Entries)

  /** A PHP array: an ordered list of entries, whose keys are distinct in every value PHP can build. */
  datatype Entries = End | Entry(key: Key, value: Value, rest: Entries)

  type Environment = map<string, string>

  function Keys(es: Entries): seq<Key> {
    match es
    case End => []
    case Entry(k, _, rest) => [k] + Keys(rest)
  }

  predicate WellFormed(v: Value) {
    v.Arr? ==> WellFormedArray(v.entries)
  }

  predicate WellFormedArray(es: Entries) {
    match es
    case End => true
    case Entry(k, v, rest) => k !in Keys(rest) && WellFormed(v) && WellFormedArray(rest)
  }

  // ---- placeholders ------------------------------------------------------------------------------

  datatype Placeholder = Placeholder(name: string, fallback: Option<string>)

  predicate Space(c: char) {
    c == ' ' || '\t' <= c <= '\r'
  }

  predicate Word(c: char) {
    'a' <= c <= 'z' || 'A' <= c <= 'Z' || '0' <= c <= '9' || c == '_'
  }

  function SkipSpace(s: string): string {
    if s != "" && Space(s[0]) then SkipSpace(s[1..]) else s
  }

  /** The longest prefix accepted by `p`, and what follows it. */
  function Span(s: string, p: char -> bool): (string, string) {
    if s == "" || !p(s[0]) then ("", s)
    else
      var rest := Span(s[1..], p);
      ([s[0]] + rest.0, rest.1)
  }

  predicate Starts(s: string, prefix: string) {
    |prefix| <= |s| && s[..|prefix|] == prefix
  }

  /** The closing parenthesis at the end of the text or before its final newline. */
  predicate Closes(s: string) {
    s == ")" || s == ")\n"
  }

  /** The `#env(NAME)` and `#env(NAME, "default")` pattern. */
  function Parse(s: string): Option<Placeholder> {
    if !Starts(s, "#env(") then None
    else
      var named := Span(SkipSpace(s[5..]), Word);
      var after := SkipSpace(named.1);
      if named.0 == "" then None
      else if Closes(after) then Some(Placeholder(named.0, None))
      else if !Starts(after, ",") then None
      else
        var quoted := SkipSpace(after[1..]);
        if !Starts(quoted, "\"") then None
        else
          var fallback := Span(quoted[1..], c => c != '\"');
          if fallback.1 != "" && Closes(fallback.1[1..]) then Some(Placeholder(named.0, Some(fallback.0))) else None
  }

  lemma {:induction false} SpanStops(s: string, rest: string, p: char -> bool)
    requires (forall i | 0 <= i < |s| :: p(s[i])) && (rest == "" || !p(rest[0]))
    ensures Span(s + rest, p) == (s, rest)
  {
    if s == "" {
      assert s + rest == rest;
    } else {
      assert (s + rest)[1..] == s[1..] + rest && (s + rest)[0] == s[0];
      assert [s[0]] + s[1..] == s;
      SpanStops(s[1..], rest, p);
    }
  }

  predicate Name(s: string) {
    s != "" && forall i | 0 <= i < |s| :: Word(s[i])
  }

  predicate QuoteFree(s: string) {
    forall i | 0 <= i < |s| :: s[i] != '\"'
  }

  /** Writing a placeholder and parsing it gives back its name. */
  lemma ParseName(name: string)
    requires Name(name)
    ensures Parse("#env(" + name + ")") == Some(Placeholder(name, None))
  {
    var s := "#env(" + name + ")";
    assert s[..5] == "#env(" && s[5..] == name + ")";
    assert (name + ")")[0] == name[0];
    SpanStops(name, ")", Word);
  }

  /** Writing a placeholder with a default and parsing it gives back both. */
  lemma ParseNameAndDefault(name: string, fallback: string)
    requires Name(name) && QuoteFree(fallback)
    ensures Parse("#env(" + name + ", \"" + fallback + "\")") == Some(Placeholder(name, Some(fallback)))
  {
    var tail := fallback + "\")";
    var after := ", \"" + tail;
    var s := "#env(" + name + ", \"" + fallback + "\")";
    assert s == "#env(" + (name + after);
    assert s[..5] == "#env(" && s[5..] == name + after;
    assert (name + after)[0] == name[0];
    SpanStops(name, after, Word);
    assert after[1..] == " \"" + tail;
    assert (" \"" + tail)[1..] == "\"" + tail;
    assert SkipSpace(" \"" + tail) == "\"" + tail;
    assert ("\"" + tail)[1..] == tail;
    SpanStops(fallback, "\")", c => c != '\"');
    assert "\")"[1..] == ")";
  }

  // ---- resolving ---------------------------------------------------------------------------------

  function ResolveText(env: Environment, s: string): string {
    match Parse(s)
    case None => s
    case Some(Placeholder(name, fallback)) =>
      if name in env then env[name] else if fallback.Some? then fallback.value else ""
  }

  function Resolve(env: Environment, v: Value): Value {
    match v
    case Arr(es) => Arr(ResolveAll(env, es))
    case Str(s) => Str(ResolveText(env, s))
    case _ => v
  }

  function ResolveAll(env: Environment, es: Entries): Entries {
    match es
    case End => End
    case Entry(k, v, rest) => Entry(k, Resolve(env, v), ResolveAll(env, rest))
  }

  // ---- merging -----------------------------------------------------------------------------------

  function Find(es: Entries, k: Key): Option<Value> {
    match es
    case End => None
    case Entry(key, v, rest) => if key == k then Some(v) else Find(rest, k)
  }

  /** PHP assignment: an existing key keeps its position, a new one goes last. */
  function Put(es: Entries, k: Key, v: Value): Entries {
    match es
    case End => Entry(k, v, End)
    case Entry(key, was, rest) => if key == k then Entry(k, v, rest) else Entry(key, was, Put(rest, k, v))
  }

  function Combine(was: Option<Value>, v: Value): Value
    decreases v
  {
    match v
    case Arr(es) => if was.Some? && was.value.Arr? then Arr(Merge(was.value.entries, es)) else v
    case _ => v
  }

  function Merge(base: Entries, overlay: Entries): Entries
    decreases overlay
  {
    match overlay
    case End => base
    case Entry(k, v, rest) => Merge(Put(base, k, Combine(Find(base, k), v)), rest)
  }

  // ---- the loops ---------------------------------------------------------------------------------

  function Append(a: Entries, b: Entries): Entries {
    match a
    case End => b
    case Entry(k, v, rest) => Entry(k, v, Append(rest, b))
  }

  lemma {:induction false} AppendStep(a: Entries, k: Key, v: Value, b: Entries)
    ensures Append(Append(a, Entry(k, v, End)), b) == Append(a, Entry(k, v, b))
    ensures Keys(Append(a, Entry(k, v, End))) == Keys(a) + [k]
  {
    match a {
      case End =>
      case Entry(key, x, rest) => AppendStep(rest, k, v, b);
    }
  }

  lemma {:induction false} PutInPlace(a: Entries, k: Key, v: Value, x: Value, b: Entries)
    requires k !in Keys(a)
    ensures Put(Append(a, Entry(k, v, b)), k, x) == Append(a, Entry(k, x, b))
  {
    match a {
      case End =>
      case Entry(key, y, rest) => PutInPlace(rest, k, v, x, b);
    }
  }

  lemma AppendEnd(a: Entries)
    ensures Append(a, End) == a
  {
  }

  /** `mageliftResolveDeploymentConfig`: each element of a copy is overwritten while the original is walked. */
  method ResolveDeploymentConfig(env: Environment, v: Value) returns (r: Value)
    requires WellFormed(v)
    ensures r == Resolve(env, v)
    decreases v
  {
    match v {
      case Str(s) =>
        var placeholder := Parse(s);
        if placeholder.None? {
          return v;
        }
        if placeholder.value.name in env {
          return Str(env[placeholder.value.name]);
        }
        return Str(if placeholder.value.fallback.Some? then placeholder.value.fallback.value else "");
      case Arr(es) =>
        var value, todo := es, es;
        ghost var done := End;
        while todo != End
          invariant value == Append(done, todo) && Append(done, ResolveAll(env, todo)) == ResolveAll(env, es)
          invariant WellFormedArray(todo) && (forall k | k in Keys(todo) :: k !in Keys(done))
          invariant todo == es || todo < es
          decreases todo
        {
          var child := ResolveDeploymentConfig(env, todo.value);
          PutInPlace(done, todo.key, todo.value, child, todo.rest);
          AppendStep(done, todo.key, child, todo.rest);
          AppendStep(done, todo.key, child, ResolveAll(env, todo.rest));
          value := Put(value, todo.key, child);
          done := Append(done, Entry(todo.key, child, End));
          todo := todo.rest;
        }
        AppendEnd(done);
        return Arr(value);
      case _ => return v;
    }
  }

  /** `mageliftMergeDeploymentConfig`. */
  method MergeDeploymentConfig(base: Entries, overlay: Entries) returns (merged: Entries)
    ensures merged == Merge(base, overlay)
    decreases overlay
  {
    merged := base;
    var todo := overlay;
    while todo != End
      invariant Merge(merged, todo) == Merge(base, overlay)
      invariant todo == overlay || todo < overlay
      decreases todo
    {
      var was := Find(merged, todo.key);
      if todo.value.Arr? && was.Some? && was.value.Arr? {
        var nested := MergeDeploymentConfig(was.value.entries, todo.value.entries);
        merged := Put(merged, todo.key, Arr(nested));
      } else {
        merged := Put(merged, todo.key, todo.value);
      }
      todo := todo.rest;
    }
  }

  // ---- resolving distributes over merging --------------------------------------------------------

  function Resolved(env: Environment, v: Option<Value>): Option<Value> {
    if v.Some? then Some(Resolve(env, v.value)) else None
  }

  lemma {:induction false} FindResolved(env: Environment, es: Entries, k: Key)
    ensures Find(ResolveAll(env, es), k) == Resolved(env, Find(es, k))
  {
    match es {
      case End =>
      case Entry(key, v, rest) => FindResolved(env, rest, k);
    }
  }

  lemma {:induction false} PutResolved(env: Environment, es: Entries, k: Key, v: Value)
    ensures ResolveAll(env, Put(es, k, v)) == Put(ResolveAll(env, es), k, Resolve(env, v))
  {
    match es {
      case End =>
      case Entry(key, was, rest) => PutResolved(env, rest, k, v);
    }
  }

  lemma {:induction false} CombineResolved(env: Environment, was: Option<Value>, v: Value)
    ensures Resolve(env, Combine(was, v)) == Combine(Resolved(env, was), Resolve(env, v))
    decreases v
  {
    if v.Arr? && was.Some? && was.value.Arr? {
      ResolveDistributes(env, was.value.entries, v.entries);
    }
  }

  /** Resolving both trees and merging is merging and resolving, order of the keys included. */
  lemma {:induction false} ResolveDistributes(env: Environment, base: Entries, overlay: Entries)
    ensures ResolveAll(env, Merge(base, overlay)) == Merge(ResolveAll(env, base), ResolveAll(env, overlay))
    decreases overlay
  {
    match overlay {
      case End =>
      case Entry(k, v, rest) =>
        var put := Put(base, k, Combine(Find(base, k), v));
        ResolveDistributes(env, put, rest);
        PutResolved(env, base, k, Combine(Find(base, k), v));
        CombineResolved(env, Find(base, k), v);
        FindResolved(env, base, k);
    }
  }

  // ---- what a merge contains ---------------------------------------------------------------------

  lemma {:induction false} FindPut(es: Entries, k: Key, v: Value, j: Key)
    ensures Find(Put(es, k, v), j) == if j == k then Some(v) else Find(es, j)
  {
    match es {
      case End =>
      case Entry(key, was, rest) => FindPut(rest, k, v, j);
    }
  }

  lemma {:induction false} KeysPut(es: Entries, k: Key, v: Value)
    ensures Keys(Put(es, k, v)) == if k in Keys(es) then Keys(es) else Keys(es) + [k]
  {
    match es {
      case End =>
      case Entry(key, was, rest) => KeysPut(rest, k, v);
    }
  }

  lemma {:induction false} FindKeys(es: Entries, k: Key)
    ensures Find(es, k).Some? <==> k in Keys(es)
  {
    match es {
      case End =>
      case Entry(key, v, rest) => FindKeys(rest, k);
    }
  }

  /** The overlay's keys that the base lacks, in the overlay's order. */
  function NewKeys(base: seq<Key>, overlay: Entries): seq<Key> {
    match overlay
    case End => []
    case Entry(k, _, rest) => (if k in base then [] else [k]) + NewKeys(base, rest)
  }

  lemma {:induction false} NewKeysIgnore(base: seq<Key>, k: Key, overlay: Entries)
    requires k !in Keys(overlay)
    ensures NewKeys(base + [k], overlay) == NewKeys(base, overlay)
  {
    match overlay {
      case End =>
      case Entry(key, v, rest) => NewKeysIgnore(base, k, rest);
    }
  }

  /** The merged keys are the base's, in place, then the overlay's new ones. */
  lemma {:induction false} MergedKeys(base: Entries, overlay: Entries)
    requires WellFormedArray(overlay)
    ensures Keys(Merge(base, overlay)) == Keys(base) + NewKeys(Keys(base), overlay)
    decreases overlay
  {
    match overlay {
      case End =>
      case Entry(k, v, rest) =>
        var x := Combine(Find(base, k), v);
        MergedKeys(Put(base, k, x), rest);
        KeysPut(base, k, x);
        NewKeysIgnore(Keys(base), k, rest);
        if k !in Keys(base) {
          assert Keys(base) + [k] + NewKeys(Keys(base), rest) == Keys(base) + ([k] + NewKeys(Keys(base), rest));
        } else {
          assert [] + NewKeys(Keys(base), rest) == NewKeys(Keys(base), rest);
        }
    }
  }

  function Overlaid(was: Option<Value>, over: Option<Value>): Option<Value> {
    if over.None? then was else Some(Combine(was, over.value))
  }

  /** Key by key, a merge is the base's value overlaid by the overlay's. */
  lemma {:induction false} MergedAt(base: Entries, overlay: Entries, j: Key)
    requires WellFormedArray(overlay)
    ensures Find(Merge(base, overlay), j) == Overlaid(Find(base, j), Find(overlay, j))
    decreases overlay
  {
    match overlay {
      case End =>
      case Entry(k, v, rest) =>
        MergedAt(Put(base, k, Combine(Find(base, k), v)), rest, j);
        FindPut(base, k, Combine(Find(base, k), v), j);
        FindKeys(rest, k);
    }
  }

  function Read(v: Value, path: seq<Key>): Option<Value>
    decreases path
  {
    if path == [] then Some(v)
    else if !v.Arr? then None
    else
      var child := Find(v.entries, path[0]);
      if child.None? then None else Read(child.value, path[1..])
  }

  /** A value that is not an array stands strictly above the path. */
  predicate Shadows(v: Value, path: seq<Key>)
    decreases path
  {
    if path == [] then false
    else if !v.Arr? then true
    else
      var child := Find(v.entries, path[0]);
      child.Some? && Shadows(child.value, path[1..])
  }

  lemma {:induction false} FindWellFormed(es: Entries, k: Key)
    requires WellFormedArray(es) && Find(es, k).Some?
    ensures WellFormed(Find(es, k).value)
  {
    if es.key != k {
      FindWellFormed(es.rest, k);
    }
  }

  predicate LeafAt(v: Value, path: seq<Key>, x: Value) {
    !x.Arr? && Read(v, path) == Some(x)
  }

  /**
    * At every path the merged tree has a leaf exactly where the overlay has that leaf, or where the overlay has
    * nothing at or above the path and the base has that leaf.
    */
  lemma {:induction false} MergedLeaves(base: Value, overlay: Value, path: seq<Key>, x: Value)
    requires WellFormed(base) && WellFormed(overlay) && base.Arr?
    ensures LeafAt(Combine(Some(base), overlay), path, x) <==>
      LeafAt(overlay, path, x) || (Read(overlay, path).None? && !Shadows(overlay, path) && LeafAt(base, path, x))
    decreases path
  {
    if path != [] && overlay.Arr? {
      var k := path[0];
      MergedAt(base.entries, overlay.entries, k);
      var was, over := Find(base.entries, k), Find(overlay.entries, k);
      if over.Some? && was.Some? && was.value.Arr? {
        FindWellFormed(base.entries, k);
        FindWellFormed(overlay.entries, k);
        MergedLeaves(was.value, over.value, path[1..], x);
      } else if over.Some? && was.Some? {
        NothingBelowLeaf(was.value, over.value, path[1..], x);
      }
    }
  }

  lemma NothingBelowLeaf(leaf: Value, over: Value, path: seq<Key>, x: Value)
    requires !leaf.Arr?
    ensures Read(over, path).None? && !Shadows(over, path) ==> !LeafAt(leaf, path, x)
  {
  }

  // ---- laws of repeated starts -------------------------------------------------------------------

  lemma {:induction false} PutWellFormed(es: Entries, k: Key, v: Value)
    requires WellFormedArray(es) && WellFormed(v)
    ensures WellFormedArray(Put(es, k, v))
  {
    match es {
      case End =>
      case Entry(key, was, rest) =>
        PutWellFormed(rest, k, v);
        KeysPut(rest, k, v);
    }
  }

  lemma {:induction false} MergeWellFormed(base: Entries, overlay: Entries)
    requires WellFormedArray(base) && WellFormedArray(overlay)
    ensures WellFormedArray(Merge(base, overlay))
    decreases overlay
  {
    match overlay {
      case End =>
      case Entry(k, v, rest) =>
        if v.Arr? && Find(base, k).Some? && Find(base, k).value.Arr? {
          FindWellFormed(base, k);
          MergeWellFormed(Find(base, k).value.entries, v.entries);
        }
        PutWellFormed(base, k, Combine(Find(base, k), v));
        MergeWellFormed(Put(base, k, Combine(Find(base, k), v)), rest);
    }
  }

  lemma {:induction false} SameEntries(a: Entries, b: Entries)
    requires WellFormedArray(a) && WellFormedArray(b) && Keys(a) == Keys(b)
    requires forall k :: Find(a, k) == Find(b, k)
    ensures a == b
  {
    if a != End && b != End {
      assert Keys(a)[0] == a.key && Keys(b)[0] == b.key;
      assert Keys(a)[1..] == Keys(a.rest) && Keys(b)[1..] == Keys(b.rest);
      assert Find(a, a.key) == Find(b, a.key);
      forall k ensures Find(a.rest, k) == Find(b.rest, k) {
        FindKeys(a.rest, k);
        FindKeys(b.rest, k);
        assert Find(a, k) == Find(b, k);
      }
      SameEntries(a.rest, b.rest);
    }
  }

  function Missing(base: seq<Key>, keys: seq<Key>): seq<Key> {
    if keys == [] then [] else (if keys[0] in base then [] else [keys[0]]) + Missing(base, keys[1..])
  }

  lemma {:induction false} NewKeysAreMissing(base: seq<Key>, overlay: Entries)
    ensures NewKeys(base, overlay) == Missing(base, Keys(overlay))
    ensures forall k | k in NewKeys(base, overlay) :: k !in base
  {
    match overlay {
      case End =>
      case Entry(k, v, rest) =>
        assert Keys(overlay)[1..] == Keys(rest);
        NewKeysAreMissing(base, rest);
    }
  }

  lemma {:induction false} MissingAfter(base: seq<Key>, known: seq<Key>, more: seq<Key>)
    requires (forall k | k in known :: k in base) && (forall k | k in more :: k !in base)
    ensures Missing(base, known + more) == more
  {
    if known != [] {
      assert (known + more)[1..] == known[1..] + more;
      MissingAfter(base, known[1..], more);
    } else if more != [] {
      assert known + more == more;
      MissingAfter(base, [], more[1..]);
      assert [] + more[1..] == more[1..];
    }
  }

  /** The same keys in the same places, and arrays where the other has arrays. */
  predicate AlikeValues(a: Value, b: Value)
    decreases a
  {
    if a.Arr? then b.Arr? && Alike(a.entries, b.entries) else !b.Arr?
  }

  predicate Alike(a: Entries, b: Entries)
    decreases a
  {
    match a
    case End => b == End
    case Entry(k, v, rest) => b.Entry? && b.key == k && AlikeValues(v, b.value) && Alike(rest, b.rest)
  }

  lemma {:induction false} AlikeItself(es: Entries)
    ensures Alike(es, es)
  {
    match es {
      case End =>
      case Entry(k, v, rest) =>
        if v.Arr? { AlikeItself(v.entries); }
        AlikeItself(rest);
    }
  }

  lemma {:induction false} ResolvedAlike(env: Environment, env': Environment, es: Entries)
    ensures Alike(ResolveAll(env, es), ResolveAll(env', es))
  {
    match es {
      case End =>
      case Entry(k, v, rest) =>
        if v.Arr? { ResolvedAlike(env, env', v.entries); }
        ResolvedAlike(env, env', rest);
    }
  }

  lemma {:induction false} AlikeAt(a: Entries, b: Entries, k: Key)
    requires Alike(a, b)
    ensures Keys(a) == Keys(b)
    ensures Find(a, k).Some? <==> Find(b, k).Some?
    ensures Find(a, k).Some? ==> AlikeValues(Find(a, k).value, Find(b, k).value)
  {
    match a {
      case End =>
      case Entry(key, v, rest) => AlikeAt(rest, b.rest, k);
    }
  }

  /** A tree merged over one alike replaces it. */
  lemma {:induction false} MergeReplaces(base: Entries, es: Entries)
    requires WellFormedArray(base) && WellFormedArray(es) && Alike(base, es)
    ensures Merge(base, es) == es
    decreases es
  {
    MergeWellFormed(base, es);
    MergedKeys(base, es);
    AlikeAt(base, es, IntKey(0));
    NewKeysAreMissing(Keys(base), es);
    MissingAfter(Keys(base), Keys(base), []);
    assert Keys(base) + [] == Keys(base);
    forall k ensures Find(Merge(base, es), k) == Find(es, k) {
      MergedAt(base, es, k);
      AlikeAt(base, es, k);
      if Find(es, k).Some? && Find(es, k).value.Arr? {
        FindWellFormed(base, k);
        FindWellFormed(es, k);
        FindSmaller(es, k);
        MergeReplaces(Find(base, k).value.entries, Find(es, k).value.entries);
      }
    }
    SameEntries(Merge(base, es), es);
  }

  /** Merging a tree with itself changes nothing. */
  lemma MergeSelf(es: Entries)
    requires WellFormedArray(es)
    ensures Merge(es, es) == es
  {
    AlikeItself(es);
    MergeReplaces(es, es);
  }

  lemma ReplacedValue(was: Value, v: Value)
    requires WellFormed(was) && WellFormed(v) && AlikeValues(was, v)
    ensures Combine(Some(was), v) == v
  {
    if v.Arr? {
      MergeReplaces(was.entries, v.entries);
    }
  }

  lemma {:induction false} CombinedTwice(was': Value, was: Value, v: Value)
    requires WellFormed(was') && WellFormed(was) && WellFormed(v) && AlikeValues(was', was)
    ensures Combine(Some(was'), Combine(Some(was), v)) == Combine(Some(was), v)
    decreases v
  {
    if v.Arr? && was.Arr? {
      MergeAbsorbsAlike(was'.entries, was.entries, v.entries);
    }
  }

  /** Merging a merged tree into anything like its base gives the merged tree again. */
  lemma {:induction false} MergeAbsorbsAlike(base': Entries, base: Entries, overlay: Entries)
    requires WellFormedArray(base') && WellFormedArray(base) && WellFormedArray(overlay) && Alike(base', base)
    ensures Merge(base', Merge(base, overlay)) == Merge(base, overlay)
    decreases overlay, 1
  {
    var merged := Merge(base, overlay);
    MergeWellFormed(base, overlay);
    MergeWellFormed(base', merged);
    MergedKeys(base, overlay);
    MergedKeys(base', merged);
    AlikeAt(base', base, IntKey(0));
    NewKeysAreMissing(Keys(base), merged);
    NewKeysAreMissing(Keys(base), overlay);
    MissingAfter(Keys(base), Keys(base), NewKeys(Keys(base), overlay));
    forall k ensures Find(Merge(base', merged), k) == Find(merged, k) {
      MergedAt(base, overlay, k);
      MergedAt(base', merged, k);
      AlikeAt(base', base, k);
      AbsorbedAt(base', base, overlay, k);
    }
    SameEntries(Merge(base', merged), merged);
  }

  lemma {:induction false} AbsorbedAt(base': Entries, base: Entries, overlay: Entries, k: Key)
    requires WellFormedArray(base') && WellFormedArray(base) && WellFormedArray(overlay) && Alike(base', base)
    ensures var over := Overlaid(Find(base, k), Find(overlay, k)); Overlaid(Find(base', k), over) == over
    decreases overlay, 0
  {
    AlikeAt(base', base, k);
    var was', was, over := Find(base', k), Find(base, k), Find(overlay, k);
    if was.Some? {
      FindWellFormed(base, k);
      FindWellFormed(base', k);
      if over.Some? {
        FindWellFormed(overlay, k);
        FindSmaller(overlay, k);
        CombinedTwice(was'.value, was.value, over.value);
      } else {
        ReplacedValue(was'.value, was.value);
      }
    }
  }

  /** Merging the merged tree into its base again adds nothing: the exported override can be merged any number of times. */
  lemma MergeAbsorbs(base: Entries, overlay: Entries)
    requires WellFormedArray(base) && WellFormedArray(overlay)
    ensures Merge(base, Merge(base, overlay)) == Merge(base, overlay)
  {
    AlikeItself(base);
    MergeAbsorbsAlike(base, base, overlay);
  }

  lemma {:induction false} FindSmaller(es: Entries, k: Key)
    requires Find(es, k).Some?
    ensures Find(es, k).value < es
  {
    if es.key != k {
      FindSmaller(es.rest, k);
    }
  }

  // ---- start-up ----------------------------------------------------------------------------------

  const CREDENTIAL_NAME := "MAGELIFT_LOCAL_EMAIL_CREDENTIAL_ENV"
  const PASSWORD := "MAGELIFT_LOCAL_EMAIL_PASSWORD"
  const OVERRIDE := "MAGENTO_DC__OVERRIDE"

  predicate EnvironmentName(s: string) {
    && s != "" && 'A' <= s[0] <= 'Z'
    && forall i | 0 <= i < |s| :: 'A' <= s[i] <= 'Z' || '0' <= s[i] <= '9' || s[i] == '_'
  }

  /** The named credential is copied to the password variable before anything is resolved. */
  function WithCredential(env: Environment): Environment {
    if CREDENTIAL_NAME in env && EnvironmentName(env[CREDENTIAL_NAME]) && env[CREDENTIAL_NAME] in env
    then env[PASSWORD := env[env[CREDENTIAL_NAME]]]
    else env
  }

  predicate OnlyTrimmed(s: string) {
    forall i | 0 <= i < |s| :: s[i] in {' ', '\t', '\n', '\r', '\0', '\U{000B}'}
  }

  /** The decoded override, when there is one and it is an array; `decode` stands for the JSON decoder. */
  function Override(env: Environment, decode: string -> Option<Value>): Option<Entries> {
    if OVERRIDE in env && !OnlyTrimmed(env[OVERRIDE]) && decode(env[OVERRIDE]).Some? && decode(env[OVERRIDE]).value.Arr?
    then Some(decode(env[OVERRIDE]).value.entries)
    else None
  }

  /** What the prepended script exports; `None` leaves the environment alone. */
  function Exported(environment: Environment, configuration: Value, decode: string -> Option<Value>): Option<Value> {
    if !configuration.Arr? then None
    else
      var env := WithCredential(environment);
      var override := Override(env, decode);
      Some(Resolve(env, if override.None? then configuration else Arr(Merge(configuration.entries, override.value))))
  }

  /** The script resolves each tree before the merge, and exports what resolving the merged tree once would give. */
  method Startup(environment: Environment, configuration: Value, decode: string -> Option<Value>) returns (exported: Option<Value>)
    requires WellFormed(configuration)
    requires forall s | decode(s).Some? :: WellFormed(decode(s).value)
    ensures exported == Exported(environment, configuration, decode)
  {
    if !configuration.Arr? {
      return None;
    }
    var env := WithCredential(environment);
    var resolved := ResolveDeploymentConfig(env, configuration);
    var override := Override(env, decode);
    if override.Some? {
      var decoded := ResolveDeploymentConfig(env, Arr(override.value));
      var merged := MergeDeploymentConfig(resolved.entries, decoded.entries);
      ResolveDistributes(env, configuration.entries, override.value);
      return Some(Arr(merged));
    }
    return Some(resolved);
  }

  // ---- a second start ----------------------------------------------------------------------------

  /** No text of the tree is a placeholder that stands for another text. */
  predicate Steady(env: Environment, v: Value) {
    match v
    case Arr(es) => AllSteady(env, es)
    case Str(s) => Parse(s).None? || ResolveText(env, s) == s
    case _ => true
  }

  predicate AllSteady(env: Environment, es: Entries) {
    match es
    case End => true
    case Entry(_, v, rest) => Steady(env, v) && AllSteady(env, rest)
  }

  lemma {:induction false} ResolveFixedIff(env: Environment, v: Value)
    ensures Resolve(env, v) == v <==> Steady(env, v)
  {
    if v.Arr? {
      AllFixedIff(env, v.entries);
    }
  }

  lemma {:induction false} AllFixedIff(env: Environment, es: Entries)
    ensures ResolveAll(env, es) == es <==> AllSteady(env, es)
  {
    match es {
      case End =>
      case Entry(k, v, rest) =>
        ResolveFixedIff(env, v);
        AllFixedIff(env, rest);
    }
  }

  lemma {:induction false} ResolveWellFormed(env: Environment, es: Entries)
    requires WellFormedArray(es)
    ensures WellFormedArray(ResolveAll(env, es)) && Keys(ResolveAll(env, es)) == Keys(es)
  {
    match es {
      case End =>
      case Entry(k, v, rest) =>
        if v.Arr? { ResolveWellFormed(env, v.entries); }
        ResolveWellFormed(env, rest);
    }
  }

  /** A tree that survives being resolved and merged over anything was already resolved. */
  lemma {:induction false} SurvivorIsFixed(env: Environment, base: Entries, es: Entries)
    requires WellFormedArray(es) && Merge(base, ResolveAll(env, es)) == es
    ensures ResolveAll(env, es) == es
    decreases es
  {
    var resolved := ResolveAll(env, es);
    ResolveWellFormed(env, es);
    forall k ensures Find(resolved, k) == Find(es, k) {
      FindResolved(env, es, k);
      MergedAt(base, resolved, k);
      var was, v := Find(base, k), Find(es, k);
      if v.Some? && v.value.Arr? && was.Some? && was.value.Arr? {
        FindWellFormed(es, k);
        FindSmaller(es, k);
        SurvivorIsFixed(env, was.value.entries, v.value.entries);
      }
    }
    SameEntries(resolved, es);
  }

  lemma RestartMergeIff(env: Environment, env': Environment, base: Entries, exported: Entries)
    requires WellFormedArray(base) && WellFormedArray(exported)
    requires Merge(ResolveAll(env', base), exported) == exported
    ensures ResolveAll(env', Merge(base, exported)) == exported <==> AllSteady(env', exported)
  {
    ResolveDistributes(env', base, exported);
    AllFixedIff(env', exported);
    if ResolveAll(env', Merge(base, exported)) == exported {
      SurvivorIsFixed(env', ResolveAll(env', base), exported);
    }
  }

  lemma ExportedAbsorbs(env: Environment, env': Environment, base: Entries, override: Option<Entries>)
    requires WellFormedArray(base) && (override.Some? ==> WellFormedArray(override.value))
    ensures var exported := ResolveAll(env, if override.None? then base else Merge(base, override.value));
      WellFormedArray(exported) && Merge(ResolveAll(env', base), exported) == exported
  {
    ResolveWellFormed(env, base);
    ResolveWellFormed(env', base);
    ResolvedAlike(env', env, base);
    if override.None? {
      MergeReplaces(ResolveAll(env', base), ResolveAll(env, base));
    } else {
      ResolveWellFormed(env, override.value);
      ResolveDistributes(env, base, override.value);
      MergeWellFormed(ResolveAll(env, base), ResolveAll(env, override.value));
      MergeAbsorbsAlike(ResolveAll(env', base), ResolveAll(env, base), ResolveAll(env, override.value));
    }
  }

  /**
    * A second start, on the environment the first one left, exports the same tree exactly when no exported text is
    * itself a placeholder for another text. `text` is the encoded export.
    */
  lemma RestartExportsSameIff(environment: Environment, configuration: Value, decode: string -> Option<Value>, text: string)
    requires WellFormed(configuration) && configuration.Arr?
    requires forall s | decode(s).Some? :: WellFormed(decode(s).value)
    requires decode(text) == Exported(environment, configuration, decode) && !OnlyTrimmed(text)
    ensures var second := WithCredential(environment)[OVERRIDE := text];
      Exported(second, configuration, decode) == Exported(environment, configuration, decode)
      <==> Steady(WithCredential(second), Exported(environment, configuration, decode).value)
  {
    var second := WithCredential(environment)[OVERRIDE := text];
    var env, env' := WithCredential(environment), WithCredential(second);
    var first := Exported(environment, configuration, decode).value;
    ExportedAbsorbs(env, env', configuration.entries, Override(env, decode));
    OverrideKept(second);
    assert Override(env', decode) == Some(first.entries);
    RestartMergeIff(env, env', configuration.entries, first.entries);
  }

  lemma OverrideKept(env: Environment)
    requires OVERRIDE in env
    ensures OVERRIDE in WithCredential(env) && WithCredential(env)[OVERRIDE] == env[OVERRIDE]
  {
    assert OVERRIDE[4] == 'N' && PASSWORD[4] == 'L';
  }

  const NESTING: Environment := map["A" := "#env(B)", "B" := "x"]

  lemma NestedTexts(env: Environment)
    requires "A" in env && env["A"] == "#env(B)" && "B" in env && env["B"] == "x"
    ensures ResolveText(env, "#env(A)") == "#env(B)" && ResolveText(env, "#env(B)") == "x"
    ensures Parse("#env(B)").Some?
  {
    assert Name("A") && Name("B");
    ParseName("A");
    ParseName("B");
    assert "#env(" + "A" + ")" == "#env(A)" && "#env(" + "B" + ")" == "#env(B)";
  }

  lemma NamesApart()
    ensures CREDENTIAL_NAME !in ["A", "B", OVERRIDE] && OVERRIDE !in ["A", "B"]
  {
    assert CREDENTIAL_NAME[1] == 'A' && OVERRIDE[1] == 'A' && CREDENTIAL_NAME[4] == 'L' && OVERRIDE[4] == 'N';
  }

  function Single(text: string): Value {
    Arr(Entry(StrKey("k"), Str(text), End))
  }

  /** A variable whose value is a placeholder: one start exports it, and the next one resolves it again. */
  lemma NestedPlaceholderDrifts(decode: string -> Option<Value>, text: string)
    requires forall s | decode(s).Some? :: WellFormed(decode(s).value)
    requires decode(text) == Some(Single("#env(B)")) && !OnlyTrimmed(text)
    ensures Exported(NESTING, Single("#env(A)"), decode) == Some(Single("#env(B)"))
    ensures Exported(WithCredential(NESTING)[OVERRIDE := text], Single("#env(A)"), decode) != Some(Single("#env(B)"))
  {
    NamesApart();
    NestedTexts(NESTING);
    var second := NESTING[OVERRIDE := text];
    NestedTexts(second);
    assert !Steady(second, Str("#env(B)"));
    assert "x"[0] != "#env(B)"[0];
    RestartExportsSameIff(NESTING, Single("#env(A)"), decode, text);
  }
}
