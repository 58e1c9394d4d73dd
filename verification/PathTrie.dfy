/** Lookup by the longest stored prefix, and the path patterns built on it. */
module PathTrie {
  import opened Wrappers

  /** The stored key that is the longest prefix of a path. */
  function Ancestor<V>(t: map<string, V>, path: string): (r: Option<string>)
    ensures r.Some? ==> r.value in t && r.value <= path
    ensures forall k :: k in t && k <= path ==> r.Some? && k <= r.value
  {
    if path in t then Some(path)
    else if path == "" then None
    else
      OtherPrefixesAreShorter(t.Keys, path);
      Ancestor(t, path[..|path| - 1])
  }

  lemma OtherPrefixesAreShorter(keys: set<string>, path: string)
    requires path != ""
    ensures forall k :: k in keys && k <= path ==> k == path || k <= path[..|path| - 1]
  {
    forall k | k in keys && k <= path
      ensures k == path || k <= path[..|path| - 1]
    {
      assert k == path[..|k|];
    }
  }

  /** What `Ancestor` promises determines it. */
  lemma AncestorUnique<V>(t: map<string, V>, path: string, r: Option<string>)
    requires r.Some? ==> r.value in t && r.value <= path
    requires forall k :: k in t && k <= path ==> r.Some? && |k| <= |r.value|
    ensures r == Ancestor(t, path)
  {
    var a := Ancestor(t, path);
    if r.Some? {
      assert r.value == path[..|r.value|] && a.value == path[..|a.value|];
    }
  }

  // ---------- Removing the mount from a path ----------

  /** The path without the first occurrence of a pattern. */
  function WithoutFirst(path: string, pattern: string): string {
    if pattern <= path then path[|pattern|..]
    else if path == "" then path
    else [path[0]] + WithoutFirst(path[1..], pattern)
  }

  // ---------- Patterns ----------

  predicate Wildcard(pattern: string) { pattern != "" && pattern[|pattern| - 1] == '*' }

  function Stem(pattern: string): string {
    if Wildcard(pattern) then pattern[..|pattern| - 1] else pattern
  }

  /** What a pattern means. */
  predicate Matches(pattern: string, path: string) {
    if Wildcard(pattern) then Stem(pattern) <= path else pattern == path
  }

  ghost predicate AnyMatches(patterns: seq<string>, path: string) {
    exists i :: 0 <= i < |patterns| && Matches(patterns[i], path)
  }

  /** Stems with their kind; of patterns with the same stem the last one counts. */
  function Index(patterns: seq<string>): map<string, bool> {
    if patterns == [] then map[]
    else
      var last := patterns[|patterns| - 1];
      Index(patterns[..|patterns| - 1])[Stem(last) := Wildcard(last)]
  }

  method NewRadixFromPaths(patterns: seq<string>) returns (t: map<string, bool>)
    ensures t == Index(patterns)
  {
    t := map[];
    for i := 0 to |patterns|
      invariant t == Index(patterns[..i])
    {
      var pattern := patterns[i];
      var prefixMatch := pattern != "" && pattern[|pattern| - 1] == '*';
      if prefixMatch {
        pattern := pattern[..|pattern| - 1];
      }
      t := t[pattern := prefixMatch];
      assert patterns[..i + 1][..i] == patterns[..i];
    }
    assert patterns[..|patterns|] == patterns;
  }

  /** The test on the index. */
  predicate Accepts(t: map<string, bool>, path: string) {
    var a := Ancestor(t, path);
    a.Some? && if t[a.value] then a.value <= path else path == a.value
  }

  lemma {:induction false} IndexHasStems(patterns: seq<string>, i: nat)
    requires i < |patterns|
    ensures Stem(patterns[i]) in Index(patterns)
  {
    if i < |patterns| - 1 {
      IndexHasStems(patterns[..|patterns| - 1], i);
    }
  }

  lemma {:induction false} IndexFromPatterns(patterns: seq<string>, k: string) returns (i: nat)
    requires k in Index(patterns)
    ensures i < |patterns| && Stem(patterns[i]) == k && Wildcard(patterns[i]) == Index(patterns)[k]
  {
    i := |patterns| - 1;
    if Stem(patterns[i]) != k {
      i := IndexFromPatterns(patterns[..i], k);
    }
  }

  /** An accepted path is matched by a listed pattern. */
  lemma AcceptsIsSound(patterns: seq<string>, path: string)
    requires Accepts(Index(patterns), path)
    ensures AnyMatches(patterns, path)
  {
    hide Index;
    var i := IndexFromPatterns(patterns, Ancestor(Index(patterns), path).value);
    assert Matches(patterns[i], path);
  }

  /** The longest stem of a path is exact and shorter than the path, and hides a wildcard stem. */
  ghost predicate Shadowed(patterns: seq<string>, path: string) {
    var a := Ancestor(Index(patterns), path);
    && a.Some? && !Index(patterns)[a.value] && path != a.value
    && exists i :: 0 <= i < |patterns| && Wildcard(patterns[i]) && Stem(patterns[i]) <= a.value
  }

  /** The test agrees with the patterns exactly on the paths where no exact pattern hides a wildcard. */
  lemma AcceptsIffNotShadowed(patterns: seq<string>, path: string)
    ensures Accepts(Index(patterns), path) == AnyMatches(patterns, path) <==> !Shadowed(patterns, path)
  {
    hide Index;
    if Accepts(Index(patterns), path) {
      AcceptsIsSound(patterns, path);
    } else if AnyMatches(patterns, path) {
      var i :| 0 <= i < |patterns| && Matches(patterns[i], path);
      IndexHasStems(patterns, i);
      assert Wildcard(patterns[i]);
    } else {
      forall i | 0 <= i < |patterns| && Wildcard(patterns[i])
        ensures !(Stem(patterns[i]) <= path)
      {
        assert !Matches(patterns[i], path);
      }
    }
  }

  /** So it agrees everywhere when no exact pattern starts with a wildcard stem. */
  lemma AcceptsIsExact(patterns: seq<string>, path: string)
    requires forall i, j :: 0 <= i < |patterns| && 0 <= j < |patterns| && Wildcard(patterns[i]) && !Wildcard(patterns[j]) ==>
               !(Stem(patterns[i]) <= patterns[j])
    ensures Accepts(Index(patterns), path) <==> AnyMatches(patterns, path)
  {
    hide Index;
    AcceptsIffNotShadowed(patterns, path);
    if Shadowed(patterns, path) {
      var a := Ancestor(Index(patterns), path);
      var j := IndexFromPatterns(patterns, a.value);
    }
  }

  /** Without that condition it does not: `login` hides `log*` on `login2`. */
  lemma ShadowedExample()
    ensures AnyMatches(["log*", "login"], "login2") && !Accepts(Index(["log*", "login"]), "login2")
  {
    var patterns := ["log*", "login"];
    assert Stem(patterns[0]) == "log" && Stem(patterns[1]) == "login";
    assert Matches(patterns[0], "login2");
    assert patterns[..1] == ["log*"];
    assert Index(patterns) == map["log" := true, "login" := false];
    AncestorUnique(Index(patterns), "login2", Some("login"));
  }
}
