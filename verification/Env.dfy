/**
 * From the environment of a request to the environment of the sandboxed process: validateEnv and envMapToSlice
 * of internal/daemon/handler.go, EffectiveAllowEnv and FilterEnv of sandbox/config.go, buildEnv of
 * sandbox/sandbox.go. Go iterates over maps in any order; what the process sees does not depend on it.
 */
module Env {
  import opened Wrappers
  import opened Assignments
  import opened Sequences

  type Vars = map<string, string>

  // ---------- Validation ----------

  predicate IsAlpha(c: char) {
    'A' <= c <= 'Z' || 'a' <= c <= 'z'
  }

  predicate NameChar(c: char) {
    IsAlpha(c) || '0' <= c <= '9' || c == '_'
  }

  /** [a-zA-Z_][a-zA-Z0-9_]* */
  predicate ValidName(s: string) {
    && s != ""
    && ('A' <= s[0] <= 'Z' || 'a' <= s[0] <= 'z' || s[0] == '_')
    && forall i | 0 < i < |s| ::
         'A' <= s[i] <= 'Z' || 'a' <= s[i] <= 'z' || '0' <= s[i] <= '9' || s[i] == '_'
  }

  predicate ValidValue(s: string) {
    forall i | 0 <= i < |s| :: s[i] != '\0' && s[i] != '\n' && s[i] != '\r'
  }

  method IsValidEnvName(s: string) returns (ok: bool)
    ensures ok <==> ValidName(s)
  {
    if |s| == 0 {
      return false;
    }
    if !IsAlpha(s[0]) && s[0] != '_' {
      return false;
    }
    for i := 1 to |s|
      invariant forall j | 0 < j < i :: NameChar(s[j])
    {
      if !NameChar(s[i]) {
        return false;
      }
    }
    return true;
  }

  /** strings.ContainsAny(val, "\x00\n\r") */
  method ContainsControl(s: string) returns (found: bool)
    ensures found <==> !ValidValue(s)
  {
    for i := 0 to |s|
      invariant forall j | 0 <= j < i :: s[j] != '\0' && s[j] != '\n' && s[j] != '\r'
    {
      if s[i] == '\0' || s[i] == '\n' || s[i] == '\r' {
        return true;
      }
    }
    return false;
  }

  datatype EnvError = BadName(name: string) | BadValue(name: string)

  predicate ValidEnv(env: Vars) {
    forall name | name in env :: ValidName(name) && ValidValue(env[name])
  }

  /** Whichever variable comes first, it fails exactly when some variable is invalid, and names one that is. */
  method ValidateEnv(env: Vars) returns (error: Option<EnvError>)
    ensures error.None? <==> ValidEnv(env)
    ensures error.Some? ==> error.value.name in env
    ensures error.Some? ==> (error.value.BadName? <==> !ValidName(error.value.name))
    ensures error.Some? && error.value.BadValue? ==> !ValidValue(env[error.value.name])
  {
    var rest := env.Keys;
    while rest != {}
      invariant rest <= env.Keys
      invariant forall name | name in env && name !in rest :: ValidName(name) && ValidValue(env[name])
      decreases |rest|
    {
      var name :| name in rest;
      rest := rest - {name};
      var ok := IsValidEnvName(name);
      if !ok {
        return Some(BadName(name));
      }
      var control := ContainsControl(env[name]);
      if control {
        return Some(BadValue(name));
      }
    }
    return None;
  }

  lemma ValidNameNoEquals(name: string)
    requires ValidName(name)
    ensures NoEquals(name)
  {
  }

  // ---------- Patterns ----------

  const BASELINE: seq<string> := [
    "USER", "LOGNAME", "LANG", "LC_*", "TZ", "HOME", "PWD", "TMPDIR", "SHELL", "COLUMNS", "LINES",
    "DEBUG", "CI", "NO_COLOR", "FORCE_COLOR", "TMUX", "TMUX_PANE"
  ]

  /** The check of config.go's init: what buildEnv injects is not in the baseline, and HOME is. */
  lemma BaselineExcludesInjected()
    ensures "PATH" !in BASELINE && "TERM" !in BASELINE && "GOTELEMETRY" !in BASELINE
    ensures "HOME" in BASELINE
  {
    assert BASELINE[5] == "HOME";
  }

  /** The baseline, name by name. */
  lemma BaselineIs()
    ensures |BASELINE| == 17
    ensures BASELINE[0] == "USER" && BASELINE[1] == "LOGNAME" && BASELINE[2] == "LANG" && BASELINE[3] == "LC_*"
    ensures BASELINE[4] == "TZ" && BASELINE[5] == "HOME" && BASELINE[6] == "PWD" && BASELINE[7] == "TMPDIR"
    ensures BASELINE[8] == "SHELL" && BASELINE[9] == "COLUMNS" && BASELINE[10] == "LINES" && BASELINE[11] == "DEBUG"
    ensures BASELINE[12] == "CI" && BASELINE[13] == "NO_COLOR" && BASELINE[14] == "FORCE_COLOR"
    ensures BASELINE[15] == "TMUX" && BASELINE[16] == "TMUX_PANE"
  {
  }

  method AppendUnseen(patterns: seq<string>, out: seq<string>, ghost before: seq<string>) returns (out': seq<string>)
    requires out == FirstOccurrences(before)
    ensures out' == FirstOccurrences(before + patterns)
  {
    out' := out;
    assert before + patterns[..0] == before;
    for i := 0 to |patterns|
      invariant out' == FirstOccurrences(before + patterns[..i])
    {
      FirstOccurrencesOneMore(before + patterns[..i], patterns[i]);
      assert before + patterns[..i + 1] == before + patterns[..i] + [patterns[i]];
      if patterns[i] !in out' {
        out' := out' + [patterns[i]];
      } else {
        assert out' + [] == out';
      }
    }
    assert patterns[..|patterns|] == patterns;
  }

  /** The baseline first, then what the operator added, each pattern where it first occurs. */
  method EffectiveAllowEnv(allowEnv: seq<string>) returns (out: seq<string>)
    ensures out == FirstOccurrences(BASELINE + allowEnv)
  {
    out := AppendUnseen(BASELINE, [], []);
    assert [] + BASELINE == BASELINE;
    out := AppendUnseen(allowEnv, out, BASELINE);
  }

  predicate Allowed(patterns: seq<string>, matches: (string, string) -> bool, name: string) {
    exists pattern :: pattern in patterns && matches(pattern, name)
  }

  method MatchesAny(patterns: seq<string>, matches: (string, string) -> bool, name: string) returns (matched: bool)
    ensures matched <==> Allowed(patterns, matches, name)
  {
    for i := 0 to |patterns|
      invariant forall j | 0 <= j < i :: !matches(patterns[j], name)
    {
      if matches(patterns[i], name) {
        return true;
      }
    }
    return false;
  }

  // ---------- Sorting ----------

  /** sort.Strings' order. */
  predicate Below(a: string, b: string) {
    a == "" || (b != "" && (a[0] < b[0] || (a[0] == b[0] && Below(a[1..], b[1..]))))
  }

  /** The strings are alike up to i, where a is smaller. */
  ghost predicate SmallerAt(a: string, b: string, i: int) {
    0 <= i < |a| && i < |b| && (forall j | 0 <= j < i :: a[j] == b[j]) && a[i] < b[i]
  }

  lemma SmallerLater(a: string, b: string, i: nat)
    requires a != "" && b != "" && a[0] == b[0]
    ensures SmallerAt(a[1..], b[1..], i) <==> SmallerAt(a, b, i + 1)
  {
    if SmallerAt(a[1..], b[1..], i) {
      forall j | 0 <= j < i + 1
        ensures a[j] == b[j]
      {
        assert j > 0 ==> a[1..][j - 1] == b[1..][j - 1];
      }
    }
    if SmallerAt(a, b, i + 1) {
      forall j | 0 <= j < i
        ensures a[1..][j] == b[1..][j]
      {
        assert a[j + 1] == b[j + 1];
      }
    }
  }

  /** The usual order of strings: a prefix first, otherwise the first difference decides. */
  lemma {:induction false} BelowIsLexicographic(a: string, b: string)
    ensures Below(a, b) <==> a <= b || exists i :: SmallerAt(a, b, i)
  {
    if a != "" && b != "" {
      if a[0] == b[0] {
        BelowIsLexicographic(a[1..], b[1..]);
        assert a == [a[0]] + a[1..] && b == [b[0]] + b[1..];
        forall i: nat
          ensures SmallerAt(a[1..], b[1..], i) <==> SmallerAt(a, b, i + 1)
        {
          SmallerLater(a, b, i);
        }
        assert !SmallerAt(a, b, 0);
        if i :| SmallerAt(a, b, i) {
          assert SmallerAt(a[1..], b[1..], i - 1);
        }
      } else if a[0] < b[0] {
        assert SmallerAt(a, b, 0);
      }
    }
  }

  lemma {:induction false} BelowTotal(a: string, b: string)
    ensures Below(a, b) || Below(b, a)
    ensures Below(a, b) && Below(b, a) ==> a == b
  {
    if a != "" && b != "" && a[0] == b[0] {
      BelowTotal(a[1..], b[1..]);
      assert a == [a[0]] + a[1..] && b == [b[0]] + b[1..];
    }
  }

  lemma {:induction false} BelowTransitive(a: string, b: string, c: string)
    requires Below(a, b) && Below(b, c)
    ensures Below(a, c)
  {
    if a != "" && a[0] == b[0] && b[0] == c[0] {
      BelowTransitive(a[1..], b[1..], c[1..]);
    }
  }

  ghost predicate Sorted(s: seq<string>) {
    forall i, j | 0 <= i < j < |s| :: Below(s[i], s[j])
  }

  function Insert(s: string, sorted: seq<string>): seq<string> {
    if sorted == [] || Below(s, sorted[0]) then [s] + sorted else [sorted[0]] + Insert(s, sorted[1..])
  }

  lemma {:induction false} InsertSorts(s: string, sorted: seq<string>)
    requires Sorted(sorted)
    ensures Sorted(Insert(s, sorted)) && multiset(Insert(s, sorted)) == multiset(sorted) + multiset{s}
  {
    if sorted == [] {
    } else if Below(s, sorted[0]) {
      forall j | 0 < j < |sorted|
        ensures Below(s, sorted[j])
      {
        BelowTransitive(s, sorted[0], sorted[j]);
      }
    } else {
      InsertSorts(s, sorted[1..]);
      BelowTotal(s, sorted[0]);
      assert sorted == [sorted[0]] + sorted[1..];
      var rest := Insert(s, sorted[1..]);
      forall j | 0 <= j < |rest|
        ensures Below(sorted[0], rest[j])
      {
        assert rest[j] in multiset(rest);
        assert rest[j] == s || rest[j] in sorted[1..];
      }
    }
  }

  /** sort.Strings; which algorithm it uses makes no difference, by SortedUnique. */
  method SortStrings(s: seq<string>) returns (sorted: seq<string>)
    ensures Sorted(sorted) && multiset(sorted) == multiset(s)
  {
    sorted := [];
    for i := 0 to |s|
      invariant Sorted(sorted) && multiset(sorted) == multiset(s[..i])
    {
      assert s[..i + 1] == s[..i] + [s[i]];
      InsertSorts(s[i], sorted);
      sorted := Insert(s[i], sorted);
    }
    assert s[..|s|] == s;
  }

  lemma SortedFirst(a: seq<string>, x: string)
    requires Sorted(a) && x in a
    ensures Below(a[0], x)
  {
    BelowTotal(x, x);
  }

  lemma WithoutFirst(a: seq<string>)
    requires a != []
    ensures multiset(a[1..]) == multiset(a) - multiset{a[0]}
  {
    assert a == [a[0]] + a[1..];
  }

  /** A multiset has one sorted sequence. */
  lemma {:induction false} SortedUnique(a: seq<string>, b: seq<string>)
    requires Sorted(a) && Sorted(b) && multiset(a) == multiset(b)
    ensures a == b
  {
    assert |multiset(a)| == |a| && |multiset(b)| == |b|;
    if a != [] {
      assert a[0] in multiset(b) && b[0] in multiset(a);
      SortedFirst(b, a[0]);
      SortedFirst(a, b[0]);
      BelowTotal(a[0], b[0]);
      WithoutFirst(a);
      WithoutFirst(b);
      SortedUnique(a[1..], b[1..]);
      assert a == [a[0]] + a[1..] && b == [b[0]] + b[1..];
    }
  }

  // ---------- Filtering ----------

  function Kept(env: Vars, patterns: seq<string>, matches: (string, string) -> bool): Vars {
    map name | name in env && Allowed(patterns, matches, name) :: env[name]
  }

  function Stripped(env: Vars, patterns: seq<string>, matches: (string, string) -> bool): set<string> {
    set name | name in env && !Allowed(patterns, matches, name)
  }

  lemma FilterOneMoreName(
    env: Vars, rest: set<string>, name: string, patterns: seq<string>, matches: (string, string) -> bool)
    requires rest <= env.Keys && name in rest
    ensures var before, after := env - rest, env - (rest - {name});
            if Allowed(patterns, matches, name) then
              && Kept(after, patterns, matches) == Kept(before, patterns, matches)[name := env[name]]
              && Stripped(after, patterns, matches) == Stripped(before, patterns, matches)
            else
              && Kept(after, patterns, matches) == Kept(before, patterns, matches)
              && name !in Stripped(before, patterns, matches)
              && Stripped(after, patterns, matches) == Stripped(before, patterns, matches) + {name}
  {
  }

  /** Whatever the order of iteration: what matches is kept as it is, and the rest is returned sorted. */
  method FilterEnv(env: Vars, patterns: seq<string>, matches: (string, string) -> bool)
    returns (allowed: Vars, stripped: seq<string>)
    ensures allowed == Kept(env, patterns, matches)
    ensures Sorted(stripped) && multiset(stripped) == multiset(Stripped(env, patterns, matches))
  {
    allowed, stripped := map[], [];
    var rest := env.Keys;
    while rest != {}
      invariant rest <= env.Keys
      invariant allowed == Kept(env - rest, patterns, matches)
      invariant multiset(stripped) == multiset(Stripped(env - rest, patterns, matches))
      decreases |rest|
    {
      var name :| name in rest;
      FilterOneMoreName(env, rest, name, patterns, matches);
      var matched := MatchesAny(patterns, matches, name);
      if matched {
        allowed := allowed[name := env[name]];
      } else {
        stripped := stripped + [name];
      }
      rest := rest - {name};
    }
    assert env - {} == env;
    stripped := SortStrings(stripped);
  }

  // ---------- Reading back ----------

  /** How a process reads its environment: the last entry for a name counts. */
  function Lookup(entries: seq<string>, name: string): Option<string> {
    if entries == [] then None
    else
      match Split(entries[|entries| - 1])
      case Some((name', value)) => if name' == name then Some(value) else Lookup(entries[..|entries| - 1], name)
      case None => Lookup(entries[..|entries| - 1], name)
  }

  function Get(env: Vars, name: string): Option<string> {
    if name in env then Some(env[name]) else None
  }

  function Or<T>(first: Option<T>, second: Option<T>): Option<T> {
    if first.Some? then first else second
  }

  lemma {:induction false} LookupAppend(a: seq<string>, b: seq<string>, name: string)
    ensures Lookup(a + b, name) == Or(Lookup(b, name), Lookup(a, name))
  {
    if b == [] {
      assert a + b == a;
    } else {
      assert (a + b)[..|a + b| - 1] == a + b[..|b| - 1];
      LookupAppend(a, b[..|b| - 1], name);
    }
  }

  lemma LookupOne(name: string, value: string, wanted: string)
    requires NoEquals(name)
    ensures Lookup([Assignment(name, value)], wanted) == if wanted == name then Some(value) else None
  {
    SplitAssignment(name, value);
    assert [Assignment(name, value)][..0] == [];
  }

  /** No entry is ever read under a name with an equals sign. */
  lemma {:induction false} LookupNoEquals(entries: seq<string>, name: string)
    requires !NoEquals(name)
    ensures Lookup(entries, name) == None
  {
    if entries != [] {
      LookupNoEquals(entries[..|entries| - 1], name);
    }
  }

  ghost predicate ReadsBack(entries: seq<string>, env: Vars) {
    forall name :: Lookup(entries, name) == Get(env, name)
  }

  ghost predicate PlainNames(env: Vars) {
    forall name | name in env :: NoEquals(name)
  }

  /**
   * One entry for each variable, in whatever order; read back they are the variables exactly if no name has an
   * equals sign in it.
   */
  method EnvMapToSlice(env: Vars) returns (entries: seq<string>)
    ensures |entries| == |env|
    ensures forall name | name in env :: Assignment(name, env[name]) in entries
    ensures ReadsBack(entries, env) <==> PlainNames(env)
  {
    entries := [];
    var rest := env.Keys;
    while rest != {}
      invariant rest <= env.Keys && |entries| == |env.Keys - rest|
      invariant forall name | name in env && name !in rest :: Assignment(name, env[name]) in entries
      invariant PlainNames(env) ==> ReadsBack(entries, env - rest)
      decreases |rest|
    {
      var name :| name in rest;
      OneMoreVariable(env, rest, name);
      if PlainNames(env) {
        ReadsBackOneMore(entries, env - rest, name, env[name]);
      }
      entries := entries + [Assignment(name, env[name])];
      rest := rest - {name};
    }
    assert env.Keys - {} == env.Keys && env - {} == env;
    ReadBackIsPlain(entries, env);
  }

  lemma ReadBackIsPlain(entries: seq<string>, env: Vars)
    ensures ReadsBack(entries, env) ==> PlainNames(env)
  {
    forall name | name in env && !NoEquals(name)
      ensures !ReadsBack(entries, env)
    {
      LookupNoEquals(entries, name);
      assert Get(env, name).Some?;
    }
  }

  lemma OneMoreVariable(env: Vars, rest: set<string>, name: string)
    requires rest <= env.Keys && name in rest
    ensures env - (rest - {name}) == (env - rest)[name := env[name]]
    ensures |env.Keys - (rest - {name})| == |env.Keys - rest| + 1
  {
    assert env.Keys - (rest - {name}) == env.Keys - rest + {name};
  }

  lemma ReadsBackOneMore(entries: seq<string>, env: Vars, name: string, value: string)
    requires ReadsBack(entries, env) && NoEquals(name)
    ensures ReadsBack(entries + [Assignment(name, value)], env[name := value])
  {
    forall wanted
      ensures Lookup(entries + [Assignment(name, value)], wanted) == Get(env[name := value], wanted)
    {
      LookupAppend(entries, [Assignment(name, value)], wanted);
      LookupOne(name, value, wanted);
    }
  }

  // ---------- The sandbox's own variables ----------

  predicate HasPrefix(s: string, prefix: string) {
    |prefix| <= |s| && s[..|prefix|] == prefix
  }

  lemma PrefixIsName(entry: string, name: string)
    requires NoEquals(name)
    ensures HasPrefix(entry, name + "=") <==> Split(entry).Some? && Split(entry).value.0 == name
  {
    if Split(entry).Some? && Split(entry).value.0 == name {
      assert entry[..|name + "="|] == name + "=";
    }
    if HasPrefix(entry, name + "=") {
      assert entry == Assignment(name, entry[|name| + 1..]);
      SplitAssignment(name, entry[|name| + 1..]);
    }
  }

  method EnvContainsKey(entries: seq<string>, name: string) returns (found: bool)
    requires NoEquals(name)
    ensures found <==> Lookup(entries, name).Some?
  {
    for i := 0 to |entries|
      invariant Lookup(entries[..i], name).None?
    {
      PrefixIsName(entries[i], name);
      assert entries[..i + 1][..i] == entries[..i];
      if HasPrefix(entries[i], name + "=") {
        assert Lookup(entries[..i + 1], name).Some?;
        assert entries == entries[..i + 1] + entries[i + 1..];
        LookupAppend(entries[..i + 1], entries[i + 1..], name);
        return true;
      }
    }
    assert entries[..|entries|] == entries;
    return false;
  }

  function Injected(path: string, name: string): Option<string> {
    if name == "PATH" then Some(path)
    else if name == "TERM" then Some("dumb")
    else if name == "GOTELEMETRY" then Some("off")
    else None
  }

  function OrDefault(fallbackHome: string): string {
    if fallbackHome != "" then fallbackHome else "/home/agent"
  }

  function Home(home: string, name: string): Option<string> {
    if name == "HOME" then Some(home) else None
  }

  /** What the sandbox adds: its own variables, then a home. */
  function Supplied(path: string, fallbackHome: string, name: string): Option<string> {
    Or(Injected(path, name), Home(OrDefault(fallbackHome), name))
  }

  /** What a process sees: the caller's variables before the sandbox's. */
  function Seen(env: Vars, path: string, fallbackHome: string, name: string): Option<string> {
    Or(Get(env, name), Supplied(path, fallbackHome, name))
  }

  function BaseEnv(path: string): seq<string> {
    [Assignment("PATH", path)] + [Assignment("TERM", "dumb")] + [Assignment("GOTELEMETRY", "off")]
  }

  lemma BaseEnvInjects(path: string, name: string)
    ensures Lookup(BaseEnv(path), name) == Injected(path, name)
  {
    LookupOne("PATH", path, name);
    LookupOne("TERM", "dumb", name);
    LookupOne("GOTELEMETRY", "off", name);
    LookupAppend([Assignment("PATH", path)], [Assignment("TERM", "dumb")], name);
    LookupAppend([Assignment("PATH", path)] + [Assignment("TERM", "dumb")], [Assignment("GOTELEMETRY", "off")], name);
  }

  /** Where HOME is put makes no difference, since it is put only where there is none. */
  lemma HomeInserted(base: seq<string>, home: string, name: string)
    requires base != [] && Lookup(base, "HOME").None?
    ensures Lookup([base[0]] + [Assignment("HOME", home)] + base[1..], name)
            == Or(Lookup(base, name), Home(home, name))
  {
    var first, rest, entry := [base[0]], base[1..], [Assignment("HOME", home)];
    assert base == first + rest;
    LookupAppend(first, rest, name);
    LookupAppend(first + entry, rest, name);
    LookupAppend(first, entry, name);
    LookupOne("HOME", home, name);
  }

  type Reading = string -> Option<string>

  /** What the sandbox supplies, said of two ways of looking names up: the whole environment and the caller's part. */
  ghost predicate FillsIn(whole: Reading, given: Reading, path: string, fallbackHome: string) {
    && (given("HOME").None? && fallbackHome != "" ==> whole("HOME") == Some(fallbackHome))
    && (given("HOME").None? && fallbackHome == "" ==> whole("HOME") == Some("/home/agent"))
    && (given("PATH").None? ==> whole("PATH") == Some(path))
    && (given("TERM").None? ==> whole("TERM") == Some("dumb"))
    && (given("GOTELEMETRY").None? ==> whole("GOTELEMETRY") == Some("off"))
    && (forall name | given(name).Some? :: whole(name) == given(name))
    && (forall name | name !in ["HOME", "PATH", "TERM", "GOTELEMETRY"] :: whole(name) == given(name))
  }

  lemma SuppliedFillsIn(whole: Reading, given: Reading, path: string, fallbackHome: string)
    requires forall name :: whole(name) == Or(given(name), Supplied(path, fallbackHome, name))
    ensures FillsIn(whole, given, path, fallbackHome)
  {
  }

  /** Looking up in a list of entries. */
  function In(entries: seq<string>): Reading {
    name => Lookup(entries, name)
  }

  method BuildEnv(cfgEnv: Option<seq<string>>, path: string, fallbackHome: string) returns (entries: seq<string>)
    ensures var given := if cfgEnv.Some? then cfgEnv.value else [];
            forall name :: Lookup(entries, name) == Or(Lookup(given, name), Supplied(path, fallbackHome, name))
    ensures FillsIn(In(entries), In(if cfgEnv.Some? then cfgEnv.value else []), path, fallbackHome)
  {
    var base := BaseEnv(path);
    ghost var given := if cfgEnv.Some? then cfgEnv.value else [];
    if cfgEnv.Some? {
      base := base + cfgEnv.value;
    }
    assert BaseEnv(path) + [] == BaseEnv(path);
    forall name
      ensures Lookup(base, name) == Or(Lookup(given, name), Injected(path, name))
    {
      LookupAppend(BaseEnv(path), given, name);
      BaseEnvInjects(path, name);
    }
    var hasHome := EnvContainsKey(base, "HOME");
    entries := base;
    if !hasHome {
      var home := OrDefault(fallbackHome);
      forall name
        ensures Lookup([base[0]] + [Assignment("HOME", home)] + base[1..], name)
                == Or(Lookup(base, name), Home(home, name))
      {
        HomeInserted(base, home, name);
      }
      entries := [base[0]] + [Assignment("HOME", home)] + base[1..];
    }
    SuppliedFillsIn(In(entries), In(given), path, fallbackHome);
  }

  // ---------- End to end ----------

  /** The caller's variable matches a pattern of the baseline or of the operator. */
  predicate Passes(env: Vars, allowEnv: seq<string>, matches: (string, string) -> bool, name: string) {
    && name in env
    && ((exists pattern :: pattern in BASELINE && matches(pattern, name))
        || (exists pattern :: pattern in allowEnv && matches(pattern, name)))
  }

  /** What the caller gets through. */
  function Caller(env: Vars, allowEnv: seq<string>, matches: (string, string) -> bool): Reading {
    name => if Passes(env, allowEnv, matches, name) then Some(env[name]) else None
  }

  lemma PassesIsKept(env: Vars, allowEnv: seq<string>, matches: (string, string) -> bool, name: string)
    ensures name in Kept(env, BASELINE + allowEnv, matches) <==> Passes(env, allowEnv, matches, name)
    ensures Passes(env, allowEnv, matches, name) ==> Kept(env, BASELINE + allowEnv, matches)[name] == env[name]
    ensures name in Stripped(env, BASELINE + allowEnv, matches) <==>
              name in env && !Passes(env, allowEnv, matches, name)
  {
    InEither(BASELINE, allowEnv, matches, name);
  }

  lemma CallerIsKept(env: Vars, allowEnv: seq<string>, matches: (string, string) -> bool)
    ensures forall name :: Caller(env, allowEnv, matches)(name) == Get(Kept(env, BASELINE + allowEnv, matches), name)
  {
    forall name
      ensures Caller(env, allowEnv, matches)(name) == Get(Kept(env, BASELINE + allowEnv, matches), name)
    {
      PassesIsKept(env, allowEnv, matches, name);
    }
  }

  lemma StrippedAre(stripped: seq<string>, env: Vars, allowEnv: seq<string>, matches: (string, string) -> bool)
    requires multiset(stripped) == multiset(Stripped(env, BASELINE + allowEnv, matches))
    ensures forall name :: name in stripped <==> name in env && !Passes(env, allowEnv, matches, name)
  {
    forall name
      ensures name in stripped <==> name in env && !Passes(env, allowEnv, matches, name)
    {
      PassesIsKept(env, allowEnv, matches, name);
      assert name in stripped <==> name in multiset(stripped);
    }
  }

  lemma InEither(a: seq<string>, b: seq<string>, matches: (string, string) -> bool, name: string)
    ensures Allowed(a + b, matches, name) <==> Allowed(a, matches, name) || Allowed(b, matches, name)
  {
    forall pattern
      ensures pattern in a + b <==> pattern in a || pattern in b
    {
    }
  }

  /**
   * The way of a request's environment through handleRunAutoBackground and Exec. An invalid variable is an error;
   * otherwise the process sees the caller's value for each name that matches a pattern in force, the sandbox's own
   * variables and a home for the rest, and nothing else, in whatever order the maps were iterated.
   */
  method ChildEnv(
    env: Vars, allowEnv: seq<string>, matches: (string, string) -> bool, path: string, fallbackHome: string)
    returns (result: Result<seq<string>, EnvError>, stripped: seq<string>)
    ensures result.Ok? <==> ValidEnv(env)
    ensures result.Ok? ==>
              && (forall name :: Lookup(result.value, name)
                    == Seen(Kept(env, BASELINE + allowEnv, matches), path, fallbackHome, name))
              && Sorted(stripped) && multiset(stripped) == multiset(Stripped(env, BASELINE + allowEnv, matches))
    ensures result.Ok? ==> FillsIn(In(result.value), Caller(env, allowEnv, matches), path, fallbackHome)
    ensures result.Ok? ==> forall name :: name in stripped <==> name in env && !Passes(env, allowEnv, matches, name)
  {
    var error := ValidateEnv(env);
    if error.Some? {
      return Err(error.value), [];
    }
    var patterns := EffectiveAllowEnv(allowEnv);
    var allowed;
    allowed, stripped := FilterEnv(env, patterns, matches);
    forall name
      ensures Allowed(patterns, matches, name) <==> Allowed(BASELINE + allowEnv, matches, name)
    {
    }
    assert allowed == Kept(env, BASELINE + allowEnv, matches);
    assert Stripped(env, patterns, matches) == Stripped(env, BASELINE + allowEnv, matches);
    forall name | name in allowed
      ensures NoEquals(name)
    {
      ValidNameNoEquals(name);
    }
    var given := EnvMapToSlice(allowed);
    var entries := BuildEnv(Some(given), path, fallbackHome);
    CallerIsKept(env, allowEnv, matches);
    StrippedAre(stripped, env, allowEnv, matches);
    SuppliedFillsIn(In(entries), Caller(env, allowEnv, matches), path, fallbackHome);
    return Ok(entries), stripped;
  }

  /** Two passes over one request, each with its own orders of iteration, come to the same. */
  method ChildEnvTwice(
    env: Vars, allowEnv: seq<string>, matches: (string, string) -> bool, path: string, fallbackHome: string)
    returns (first: Result<seq<string>, EnvError>, stripped: seq<string>,
             second: Result<seq<string>, EnvError>, stripped': seq<string>)
    ensures first.Ok? <==> second.Ok?
    ensures first.Ok? ==>
              stripped == stripped' && forall name :: Lookup(first.value, name) == Lookup(second.value, name)
  {
    first, stripped := ChildEnv(env, allowEnv, matches, path, fallbackHome);
    second, stripped' := ChildEnv(env, allowEnv, matches, path, fallbackHome);
    if first.Ok? {
      SortedUnique(stripped, stripped');
    }
  }
}
