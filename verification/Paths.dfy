/** filepath.Clean and filepath.Dir on Unix, on strings. */
module Paths {
  predicate NoSlash(s: string) {
    forall i | 0 <= i < |s| :: s[i] != '/'
  }

  function Prepend(c: char, parts: seq<string>): (r: seq<string>)
    requires parts != []
  {
    if c == '/' then [""] + parts else [[c] + parts[0]] + parts[1..]
  }

  function Split(s: string): (parts: seq<string>)
    ensures parts != [] && forall i | 0 <= i < |parts| :: NoSlash(parts[i])
  {
    if s == "" then [""] else Prepend(s[0], Split(s[1..]))
  }

  function Join(parts: seq<string>): string {
    if parts == [] then "" else if |parts| == 1 then parts[0] else parts[0] + "/" + Join(parts[1..])
  }

  predicate IsRooted(s: string) {
    s != "" && s[0] == '/'
  }

  /** The lexical rules of Clean, one component at a time, on the components kept so far. */
  function Push(rooted: bool, kept: seq<string>, part: string): seq<string> {
    if part == "" || part == "." then kept
    else if part != ".." then kept + [part]
    else if kept != [] && kept[|kept| - 1] != ".." then kept[..|kept| - 1]
    else if rooted then kept
    else kept + [part]
  }

  function Resolve(rooted: bool, parts: seq<string>, kept: seq<string>): seq<string>
    decreases |parts|
  {
    if parts == [] then kept else Resolve(rooted, parts[1..], Push(rooted, kept, parts[0]))
  }

  function Render(rooted: bool, parts: seq<string>): string {
    if rooted then "/" + Join(parts) else if parts == [] then "." else Join(parts)
  }

  function Components(s: string): seq<string> {
    Resolve(IsRooted(s), Split(s), [])
  }

  function Clean(s: string): string {
    if s == "" then "." else Render(IsRooted(s), Components(s))
  }

  function AfterLastSlash(s: string): (n: nat)
    ensures n <= |s|
    ensures n > 0 ==> s[n - 1] == '/'
    ensures NoSlash(s[n..])
  {
    if s == "" || s[|s| - 1] == '/' then |s| else AfterLastSlash(s[..|s| - 1])
  }

  function Dir(s: string): string {
    Clean(s[..AfterLastSlash(s)])
  }

  /** Components that Clean leaves alone: none empty or ".", and ".." only leading in a relative path. */
  ghost predicate Normal(rooted: bool, parts: seq<string>) {
    forall i | 0 <= i < |parts| ::
      && parts[i] != "" && parts[i] != "." && NoSlash(parts[i])
      && (parts[i] == ".." ==> !rooted && forall j | 0 <= j < i :: parts[j] == "..")
  }

  lemma {:induction false} SplitPlain(s: string)
    requires NoSlash(s)
    ensures Split(s) == [s]
  {
    if s != "" {
      SplitPlain(s[1..]);
      assert [s[0]] + s[1..] == s;
      assert [s] + [] == [s];
    }
  }

  lemma PrependAppend(c: char, a: seq<string>, b: seq<string>)
    requires a != []
    ensures Prepend(c, a + b) == Prepend(c, a) + b
  {
    assert (a + b)[0] == a[0] && (a + b)[1..] == a[1..] + b;
  }

  lemma {:induction false} SplitAtSlash(a: string, b: string)
    ensures Split(a + "/" + b) == Split(a) + Split(b)
  {
    var whole := a + "/" + b;
    if a == "" {
      assert whole[0] == '/' && whole[1..] == b;
    } else {
      SplitAtSlash(a[1..], b);
      assert whole[0] == a[0] && whole[1..] == a[1..] + "/" + b;
      PrependAppend(a[0], Split(a[1..]), Split(b));
    }
  }

  lemma {:induction false} SplitJoin(parts: seq<string>)
    requires parts != [] && forall i | 0 <= i < |parts| :: NoSlash(parts[i])
    ensures Split(Join(parts)) == parts
  {
    SplitPlain(parts[0]);
    if |parts| > 1 {
      SplitJoin(parts[1..]);
      SplitAtSlash(parts[0], Join(parts[1..]));
    }
  }

  lemma {:induction false} JoinLast(parts: seq<string>, last: string)
    requires parts != []
    ensures Join(parts + [last]) == Join(parts) + "/" + last
  {
    if |parts| > 1 {
      JoinLast(parts[1..], last);
      assert (parts + [last])[1..] == parts[1..] + [last];
    }
  }

  lemma {:induction false} ResolveKeepsNormal(rooted: bool, parts: seq<string>, kept: seq<string>)
    requires Normal(rooted, kept) && forall i | 0 <= i < |parts| :: NoSlash(parts[i])
    ensures Normal(rooted, Resolve(rooted, parts, kept))
    decreases |parts|
  {
    if parts != [] {
      ResolveKeepsNormal(rooted, parts[1..], Push(rooted, kept, parts[0]));
    }
  }

  lemma {:induction false} ResolveNormal(rooted: bool, parts: seq<string>, kept: seq<string>)
    requires Normal(rooted, kept + parts)
    ensures Resolve(rooted, parts, kept) == kept + parts
    decreases |parts|
  {
    if parts != [] {
      assert (kept + parts)[|kept|] == parts[0];
      assert forall j | 0 <= j < |kept| :: (kept + parts)[j] == kept[j];
      assert kept + parts == kept + [parts[0]] + parts[1..];
      ResolveNormal(rooted, parts[1..], kept + [parts[0]]);
    }
  }

  lemma {:induction false} ResolveSplit(rooted: bool, a: seq<string>, b: seq<string>, kept: seq<string>)
    ensures Resolve(rooted, a + b, kept) == Resolve(rooted, b, Resolve(rooted, a, kept))
    decreases |a|
  {
    if a == [] {
      assert a + b == b;
    } else {
      assert (a + b)[1..] == a[1..] + b;
      ResolveSplit(rooted, a[1..], b, Push(rooted, kept, a[0]));
    }
  }

  /** Reading a rendered path back gives its components. */
  lemma ComponentsOfRender(rooted: bool, parts: seq<string>)
    requires Normal(rooted, parts)
    ensures IsRooted(Render(rooted, parts)) == rooted
    ensures Components(Render(rooted, parts)) == parts
  {
    var s := Render(rooted, parts);
    assert [] + parts == parts;
    ResolveNormal(rooted, parts, []);
    if parts == [] {
      SplitPlain("");
      SplitPlain(".");
      SplitAtSlash("", "");
      assert "" + "/" + "" == "/";
      assert Resolve(rooted, ["", ""], []) == Resolve(rooted, [""], []) == [];
      assert Resolve(rooted, ["."], []) == [];
    } else {
      SplitJoin(parts);
      if rooted {
        SplitPlain("");
        SplitAtSlash("", Join(parts));
        assert "" + "/" + Join(parts) == s;
        assert ([""] + parts)[1..] == parts;
      } else {
        assert s[0] == parts[0][0];
      }
    }
  }

  lemma ComponentsNormal(s: string)
    ensures Normal(IsRooted(s), Components(s))
  {
    ResolveKeepsNormal(IsRooted(s), Split(s), []);
  }

  predicate IsClean(s: string) {
    Clean(s) == s
  }

  lemma RenderIsClean(rooted: bool, parts: seq<string>)
    requires Normal(rooted, parts)
    ensures IsClean(Render(rooted, parts))
  {
    ComponentsOfRender(rooted, parts);
    if !rooted && parts != [] {
      assert Join(parts) != "" by { assert parts[0] != ""; }
    }
  }

  /** Clean is idempotent, so every Dir is clean. */
  lemma CleanIsClean(s: string)
    ensures IsClean(Clean(s))
  {
    ComponentsNormal(s);
    RenderIsClean(IsRooted(s), Components(s));
    RenderIsClean(false, []);
  }

  lemma DirIsClean(s: string)
    ensures IsClean(Dir(s))
  {
    CleanIsClean(s[..AfterLastSlash(s)]);
  }

  lemma {:induction false} LastSlashBefore(prefix: string, last: string)
    requires NoSlash(last) && (prefix == "" || prefix[|prefix| - 1] == '/')
    ensures AfterLastSlash(prefix + last) == |prefix|
    decreases |last|
  {
    var s := prefix + last;
    if last == "" {
      assert s == prefix;
    } else {
      LastSlashBefore(prefix, last[..|last| - 1]);
      assert s[..|s| - 1] == prefix + last[..|last| - 1];
      assert s[|s| - 1] == last[|last| - 1];
    }
  }

  /** Dir drops the last component of a clean path. */
  lemma DirOfRender(rooted: bool, parts: seq<string>, last: string)
    requires Normal(rooted, parts + [last])
    ensures Dir(Render(rooted, parts + [last])) == Render(rooted, parts)
  {
    assert (parts + [last])[|parts|] == last;
    NormalPrefix(rooted, parts, last);
    var whole := Render(rooted, parts + [last]);
    if parts == [] {
      assert parts + [last] == [last];
      var prefix := if rooted then "/" else "";
      assert whole == prefix + last;
      LastSlashBefore(prefix, last);
      assert whole[..|prefix|] == prefix;
      assert Render(true, []) == "/";
      ComponentsOfRender(rooted, []);
    } else {
      JoinLast(parts, last);
      var above := Render(rooted, parts);
      assert whole == (above + "/") + last;
      LastSlashBefore(above + "/", last);
      assert whole[..|above + "/"|] == above + "/";
      TrailingSlash(rooted, parts);
    }
  }

  lemma NormalPrefix(rooted: bool, parts: seq<string>, last: string)
    requires Normal(rooted, parts + [last])
    ensures Normal(rooted, parts)
  {
    assert forall i | 0 <= i < |parts| :: (parts + [last])[i] == parts[i];
  }

  lemma TrailingSlash(rooted: bool, parts: seq<string>)
    requires Normal(rooted, parts) && parts != []
    ensures Clean(Render(rooted, parts) + "/") == Render(rooted, parts)
  {
    var above := Render(rooted, parts);
    ComponentsOfRender(rooted, parts);
    assert above != "" by { if !rooted { assert parts[0] != ""; } }
    assert IsRooted(above + "/") == rooted;
    SplitPlain("");
    SplitAtSlash(above, "");
    assert above + "/" + "" == above + "/";
    ResolveSplit(rooted, Split(above), [""], []);
    assert Resolve(rooted, [""], parts) == parts;
  }

  // ---------- What Clean makes of a path ----------

  /** An ordinary name: not empty, neither "." nor "..", and without a slash. */
  predicate IsName(s: string) {
    s != "" && s != "." && s != ".." && NoSlash(s)
  }

  lemma ComponentsOfJoined(a: string, b: string)
    requires a != ""
    ensures IsRooted(a + "/" + b) == IsRooted(a)
    ensures Components(a + "/" + b) == Resolve(IsRooted(a), Split(b), Components(a))
  {
    SplitAtSlash(a, b);
    ResolveSplit(IsRooted(a), Split(a), Split(b), []);
  }

  /** filepath.IsAbs of the cleaned path is filepath.IsAbs of the path. */
  lemma CleanKeepsRooted(s: string)
    ensures IsRooted(Clean(s)) <==> s != "" && s[0] == '/'
  {
    if s != "" {
      ComponentsNormal(s);
      ComponentsOfRender(IsRooted(s), Components(s));
    }
  }

  lemma SameComponents(s: string, t: string)
    requires s != "" && t != "" && IsRooted(s) == IsRooted(t) && Components(s) == Components(t)
    ensures Clean(s) == Clean(t)
  {
  }

  lemma ResolveOne(rooted: bool, part: string, rest: seq<string>, kept: seq<string>)
    ensures Resolve(rooted, [part] + rest, kept) == Resolve(rooted, rest, Push(rooted, kept, part))
  {
    assert ([part] + rest)[1..] == rest;
  }

  lemma SplitStep(part: string, b: string)
    requires NoSlash(part)
    ensures Split(part + "/" + b) == [part] + Split(b)
  {
    SplitPlain(part);
    SplitAtSlash(part, b);
  }

  /** Empty elements and "." go away. */
  lemma CleanDropsNothing(a: string, b: string)
    requires a != ""
    ensures Clean(a + "/" + "" + "/" + b) == Clean(a + "/" + b)
    ensures Clean(a + "/" + "." + "/" + b) == Clean(a + "/" + b)
  {
    var kept := Components(a);
    forall part | part == "" || part == "."
      ensures Clean(a + "/" + part + "/" + b) == Clean(a + "/" + b)
    {
      assert a + "/" + part + "/" + b == a + "/" + (part + "/" + b);
      SplitStep(part, b);
      ResolveOne(IsRooted(a), part, Split(b), kept);
      SameEnding(a, part + "/" + b, b);
    }
  }

  lemma ResolveGoesUp(rooted: bool, name: string, rest: seq<string>, kept: seq<string>)
    requires IsName(name)
    ensures Resolve(rooted, [name] + ([".."] + rest), kept) == Resolve(rooted, rest, kept)
  {
    ResolveOne(rooted, name, [".."] + rest, kept);
    ResolveOne(rooted, "..", rest, kept + [name]);
    assert (kept + [name])[..|kept|] == kept;
  }

  /** ".." takes the ordinary name before it away. */
  lemma CleanGoesUp(a: string, name: string, b: string)
    requires a != "" && IsName(name)
    ensures Clean(a + "/" + name + "/" + ".." + "/" + b) == Clean(a + "/" + b)
  {
    var rest := name + "/" + (".." + "/" + b);
    assert a + "/" + name + "/" + ".." + "/" + b == a + "/" + rest;
    SplitStep(name, ".." + "/" + b);
    SplitStep("..", b);
    ResolveGoesUp(IsRooted(a), name, Split(b), Components(a));
    SameEnding(a, rest, b);
  }

  lemma SameEnding(a: string, b: string, c: string)
    requires a != "" && Resolve(IsRooted(a), Split(b), Components(a)) == Resolve(IsRooted(a), Split(c), Components(a))
    ensures Clean(a + "/" + b) == Clean(a + "/" + c)
  {
    ComponentsOfJoined(a, b);
    ComponentsOfJoined(a, c);
    SameComponents(a + "/" + b, a + "/" + c);
  }

  /** At the root there is nothing above. */
  lemma CleanStopsAtRoot(b: string)
    ensures Clean("/" + ".." + "/" + b) == Clean("/" + b)
  {
    assert "/" + ".." + "/" + b == "/" + (".." + "/" + b);
    SplitStep("", ".." + "/" + b);
    SplitStep("", b);
    SplitStep("..", b);
    assert "" + "/" + (".." + "/" + b) == "/" + (".." + "/" + b) && "" + "/" + b == "/" + b;
    ResolveOne(true, "", [".."] + Split(b), []);
    ResolveOne(true, "..", Split(b), []);
    ResolveOne(true, "", Split(b), []);
    SameComponents("/" + ".." + "/" + b, "/" + b);
  }

  /** And a path of ordinary names stays as it is. */
  lemma CleanKeepsNames(names: seq<string>)
    requires names != [] && forall i | 0 <= i < |names| :: IsName(names[i])
    ensures Clean("/" + Join(names)) == "/" + Join(names)
    ensures Clean(Join(names)) == Join(names)
  {
    RenderIsClean(true, names);
    RenderIsClean(false, names);
  }

  function Depth(s: string): nat {
    |Components(s)|
  }

  /** Whether a walk up the tree goes on from s. */
  predicate Keep(s: string) {
    s != "/" && s != "."
  }

  /** A walk goes on from every clean path but the top ones. */
  lemma KeepExactly(s: string)
    requires IsClean(s)
    ensures Keep(s) <==> Components(s) != []
  {
    ComponentsNormal(s);
    RenderInjective(s);
    ComponentsOfRender(true, []);
    ComponentsOfRender(false, []);
    assert Render(true, []) == "/" && Render(false, []) == ".";
  }

  lemma RenderInjective(s: string)
    requires IsClean(s)
    ensures s != "" && s == Render(IsRooted(s), Components(s))
  {
  }

  /** Each step of a walk removes one component. */
  lemma DirOfClean(s: string)
    requires IsClean(s) && Keep(s)
    ensures Components(s) != []
    ensures Components(Dir(s)) == Components(s)[..Depth(s) - 1] && IsRooted(Dir(s)) == IsRooted(s)
    ensures IsClean(Dir(s)) && Depth(Dir(s)) < Depth(s)
  {
    var rooted, parts := IsRooted(s), Components(s);
    ComponentsNormal(s);
    assert s != "" && s == Render(rooted, parts);
    if parts == [] {
      assert false;
    } else {
      var above, last := parts[..|parts| - 1], parts[|parts| - 1];
      assert parts == above + [last];
      DirOfRender(rooted, above, last);
      NormalPrefix(rooted, above, last);
      ComponentsOfRender(rooted, above);
      DirIsClean(s);
    }
  }
}
