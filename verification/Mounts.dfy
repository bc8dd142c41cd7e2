/**
 * The mount list: Config.BaselineMounts, buildMounts and AddAncestorMounts. What the last one adds is a least
 * fixed point, independent of the order of the list; it has a closed form, and that closed form says exactly
 * when the documented promise (every ancestor of every readable or writable mount) is kept.
 */
module Mounts {
  import opened Wrappers
  import opened Paths

  datatype Mount = Mount(source: string, target: string, readOnly: bool, metadataOnly: bool)

  datatype AllowedPath = AllowedPath(path: string, readOnly: bool, metadataOnly: bool)

  function Sources(mounts: seq<Mount>): (s: set<string>)
  {
    set m | m in mounts :: m.source
  }

  function Ancestor(dir: string): Mount {
    Mount(dir, dir, false, true)
  }

  /** A cleaned directory and all those above it, the root excluded. */
  ghost function Upward(dir: string): seq<string>
    requires IsClean(dir)
    decreases Depth(dir)
  {
    if !Keep(dir) then [] else
      DirOfClean(dir);
      [dir] + Upward(Dir(dir))
  }

  ghost function Ancestors(source: string): seq<string> {
    DirIsClean(source);
    Upward(Dir(source))
  }

  /** What one walk appends: it stops at the first directory that is listed already. */
  ghost function Walk(existing: set<string>, dir: string): (added: seq<string>)
    requires IsClean(dir)
    decreases Depth(dir)
  {
    if !Keep(dir) || dir in existing then [] else
      DirOfClean(dir);
      [dir] + Walk(existing + {dir}, Dir(dir))
  }

  ghost function AsSet(dirs: seq<string>): set<string> {
    set d | d in dirs
  }

  /** What the walks from `mounts` append, one after the other. */
  ghost function Added(existing: set<string>, mounts: seq<Mount>): (added: seq<string>)
    decreases |mounts|
  {
    if mounts == [] then []
    else if mounts[0].metadataOnly then Added(existing, mounts[1..])
    else
      DirIsClean(mounts[0].source);
      var walk := Walk(existing, Dir(mounts[0].source));
      walk + Added(existing + AsSet(walk), mounts[1..])
  }

  ghost function AsMounts(dirs: seq<string>): (mounts: seq<Mount>)
    ensures |mounts| == |dirs| && forall i | 0 <= i < |dirs| :: mounts[i] == Ancestor(dirs[i])
  {
    seq(|dirs|, i requires 0 <= i < |dirs| => Ancestor(dirs[i]))
  }

  ghost function AddedTo(mounts: seq<Mount>): seq<string> {
    Added(Sources(mounts), mounts)
  }

  ghost function WithAncestors(mounts: seq<Mount>): seq<Mount> {
    mounts + AsMounts(AddedTo(mounts))
  }

  // ---------- The code ----------

  lemma AppendOne(mounts: seq<Mount>, done: seq<string>, dir: string, rest: seq<string>)
    ensures done + ([dir] + rest) == (done + [dir]) + rest
    ensures AsSet(done + [dir]) == AsSet(done) + {dir}
    ensures mounts + AsMounts(done) + [Ancestor(dir)] == mounts + AsMounts(done + [dir])
  {
  }

  lemma AppendAll(mounts: seq<Mount>, existing: set<string>, done: seq<string>, walk: seq<string>, rest: seq<string>)
    ensures done + (walk + rest) == (done + walk) + rest
    ensures existing + AsSet(done) + AsSet(walk) == existing + AsSet(done + walk)
    ensures mounts + AsMounts(done) + AsMounts(walk) == mounts + AsMounts(done + walk)
  {
  }

  ghost function WalkFrom(existing: set<string>, source: string): seq<string> {
    DirIsClean(source);
    Walk(existing, Dir(source))
  }

  method WalkUp(source: string, existing: set<string>, mounts: seq<Mount>)
    returns (existing': set<string>, mounts': seq<Mount>)
    ensures existing' == existing + AsSet(WalkFrom(existing, source))
    ensures mounts' == mounts + AsMounts(WalkFrom(existing, source))
  {
    existing', mounts' := existing, mounts;
    var dir := Dir(source);
    DirIsClean(source);
    ghost var done: seq<string> := [];
    while Keep(dir) && dir !in existing'
      invariant IsClean(dir)
      invariant done + Walk(existing', dir) == WalkFrom(existing, source)
      invariant existing' == existing + AsSet(done)
      invariant mounts' == mounts + AsMounts(done)
      decreases Depth(dir)
    {
      DirOfClean(dir);
      AppendOne(mounts, done, dir, Walk(existing' + {dir}, Dir(dir)));
      existing' := existing' + {dir};
      mounts' := mounts' + [Ancestor(dir)];
      done := done + [dir];
      dir := Dir(dir);
    }
    assert done + [] == done;
  }

  /** The input, untouched, followed by what the walks append. */
  method AddAncestorMounts(mounts: seq<Mount>) returns (result: seq<Mount>)
    ensures result == WithAncestors(mounts)
  {
    var existing: set<string> := {};
    for i := 0 to |mounts|
      invariant existing == Sources(mounts[..i])
    {
      assert mounts[..i + 1] == mounts[..i] + [mounts[i]];
      existing := existing + {mounts[i].source};
    }
    assert mounts[..|mounts|] == mounts;
    result := mounts;
    ghost var done: seq<string> := [];
    assert mounts[0..] == mounts && mounts + AsMounts([]) == mounts;
    for i := 0 to |mounts|
      invariant existing == Sources(mounts) + AsSet(done)
      invariant result == mounts + AsMounts(done)
      invariant done + Added(existing, mounts[i..]) == AddedTo(mounts)
    {
      assert mounts[i..][0] == mounts[i] && mounts[i..][1..] == mounts[i + 1..];
      if !mounts[i].metadataOnly {
        ghost var walk := WalkFrom(existing, mounts[i].source);
        AppendAll(mounts, Sources(mounts), done, walk, Added(existing + AsSet(walk), mounts[i + 1..]));
        existing, result := WalkUp(mounts[i].source, existing, result);
        done := done + walk;
      }
    }
    assert done + [] == done;
  }

  // ---------- A least fixed point ----------

  ghost predicate Walked(mounts: seq<Mount>, source: string) {
    exists m :: m in mounts && !m.metadataOnly && m.source == source
  }

  /** S has every listed source, and goes on upward from every walked source and every unlisted directory. */
  ghost predicate Closed(mounts: seq<Mount>, S: set<string>) {
    && Sources(mounts) <= S
    && (forall m | m in mounts && !m.metadataOnly && Keep(Dir(m.source)) :: Dir(m.source) in S)
    && UpwardClosed(Sources(mounts), S)
  }

  ghost predicate UpwardClosed(listed: set<string>, S: set<string>) {
    forall d | d in S && d !in listed && Keep(Dir(d)) :: Dir(d) in S
  }

  lemma WalkCloses(listed: set<string>, existing: set<string>, dir: string)
    requires IsClean(dir) && listed <= existing && UpwardClosed(listed, existing)
    ensures var S := existing + AsSet(Walk(existing, dir));
            UpwardClosed(listed, S) && (Keep(dir) ==> dir in S)
    decreases Depth(dir)
  {
    if Keep(dir) && dir !in existing {
      DirOfClean(dir);
      WalkClosesBelow(listed, existing, dir);
    }
  }

  /** The same while `dir` itself still waits for the directory above it. */
  lemma {:induction false} WalkClosesBelow(listed: set<string>, existing: set<string>, dir: string)
    requires IsClean(dir) && Keep(dir) && dir !in existing
    requires listed <= existing && UpwardClosed(listed, existing)
    ensures UpwardClosed(listed, existing + AsSet(Walk(existing, dir)))
    decreases Depth(dir)
  {
    DirOfClean(dir);
    var above := Dir(dir);
    var rest := Walk(existing + {dir}, above);
    assert Walk(existing, dir) == [dir] + rest;
    if Keep(above) && above !in existing + {dir} {
      WalkClosesBelow(listed, existing, above);
      WalkIgnores(existing, dir, above);
      assert Walk(existing, above) == rest;
    }
  }

  /** A directory that is not on the way changes nothing. */
  lemma {:induction false} WalkIgnores(existing: set<string>, below: string, dir: string)
    requires IsClean(dir) && IsClean(below) && Depth(dir) < Depth(below)
    ensures Walk(existing + {below}, dir) == Walk(existing, dir)
    decreases Depth(dir)
  {
    if Keep(dir) && dir !in existing {
      DirOfClean(dir);
      WalkIgnores(existing + {dir}, below, Dir(dir));
      assert existing + {below} + {dir} == existing + {dir} + {below};
    }
  }

  lemma {:induction false} AddedCloses(listed: set<string>, existing: set<string>, mounts: seq<Mount>)
    requires listed <= existing && UpwardClosed(listed, existing)
    ensures var S := existing + AsSet(Added(existing, mounts));
            && UpwardClosed(listed, S)
            && forall m | m in mounts && !m.metadataOnly && Keep(Dir(m.source)) :: Dir(m.source) in S
    decreases |mounts|
  {
    if mounts == [] {
      assert existing + {} == existing;
    } else if mounts[0].metadataOnly {
      AddedCloses(listed, existing, mounts[1..]);
    } else {
      DirIsClean(mounts[0].source);
      var walk := Walk(existing, Dir(mounts[0].source));
      WalkCloses(listed, existing, Dir(mounts[0].source));
      AddedCloses(listed, existing + AsSet(walk), mounts[1..]);
      assert existing + AsSet(walk) + AsSet(Added(existing + AsSet(walk), mounts[1..]))
          == existing + AsSet(Added(existing, mounts));
    }
  }

  lemma {:induction false} WalkStaysIn(listed: set<string>, existing: set<string>, dir: string, S: set<string>)
    requires IsClean(dir) && listed <= existing && UpwardClosed(listed, S) && (Keep(dir) ==> dir in S)
    ensures AsSet(Walk(existing, dir)) <= S
    decreases Depth(dir)
  {
    if Keep(dir) && dir !in existing {
      DirOfClean(dir);
      WalkStaysIn(listed, existing + {dir}, Dir(dir), S);
    }
  }

  lemma {:induction false} AddedStaysIn(listed: set<string>, existing: set<string>, mounts: seq<Mount>, S: set<string>)
    requires listed <= existing && UpwardClosed(listed, S)
    requires forall m | m in mounts && !m.metadataOnly && Keep(Dir(m.source)) :: Dir(m.source) in S
    ensures AsSet(Added(existing, mounts)) <= S
    decreases |mounts|
  {
    if mounts != [] {
      if mounts[0].metadataOnly {
        AddedStaysIn(listed, existing, mounts[1..], S);
      } else {
        DirIsClean(mounts[0].source);
        var walk := Walk(existing, Dir(mounts[0].source));
        WalkStaysIn(listed, existing, Dir(mounts[0].source), S);
        AddedStaysIn(listed, existing + AsSet(walk), mounts[1..], S);
      }
    }
  }

  lemma SourcesOfResult(mounts: seq<Mount>)
    ensures Sources(WithAncestors(mounts)) == Sources(mounts) + AsSet(AddedTo(mounts))
  {
    var added := AddedTo(mounts);
    var all := WithAncestors(mounts);
    forall d | d in AsSet(added)
      ensures d in Sources(all)
    {
      var i :| 0 <= i < |added| && added[i] == d;
      assert all[|mounts| + i] == Ancestor(d);
    }
    forall d | d in Sources(all)
      ensures d in Sources(mounts) + AsSet(added)
    {
      var m :| m in all && m.source == d;
      if m !in mounts {
        assert m in AsMounts(added);
      }
    }
  }

  /** The sources of the result are the smallest closed set. */
  lemma LeastFixedPoint(mounts: seq<Mount>)
    ensures Closed(mounts, Sources(WithAncestors(mounts)))
    ensures forall S | Closed(mounts, S) :: Sources(WithAncestors(mounts)) <= S
  {
    var listed := Sources(mounts);
    SourcesOfResult(mounts);
    AddedCloses(listed, listed, mounts);
    forall S | Closed(mounts, S)
      ensures Sources(WithAncestors(mounts)) <= S
    {
      AddedStaysIn(listed, listed, mounts, S);
    }
  }

  /** The order of the mount list, and repetitions in it, make no difference to what is covered. */
  lemma OrderIrrelevant(mounts: seq<Mount>, other: seq<Mount>)
    requires forall m :: m in mounts <==> m in other
    ensures Sources(WithAncestors(mounts)) == Sources(WithAncestors(other))
  {
    assert Sources(mounts) == Sources(other);
    LeastFixedPoint(mounts);
    LeastFixedPoint(other);
    assert Closed(other, Sources(WithAncestors(mounts)));
    assert Closed(mounts, Sources(WithAncestors(other)));
  }

  /** A second pass adds nothing, whatever the input. */
  lemma Idempotent(mounts: seq<Mount>)
    ensures WithAncestors(WithAncestors(mounts)) == WithAncestors(mounts)
  {
    var once := WithAncestors(mounts);
    LeastFixedPoint(mounts);
    forall m | m in once && !m.metadataOnly && Keep(Dir(m.source))
      ensures Dir(m.source) in Sources(once)
    {
      assert m in mounts;
    }
    NothingToAdd(Sources(once), once);
    assert AsMounts([]) == [];
  }

  lemma {:induction false} NothingToAdd(existing: set<string>, mounts: seq<Mount>)
    requires forall m | m in mounts && !m.metadataOnly && Keep(Dir(m.source)) :: Dir(m.source) in existing
    ensures Added(existing, mounts) == []
    decreases |mounts|
  {
    if mounts != [] {
      if !mounts[0].metadataOnly {
        DirIsClean(mounts[0].source);
        assert AsSet([]) == {};
        assert existing + {} == existing;
      }
      NothingToAdd(existing, mounts[1..]);
    }
  }

  // ---------- What exactly is appended ----------

  lemma {:induction false} WalkIsPrefix(existing: set<string>, dir: string)
    requires IsClean(dir)
    ensures Walk(existing, dir) <= Upward(dir)
    decreases Depth(dir)
  {
    if Keep(dir) && dir !in existing {
      DirOfClean(dir);
      WalkIsPrefix(existing + {dir}, Dir(dir));
    }
  }

  ghost predicate Distinct(dirs: seq<string>) {
    forall i, j | 0 <= i < j < |dirs| :: dirs[i] != dirs[j]
  }

  lemma {:induction false} WalkIsNew(existing: set<string>, dir: string)
    requires IsClean(dir)
    ensures Distinct(Walk(existing, dir)) && AsSet(Walk(existing, dir)) !! existing
    decreases Depth(dir)
  {
    if Keep(dir) && dir !in existing {
      DirOfClean(dir);
      var rest := Walk(existing + {dir}, Dir(dir));
      WalkIsNew(existing + {dir}, Dir(dir));
      assert forall i | 0 <= i < |rest| :: rest[i] in AsSet(rest);
    }
  }

  lemma {:induction false} AddedIsNew(existing: set<string>, mounts: seq<Mount>)
    ensures Distinct(Added(existing, mounts)) && AsSet(Added(existing, mounts)) !! existing
    ensures forall d | d in Added(existing, mounts) ::
              exists m :: m in mounts && !m.metadataOnly && d in Ancestors(m.source)
    decreases |mounts|
  {
    if mounts != [] {
      if mounts[0].metadataOnly {
        AddedIsNew(existing, mounts[1..]);
      } else {
        DirIsClean(mounts[0].source);
        var walk := Walk(existing, Dir(mounts[0].source));
        var rest := Added(existing + AsSet(walk), mounts[1..]);
        WalkIsNew(existing, Dir(mounts[0].source));
        WalkIsPrefix(existing, Dir(mounts[0].source));
        AddedIsNew(existing + AsSet(walk), mounts[1..]);
        assert forall i | 0 <= i < |walk| :: walk[i] in AsSet(walk) && walk[i] in Ancestors(mounts[0].source);
        assert forall i | 0 <= i < |rest| :: rest[i] in AsSet(rest);
      }
    }
  }

  /**
   * The input is a prefix; what follows are metadata-only entries, pairwise distinct, not listed before, each
   * an ancestor of a mount that is not metadata-only.
   */
  lemma AppendsOnlyNewAncestors(mounts: seq<Mount>)
    ensures mounts <= WithAncestors(mounts)
    ensures var result := WithAncestors(mounts);
            && (forall i | |mounts| <= i < |result| ::
                  && result[i] == Mount(result[i].source, result[i].source, false, true)
                  && result[i].source !in Sources(mounts)
                  && exists m :: m in mounts && !m.metadataOnly && result[i].source in Ancestors(m.source))
            && (forall i, j | |mounts| <= i < j < |result| :: result[i].source != result[j].source)
  {
    var added, result := AddedTo(mounts), WithAncestors(mounts);
    AddedIsNew(Sources(mounts), mounts);
    forall i | |mounts| <= i < |result|
      ensures result[i] == Ancestor(added[i - |mounts|]) && added[i - |mounts|] in AsSet(added)
    {
    }
  }

  /** d lies above a walked mount with no listed entry in between. */
  ghost predicate Reached(mounts: seq<Mount>, d: string) {
    exists m, j :: m in mounts && !m.metadataOnly && ReachesAt(mounts, m, j, d)
  }

  ghost predicate ReachesAt(mounts: seq<Mount>, m: Mount, j: int, d: string) {
    && 0 <= j < |Ancestors(m.source)| && Ancestors(m.source)[j] == d
    && forall i | 0 <= i < j :: Ancestors(m.source)[i] !in Sources(mounts)
  }

  lemma {:induction false} UpwardNext(dir: string, j: nat)
    requires IsClean(dir) && j < |Upward(dir)|
    ensures Keep(Dir(Upward(dir)[j])) <==> j + 1 < |Upward(dir)|
    ensures j + 1 < |Upward(dir)| ==> Upward(dir)[j + 1] == Dir(Upward(dir)[j])
    decreases j
  {
    DirOfClean(dir);
    if j > 0 {
      UpwardNext(Dir(dir), j - 1);
    }
  }

  lemma {:induction false} ReachedIsCovered(mounts: seq<Mount>, m: Mount, j: nat)
    requires m in mounts && !m.metadataOnly && j < |Ancestors(m.source)|
    requires forall i | 0 <= i < j :: Ancestors(m.source)[i] !in Sources(mounts)
    ensures Ancestors(m.source)[j] in Sources(WithAncestors(mounts))
    decreases j
  {
    LeastFixedPoint(mounts);
    DirIsClean(m.source);
    if j > 0 {
      ReachedIsCovered(mounts, m, j - 1);
      UpwardNext(Dir(m.source), j - 1);
    }
  }

  lemma CoveredIsReached(mounts: seq<Mount>)
    ensures forall d | d in Sources(WithAncestors(mounts)) :: d in Sources(mounts) || Reached(mounts, d)
  {
    var all := Sources(WithAncestors(mounts));
    var S := set d | d in all && (d in Sources(mounts) || Reached(mounts, d));
    LeastFixedPoint(mounts);
    forall m | m in mounts && !m.metadataOnly && Keep(Dir(m.source))
      ensures Dir(m.source) in S
    {
      DirIsClean(m.source);
      assert ReachesAt(mounts, m, 0, Dir(m.source));
    }
    forall d | d in S && d !in Sources(mounts) && Keep(Dir(d))
      ensures Dir(d) in S
    {
      var m, j :| m in mounts && !m.metadataOnly && ReachesAt(mounts, m, j, d);
      DirIsClean(m.source);
      UpwardNext(Dir(m.source), j);
      assert ReachesAt(mounts, m, j + 1, Dir(d));
    }
    assert Closed(mounts, S);
  }

  /** The closed form of the result: the listed sources, and what is reached without passing a listed one. */
  lemma ClosedForm(mounts: seq<Mount>, d: string)
    ensures d in Sources(WithAncestors(mounts)) <==> d in Sources(mounts) || Reached(mounts, d)
  {
    CoveredIsReached(mounts);
    LeastFixedPoint(mounts);
    if Reached(mounts, d) {
      var m, j :| m in mounts && !m.metadataOnly && ReachesAt(mounts, m, j, d);
      ReachedIsCovered(mounts, m, j);
    }
  }

  /** What the documentation promises: every ancestor of every mount that is not metadata-only. */
  ghost predicate AllAncestorsPresent(mounts: seq<Mount>) {
    forall m, d | m in mounts && !m.metadataOnly && d in Ancestors(m.source) :: d in Sources(WithAncestors(mounts))
  }

  /** A metadata-only entry above a mount stops the walk; the directory over it must be listed or reached otherwise. */
  ghost predicate NoWalkCutShort(mounts: seq<Mount>) {
    forall m, a | m in mounts && !m.metadataOnly && a in Ancestors(m.source) && a in Sources(mounts)
                  && !Walked(mounts, a) && Keep(Dir(a)) ::
      Dir(a) in Sources(mounts) || Reached(mounts, Dir(a))
  }

  lemma {:induction false} AncestorPresent(mounts: seq<Mount>, m: Mount, j: nat)
    requires NoWalkCutShort(mounts) && m in mounts && !m.metadataOnly && j < |Ancestors(m.source)|
    ensures Ancestors(m.source)[j] in Sources(WithAncestors(mounts))
    decreases j
  {
    LeastFixedPoint(mounts);
    DirIsClean(m.source);
    if j > 0 {
      AncestorPresent(mounts, m, j - 1);
      UpwardNext(Dir(m.source), j - 1);
      var below := Ancestors(m.source)[j - 1];
      if below in Sources(mounts) && !Walked(mounts, below) {
        ClosedForm(mounts, Dir(below));
      }
    }
  }

  /** The promise is kept if and only if no metadata-only entry cuts a walk short. */
  lemma PromiseKeptExactly(mounts: seq<Mount>)
    ensures AllAncestorsPresent(mounts) <==> NoWalkCutShort(mounts)
  {
    if NoWalkCutShort(mounts) {
      forall m, d | m in mounts && !m.metadataOnly && d in Ancestors(m.source)
        ensures d in Sources(WithAncestors(mounts))
      {
        var j :| 0 <= j < |Ancestors(m.source)| && Ancestors(m.source)[j] == d;
        AncestorPresent(mounts, m, j);
      }
    }
    if AllAncestorsPresent(mounts) {
      forall m, a | m in mounts && !m.metadataOnly && a in Ancestors(m.source) && Keep(Dir(a))
        ensures Dir(a) in Sources(mounts) || Reached(mounts, Dir(a))
      {
        var j :| 0 <= j < |Ancestors(m.source)| && Ancestors(m.source)[j] == a;
        DirIsClean(m.source);
        UpwardNext(Dir(m.source), j);
        ClosedForm(mounts, Dir(a));
      }
    }
  }

  lemma UpwardOfRender(parts: seq<string>, last: string)
    requires Normal(true, parts + [last])
    ensures var dir := Render(true, parts + [last]);
            IsClean(dir) && Keep(dir) && IsClean(Render(true, parts))
            && Upward(dir) == [dir] + Upward(Render(true, parts))
            && Ancestors(dir) == Upward(Render(true, parts))
  {
    NormalPrefix(true, parts, last);
    RenderIsClean(true, parts + [last]);
    RenderIsClean(true, parts);
    ComponentsOfRender(true, parts + [last]);
    ComponentsOfRender(true, []);
    assert Render(true, []) == "/";
    DirOfRender(true, parts, last);
  }

  lemma TopHasNoneAbove()
    ensures IsClean(Render(true, [])) && Upward(Render(true, [])) == []
  {
    ComponentsOfRender(true, []);
    RenderIsClean(true, []);
    assert Render(true, []) == "/";
  }

  lemma UpwardOnce(parts: seq<string>)
    requires parts != [] && Normal(true, parts)
    ensures var above := parts[..|parts| - 1];
            && Normal(true, above) && IsClean(Render(true, parts)) && IsClean(Render(true, above))
            && Upward(Render(true, parts)) == [Render(true, parts)] + Upward(Render(true, above))
            && Ancestors(Render(true, parts)) == Upward(Render(true, above))
  {
    var above, last := parts[..|parts| - 1], parts[|parts| - 1];
    assert above + [last] == parts;
    UpwardOfRender(above, last);
    NormalPrefix(true, above, last);
  }

  /** f of a sequence and of its proper prefixes down to one element, the longest first. */
  function OfPrefixes<S, T>(f: seq<S> -> T, s: seq<S>): (r: seq<T>)
    ensures |r| == |s|
  {
    if s == [] then [] else [f(s)] + OfPrefixes(f, s[..|s| - 1])
  }

  lemma {:induction false} OfPrefixesAt<S, T>(f: seq<S> -> T, s: seq<S>, j: nat)
    requires 0 < j <= |s|
    ensures OfPrefixes(f, s)[|s| - j] == f(s[..j])
    decreases |s|
  {
    if j == |s| {
      assert s[..|s|] == s;
    } else {
      OfPrefixesAt(f, s[..|s| - 1], j);
      assert s[..|s| - 1][..j] == s[..j];
    }
  }

  lemma OfProperPrefixesAt<S, T>(f: seq<S> -> T, s: seq<S>, j: nat)
    requires 0 < j < |s|
    ensures OfPrefixes(f, s[..|s| - 1])[|s| - 1 - j] == f(s[..j])
  {
    OfPrefixesAt(f, s[..|s| - 1], j);
    assert s[..|s| - 1][..j] == s[..j];
  }

  function RootedPath(parts: seq<string>): string {
    Render(true, parts)
  }

  lemma {:induction false} UpwardIsPrefixes(parts: seq<string>)
    requires Normal(true, parts)
    ensures IsClean(Render(true, parts)) && Upward(Render(true, parts)) == OfPrefixes(RootedPath, parts)
  {
    if parts == [] {
      TopHasNoneAbove();
    } else {
      UpwardOnce(parts);
      UpwardIsPrefixes(parts[..|parts| - 1]);
    }
  }

  lemma AncestorsOfPath(parts: seq<string>)
    requires parts != [] && Normal(true, parts)
    ensures Ancestors(RootedPath(parts)) == OfPrefixes(RootedPath, parts[..|parts| - 1])
  {
    UpwardOnce(parts);
    UpwardIsPrefixes(parts[..|parts| - 1]);
  }

  /** The directories above an absolute path of names are its proper prefixes, the root excluded, from below. */
  lemma AncestorsArePrefixes(parts: seq<string>, j: nat, path: string, prefix: string)
    requires Normal(true, parts) && 0 < j < |parts|
    requires path == "/" + Join(parts) && prefix == "/" + Join(parts[..j])
    ensures |Ancestors(path)| == |parts| - 1 && Ancestors(path)[|parts| - 1 - j] == prefix
  {
    assert path == RootedPath(parts) && prefix == RootedPath(parts[..j]);
    AncestorsOfPath(parts);
    OfProperPrefixesAt(RootedPath, parts, j);
  }

  lemma RendersDiffer(parts: seq<string>, others: seq<string>)
    requires Normal(true, parts) && Normal(true, others) && |parts| != |others|
    ensures Render(true, parts) != Render(true, others)
  {
    ComponentsOfRender(true, parts);
    ComponentsOfRender(true, others);
  }

  lemma OfTwo<S, T>(f: seq<S> -> T, a: S, b: S)
    ensures OfPrefixes(f, [a, b]) == [f([a, b]), f([a])]
  {
    assert [a, b][..1] == [a] && [a][..0] == [];
  }

  lemma ThreeDeep(a: string, b: string, c: string)
    requires Normal(true, [a, b, c])
    ensures var low, mid, top := Render(true, [a, b, c]), Render(true, [a, b]), Render(true, [a]);
            Ancestors(low) == [mid, top] && low != mid && mid != top && low != top
  {
    var parts := [a, b, c];
    assert parts[..2] == [a, b] && [a, b] + [c] == parts && [a] + [b] == [a, b];
    NormalPrefix(true, [a, b], c);
    NormalPrefix(true, [a], b);
    AncestorsOfPath(parts);
    OfTwo(RootedPath, a, b);
    RendersDiffer(parts, [a, b]);
    RendersDiffer([a, b], [a]);
    RendersDiffer(parts, [a]);
  }

  lemma CutShort(low: string, mid: string, top: string)
    requires Ancestors(low) == [mid, top] && low != mid && mid != top && low != top
    ensures var mounts := [Mount(low, low, false, false), Mount(mid, mid, false, true)];
            top !in Sources(WithAncestors(mounts)) && !AllAncestorsPresent(mounts)
  {
    var mounts := [Mount(low, low, false, false), Mount(mid, mid, false, true)];
    assert Sources(mounts) == {low, mid} by {
      assert mounts[0].source in Sources(mounts) && mounts[1].source in Sources(mounts);
    }
    ClosedForm(mounts, top);
    assert Ancestors(low)[0] == mid;
    assert forall j :: !ReachesAt(mounts, mounts[0], j, top);
    assert top in Ancestors(low) && mounts[0] in mounts;
  }

  /** With a writable /a/b/c and a metadata-only /a/b in the list, /a is never added. */
  lemma PromiseCanFail()
    ensures var low, mid, top := Render(true, ["a", "b", "c"]), Render(true, ["a", "b"]), Render(true, ["a"]);
            var mounts := [Mount(low, low, false, false), Mount(mid, mid, false, true)];
            top in Ancestors(low) && top !in Sources(WithAncestors(mounts)) && !AllAncestorsPresent(mounts)
  {
    assert Normal(true, ["a", "b", "c"]);
    ThreeDeep("a", "b", "c");
    CutShort(Render(true, ["a", "b", "c"]), Render(true, ["a", "b"]), Render(true, ["a"]));
  }

  // ---------- Building the list ----------

  /** Config.BaselineMounts */
  function BaselineMounts(allowRead: seq<string>, allowWrite: seq<string>): (mounts: seq<Mount>)
    ensures |mounts| == |allowRead| + |allowWrite|
    ensures forall i | 0 <= i < |allowRead| :: mounts[i] == Mount(allowRead[i], allowRead[i], true, false)
    ensures forall i | 0 <= i < |allowWrite| ::
              mounts[|allowRead| + i] == Mount(allowWrite[i], allowWrite[i], false, false)
  {
    seq(|allowRead|, i requires 0 <= i < |allowRead| => Mount(allowRead[i], allowRead[i], true, false))
    + seq(|allowWrite|, i requires 0 <= i < |allowWrite| => Mount(allowWrite[i], allowWrite[i], false, false))
  }

  function Requested(path: AllowedPath): Mount {
    Mount(Clean(path.path), Clean(path.path), path.readOnly, path.metadataOnly)
  }

  function AllRequested(paths: seq<AllowedPath>): (mounts: seq<Mount>)
    ensures |mounts| == |paths| && forall i | 0 <= i < |paths| :: mounts[i] == Requested(paths[i])
  {
    seq(|paths|, i requires 0 <= i < |paths| => Requested(paths[i]))
  }

  lemma RequestOneMore(baseline: seq<Mount>, paths: seq<AllowedPath>, i: nat)
    requires i < |paths|
    ensures baseline + AllRequested(paths[..i + 1]) == baseline + AllRequested(paths[..i]) + [Requested(paths[i])]
  {
  }

  predicate Absolute(path: AllowedPath) {
    IsRooted(Clean(path.path))
  }

  lemma AbsoluteExactly(path: AllowedPath)
    ensures Absolute(path) <==> path.path != "" && path.path[0] == '/'
  {
    CleanKeepsRooted(path.path);
  }

  /**
   * Fails exactly when some requested path is not absolute. Otherwise the baseline comes first and untouched, then
   * each request with its own flags at its cleaned path, then the ancestors.
   */
  method BuildMounts(baseline: seq<Mount>, paths: seq<AllowedPath>) returns (result: Result<seq<Mount>, AllowedPath>)
    ensures result.Ok? <==> forall path | path in paths :: path.path != "" && path.path[0] == '/'
    ensures result.Err? ==> result.error in paths && !(result.error.path != "" && result.error.path[0] == '/')
    ensures result.Ok? ==> result.value == WithAncestors(baseline + AllRequested(paths))
    ensures result.Ok? ==>
              && |baseline| + |paths| <= |result.value|
              && (forall i | 0 <= i < |baseline| :: result.value[i] == baseline[i])
              && (forall i | 0 <= i < |paths| ::
                    var m := result.value[|baseline| + i];
                    && m.source == m.target == Clean(paths[i].path)
                    && m.readOnly == paths[i].readOnly && m.metadataOnly == paths[i].metadataOnly)
              && (forall i | |baseline| + |paths| <= i < |result.value| ::
                    var m := result.value[i];
                    m.metadataOnly && !m.readOnly && m.target == m.source)
  {
    result := AppendRequested(baseline, paths);
    if result.Err? {
      return;
    }
    var all := AddAncestorMounts(result.value);
    BuiltEntries(baseline, paths);
    return Ok(all);
  }

  method AppendRequested(baseline: seq<Mount>, paths: seq<AllowedPath>)
    returns (result: Result<seq<Mount>, AllowedPath>)
    ensures result.Ok? <==> forall path | path in paths :: path.path != "" && path.path[0] == '/'
    ensures result.Err? ==> result.error in paths && !(result.error.path != "" && result.error.path[0] == '/')
    ensures result.Ok? ==> result.value == baseline + AllRequested(paths)
  {
    var mounts := baseline;
    assert paths[..0] == [] && baseline + AllRequested([]) == baseline;
    for i := 0 to |paths|
      invariant forall j | 0 <= j < i :: paths[j].path != "" && paths[j].path[0] == '/'
      invariant mounts == baseline + AllRequested(paths[..i])
    {
      AbsoluteExactly(paths[i]);
      if !Absolute(paths[i]) {
        return Err(paths[i]);
      }
      RequestOneMore(baseline, paths, i);
      mounts := mounts + [Requested(paths[i])];
    }
    assert paths[..|paths|] == paths;
    return Ok(mounts);
  }

  lemma BuiltEntries(baseline: seq<Mount>, paths: seq<AllowedPath>)
    ensures var all := WithAncestors(baseline + AllRequested(paths));
            && |baseline| + |paths| <= |all|
            && (forall i | 0 <= i < |baseline| :: all[i] == baseline[i])
            && (forall i | 0 <= i < |paths| ::
                  var m := all[|baseline| + i];
                  && m.source == m.target == Clean(paths[i].path)
                  && m.readOnly == paths[i].readOnly && m.metadataOnly == paths[i].metadataOnly)
            && (forall i | |baseline| + |paths| <= i < |all| ::
                  var m := all[i];
                  m.metadataOnly && !m.readOnly && m.target == m.source)
  {
    AppendsOnlyNewAncestors(baseline + AllRequested(paths));
    assert forall i | 0 <= i < |paths| ::
        WithAncestors(baseline + AllRequested(paths))[|baseline| + i] == Requested(paths[i]);
  }
}
