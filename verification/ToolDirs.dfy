/** sandbox/paths.go: the tool directories that the code can discover. */
module ToolDirs {
  import opened Paths
  import opened Sequences
  import opened Bwrap
  import opened Seatbelt

  const HOMEBREW := "/opt/homebrew"

  function StaticToolDirs(darwin: bool): seq<ToolDir> {
    if darwin then [ToolDir("/opt/homebrew/bin", [HOMEBREW], [HOMEBREW])]
    else
      [ToolDir("/home/linuxbrew/.linuxbrew/bin", ["/home/linuxbrew/.linuxbrew"], []),
       ToolDir("/snap/bin", ["/snap"], []),
       ToolDir("/run/current-system/sw/bin", ["/run/current-system/sw"], [])]
  }

  /** filepath.Join of a non-empty directory and one more element. */
  function Below(dir: string, last: string): string {
    Clean(dir + "/" + last)
  }

  /** resolveHomeSub; an empty home is one that could not be found. */
  function HomeSub(home: string, mid: string, last: string): string {
    if home == "" then "" else Below(home + "/" + mid, last)
  }

  /** resolveGOPATHBin */
  function GopathBin(gopath: string, home: string): string {
    if gopath != "" then Below(gopath, "bin") else HomeSub(home, "go", "bin")
  }

  function BinTool(binDir: string): seq<ToolDir> {
    if binDir != "" then [ToolDir(binDir, [binDir], [])] else []
  }

  function MiseTool(root: string): seq<ToolDir> {
    if root != "" then [ToolDir(Below(root, "shims"), [root], [])] else []
  }

  function DynamicToolDirs(gopath: string, home: string): seq<ToolDir> {
    BinTool(GopathBin(gopath, home)) + BinTool(HomeSub(home, ".cargo", "bin"))
    + MiseTool(HomeSub(home, ".local/share", "mise")) + BinTool(HomeSub(home, ".local", "bin"))
    + BinTool(HomeSub(home, ".bun", "bin")) + BinTool(HomeSub(home, ".proto", "bin"))
  }

  function Usable(present: string -> bool): ToolDir -> bool {
    (t: ToolDir) => t.binDir != "" && present(t.binDir)
  }

  /** The list that the code caches. */
  function Discovered(darwin: bool, gopath: string, home: string, present: string -> bool): seq<ToolDir> {
    Filter(StaticToolDirs(darwin) + DynamicToolDirs(gopath, home), Usable(present))
  }

  method AppendUsable(dirs: seq<ToolDir>, present: string -> bool, found: seq<ToolDir>) returns (found': seq<ToolDir>)
    ensures found' == found + Filter(dirs, Usable(present))
  {
    found' := found;
    for i := 0 to |dirs|
      invariant found' == found + Filter(dirs[..i], Usable(present))
    {
      var t := dirs[i];
      assert dirs[..i + 1] == dirs[..i] + [t];
      FilterOneMore(dirs[..i], t, Usable(present));
      if t.binDir == "" {
        continue;
      }
      if !present(t.binDir) {
        continue;
      }
      found' := found' + [t];
    }
    assert dirs[..|dirs|] == dirs;
  }

  /** The static directories, then those from the environment, each if its BinDir is there. */
  method AllToolDirs(darwin: bool, gopath: string, home: string, present: string -> bool) returns (found: seq<ToolDir>)
    ensures found == Discovered(darwin, gopath, home, present)
  {
    found := AppendUsable(StaticToolDirs(darwin), present, []);
    found := AppendUsable(DynamicToolDirs(gopath, home), present, found);
    FilterAppend(StaticToolDirs(darwin), DynamicToolDirs(gopath, home), Usable(present));
  }

  // ---------- Nothing is shadowed ----------

  /** A joined path ends as its last element does, relative or not. */
  lemma BelowEnds(dir: string, last: string)
    requires last != "" && last != "." && last != ".." && NoSlash(last)
    ensures Below(dir, last) != "" && Below(dir, last)[|Below(dir, last)| - 1] == last[|last| - 1]
  {
    var s := dir + "/" + last;
    var rooted, kept := IsRooted(s), Resolve(IsRooted(s), Split(dir), []);
    SplitAtSlash(dir, last);
    SplitPlain(last);
    ResolveSplit(rooted, Split(dir), [last], []);
    assert Resolve(rooted, [last], kept) == Push(rooted, kept, last) == kept + [last];
    assert Components(s) == kept + [last];
    if kept == [] {
      assert kept + [last] == [last];
    } else {
      JoinLast(kept, last);
    }
  }

  /** What ends in something else than the homebrew directory does, or is absolute. */
  predicate Clear(path: string) {
    path != "" && (path[0] == '/' || path[|path| - 1] != HOMEBREW[|HOMEBREW| - 1])
  }

  lemma ClearIsApart(path: string)
    requires Clear(path)
    ensures path != ExecItem(HOMEBREW).SeenKey()
  {
    var key := ExecItem(HOMEBREW).SeenKey();
    assert key[0] == 'e' && key[|key| - 1] == HOMEBREW[|HOMEBREW| - 1];
  }

  ghost predicate AllClear(tools: seq<ToolDir>) {
    forall t | t in tools :: (forall d | d in t.readDirs :: Clear(d)) && (forall d | d in t.execDirs :: d == HOMEBREW)
  }

  lemma StaticClear(darwin: bool)
    ensures AllClear(StaticToolDirs(darwin))
  {
  }

  lemma AppendClear(a: seq<ToolDir>, b: seq<ToolDir>)
    requires AllClear(a) && AllClear(b)
    ensures AllClear(a + b)
  {
  }

  lemma HomeSubClear(home: string, mid: string, last: string)
    requires last == "bin" || last == "mise"
    ensures AllClear(BinTool(HomeSub(home, mid, last))) && AllClear(MiseTool(HomeSub(home, mid, last)))
  {
    BelowEnds(home + "/" + mid, last);
  }

  lemma GopathClear(gopath: string, home: string)
    ensures AllClear(BinTool(GopathBin(gopath, home)))
  {
    BelowEnds(gopath, "bin");
    HomeSubClear(home, "go", "bin");
  }

  lemma SixClear(a: seq<ToolDir>, b: seq<ToolDir>, c: seq<ToolDir>, d: seq<ToolDir>, e: seq<ToolDir>, f: seq<ToolDir>)
    requires AllClear(a) && AllClear(b) && AllClear(c) && AllClear(d) && AllClear(e) && AllClear(f)
    ensures AllClear(a + b + c + d + e + f)
  {
    AppendClear(a, b);
    AppendClear(a + b, c);
    AppendClear(a + b + c, d);
    AppendClear(a + b + c + d, e);
    AppendClear(a + b + c + d + e, f);
  }

  lemma DynamicClear(gopath: string, home: string)
    ensures AllClear(DynamicToolDirs(gopath, home))
  {
    GopathClear(gopath, home);
    HomeSubClear(home, ".cargo", "bin");
    HomeSubClear(home, ".local/share", "mise");
    HomeSubClear(home, ".local", "bin");
    HomeSubClear(home, ".bun", "bin");
    HomeSubClear(home, ".proto", "bin");
    SixClear(BinTool(GopathBin(gopath, home)), BinTool(HomeSub(home, ".cargo", "bin")),
             MiseTool(HomeSub(home, ".local/share", "mise")), BinTool(HomeSub(home, ".local", "bin")),
             BinTool(HomeSub(home, ".bun", "bin")), BinTool(HomeSub(home, ".proto", "bin")));
  }

  lemma ClearNotShadowed(tools: seq<ToolDir>)
    requires AllClear(tools)
    ensures KeysApart(Items(tools)) && NoReadShadowed(Items(tools))
  {
    forall a, b | a in Items(tools) && b in Items(tools) && a.ReadItem? && b.ExecItem?
      ensures a.SeenKey() != b.SeenKey()
    {
      ItemOfTools(tools, a);
      ItemOfTools(tools, b);
      ClearIsApart(a.path);
    }
    ApartNotShadowed(Items(tools));
  }

  lemma DiscoveredApart(darwin: bool, gopath: string, home: string, present: string -> bool)
    ensures KeysApart(Items(Discovered(darwin, gopath, home, present)))
  {
    StaticClear(darwin);
    DynamicClear(gopath, home);
    AppendClear(StaticToolDirs(darwin), DynamicToolDirs(gopath, home));
    ClearNotShadowed(Discovered(darwin, gopath, home, present));
  }

  /** Every discovered directory is granted: to be read, and to be executed from where it is listed for that. */
  lemma DiscoveredGranted(darwin: bool, gopath: string, home: string, present: string -> bool, t: ToolDir)
    requires t in StaticToolDirs(darwin) + DynamicToolDirs(gopath, home) && t.binDir != "" && present(t.binDir)
    ensures var grants := ItemGrants(Items(Discovered(darwin, gopath, home, present)));
            && (forall d | d in t.readDirs :: Grant(Read, Subpath, d) in grants)
            && (forall d | d in t.execDirs :: Grant(MapExecutable, Subpath, d) in grants)
  {
    var tools := Discovered(darwin, gopath, home, present);
    DiscoveredApart(darwin, gopath, home, present);
    ItemsOfTool(tools, t);
    forall d | d in t.readDirs
      ensures Grant(Read, Subpath, d) in ItemGrants(Items(tools))
    {
      EveryItemGranted(Items(tools), ReadItem(d));
    }
    forall d | d in t.execDirs
      ensures Grant(MapExecutable, Subpath, d) in ItemGrants(Items(tools))
    {
      EveryItemGranted(Items(tools), ExecItem(d));
    }
  }

  lemma ReadDirsOfSix(
    a: seq<ToolDir>, b: seq<ToolDir>, c: seq<ToolDir>, d: seq<ToolDir>, e: seq<ToolDir>, f: seq<ToolDir>)
    requires |a| == |b| == |c| == |d| == |e| == |f| == 1
    ensures var all := a + b + c + d + e + f;
            all == [a[0], b[0], c[0], d[0], e[0], f[0]]
  {
  }

  /** Where the environment points: GOPATH before HOME, then what other tools put under HOME. */
  lemma DynamicFromHome(gopath: string, home: string)
    requires home != ""
    ensures var dirs := DynamicToolDirs(gopath, home);
            var go := if gopath != "" then Clean(gopath + "/" + "bin") else Clean(home + "/" + "go" + "/" + "bin");
            var mise := Clean(home + "/" + ".local/share" + "/" + "mise");
            && |dirs| == 6
            && dirs[0] == ToolDir(go, [go], [])
            && dirs[1].readDirs == [dirs[1].binDir] == [Clean(home + "/" + ".cargo" + "/" + "bin")]
            && dirs[2] == ToolDir(Clean(mise + "/" + "shims"), [mise], [])
            && dirs[3].readDirs == [dirs[3].binDir] == [Clean(home + "/" + ".local" + "/" + "bin")]
            && dirs[4].readDirs == [dirs[4].binDir] == [Clean(home + "/" + ".bun" + "/" + "bin")]
            && dirs[5].readDirs == [dirs[5].binDir] == [Clean(home + "/" + ".proto" + "/" + "bin")]
  {
    CleanNotEmpty(gopath + "/" + "bin");
    CleanNotEmpty(home + "/" + "go" + "/" + "bin");
    CleanNotEmpty(home + "/" + ".cargo" + "/" + "bin");
    CleanNotEmpty(home + "/" + ".local/share" + "/" + "mise");
    CleanNotEmpty(home + "/" + ".local" + "/" + "bin");
    CleanNotEmpty(home + "/" + ".bun" + "/" + "bin");
    CleanNotEmpty(home + "/" + ".proto" + "/" + "bin");
    ReadDirsOfSix(BinTool(GopathBin(gopath, home)), BinTool(HomeSub(home, ".cargo", "bin")),
                  MiseTool(HomeSub(home, ".local/share", "mise")), BinTool(HomeSub(home, ".local", "bin")),
                  BinTool(HomeSub(home, ".bun", "bin")), BinTool(HomeSub(home, ".proto", "bin")));
  }

  lemma CleanNotEmpty(s: string)
    ensures Clean(s) != ""
  {
    CleanIsClean(s);
  }

  /** Without HOME only GOPATH is left. */
  lemma DynamicWithoutHome(gopath: string)
    ensures DynamicToolDirs("", "") == []
    ensures gopath != "" ==>
              var go := Clean(gopath + "/" + "bin");
              DynamicToolDirs(gopath, "") == [ToolDir(go, [go], [])]
  {
    CleanNotEmpty(gopath + "/" + "bin");
  }

  /** What is at fixed places. */
  lemma StaticByPlatform()
    ensures AllReadDirs(StaticToolDirs(true)) == ["/opt/homebrew"]
    ensures StaticToolDirs(true)[0].execDirs == ["/opt/homebrew"]
    ensures forall darwin, t | t in StaticToolDirs(darwin) :: |t.readDirs| == 1 && t.binDir == t.readDirs[0] + "/bin"
    ensures forall d :: d in AllReadDirs(StaticToolDirs(false)) <==>
              d in ["/home/linuxbrew/.linuxbrew", "/snap", "/run/current-system/sw"]
  {
    var mac, linux := StaticToolDirs(true), StaticToolDirs(false);
    assert mac[..0] == [] && AllReadDirs([]) == [];
    assert linux[..2][..1] == linux[..1] && linux[..1][..0] == [];
    forall d
      ensures d in AllReadDirs(linux) <==> d in ["/home/linuxbrew/.linuxbrew", "/snap", "/run/current-system/sw"]
    {
      ReadDirsAre(linux, d);
      assert linux[0] in linux && linux[1] in linux && linux[2] in linux;
    }
  }

  /**
   * Whatever GOPATH and HOME are, absolute or not, no discovered directory to read is shadowed: the read grants are
   * exactly the discovered directories, each where it first occurs.
   */
  lemma DiscoveredNotShadowed(darwin: bool, gopath: string, home: string, present: string -> bool)
    ensures var tools := Discovered(darwin, gopath, home, present);
            && NoReadShadowed(Items(tools))
            && ReadsOnly(ItemGrants(Items(tools))) == FirstOccurrences(AllReadDirs(tools))
  {
    var tools := Discovered(darwin, gopath, home, present);
    DiscoveredApart(darwin, gopath, home, present);
    ApartNotShadowed(Items(tools));
    ToolReadsAreFirstOccurrences(tools);
  }
}
