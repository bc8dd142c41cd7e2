/**
 * sandbox/policy.go: the generated seatbelt rules and their -D parameters. The rules name their paths by
 * parameter; what counts is the grants that come out when sandbox-exec has put the parameters in.
 */
module Seatbelt {
  import opened Wrappers
  import opened Numerals
  import opened Paths
  import opened Mounts
  import opened Sequences
  import opened Bwrap
  import A = Assignments

  datatype Perm = ReadMetadata | Read | ReadWrite | MapExecutable

  datatype PathFilter = Literal | Subpath

  datatype Argument = Param(key: string) | Quoted(path: string)

  /** (allow <perm> (<filter> <argument>)) */
  datatype Rule = Allow(perm: Perm, filter: PathFilter, argument: Argument)

  datatype Grant = Grant(perm: Perm, filter: PathFilter, path: string)

  /** One -D key=value pair. */
  datatype Def = Def(key: string, value: string)

  datatype Kind = Metadata | Readable | Writable

  function Prefix(kind: Kind): string {
    match kind
    case Metadata => "METADATA_ROOT_"
    case Readable => "READABLE_ROOT_"
    case Writable => "WRITABLE_ROOT_"
  }

  function Key(kind: Kind, index: nat): string {
    Prefix(kind) + Print(index, Decimal)
  }

  const CACHE_KEY := "DARWIN_USER_CACHE_DIR"

  /** Keys of different kinds or numbers differ, and none is the cache directory's. */
  lemma KeysDiffer(kind: Kind, index: nat, kind': Kind, index': nat)
    ensures Key(kind, index) == Key(kind', index') <==> kind == kind' && index == index'
    ensures Key(kind, index) != CACHE_KEY
  {
    var a, b := Key(kind, index), Key(kind', index');
    assert a[0] == Prefix(kind)[0] && b[0] == Prefix(kind')[0] && CACHE_KEY[0] == 'D';
    if kind == kind' {
      assert a[|Prefix(kind)|..] == Print(index, Decimal) && b[|Prefix(kind)|..] == Print(index', Decimal);
      PrintInjective(index, index', Decimal);
    }
  }

  lemma KeyHasNoEquals(kind: Kind, index: nat)
    ensures A.NoEquals(Key(kind, index))
  {
    var digits := Print(index, Decimal);
    assert forall i | 0 <= i < |digits| :: IsDigit(digits[i]);
    assert forall i | 0 <= i < |Prefix(kind)| :: Prefix(kind)[i] != '=';
  }

  // ---------- -D parameters as strings ----------

  function RenderDef(def: Def): seq<string> {
    ["-D", A.Assignment(def.key, def.value)]
  }

  function RenderDefs(defs: seq<Def>): seq<string> {
    FlattenMap(RenderDef, defs)
  }

  /** sandbox-exec's reading: pairs of -D and key=value, split at the first equals sign. */
  function ParseDefs(params: seq<string>): Option<seq<Def>> {
    if params == [] then Some([])
    else if |params| < 2 || params[|params| - 2] != "-D" then None
    else
      match (ParseDefs(params[..|params| - 2]), A.Split(params[|params| - 1]))
      case (Some(defs), Some((key, value))) => Some(defs + [Def(key, value)])
      case _ => None
  }

  ghost predicate Splittable(def: Def) {
    A.NoEquals(def.key)
  }

  lemma RenderOneMore(defs: seq<Def>, def: Def)
    ensures RenderDefs(defs + [def]) == RenderDefs(defs) + RenderDef(def)
  {
    FlattenMapAppend(RenderDef, defs, [def]);
    FlattenMapOne(RenderDef, def);
  }

  lemma ParseOneMoreDef(params: seq<string>, defs: seq<Def>, def: Def)
    requires ParseDefs(params) == Some(defs) && Splittable(def)
    ensures ParseDefs(params + RenderDef(def)) == Some(defs + [def])
  {
    var longer := params + RenderDef(def);
    A.SplitAssignment(def.key, def.value);
    assert longer[..|longer| - 2] == params;
    assert longer[|longer| - 2] == "-D" && longer[|longer| - 1] == A.Assignment(def.key, def.value);
  }

  lemma {:induction false} ParseRenderedDefs(defs: seq<Def>)
    requires forall i | 0 <= i < |defs| :: Splittable(defs[i])
    ensures ParseDefs(RenderDefs(defs)) == Some(defs)
  {
    if defs != [] {
      var before, def := defs[..|defs| - 1], defs[|defs| - 1];
      assert before + [def] == defs;
      ParseRenderedDefs(before);
      RenderOneMore(before, def);
      ParseOneMoreDef(RenderDefs(before), before, def);
    }
  }

  // ---------- Substitution ----------

  ghost predicate Defines(defs: seq<Def>, key: string, value: string) {
    exists i :: 0 <= i < |defs| && defs[i] == Def(key, value)
  }

  ghost predicate DistinctKeys(defs: seq<Def>) {
    forall i, j | 0 <= i < j < |defs| :: defs[i].key != defs[j].key
  }

  /** A rule grants what its argument stands for; with distinct keys that is at most one path. */
  ghost predicate Means(defs: seq<Def>, rule: Rule, grant: Grant) {
    && rule.perm == grant.perm && rule.filter == grant.filter
    && match rule.argument
       case Param(key) => Defines(defs, key, grant.path)
       case Quoted(path) => path == grant.path
  }

  ghost predicate AllMean(defs: seq<Def>, rules: seq<Rule>, grants: seq<Grant>) {
    |rules| == |grants| && forall i | 0 <= i < |rules| :: Means(defs, rules[i], grants[i])
  }

  /** Substitution has one outcome. */
  lemma MeaningUnique(defs: seq<Def>, rules: seq<Rule>, grants: seq<Grant>, grants': seq<Grant>)
    requires DistinctKeys(defs) && AllMean(defs, rules, grants) && AllMean(defs, rules, grants')
    ensures grants == grants'
  {
    forall i | 0 <= i < |rules|
      ensures grants[i] == grants'[i]
    {
      assert Means(defs, rules[i], grants[i]) && Means(defs, rules[i], grants'[i]);
    }
  }

  // ---------- Building ----------

  /** What buildPolicy has written so far: the rules, the parameters, and its three counters. */
  datatype Builder = Builder(rules: seq<Rule>, defs: seq<Def>, metadata: nat, readable: nat, writable: nat) {
    function Count(kind: Kind): nat {
      match kind
      case Metadata => metadata
      case Readable => readable
      case Writable => writable
    }

    function Bump(kind: Kind): Builder {
      match kind
      case Metadata => this.(metadata := metadata + 1)
      case Readable => this.(readable := readable + 1)
      case Writable => this.(writable := writable + 1)
    }

    /** A rule with a fresh parameter. */
    function Add(kind: Kind, path: string): Builder {
      var key := Key(kind, Count(kind));
      this.(rules := rules + [RuleFor(kind, key)], defs := defs + [Def(key, path)]).Bump(kind)
    }

    function AddExec(path: string): Builder {
      this.(rules := rules + [Allow(MapExecutable, Subpath, Quoted(path))])
    }
  }

  const EMPTY := Builder([], [], 0, 0, 0)

  function RuleFor(kind: Kind, key: string): Rule {
    match kind
    case Metadata => Allow(ReadMetadata, Literal, Param(key))
    case Readable => Allow(Read, Subpath, Param(key))
    case Writable => Allow(ReadWrite, Subpath, Param(key))
  }

  function GrantFor(kind: Kind, path: string): Grant {
    match kind
    case Metadata => Grant(ReadMetadata, Literal, path)
    case Readable => Grant(Read, Subpath, path)
    case Writable => Grant(ReadWrite, Subpath, path)
  }

  ghost predicate KnownKey(b: Builder, key: string) {
    exists kind: Kind, index: nat :: index < b.Count(kind) && key == Key(kind, index)
  }

  /** Every key in use is numbered below its counter, keys are distinct, and the rules mean `grants`. */
  ghost predicate Builds(b: Builder, grants: seq<Grant>) {
    && (forall i | 0 <= i < |b.defs| :: KnownKey(b, b.defs[i].key))
    && DistinctKeys(b.defs)
    && AllMean(b.defs, b.rules, grants)
  }

  lemma FreshKey(b: Builder, kind: Kind)
    ensures !KnownKey(b, Key(kind, b.Count(kind)))
  {
    var candidate := Key(kind, b.Count(kind));
    forall k: Kind, index: nat | index < b.Count(k)
      ensures candidate != Key(k, index)
    {
      KeysDiffer(kind, b.Count(kind), k, index);
    }
  }

  lemma KnownStays(b: Builder, kind: Kind, path: string, key: string)
    requires KnownKey(b, key)
    ensures KnownKey(b.Add(kind, path), key)
  {
    var k: Kind, index: nat :| index < b.Count(k) && key == Key(k, index);
    assert index < b.Add(kind, path).Count(k);
  }

  lemma MeansStays(defs: seq<Def>, def: Def, rule: Rule, grant: Grant)
    requires Means(defs, rule, grant)
    ensures Means(defs + [def], rule, grant)
  {
    if rule.argument.Param? {
      var i :| 0 <= i < |defs| && defs[i] == Def(rule.argument.key, grant.path);
      assert (defs + [def])[i] == defs[i];
    }
  }

  lemma AddBuilds(b: Builder, grants: seq<Grant>, kind: Kind, path: string)
    requires Builds(b, grants)
    ensures Builds(b.Add(kind, path), grants + [GrantFor(kind, path)])
  {
    var key := Key(kind, b.Count(kind));
    var def, after := Def(key, path), b.Add(kind, path);
    FreshKey(b, kind);
    forall i | 0 <= i < |after.defs|
      ensures KnownKey(after, after.defs[i].key)
    {
      if i < |b.defs| {
        KnownStays(b, kind, path, b.defs[i].key);
      } else {
        assert b.Count(kind) < after.Count(kind);
      }
    }
    forall i | 0 <= i < |b.rules|
      ensures Means(after.defs, b.rules[i], grants[i])
    {
      MeansStays(b.defs, def, b.rules[i], grants[i]);
    }
    assert after.defs[|b.defs|] == def;
    assert Defines(after.defs, key, path);
  }

  lemma AddExecBuilds(b: Builder, grants: seq<Grant>, path: string)
    requires Builds(b, grants)
    ensures Builds(b.AddExec(path), grants + [Grant(MapExecutable, Subpath, path)])
  {
    assert forall key | KnownKey(b, key) :: KnownKey(b.AddExec(path), key) by {
      forall key | KnownKey(b, key)
        ensures KnownKey(b.AddExec(path), key)
      {
        var k: Kind, index: nat :| index < b.Count(k) && key == Key(k, index);
        assert index < b.AddExec(path).Count(k);
      }
    }
  }

  // ---------- What is meant ----------

  predicate Remaps(m: Mount) {
    !m.metadataOnly && m.source != m.target
  }

  ghost predicate AnyRemaps(mounts: seq<Mount>) {
    exists m :: m in mounts && Remaps(m)
  }

  lemma AnyRemapsSoFar(mounts: seq<Mount>, i: nat)
    requires i < |mounts| && !AnyRemaps(mounts[..i])
    ensures Remaps(mounts[i]) ==> AnyRemaps(mounts)
    ensures !Remaps(mounts[i]) ==> !AnyRemaps(mounts[..i + 1])
  {
    assert mounts[..i + 1] == mounts[..i] + [mounts[i]];
    assert mounts[i] in mounts;
  }

  function KindOf(m: Mount): Kind {
    if m.metadataOnly then Metadata else if m.readOnly then Readable else Writable
  }

  function MountGrants(mounts: seq<Mount>): (grants: seq<Grant>)
    ensures |grants| == |mounts|
    ensures forall i | 0 <= i < |mounts| :: grants[i] == GrantFor(KindOf(mounts[i]), mounts[i].source)
  {
    seq(|mounts|, i requires 0 <= i < |mounts| => GrantFor(KindOf(mounts[i]), mounts[i].source))
  }

  datatype Item = ReadItem(path: string) | ExecItem(path: string) {
    /** The key under which the one map of seen paths remembers it. */
    function SeenKey(): string {
      match this
      case ReadItem(path) => path
      case ExecItem(path) => "exec:" + path
    }

    function ToGrant(): Grant {
      match this
      case ReadItem(path) => GrantFor(Readable, path)
      case ExecItem(path) => Grant(MapExecutable, Subpath, path)
    }
  }

  function ReadItems(dirs: seq<string>): (items: seq<Item>)
    ensures |items| == |dirs| && forall i | 0 <= i < |dirs| :: items[i] == ReadItem(dirs[i])
  {
    seq(|dirs|, i requires 0 <= i < |dirs| => ReadItem(dirs[i]))
  }

  function ExecItems(dirs: seq<string>): (items: seq<Item>)
    ensures |items| == |dirs| && forall i | 0 <= i < |dirs| :: items[i] == ExecItem(dirs[i])
  {
    seq(|dirs|, i requires 0 <= i < |dirs| => ExecItem(dirs[i]))
  }

  function Items(tools: seq<ToolDir>): seq<Item> {
    if tools == [] then [] else
      var tool := tools[|tools| - 1];
      Items(tools[..|tools| - 1]) + ReadItems(tool.readDirs) + ExecItems(tool.execDirs)
  }

  function SeenKeys(items: seq<Item>): (keys: set<string>)
  {
    set item | item in items :: item.SeenKey()
  }

  /** The grants of the items whose key has not been seen before them. */
  function ItemGrants(items: seq<Item>): seq<Grant> {
    if items == [] then [] else
      var before, item := items[..|items| - 1], items[|items| - 1];
      if item.SeenKey() in SeenKeys(before) then ItemGrants(before) else ItemGrants(before) + [item.ToGrant()]
  }

  function MetadataDirGrants(dirs: seq<string>): (grants: seq<Grant>)
    ensures |grants| == |dirs| && forall i | 0 <= i < |dirs| :: grants[i] == Grant(ReadMetadata, Literal, dirs[i])
  {
    seq(|dirs|, i requires 0 <= i < |dirs| => Grant(ReadMetadata, Literal, dirs[i]))
  }

  function MountsOf(cfg: Option<ExecConfig>): seq<Mount> {
    if cfg.Some? then cfg.value.mounts else []
  }

  /** What the generated rules grant: the mounts in order, the tools, and the directories of symbolic links. */
  function PolicyGrants(mounts: seq<Mount>, tools: seq<ToolDir>, metadataDirs: seq<string>): seq<Grant> {
    MountGrants(mounts) + ItemGrants(Items(tools)) + MetadataDirGrants(metadataDirs)
  }

  /** What each mount is granted: the metadata of that one path, or reading, or reading and writing, from it on down. */
  lemma MountGrantAt(mounts: seq<Mount>, tools: seq<ToolDir>, metadataDirs: seq<string>, i: nat)
    requires i < |mounts|
    ensures var m, grants := mounts[i], PolicyGrants(mounts, tools, metadataDirs);
            && |mounts| <= |grants|
            && (m.metadataOnly ==> grants[i] == Grant(ReadMetadata, Literal, m.source))
            && (!m.metadataOnly && m.readOnly ==> grants[i] == Grant(Read, Subpath, m.source))
            && (!m.metadataOnly && !m.readOnly ==> grants[i] == Grant(ReadWrite, Subpath, m.source))
  {
    var grants := PolicyGrants(mounts, tools, metadataDirs);
    assert grants[i] == MountGrants(mounts)[i];
  }

  // ---------- The fixed templates ----------

  /** What the templates let be written, beside devices: seatbelt_platform.sbpl and seatbelt_network.sbpl. */
  function TemplateSubpaths(cacheDir: string): seq<string> {
    ["/tmp", "/private/tmp", "/var/tmp", "/private/var/tmp", "/dev/fd", cacheDir + "/com.apple.trustd"]
  }

  /** The devices of seatbelt_base.sbpl that may be written. */
  const TEMPLATE_DEVICES: seq<string> := ["/dev/ptmx", "/dev/null", "/dev/zero", "/dev/dtracehelper"]

  // ---------- The read grants of the tools ----------

  function ReadsOnly(grants: seq<Grant>): seq<string> {
    if grants == [] then [] else
      var before, g := grants[..|grants| - 1], grants[|grants| - 1];
      if g.perm == Read then ReadsOnly(before) + [g.path] else ReadsOnly(before)
  }

  function ReadPaths(items: seq<Item>): seq<string> {
    if items == [] then [] else
      var before, item := items[..|items| - 1], items[|items| - 1];
      if item.ReadItem? then ReadPaths(before) + [item.path] else ReadPaths(before)
  }

  /**
   * Reading and executing share one map of seen keys. No directory to read may have been seen only as the key
   * of a directory to execute from.
   */
  ghost predicate NoReadShadowed(items: seq<Item>) {
    forall j | 0 <= j < |items| && items[j].ReadItem? :: NotShadowed(items, j)
  }

  ghost predicate NotShadowed(items: seq<Item>, j: nat)
    requires j < |items| && items[j].ReadItem?
  {
    items[j].path in SeenKeys(items[..j]) ==> items[j].path in ReadPaths(items[..j])
  }

  lemma {:induction false} ReadPathListed(items: seq<Item>, path: string)
    ensures path in ReadPaths(items) <==> ReadItem(path) in items
  {
    if items != [] {
      var before, item := items[..|items| - 1], items[|items| - 1];
      assert items == before + [item];
      ReadPathListed(before, path);
    }
  }

  lemma {:induction false} GrantedIsListed(items: seq<Item>, path: string)
    requires path in ReadsOnly(ItemGrants(items))
    ensures ReadItem(path) in items
  {
    if items != [] {
      var before, item := items[..|items| - 1], items[|items| - 1];
      assert items == before + [item];
      ReadsOneMore(ItemGrants(before), item.ToGrant());
      if path in ReadsOnly(ItemGrants(before)) {
        GrantedIsListed(before, path);
      }
    }
  }

  /** What is read has been seen, and nothing else is granted for reading. */
  lemma ReadPathsSeen(items: seq<Item>)
    ensures forall path | path in ReadPaths(items) :: path in SeenKeys(items)
    ensures forall path | path in ReadsOnly(ItemGrants(items)) :: path in ReadPaths(items)
  {
    forall path | path in ReadPaths(items)
      ensures path in SeenKeys(items)
    {
      ReadPathListed(items, path);
      assert ReadItem(path).SeenKey() in SeenKeys(items);
    }
    forall path | path in ReadsOnly(ItemGrants(items))
      ensures path in ReadPaths(items)
    {
      GrantedIsListed(items, path);
      ReadPathListed(items, path);
    }
  }

  lemma ReadsOneMore(grants: seq<Grant>, g: Grant)
    ensures ReadsOnly(grants + [g]) == ReadsOnly(grants) + if g.perm == Read then [g.path] else []
  {
    assert (grants + [g])[..|grants|] == grants;
  }

  lemma ShadowedOneMore(items: seq<Item>, item: Item)
    ensures NoReadShadowed(items + [item]) <==>
              && NoReadShadowed(items)
              && (item.ReadItem? && item.path in SeenKeys(items) ==> item.path in ReadPaths(items))
  {
    var all := items + [item];
    assert all[..|items|] == items && all[|items|] == item;
    forall j | 0 <= j < |items|
      ensures all[..j] == items[..j] && all[j] == items[j]
    {
    }
    if NoReadShadowed(all) {
      if item.ReadItem? {
        assert NotShadowed(all, |items|);
      }
      forall j | 0 <= j < |items| && items[j].ReadItem?
        ensures NotShadowed(items, j)
      {
        assert NotShadowed(all, j);
      }
    }
  }

  /** The items' read grants are their directories to read, each where it first occurs, just when none is shadowed. */
  lemma {:induction false} ItemReads(items: seq<Item>)
    ensures ReadsOnly(ItemGrants(items)) == FirstOccurrences(ReadPaths(items)) <==> NoReadShadowed(items)
  {
    if items != [] {
      var before, item := items[..|items| - 1], items[|items| - 1];
      assert items == before + [item];
      ItemReads(before);
      ReadPathsSeen(before);
      ShadowedOneMore(before, item);
      ReadsOneMore(ItemGrants(before), item.ToGrant());
      if item.ReadItem? {
        OneMoreGranted(ReadsOnly(ItemGrants(before)), ReadPaths(before), item.path);
      }
    }
  }

  lemma ReadPathsOneMore(items: seq<Item>, item: Item)
    ensures ReadPaths(items + [item]) == ReadPaths(items) + if item.ReadItem? then [item.path] else []
  {
    assert (items + [item])[..|items|] == items;
  }

  lemma LastReadItem(items: seq<Item>, before: seq<string>, dir: string)
    ensures items + ReadItems(before + [dir]) == items + ReadItems(before) + [ReadItem(dir)]
  {
  }

  lemma LastExecItem(items: seq<Item>, before: seq<string>, dir: string)
    ensures items + ExecItems(before + [dir]) == items + ExecItems(before) + [ExecItem(dir)]
  {
  }

  lemma {:induction false} ReadPathsAppendReads(items: seq<Item>, dirs: seq<string>)
    ensures ReadPaths(items + ReadItems(dirs)) == ReadPaths(items) + dirs
    decreases |dirs|
  {
    if dirs == [] {
      assert items + ReadItems([]) == items;
    } else {
      var before, dir := dirs[..|dirs| - 1], dirs[|dirs| - 1];
      ReadPathsAppendReads(items, before);
      LastReadItem(items, before, dir);
      ReadPathsOneMore(items + ReadItems(before), ReadItem(dir));
      assert before + [dir] == dirs;
    }
  }

  lemma {:induction false} ReadPathsAppendExecs(items: seq<Item>, dirs: seq<string>)
    ensures ReadPaths(items + ExecItems(dirs)) == ReadPaths(items)
    decreases |dirs|
  {
    if dirs == [] {
      assert items + ExecItems([]) == items;
    } else {
      var before, dir := dirs[..|dirs| - 1], dirs[|dirs| - 1];
      ReadPathsAppendExecs(items, before);
      LastExecItem(items, before, dir);
      ReadPathsOneMore(items + ExecItems(before), ExecItem(dir));
      assert before + [dir] == dirs;
    }
  }

  lemma {:induction false} ReadPathsOfTools(tools: seq<ToolDir>)
    ensures ReadPaths(Items(tools)) == AllReadDirs(tools)
  {
    if tools != [] {
      var before, tool := tools[..|tools| - 1], tools[|tools| - 1];
      ReadPathsOfTools(before);
      ReadPathsAppendReads(Items(before), tool.readDirs);
      ReadPathsAppendExecs(Items(before) + ReadItems(tool.readDirs), tool.execDirs);
    }
  }

  /** The tools' read grants are their directories, each where it first occurs, just when none is shadowed. */
  lemma ToolReadsAreFirstOccurrences(tools: seq<ToolDir>)
    ensures ReadsOnly(ItemGrants(Items(tools))) == FirstOccurrences(AllReadDirs(tools))
            <==> NoReadShadowed(Items(tools))
  {
    ItemReads(Items(tools));
    ReadPathsOfTools(tools);
  }

  lemma ExecKeyNotRooted(item: Item)
    ensures item.ExecItem? ==> !IsRooted(item.SeenKey())
  {
  }

  ghost predicate KeysApart(items: seq<Item>) {
    forall a, b | a in items && b in items && a.ReadItem? && b.ExecItem? :: a.SeenKey() != b.SeenKey()
  }

  lemma ApartNotShadowed(items: seq<Item>)
    requires KeysApart(items)
    ensures NoReadShadowed(items)
  {
    forall j | 0 <= j < |items| && items[j].ReadItem?
      ensures NotShadowed(items, j)
    {
      if items[j].path in SeenKeys(items[..j]) {
        var other :| other in items[..j] && other.SeenKey() == items[j].path;
        assert other in items && items[j] in items;
        ReadPathListed(items[..j], items[j].path);
      }
    }
  }

  lemma {:induction false} ItemOfTools(tools: seq<ToolDir>, item: Item)
    requires item in Items(tools)
    ensures exists t :: t in tools && if item.ReadItem? then item.path in t.readDirs else item.path in t.execDirs
  {
    if tools != [] {
      var before, t := tools[..|tools| - 1], tools[|tools| - 1];
      assert tools == before + [t];
      if item in Items(before) {
        ItemOfTools(before, item);
      }
    }
  }

  /** With keys apart, every directory to read and every one to execute from is granted as such. */
  lemma {:induction false} EveryItemGranted(items: seq<Item>, item: Item)
    requires KeysApart(items) && item in items
    ensures item.ReadItem? ==> Grant(Read, Subpath, item.path) in ItemGrants(items)
    ensures item.ExecItem? ==> Grant(MapExecutable, Subpath, item.path) in ItemGrants(items)
  {
    var before, last := items[..|items| - 1], items[|items| - 1];
    assert items == before + [last];
    assert forall x | x in before :: x in items;
    if item in before {
      EveryItemGranted(before, item);
    } else if last.SeenKey() in SeenKeys(before) {
      var other :| other in before && other.SeenKey() == last.SeenKey();
      assert other in items && last in items;
      SameKeySameItem(other, last);
    }
  }

  lemma SameKeySameItem(a: Item, b: Item)
    requires a.SeenKey() == b.SeenKey() && (a.ReadItem? <==> b.ReadItem?)
    ensures a == b
  {
    if a.ExecItem? {
      assert a.SeenKey()[5..] == a.path && b.SeenKey()[5..] == b.path;
    }
  }

  lemma {:induction false} ItemsOfTool(tools: seq<ToolDir>, t: ToolDir)
    requires t in tools
    ensures forall d | d in t.readDirs :: ReadItem(d) in Items(tools)
    ensures forall d | d in t.execDirs :: ExecItem(d) in Items(tools)
  {
    var before, last := tools[..|tools| - 1], tools[|tools| - 1];
    assert tools == before + [last];
    if t in before {
      ItemsOfTool(before, t);
    } else {
      forall d | d in t.readDirs
        ensures ReadItem(d) in ReadItems(t.readDirs)
      {
        var i :| 0 <= i < |t.readDirs| && t.readDirs[i] == d;
        assert ReadItems(t.readDirs)[i] == ReadItem(d);
      }
      forall d | d in t.execDirs
        ensures ExecItem(d) in ExecItems(t.execDirs)
      {
        var i :| 0 <= i < |t.execDirs| && t.execDirs[i] == d;
        assert ExecItems(t.execDirs)[i] == ExecItem(d);
      }
    }
  }

  /** Absolute directories are never shadowed, because the key of a directory to execute from starts with "exec:". */
  lemma RootedNotShadowed(items: seq<Item>)
    requires forall path | path in ReadPaths(items) :: IsRooted(path)
    ensures NoReadShadowed(items)
  {
    forall a, b | a in items && b in items && a.ReadItem? && b.ExecItem?
      ensures a.SeenKey() != b.SeenKey()
    {
      ReadPathListed(items, a.path);
      ExecKeyNotRooted(b);
    }
    ApartNotShadowed(items);
  }

  lemma ExecBeforeRead(exec: Item, read: Item)
    requires exec.ExecItem? && read.ReadItem? && exec.SeenKey() == read.SeenKey()
    ensures ReadsOnly(ItemGrants([exec, read])) == []
  {
    assert [exec, read][..1] == [exec] && [exec][..0] == [];
    assert exec in [exec];
    assert ItemGrants([exec]) == [exec.ToGrant()];
    ReadsOneMore([], exec.ToGrant());
    assert [] + [exec.ToGrant()] == [exec.ToGrant()];
  }

  lemma ToolsOfTwo(first: ToolDir, second: ToolDir, e: string, r: string)
    requires first.readDirs == [] && first.execDirs == [e] && second.readDirs == [r] && second.execDirs == []
    ensures Items([first, second]) == [ExecItem(e), ReadItem(r)] && AllReadDirs([first, second]) == [r]
  {
    assert [first, second][..1] == [first] && [first][..0] == [];
    assert AllReadDirs([first]) == [] + [];
    assert Items([first]) == [ExecItem(e)];
  }

  /**
   * On an arbitrary list a relative directory to read can be: "exec:x" after x was to be executed from gets no read
   * grant. No list that the code discovers is like that (ToolDirs.DiscoveredNotShadowed).
   */
  lemma ShadowedRead(x: string, binDir: string, binDir': string)
    ensures var tools := [ToolDir(binDir, [], [x]), ToolDir(binDir', ["exec:" + x], [])];
            AllReadDirs(tools) == ["exec:" + x] && ReadsOnly(ItemGrants(Items(tools))) == []
  {
    ToolsOfTwo(ToolDir(binDir, [], [x]), ToolDir(binDir', ["exec:" + x], []), x, "exec:" + x);
    ExecBeforeRead(ExecItem(x), ReadItem("exec:" + x));
  }

  // ---------- The code ----------

  datatype PolicyError = CannotRemap(mount: Mount) | NoCacheDir

  /** The builder after the mounts, and after the tools' items. */
  function AddMount(b: Builder, m: Mount): Builder {
    b.Add(KindOf(m), m.source)
  }

  function MountFold(mounts: seq<Mount>): Builder {
    Fold(AddMount, EMPTY, mounts)
  }

  datatype ToolState = ToolState(b: Builder, seen: set<string>)

  function AddItem(t: ToolState, item: Item): ToolState {
    if item.SeenKey() in t.seen then t
    else ToolState(if item.ReadItem? then t.b.Add(Readable, item.path) else t.b.AddExec(item.path),
                   t.seen + {item.SeenKey()})
  }

  function ToolFold(b: Builder, items: seq<Item>): ToolState {
    Fold(AddItem, ToolState(b, {}), items)
  }

  lemma MountFoldOneMore(before: seq<Mount>, m: Mount)
    ensures MountFold(before + [m]) == MountFold(before).Add(KindOf(m), m.source)
    ensures MountGrants(before + [m]) == MountGrants(before) + [GrantFor(KindOf(m), m.source)]
  {
    FoldOneMore(AddMount, EMPTY, before, m);
  }

  lemma MountStepBuilds(b: Builder, before: seq<Mount>, m: Mount)
    requires Builds(b, MountGrants(before))
    ensures Builds(AddMount(b, m), MountGrants(before + [m]))
  {
    AddBuilds(b, MountGrants(before), KindOf(m), m.source);
    assert MountGrants(before + [m]) == MountGrants(before) + [GrantFor(KindOf(m), m.source)];
  }

  lemma NothingBuilds()
    ensures Builds(EMPTY, MountGrants([]))
  {
  }

  lemma MountFoldBuilds(mounts: seq<Mount>)
    ensures Builds(MountFold(mounts), MountGrants(mounts))
  {
    var inv := (b: Builder, ms: seq<Mount>) => Builds(b, MountGrants(ms));
    NothingBuilds();
    forall b: Builder, ms: seq<Mount>, m: Mount | inv(b, ms)
      ensures inv(AddMount(b, m), ms + [m])
    {
      MountStepBuilds(b, ms, m);
    }
    FoldKeeps(AddMount, EMPTY, mounts, inv);
  }

  lemma AddItemBuilds(t: ToolState, grants: seq<Grant>, item: Item)
    requires Builds(t.b, grants)
    ensures Builds(AddItem(t, item).b, if item.SeenKey() in t.seen then grants else grants + [item.ToGrant()])
  {
    if item.SeenKey() !in t.seen {
      if item.ReadItem? {
        AddBuilds(t.b, grants, Readable, item.path);
      } else {
        AddExecBuilds(t.b, grants, item.path);
      }
    }
  }

  lemma {:induction false} ToolFoldBuilds(b: Builder, grants: seq<Grant>, items: seq<Item>)
    requires Builds(b, grants)
    ensures Builds(ToolFold(b, items).b, grants + ItemGrants(items))
    ensures ToolFold(b, items).seen == SeenKeys(items)
  {
    if items == [] {
      assert grants + [] == grants;
    } else {
      var before, item := items[..|items| - 1], items[|items| - 1];
      assert before + [item] == items;
      ToolFoldBuilds(b, grants, before);
      FoldOneMore(AddItem, ToolState(b, {}), before, item);
      AddItemBuilds(ToolFold(b, before), grants + ItemGrants(before), item);
      assert SeenKeys(items) == SeenKeys(before) + {item.SeenKey()};
      assert SeenKeys(before) + {item.SeenKey()} == SeenKeys(before) || item.SeenKey() !in SeenKeys(before);
      assert grants + (ItemGrants(before) + [item.ToGrant()]) == grants + ItemGrants(before) + [item.ToGrant()];
    }
  }

  function WithParam(params: seq<string>, b: Builder, kind: Kind, path: string): seq<string> {
    params + ["-D", A.Assignment(Key(kind, b.Count(kind)), path)]
  }

  /** One generated rule with its parameter. */
  method AddRule(b: Builder, params: seq<string>, kind: Kind, path: string)
    returns (b': Builder, params': seq<string>)
    requires params == RenderDefs(b.defs)
    ensures b' == b.Add(kind, path) && params' == RenderDefs(b'.defs)
  {
    OneMoreDef(b, kind, path);
    b', params' := b.Add(kind, path), WithParam(params, b, kind, path);
  }

  /** One round of the mount loop: false for a mount that seatbelt cannot remap. */
  method AppendMountRule(b: Builder, params: seq<string>, m: Mount)
    returns (ok: bool, b': Builder, params': seq<string>)
    requires params == RenderDefs(b.defs)
    ensures ok <==> !Remaps(m)
    ensures ok ==> b' == AddMount(b, m) && params' == RenderDefs(b'.defs)
  {
    if m.metadataOnly {
      b', params' := AddRule(b, params, Metadata, m.source);
      return true, b', params';
    }
    if m.source != m.target {
      return false, b, params;
    }
    if m.readOnly {
      b', params' := AddRule(b, params, Readable, m.source);
    } else {
      b', params' := AddRule(b, params, Writable, m.source);
    }
    ok := true;
  }

  lemma MountFoldNext(mounts: seq<Mount>, i: nat)
    requires i < |mounts|
    ensures MountFold(mounts[..i + 1]) == AddMount(MountFold(mounts[..i]), mounts[i])
  {
    assert mounts[..i + 1] == mounts[..i] + [mounts[i]];
    MountFoldOneMore(mounts[..i], mounts[i]);
  }

  method AppendMountRules(mounts: seq<Mount>)
    returns (result: Result<Builder, Mount>, params: seq<string>)
    ensures result.Err? <==> AnyRemaps(mounts)
    ensures result.Err? ==> result.error in mounts && Remaps(result.error)
    ensures result.Ok? ==> result.value == MountFold(mounts) && params == RenderDefs(result.value.defs)
  {
    var b := EMPTY;
    params := [];
    for i := 0 to |mounts|
      invariant !AnyRemaps(mounts[..i])
      invariant b == MountFold(mounts[..i]) && params == RenderDefs(b.defs)
    {
      var ok, b', params' := AppendMountRule(b, params, mounts[i]);
      AnyRemapsSoFar(mounts, i);
      if !ok {
        return Err(mounts[i]), params;
      }
      MountFoldNext(mounts, i);
      b, params := b', params';
    }
    assert mounts[..|mounts|] == mounts;
    result := Ok(b);
  }

  lemma OneMoreDef(b: Builder, kind: Kind, path: string)
    ensures RenderDefs(b.Add(kind, path).defs) == WithParam(RenderDefs(b.defs), b, kind, path)
  {
    RenderOneMore(b.defs, Def(Key(kind, b.Count(kind)), path));
  }

  ghost predicate ToolsSoFar(t: ToolState, params: seq<string>, start: Builder, items: seq<Item>) {
    t == ToolFold(start, items) && params == RenderDefs(t.b.defs)
  }

  method AppendReadRule(
    t: ToolState, params: seq<string>, rd: string, ghost start: Builder, ghost items: seq<Item>)
    returns (t': ToolState, params': seq<string>)
    requires ToolsSoFar(t, params, start, items)
    ensures ToolsSoFar(t', params', start, items + [ReadItem(rd)])
  {
    FoldOneMore(AddItem, ToolState(start, {}), items, ReadItem(rd));
    if rd in t.seen {
      return t, params;
    }
    var b;
    b, params' := AddRule(t.b, params, Readable, rd);
    t' := ToolState(b, t.seen + {rd});
  }

  lemma ReadItemsOneMore(items: seq<Item>, dirs: seq<string>, j: nat)
    requires j < |dirs|
    ensures items + ReadItems(dirs[..j]) + [ReadItem(dirs[j])] == items + ReadItems(dirs[..j + 1])
  {
  }

  lemma ExecItemsOneMore(items: seq<Item>, dirs: seq<string>, j: nat)
    requires j < |dirs|
    ensures items + ExecItems(dirs[..j]) + [ExecItem(dirs[j])] == items + ExecItems(dirs[..j + 1])
  {
  }

  /** One tool's read directories; the numbering goes on where the mounts left it. */
  method AppendReadRules(
    t: ToolState, params: seq<string>, dirs: seq<string>, ghost start: Builder, ghost items: seq<Item>)
    returns (t': ToolState, params': seq<string>)
    requires ToolsSoFar(t, params, start, items)
    ensures ToolsSoFar(t', params', start, items + ReadItems(dirs))
  {
    t', params' := t, params;
    assert items + ReadItems(dirs[..0]) == items;
    for j := 0 to |dirs|
      invariant ToolsSoFar(t', params', start, items + ReadItems(dirs[..j]))
    {
      t', params' := AppendReadRule(t', params', dirs[j], start, items + ReadItems(dirs[..j]));
      ReadItemsOneMore(items, dirs, j);
    }
    assert dirs[..|dirs|] == dirs;
  }

  method AppendExecRules(
    t: ToolState, ghost params: seq<string>, dirs: seq<string>, ghost start: Builder, ghost items: seq<Item>)
    returns (t': ToolState)
    requires ToolsSoFar(t, params, start, items)
    ensures ToolsSoFar(t', params, start, items + ExecItems(dirs))
  {
    var b, seen := t.b, t.seen;
    assert items + ExecItems(dirs[..0]) == items;
    for j := 0 to |dirs|
      invariant ToolsSoFar(ToolState(b, seen), params, start, items + ExecItems(dirs[..j]))
    {
      var ed := dirs[j];
      var key := ExecItem(ed).SeenKey();
      FoldOneMore(AddItem, ToolState(start, {}), items + ExecItems(dirs[..j]), ExecItem(ed));
      ExecItemsOneMore(items, dirs, j);
      if key in seen {
        continue;
      }
      seen := seen + {key};
      b := b.AddExec(ed);
    }
    assert dirs[..|dirs|] == dirs;
    t' := ToolState(b, seen);
  }

  method AppendToolDirRules(b: Builder, params: seq<string>, tools: seq<ToolDir>)
    returns (b': Builder, params': seq<string>)
    requires params == RenderDefs(b.defs)
    ensures b' == ToolFold(b, Items(tools)).b && params' == RenderDefs(b'.defs)
  {
    var t := ToolState(b, {});
    params' := params;
    for i := 0 to |tools|
      invariant ToolsSoFar(t, params', b, Items(tools[..i]))
    {
      assert tools[..i + 1][..i] == tools[..i];
      ghost var before := Items(tools[..i]);
      t, params' := AppendReadRules(t, params', tools[i].readDirs, b, before);
      t := AppendExecRules(t, params', tools[i].execDirs, b, before + ReadItems(tools[i].readDirs));
    }
    assert tools[..|tools|] == tools;
    b' := t.b;
  }

  lemma AddQuotedBuilds(b: Builder, grants: seq<Grant>, dirs: seq<string>)
    requires Builds(b, grants)
    ensures Builds(b.(rules := b.rules + MetadataRules(dirs)), grants + MetadataDirGrants(dirs))
  {
    var after := b.(rules := b.rules + MetadataRules(dirs));
    forall key | KnownKey(b, key)
      ensures KnownKey(after, key)
    {
      var k: Kind, index: nat :| index < b.Count(k) && key == Key(k, index);
      assert index < after.Count(k);
    }
  }

  function MetadataRules(dirs: seq<string>): (rules: seq<Rule>)
    ensures |rules| == |dirs| && forall i | 0 <= i < |dirs| :: rules[i] == Allow(ReadMetadata, Literal, Quoted(dirs[i]))
  {
    seq(|dirs|, i requires 0 <= i < |dirs| => Allow(ReadMetadata, Literal, Quoted(dirs[i])))
  }

  lemma CacheDefLast(b: Builder, grants: seq<Grant>, cacheDir: string)
    requires Builds(b, grants)
    ensures var defs := b.defs + [Def(CACHE_KEY, cacheDir)];
            && ParseDefs(RenderDefs(b.defs) + ["-D", A.Assignment(CACHE_KEY, cacheDir)]) == Some(defs)
            && DistinctKeys(defs) && AllMean(defs, b.rules, grants) && Defines(defs, CACHE_KEY, cacheDir)
  {
    var def := Def(CACHE_KEY, cacheDir);
    var defs := b.defs + [def];
    forall i | 0 <= i < |b.defs|
      ensures Splittable(b.defs[i]) && b.defs[i].key != CACHE_KEY
    {
      assert KnownKey(b, b.defs[i].key);
      var k: Kind, index: nat :| index < b.Count(k) && b.defs[i].key == Key(k, index);
      KeyHasNoEquals(k, index);
      KeysDiffer(k, index, k, index);
    }
    assert defs[|b.defs|] == def && Splittable(def);
    RenderOneMore(b.defs, def);
    ParseRenderedDefs(defs);
    forall i | 0 <= i < |b.rules|
      ensures Means(defs, b.rules[i], grants[i])
    {
      MeansStays(b.defs, def, b.rules[i], grants[i]);
    }
  }

  /** The first rules are those of the mounts, by their flags. */
  ghost predicate MountsMean(defs: seq<Def>, rules: seq<Rule>, mounts: seq<Mount>) {
    && |mounts| <= |rules|
    && forall i | 0 <= i < |mounts| ::
         && (mounts[i].metadataOnly ==> Means(defs, rules[i], Grant(ReadMetadata, Literal, mounts[i].source)))
         && (!mounts[i].metadataOnly ==>
               Means(defs, rules[i], Grant(if mounts[i].readOnly then Read else ReadWrite, Subpath, mounts[i].source)))
  }

  lemma MountsMeanGrants(
    defs: seq<Def>, rules: seq<Rule>, mounts: seq<Mount>, tools: seq<ToolDir>, metadataDirs: seq<string>)
    requires AllMean(defs, rules, PolicyGrants(mounts, tools, metadataDirs))
    ensures MountsMean(defs, rules, mounts)
  {
    assert |PolicyGrants(mounts, tools, metadataDirs)| >= |mounts|;
    forall i | 0 <= i < |mounts|
      ensures Means(defs, rules[i], PolicyGrants(mounts, tools, metadataDirs)[i])
    {
    }
    forall i | 0 <= i < |mounts|
      ensures var m := mounts[i];
              PolicyGrants(mounts, tools, metadataDirs)[i] == Grant(
                if m.metadataOnly then ReadMetadata else if m.readOnly then Read else ReadWrite,
                if m.metadataOnly then Literal else Subpath, m.source)
    {
      MountGrantAt(mounts, tools, metadataDirs, i);
    }
  }

  /**
   * Fails exactly on a mount that would have to be remapped or without a cache directory. Otherwise the -D
   * strings read back as definitions with distinct keys, and under them the generated rules grant the mounts in
   * order, then the tool directories, then the directories of symbolic links.
   */
  method BuildPolicy(
    cfg: Option<ExecConfig>, tools: seq<ToolDir>, metadataDirs: seq<string>, cacheDir: Option<string>)
    returns (result: Result<seq<Rule>, PolicyError>, params: seq<string>)
    ensures result.Err? <==>
              || (cfg.Some? && exists m :: m in cfg.value.mounts && !m.metadataOnly && m.source != m.target)
              || cacheDir.None?
    ensures result.Err? ==>
              match result.error
              case CannotRemap(m) => cfg.Some? && m in cfg.value.mounts && !m.metadataOnly && m.source != m.target
              case NoCacheDir => cacheDir.None? && !AnyRemaps(MountsOf(cfg))
    ensures result.Ok? ==>
              && ParseDefs(params).Some?
              && DistinctKeys(ParseDefs(params).value)
              && Defines(ParseDefs(params).value, "DARWIN_USER_CACHE_DIR", cacheDir.value)
              && AllMean(ParseDefs(params).value, result.value, PolicyGrants(MountsOf(cfg), tools, metadataDirs))
              && MountsMean(ParseDefs(params).value, result.value, MountsOf(cfg))
  {
    ghost var mounts := MountsOf(cfg);
    var b := EMPTY;
    params := [];
    if cfg.Some? {
      var built, mountParams := AppendMountRules(cfg.value.mounts);
      assert AnyRemaps(mounts) <==> exists m :: m in mounts && !m.metadataOnly && m.source != m.target;
      if built.Err? {
        return Err(CannotRemap(built.error)), [];
      }
      b, params := built.value, mountParams;
    }
    MountFoldBuilds(mounts);
    ToolFoldBuilds(b, MountGrants(mounts), Items(tools));
    b, params := AppendToolDirRules(b, params, tools);
    AddQuotedBuilds(b, MountGrants(mounts) + ItemGrants(Items(tools)), metadataDirs);
    b := b.(rules := b.rules + MetadataRules(metadataDirs));
    if cacheDir.None? {
      return Err(NoCacheDir), [];
    }
    CacheDefLast(b, PolicyGrants(mounts, tools, metadataDirs), cacheDir.value);
    params := params + ["-D", A.Assignment(CACHE_KEY, cacheDir.value)];
    MountsMeanGrants(b.defs + [Def(CACHE_KEY, cacheDir.value)], b.rules, mounts, tools, metadataDirs);
    return Ok(b.rules), params;
  }
}
