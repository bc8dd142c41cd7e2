/**
 * sandbox/bwrap.go: the bubblewrap command line. A parser that reads it the way bwrap does, option by option
 * with the number of arguments each option takes, gets back exactly the operations meant, whatever the paths
 * and the command look like.
 */
module Bwrap {
  import opened Wrappers
  import opened Mounts
  import opened Sequences

  datatype ExecConfig = ExecConfig(mounts: seq<Mount>, workingDir: string)

  datatype ToolDir = ToolDir(binDir: string, readDirs: seq<string>, execDirs: seq<string>)

  datatype Op =
    | Bind(readOnly: bool, source: string, target: string)
    | Tmpfs(path: string)
    | Proc(path: string)
    | Dev(path: string)
    | Symlink(content: string, path: string)
    | Flag(name: string)
    | Chdir(path: string)

  const RO_BIND := "--ro-bind"
  const RW_BIND := "--bind"
  const NIX_STORE := "/nix/store"

  predicate IsFlag(name: string) {
    name in ["--unshare-all", "--unshare-user-try", "--unshare-ipc", "--unshare-uts", "--unshare-cgroup-try",
             "--share-net", "--die-with-parent"]
  }

  function Encode(op: Op): (args: seq<string>)
    ensures args != []
  {
    match op
    case Bind(readOnly, source, target) => [if readOnly then RO_BIND else RW_BIND, source, target]
    case Tmpfs(path) => ["--tmpfs", path]
    case Proc(path) => ["--proc", path]
    case Dev(path) => ["--dev", path]
    case Symlink(content, path) => ["--symlink", content, path]
    case Flag(name) => [name]
    case Chdir(path) => ["--chdir", path]
  }

  function EncodeAll(ops: seq<Op>): seq<string> {
    FlattenMap(Encode, ops)
  }

  /** The option at the head of the command line, and how many strings it takes up. */
  function ParseOne(args: seq<string>): (r: Option<(Op, nat)>)
    ensures r.Some? ==> 0 < r.value.1 <= |args|
  {
    if args == [] then None
    else if args[0] == "--ro-bind" && |args| >= 3 then Some((Bind(true, args[1], args[2]), 3))
    else if args[0] == "--bind" && |args| >= 3 then Some((Bind(false, args[1], args[2]), 3))
    else if args[0] == "--symlink" && |args| >= 3 then Some((Symlink(args[1], args[2]), 3))
    else if args[0] == "--tmpfs" && |args| >= 2 then Some((Tmpfs(args[1]), 2))
    else if args[0] == "--proc" && |args| >= 2 then Some((Proc(args[1]), 2))
    else if args[0] == "--dev" && |args| >= 2 then Some((Dev(args[1]), 2))
    else if args[0] == "--chdir" && |args| >= 2 then Some((Chdir(args[1]), 2))
    else if IsFlag(args[0]) then Some((Flag(args[0]), 1))
    else None
  }

  /** The operations, and the command after "--". */
  function Parse(args: seq<string>): Option<(seq<Op>, seq<string>)>
    decreases |args|
  {
    if args == [] then None
    else if args[0] == "--" then Some(([], args[1..]))
    else
      match ParseOne(args)
      case None => None
      case Some((op, n)) =>
        match Parse(args[n..])
        case None => None
        case Some((ops, command)) => Some(([op] + ops, command))
  }

  ghost predicate Encodable(ops: seq<Op>) {
    forall i | 0 <= i < |ops| :: ops[i].Flag? ==> IsFlag(ops[i].name)
  }

  lemma ParseOneEncoded(op: Op, rest: seq<string>)
    requires op.Flag? ==> IsFlag(op.name)
    ensures ParseOne(Encode(op) + rest) == Some((op, |Encode(op)|))
    ensures Encode(op)[0] != "--"
  {
  }

  lemma EncodeAppend(a: seq<Op>, b: seq<Op>)
    ensures EncodeAll(a + b) == EncodeAll(a) + EncodeAll(b)
  {
    FlattenMapAppend(Encode, a, b);
  }

  lemma EncodeOne(op: Op)
    ensures EncodeAll([op]) == Encode(op)
  {
    FlattenMapOne(Encode, op);
  }

  lemma EncodeNone()
    ensures EncodeAll([]) == []
  {
  }

  lemma Associate(a: seq<string>, b: seq<string>, c: seq<string>)
    ensures a + (b + c) == a + b + c
  {
  }

  /** No operand can be mistaken for an option, however it looks. */
  lemma {:induction false} RoundTrip(ops: seq<Op>, command: seq<string>)
    requires Encodable(ops)
    ensures Parse(EncodeAll(ops) + ["--"] + command) == Some((ops, command))
  {
    var args := EncodeAll(ops) + ["--"] + command;
    if ops == [] {
      EncodeNone();
      assert args[1..] == command;
    } else {
      var head := Encode(ops[0]);
      var rest := EncodeAll(ops[1..]) + ["--"] + command;
      EncodeOne(ops[0]);
      EncodeAppend([ops[0]], ops[1..]);
      assert [ops[0]] + ops[1..] == ops;
      assert args == head + rest;
      ParseOneEncoded(ops[0], rest);
      RoundTrip(ops[1..], command);
      assert args[|head|..] == rest;
    }
  }

  // ---------- What is meant ----------

  function ViewOps(): seq<Op> {
    [Bind(true, "/usr", "/usr"), Bind(true, "/bin", "/bin"), Tmpfs("/tmp"), Tmpfs("/home/agent")]
  }

  /** In Kubernetes mode there is no procfs mount and no PID namespace. */
  function NamespaceOps(kubernetesMode: bool): seq<Op> {
    if kubernetesMode then
      [Flag("--unshare-user-try"), Flag("--unshare-ipc"), Flag("--unshare-uts"), Flag("--unshare-cgroup-try")]
    else [Proc("/proc"), Flag("--unshare-all")]
  }

  function NetworkOps(): seq<Op> {
    [Flag("--share-net"), Dev("/dev"), Bind(true, "/etc/resolv.conf", "/etc/resolv.conf"),
     Bind(true, "/etc/ssl/certs", "/etc/ssl/certs")]
  }

  function LibraryOps(): seq<Op> {
    [Bind(true, "/etc/hosts", "/etc/hosts"), Flag("--die-with-parent"), Bind(true, "/lib", "/lib"),
     Symlink("/usr/lib64", "/lib64")]
  }

  function StaticOps(kubernetesMode: bool): seq<Op> {
    ViewOps() + NamespaceOps(kubernetesMode) + NetworkOps() + LibraryOps()
  }

  /** isSubdirOf: a byte prefix followed by a slash. */
  predicate IsSubdirOf(child: string, parent: string) {
    |child| > |parent| && child[..|parent| + 1] == parent + "/"
  }

  predicate CoveredByStaticRoot(path: string) {
    exists root | root in ["/usr", "/bin", "/lib"] :: path == root || IsSubdirOf(path, root)
  }

  function AllReadDirs(tools: seq<ToolDir>): seq<string> {
    if tools == [] then [] else AllReadDirs(tools[..|tools| - 1]) + tools[|tools| - 1].readDirs
  }

  function Bindable(present: string -> bool): string -> bool {
    d => present(d) && !CoveredByStaticRoot(d)
  }

  function Bound(dirs: seq<string>, bindable: string -> bool): seq<string> {
    FirstOccurrences(Filter(dirs, bindable))
  }

  /** The tool directories to bind: existing, not under a static root, each where it first occurs. */
  function ToolBinds(tools: seq<ToolDir>, present: string -> bool): seq<string> {
    Bound(AllReadDirs(tools), Bindable(present))
  }

  function ReadOnlyBind(path: string): Op {
    Bind(true, path, path)
  }

  function Binds(paths: seq<string>): (ops: seq<Op>)
    ensures |ops| == |paths| && forall i | 0 <= i < |paths| :: ops[i] == ReadOnlyBind(paths[i])
  {
    seq(|paths|, i requires 0 <= i < |paths| => ReadOnlyBind(paths[i]))
  }

  /** The nix store, unless it is missing or a tool directory already is the store. */
  function NixOps(tools: seq<ToolDir>, present: string -> bool): seq<Op> {
    if present(NIX_STORE) && NIX_STORE !in ToolBinds(tools, present) then [ReadOnlyBind(NIX_STORE)] else []
  }

  function MountOp(m: Mount): Op {
    Bind(m.readOnly, m.source, m.target)
  }

  function MountOps(mounts: seq<Mount>, present: string -> bool): seq<Op> {
    if mounts == [] then [] else
      var m := mounts[|mounts| - 1];
      MountOps(mounts[..|mounts| - 1], present) + if m.metadataOnly || !present(m.source) then [] else [MountOp(m)]
  }

  function ConfigOps(cfg: Option<ExecConfig>, present: string -> bool): seq<Op> {
    match cfg
    case None => []
    case Some(c) => MountOps(c.mounts, present) + if c.workingDir != "" then [Chdir(c.workingDir)] else []
  }

  function VariableOps(tools: seq<ToolDir>, cfg: Option<ExecConfig>, present: string -> bool): seq<Op> {
    Binds(ToolBinds(tools, present)) + NixOps(tools, present) + ConfigOps(cfg, present)
  }

  function SandboxOps(
    kubernetesMode: bool, tools: seq<ToolDir>, cfg: Option<ExecConfig>, present: string -> bool): seq<Op>
  {
    StaticOps(kubernetesMode) + VariableOps(tools, cfg, present)
  }

  // ---------- What that comes to ----------

  /** What the fixed binds of /usr, /bin and /lib show already. */
  predicate UnderStaticRoot(path: string) {
    || path == "/usr" || path == "/bin" || path == "/lib"
    || "/usr/" <= path || "/bin/" <= path || "/lib/" <= path
  }

  lemma CoveredMeansUnder(path: string)
    ensures CoveredByStaticRoot(path) <==> UnderStaticRoot(path)
  {
    forall root: string
      ensures IsSubdirOf(path, root) <==> root + "/" <= path
    {
      if root + "/" <= path {
        assert path[..|root| + 1] == root + "/";
      }
    }
    assert "/usr" + "/" == "/usr/" && "/bin" + "/" == "/bin/" && "/lib" + "/" == "/lib/";
  }

  lemma {:induction false} ReadDirsAre(tools: seq<ToolDir>, d: string)
    ensures d in AllReadDirs(tools) <==> exists t :: t in tools && d in t.readDirs
  {
    if tools != [] {
      var before, last := tools[..|tools| - 1], tools[|tools| - 1];
      assert tools == before + [last];
      ReadDirsAre(before, d);
      if d in last.readDirs {
        assert last in tools;
      }
    }
  }

  /** Every directory of a tool that exists and lies under no static root is bound, and nothing else is. */
  lemma ToolBindsExactly(tools: seq<ToolDir>, present: string -> bool, d: string)
    ensures d in ToolBinds(tools, present) <==>
              (exists t :: t in tools && d in t.readDirs) && present(d) && !UnderStaticRoot(d)
  {
    ReadDirsAre(tools, d);
    CoveredMeansUnder(d);
  }

  /** Operations from n to m bind each of those directories, read-only and onto itself, exactly once. */
  ghost predicate BindsEachOnce(ops: seq<Op>, n: nat, m: nat, dirs: seq<string>) {
    && n <= m <= |ops|
    && (forall i | n <= i < m ::
          ops[i].Bind? && ops[i].readOnly && ops[i].source == ops[i].target && ops[i].source in dirs)
    && (forall d | d in dirs :: exists i :: n <= i < m && ops[i] == Bind(true, d, d))
    && (forall i, j | n <= i < j < m :: ops[i] != ops[j])
  }

  lemma SegmentBinds(fixed: seq<Op>, dirs: seq<string>, nix: seq<Op>, conf: seq<Op>)
    requires forall i, j | 0 <= i < j < |dirs| :: dirs[i] != dirs[j]
    ensures BindsEachOnce(fixed + (Binds(dirs) + nix + conf), |fixed|, |fixed| + |dirs|, dirs)
  {
    var ops := fixed + (Binds(dirs) + nix + conf);
    forall i | 0 <= i < |dirs|
      ensures ops[|fixed| + i] == Bind(true, dirs[i], dirs[i])
    {
    }
    forall d | d in dirs
      ensures exists i :: |fixed| <= i < |fixed| + |dirs| && ops[i] == Bind(true, d, d)
    {
      var i :| 0 <= i < |dirs| && dirs[i] == d;
      assert ops[|fixed| + i] == Bind(true, d, d);
    }
    forall i, j | |fixed| <= i < j < |fixed| + |dirs|
      ensures ops[i] != ops[j]
    {
      assert ops[|fixed| + (i - |fixed|)] != ops[|fixed| + (j - |fixed|)];
    }
  }

  /** In the operations, each tool directory has its read-only bind exactly once right after the fixed part. */
  lemma ToolSegment(kubernetesMode: bool, tools: seq<ToolDir>, cfg: Option<ExecConfig>, present: string -> bool)
    ensures var n := |StaticOps(kubernetesMode)|;
            BindsEachOnce(SandboxOps(kubernetesMode, tools, cfg, present), n, n + |ToolBinds(tools, present)|,
                          ToolBinds(tools, present))
  {
    SegmentBinds(StaticOps(kubernetesMode), ToolBinds(tools, present), NixOps(tools, present), ConfigOps(cfg, present));
  }

  lemma ToolBound(kubernetesMode: bool, tools: seq<ToolDir>, cfg: Option<ExecConfig>, present: string -> bool)
    ensures forall t, d | t in tools && d in t.readDirs && present(d) && !UnderStaticRoot(d) ::
              Bind(true, d, d) in SandboxOps(kubernetesMode, tools, cfg, present)
  {
    forall t, d | t in tools && d in t.readDirs && present(d) && !UnderStaticRoot(d)
      ensures Bind(true, d, d) in SandboxOps(kubernetesMode, tools, cfg, present)
    {
      ToolBindsExactly(tools, present, d);
      var dirs := ToolBinds(tools, present);
      var i :| 0 <= i < |dirs| && dirs[i] == d;
      assert Binds(dirs)[i] == Bind(true, d, d);
      assert Bind(true, d, d) in VariableOps(tools, cfg, present);
    }
  }

  lemma {:induction false} MountBound(mounts: seq<Mount>, present: string -> bool)
    ensures forall m | m in mounts && !m.metadataOnly && present(m.source) ::
              Bind(m.readOnly, m.source, m.target) in MountOps(mounts, present)
    ensures forall op | op in MountOps(mounts, present) ::
              exists m :: m in mounts && !m.metadataOnly && present(m.source)
                          && op == Bind(m.readOnly, m.source, m.target)
  {
    if mounts != [] {
      var before, last := mounts[..|mounts| - 1], mounts[|mounts| - 1];
      assert mounts == before + [last];
      MountBound(before, present);
      forall op | op in MountOps(mounts, present)
        ensures exists m ::
                  m in mounts && !m.metadataOnly && present(m.source) && op == Bind(m.readOnly, m.source, m.target)
      {
        if op !in MountOps(before, present) {
          assert last in mounts && op == MountOp(last);
        }
      }
    }
  }

  lemma NoChdirBefore(kubernetesMode: bool, tools: seq<ToolDir>, present: string -> bool)
    ensures forall op | op in StaticOps(kubernetesMode) + Binds(ToolBinds(tools, present)) + NixOps(tools, present) ::
              !op.Chdir?
  {
    forall op | op in StaticOps(kubernetesMode)
      ensures !op.Chdir?
    {
      assert op in ViewOps() || op in NamespaceOps(kubernetesMode) || op in NetworkOps() || op in LibraryOps();
    }
  }

  lemma BeforeAndConfig(
    kubernetesMode: bool, tools: seq<ToolDir>, cfg: Option<ExecConfig>, present: string -> bool, op: Op)
    ensures op in SandboxOps(kubernetesMode, tools, cfg, present) <==>
              || op in StaticOps(kubernetesMode) + Binds(ToolBinds(tools, present)) + NixOps(tools, present)
              || op in ConfigOps(cfg, present)
  {
    InFour(StaticOps(kubernetesMode), Binds(ToolBinds(tools, present)), NixOps(tools, present),
           ConfigOps(cfg, present), op);
  }

  /** The configuration's directory is changed to if it names one. */
  lemma ChdirExactly(
    kubernetesMode: bool, tools: seq<ToolDir>, cfg: Option<ExecConfig>, present: string -> bool, p: string)
    ensures Chdir(p) in SandboxOps(kubernetesMode, tools, cfg, present) <==>
              cfg.Some? && cfg.value.workingDir == p && p != ""
  {
    BeforeAndConfig(kubernetesMode, tools, cfg, present, Chdir(p));
    NoChdirBefore(kubernetesMode, tools, present);
    if cfg.Some? {
      MountBound(cfg.value.mounts, present);
    }
  }

  /** Its mounts are bound in their mode. */
  lemma MountsInForce(
    kubernetesMode: bool, tools: seq<ToolDir>, c: ExecConfig, present: string -> bool, m: Mount)
    requires m in c.mounts && !m.metadataOnly && present(m.source)
    ensures Bind(m.readOnly, m.source, m.target) in SandboxOps(kubernetesMode, tools, Some(c), present)
  {
    BeforeAndConfig(kubernetesMode, tools, Some(c), present, Bind(m.readOnly, m.source, m.target));
    MountBound(c.mounts, present);
  }

  /** And so is the nix store, if it is there. */
  lemma StoreInForce(kubernetesMode: bool, tools: seq<ToolDir>, cfg: Option<ExecConfig>, present: string -> bool)
    requires present("/nix/store")
    ensures Bind(true, "/nix/store", "/nix/store") in SandboxOps(kubernetesMode, tools, cfg, present)
  {
    var dirs := ToolBinds(tools, present);
    BeforeAndConfig(kubernetesMode, tools, cfg, present, ReadOnlyBind(NIX_STORE));
    if NIX_STORE in dirs {
      var i :| 0 <= i < |dirs| && dirs[i] == NIX_STORE;
      assert Binds(dirs)[i] == ReadOnlyBind(NIX_STORE);
    }
  }

  /** All that the operations are to do, in one place. */
  ghost predicate InForce(
    ops: seq<Op>, kubernetesMode: bool, tools: seq<ToolDir>, cfg: Option<ExecConfig>, present: string -> bool)
  {
    && (forall d :: d in ToolBinds(tools, present) <==>
          (exists t :: t in tools && d in t.readDirs) && present(d) && !UnderStaticRoot(d))
    && BindsEachOnce(ops, |StaticOps(kubernetesMode)|, |StaticOps(kubernetesMode)| + |ToolBinds(tools, present)|,
                     ToolBinds(tools, present))
    && (present("/nix/store") ==> Bind(true, "/nix/store", "/nix/store") in ops)
    && (cfg.Some? ==> forall m | m in cfg.value.mounts && !m.metadataOnly && present(m.source) ::
          Bind(m.readOnly, m.source, m.target) in ops)
    && (forall p :: Chdir(p) in ops <==> cfg.Some? && cfg.value.workingDir == p && p != "")
  }

  lemma SandboxInForce(kubernetesMode: bool, tools: seq<ToolDir>, cfg: Option<ExecConfig>, present: string -> bool)
    ensures InForce(SandboxOps(kubernetesMode, tools, cfg, present), kubernetesMode, tools, cfg, present)
  {
    forall d
      ensures d in ToolBinds(tools, present) <==>
                (exists t :: t in tools && d in t.readDirs) && present(d) && !UnderStaticRoot(d)
    {
      ToolBindsExactly(tools, present, d);
    }
    ToolSegment(kubernetesMode, tools, cfg, present);
    if present("/nix/store") {
      StoreInForce(kubernetesMode, tools, cfg, present);
    }
    if cfg.Some? {
      forall m | m in cfg.value.mounts && !m.metadataOnly && present(m.source)
        ensures Bind(m.readOnly, m.source, m.target) in SandboxOps(kubernetesMode, tools, cfg, present)
      {
        MountsInForce(kubernetesMode, tools, cfg.value, present, m);
      }
    }
    forall p
      ensures Chdir(p) in SandboxOps(kubernetesMode, tools, cfg, present) <==>
                cfg.Some? && cfg.value.workingDir == p && p != ""
    {
      ChdirExactly(kubernetesMode, tools, cfg, present, p);
    }
  }

  // ---------- isBound ----------

  predicate IsBindFlag(s: string) {
    s == RO_BIND || s == RW_BIND
  }

  ghost predicate BoundAt(args: seq<string>, source: string, i: int) {
    0 <= i && i + 1 < |args| && IsBindFlag(args[i]) && args[i + 1] == source
  }

  /** isBound looks for any bind flag followed by the source, wherever in the line. */
  ghost predicate IsBound(args: seq<string>, source: string) {
    exists i :: BoundAt(args, source, i)
  }

  /** A bind whose target is its source, or an operation whose operands are no bind flags. */
  predicate Plain(op: Op) {
    (op.Bind? ==> op.source == op.target) && (op.Symlink? ==> !IsBindFlag(op.content))
  }

  lemma BoundInOne(op: Op, source: string)
    requires Plain(op) && source == NIX_STORE
    ensures IsBound(Encode(op), source) <==> op.Bind? && op.source == source
  {
    if op.Bind? && op.source == source {
      assert BoundAt(Encode(op), source, 0);
    }
  }

  lemma FirstIsOption(op: Op)
    requires op.Flag? ==> IsFlag(op.name)
    ensures Encode(op)[0] != NIX_STORE
  {
  }

  lemma BoundAppend(a: seq<string>, b: seq<string>, source: string)
    requires b != [] ==> b[0] != source
    ensures IsBound(a + b, source) <==> IsBound(a, source) || IsBound(b, source)
  {
    forall i | BoundAt(a, source, i)
      ensures IsBound(a + b, source)
    {
      assert BoundAt(a + b, source, i);
    }
    forall i | BoundAt(b, source, i)
      ensures IsBound(a + b, source)
    {
      assert BoundAt(a + b, source, |a| + i);
    }
    forall i | BoundAt(a + b, source, i)
      ensures IsBound(a, source) || IsBound(b, source)
    {
      assert BoundAt(a, source, i) || BoundAt(b, source, i - |a|);
    }
  }

  /** On a line of plain operations, isBound says exactly whether the store is bound. */
  lemma {:induction false} IsBoundExact(ops: seq<Op>, source: string)
    requires source == NIX_STORE
    requires forall i | 0 <= i < |ops| :: Plain(ops[i]) && (ops[i].Flag? ==> IsFlag(ops[i].name))
    ensures IsBound(EncodeAll(ops), source) <==> exists i :: 0 <= i < |ops| && ops[i].Bind? && ops[i].source == source
  {
    if ops == [] {
      EncodeNone();
      assert !IsBound([], source);
    } else {
      var rest := EncodeAll(ops[1..]);
      IsBoundExact(ops[1..], source);
      BoundInOne(ops[0], source);
      EncodeOne(ops[0]);
      EncodeAppend([ops[0]], ops[1..]);
      assert [ops[0]] + ops[1..] == ops;
      if ops[1..] != [] {
        EncodeOne(ops[1]);
        EncodeAppend([ops[1]], ops[2..]);
        assert [ops[1]] + ops[2..] == ops[1..];
        FirstIsOption(ops[1]);
      }
      BoundAppend(Encode(ops[0]), rest, source);
    }
  }

  /** It is not exact on every line: a bind of "--bind" onto the store would count as one of the store. */
  lemma IsBoundCanMislead()
    ensures var op := Bind(true, RW_BIND, NIX_STORE);
            op.source != NIX_STORE && IsBound(Encode(op), NIX_STORE)
  {
    assert BoundAt(Encode(Bind(true, RW_BIND, NIX_STORE)), NIX_STORE, 1);
  }

  // ---------- The code ----------

  function StaticArgs(kubernetesMode: bool): seq<string> {
    [RO_BIND, "/usr", "/usr", RO_BIND, "/bin", "/bin", "--tmpfs", "/tmp", "--tmpfs", "/home/agent"]
    + NamespaceArgs(kubernetesMode)
    + ["--share-net", "--dev", "/dev", RO_BIND, "/etc/resolv.conf", "/etc/resolv.conf",
       RO_BIND, "/etc/ssl/certs", "/etc/ssl/certs"]
    + [RO_BIND, "/etc/hosts", "/etc/hosts", "--die-with-parent", RO_BIND, "/lib", "/lib",
       "--symlink", "/usr/lib64", "/lib64"]
  }

  function NamespaceArgs(kubernetesMode: bool): seq<string> {
    if kubernetesMode then ["--unshare-user-try", "--unshare-ipc", "--unshare-uts", "--unshare-cgroup-try"]
    else ["--proc", "/proc", "--unshare-all"]
  }

  lemma EncodeTwo(a: Op, b: Op)
    ensures EncodeAll([a, b]) == Encode(a) + Encode(b)
  {
    EncodeOne(a);
    EncodeOne(b);
    EncodeAppend([a], [b]);
    assert [a, b] == [a] + [b];
  }

  lemma EncodeFour(a: Op, b: Op, c: Op, d: Op)
    ensures EncodeAll([a, b, c, d]) == Encode(a) + Encode(b) + Encode(c) + Encode(d)
  {
    EncodeTwo(a, b);
    EncodeTwo(c, d);
    EncodeAppend([a, b], [c, d]);
    assert [a, b, c, d] == [a, b] + [c, d];
  }

  lemma ViewsEncode()
    ensures EncodeAll(ViewOps())
            == [RO_BIND, "/usr", "/usr", RO_BIND, "/bin", "/bin", "--tmpfs", "/tmp", "--tmpfs", "/home/agent"]
  {
    EncodeFour(Bind(true, "/usr", "/usr"), Bind(true, "/bin", "/bin"), Tmpfs("/tmp"), Tmpfs("/home/agent"));
  }

  lemma NamespacesEncode(kubernetesMode: bool)
    ensures EncodeAll(NamespaceOps(kubernetesMode)) == NamespaceArgs(kubernetesMode)
  {
    if kubernetesMode {
      EncodeFour(Flag("--unshare-user-try"), Flag("--unshare-ipc"), Flag("--unshare-uts"),
                 Flag("--unshare-cgroup-try"));
    } else {
      EncodeTwo(Proc("/proc"), Flag("--unshare-all"));
    }
  }

  lemma NetworkEncodes()
    ensures EncodeAll(NetworkOps())
            == ["--share-net", "--dev", "/dev", RO_BIND, "/etc/resolv.conf", "/etc/resolv.conf",
                RO_BIND, "/etc/ssl/certs", "/etc/ssl/certs"]
  {
    EncodeFour(Flag("--share-net"), Dev("/dev"), Bind(true, "/etc/resolv.conf", "/etc/resolv.conf"),
               Bind(true, "/etc/ssl/certs", "/etc/ssl/certs"));
  }

  lemma LibrariesEncode()
    ensures EncodeAll(LibraryOps())
            == [RO_BIND, "/etc/hosts", "/etc/hosts", "--die-with-parent", RO_BIND, "/lib", "/lib",
                "--symlink", "/usr/lib64", "/lib64"]
  {
    EncodeFour(Bind(true, "/etc/hosts", "/etc/hosts"), Flag("--die-with-parent"), Bind(true, "/lib", "/lib"),
               Symlink("/usr/lib64", "/lib64"));
  }

  lemma EncodeFourParts(a: seq<Op>, b: seq<Op>, c: seq<Op>, d: seq<Op>)
    ensures EncodeAll(a + b + c + d) == EncodeAll(a) + EncodeAll(b) + EncodeAll(c) + EncodeAll(d)
  {
    EncodeAppend(a, b);
    EncodeAppend(a + b, c);
    EncodeAppend(a + b + c, d);
  }

  lemma StaticArgsEncode(kubernetesMode: bool)
    ensures EncodeAll(StaticOps(kubernetesMode)) == StaticArgs(kubernetesMode)
  {
    ViewsEncode();
    NamespacesEncode(kubernetesMode);
    NetworkEncodes();
    LibrariesEncode();
    EncodeFourParts(ViewOps(), NamespaceOps(kubernetesMode), NetworkOps(), LibraryOps());
  }

  /** Nothing in the fixed part binds the nix store or confuses isBound. */
  ghost predicate Harmless(ops: seq<Op>) {
    forall i | 0 <= i < |ops| ::
      Plain(ops[i]) && (ops[i].Flag? ==> IsFlag(ops[i].name)) && !(ops[i].Bind? && ops[i].source == NIX_STORE)
  }

  lemma HarmlessAppend(a: seq<Op>, b: seq<Op>)
    requires Harmless(a) && Harmless(b)
    ensures Harmless(a + b)
  {
  }

  lemma StaticOpsHarmless(kubernetesMode: bool)
    ensures Harmless(StaticOps(kubernetesMode))
  {
    HarmlessAppend(ViewOps(), NamespaceOps(kubernetesMode));
    HarmlessAppend(ViewOps() + NamespaceOps(kubernetesMode), NetworkOps());
    HarmlessAppend(ViewOps() + NamespaceOps(kubernetesMode) + NetworkOps(), LibraryOps());
  }

  method ScanBound(args: seq<string>, source: string) returns (bound: bool)
    ensures bound <==> IsBound(args, source)
  {
    var i := 0;
    while i + 1 < |args|
      invariant 0 <= i
      invariant forall j | 0 <= j < i :: !BoundAt(args, source, j)
    {
      if IsBindFlag(args[i]) && args[i + 1] == source {
        assert BoundAt(args, source, i);
        return true;
      }
      i := i + 1;
    }
    return false;
  }

  lemma OneMoreToolDir(dirs: seq<string>, d: string, bindable: string -> bool)
    ensures Bound(dirs + [d], bindable)
            == if bindable(d) && d !in Bound(dirs, bindable) then Bound(dirs, bindable) + [d] else Bound(dirs, bindable)
  {
    var kept := Filter(dirs, bindable);
    FilterOneMore(dirs, d, bindable);
    FirstOccurrencesOneMore(kept, d);
    assert kept + [] == kept && FirstOccurrences(kept) + [] == FirstOccurrences(kept);
  }

  /** Three strings for each directory. */
  function BindArgs(dirs: seq<string>): seq<string> {
    if dirs == [] then [] else
      var d := dirs[|dirs| - 1];
      BindArgs(dirs[..|dirs| - 1]) + [RO_BIND, d, d]
  }

  lemma {:induction false} BindArgsEncode(dirs: seq<string>)
    ensures BindArgs(dirs) == EncodeAll(Binds(dirs))
  {
    if dirs == [] {
      EncodeNone();
      assert Binds(dirs) == [];
    } else {
      var before, d := dirs[..|dirs| - 1], dirs[|dirs| - 1];
      BindArgsEncode(before);
      EncodeOne(ReadOnlyBind(d));
      EncodeAppend(Binds(before), [ReadOnlyBind(d)]);
      assert Binds(dirs) == Binds(before) + [ReadOnlyBind(d)];
    }
  }

  lemma OneMoreBind(args: seq<string>, dirs: seq<string>, d: string)
    ensures args + BindArgs(dirs) + [RO_BIND, d, d] == args + BindArgs(dirs + [d])
  {
    assert (dirs + [d])[..|dirs|] == dirs;
  }

  /** The tool loops' state: the arguments so far and the directories seen. */
  datatype BindState = BindState(args: seq<string>, seen: set<string>)

  function LookAt(bindable: string -> bool): (BindState, string) -> BindState {
    (t: BindState, d: string) =>
      if d in t.seen || !bindable(d) then t else BindState(t.args + [RO_BIND, d, d], t.seen + {d})
  }

  function LookAtAll(args: seq<string>, dirs: seq<string>, bindable: string -> bool): BindState {
    Fold(LookAt(bindable), BindState(args, {}), dirs)
  }

  lemma LookAtOneMore(args: seq<string>, dirs: seq<string>, d: string, bindable: string -> bool)
    ensures LookAtAll(args, dirs + [d], bindable) == LookAt(bindable)(LookAtAll(args, dirs, bindable), d)
  {
    FoldOneMore(LookAt(bindable), BindState(args, {}), dirs, d);
  }

  lemma {:induction false} LookAtAllBinds(args: seq<string>, dirs: seq<string>, bindable: string -> bool)
    ensures LookAtAll(args, dirs, bindable).args == args + BindArgs(Bound(dirs, bindable))
    ensures forall d :: d in LookAtAll(args, dirs, bindable).seen <==> d in Bound(dirs, bindable)
  {
    if dirs == [] {
      assert args + [] == args;
    } else {
      var before, d := dirs[..|dirs| - 1], dirs[|dirs| - 1];
      assert before + [d] == dirs;
      LookAtAllBinds(args, before, bindable);
      LookAtOneMore(args, before, d, bindable);
      OneMoreToolDir(before, d, bindable);
      OneMoreBind(args, Bound(before, bindable), d);
    }
  }

  method AppendReadDirs(
    t: BindState, readDirs: seq<string>, bindable: string -> bool, ghost args: seq<string>, ghost dirs: seq<string>)
    returns (t': BindState)
    requires t == LookAtAll(args, dirs, bindable)
    ensures t' == LookAtAll(args, dirs + readDirs, bindable)
  {
    var result, seen := t.args, t.seen;
    assert dirs + readDirs[..0] == dirs;
    for j := 0 to |readDirs|
      invariant BindState(result, seen) == LookAtAll(args, dirs + readDirs[..j], bindable)
    {
      var rd := readDirs[j];
      LookAtOneMore(args, dirs + readDirs[..j], rd, bindable);
      assert dirs + readDirs[..j + 1] == dirs + readDirs[..j] + [rd];
      if rd in seen || !bindable(rd) {
        continue;
      }
      seen := seen + {rd};
      result := result + [RO_BIND, rd, rd];
    }
    assert readDirs[..|readDirs|] == readDirs;
    t' := BindState(result, seen);
  }

  method AppendBwrapToolBinds(args: seq<string>, tools: seq<ToolDir>, present: string -> bool)
    returns (result: seq<string>)
    ensures result == args + EncodeAll(Binds(ToolBinds(tools, present)))
  {
    var t := BindState(args, {});
    for i := 0 to |tools|
      invariant t == LookAtAll(args, AllReadDirs(tools[..i]), Bindable(present))
    {
      assert tools[..i + 1][..i] == tools[..i];
      t := AppendReadDirs(t, tools[i].readDirs, Bindable(present), args, AllReadDirs(tools[..i]));
    }
    assert tools[..|tools|] == tools;
    LookAtAllBinds(args, AllReadDirs(tools), Bindable(present));
    BindArgsEncode(ToolBinds(tools, present));
    result := t.args;
  }

  method AppendNixStoreBind(args: seq<string>, present: string -> bool) returns (result: seq<string>)
    ensures result == args + if present(NIX_STORE) && !IsBound(args, NIX_STORE)
                             then [RO_BIND, NIX_STORE, NIX_STORE] else []
  {
    if !present(NIX_STORE) {
      return args;
    }
    var bound := ScanBound(args, NIX_STORE);
    if bound {
      return args;
    }
    return args + [RO_BIND, NIX_STORE, NIX_STORE];
  }

  /** Here isBound is exact, so the store is bound once. */
  lemma NixStoreOnce(fixed: seq<Op>, tools: seq<ToolDir>, present: string -> bool)
    requires Harmless(fixed)
    ensures var args := EncodeAll(fixed) + EncodeAll(Binds(ToolBinds(tools, present)));
            (if present(NIX_STORE) && !IsBound(args, NIX_STORE) then [RO_BIND, NIX_STORE, NIX_STORE] else [])
            == EncodeAll(NixOps(tools, present))
  {
    var dirs := ToolBinds(tools, present);
    var ops := fixed + Binds(dirs);
    EncodeAppend(fixed, Binds(dirs));
    IsBoundExact(ops, NIX_STORE);
    EncodeOne(ReadOnlyBind(NIX_STORE));
    EncodeNone();
    if NIX_STORE in dirs {
      var i :| 0 <= i < |dirs| && dirs[i] == NIX_STORE;
      assert ops[|fixed| + i] == ReadOnlyBind(NIX_STORE);
    }
  }

  method AppendMounts(args: seq<string>, mounts: seq<Mount>, present: string -> bool) returns (result: seq<string>)
    ensures result == args + EncodeAll(MountOps(mounts, present))
  {
    result := args;
    EncodeNone();
    for i := 0 to |mounts|
      invariant result == args + EncodeAll(MountOps(mounts[..i], present))
    {
      var m := mounts[i];
      assert mounts[..i + 1][..i] == mounts[..i];
      EncodeOne(MountOp(m));
      EncodeAppend(MountOps(mounts[..i], present), [MountOp(m)]);
      assert MountOps(mounts[..i], present) + [] == MountOps(mounts[..i], present);
      if m.metadataOnly {
        continue;
      }
      if !present(m.source) {
        continue;
      }
      if m.readOnly {
        result := result + [RO_BIND, m.source, m.target];
      } else {
        result := result + [RW_BIND, m.source, m.target];
      }
    }
    assert mounts[..|mounts|] == mounts;
  }

  method AppendConfig(args: seq<string>, cfg: Option<ExecConfig>, present: string -> bool) returns (result: seq<string>)
    ensures result == args + EncodeAll(ConfigOps(cfg, present))
  {
    result := args;
    EncodeNone();
    if cfg.Some? {
      result := AppendMounts(result, cfg.value.mounts, present);
      ghost var mountOps := MountOps(cfg.value.mounts, present);
      assert mountOps + [] == mountOps;
      if cfg.value.workingDir != "" {
        EncodeOne(Chdir(cfg.value.workingDir));
        EncodeAppend(mountOps, [Chdir(cfg.value.workingDir)]);
        result := result + ["--chdir", cfg.value.workingDir];
      }
    }
  }

  lemma VariableOpsEncodable(tools: seq<ToolDir>, cfg: Option<ExecConfig>, present: string -> bool)
    ensures Encodable(VariableOps(tools, cfg, present))
  {
    if cfg.Some? {
      MountOpsBind(cfg.value.mounts, present);
    }
  }

  lemma {:induction false} MountOpsBind(mounts: seq<Mount>, present: string -> bool)
    ensures forall i | 0 <= i < |MountOps(mounts, present)| :: MountOps(mounts, present)[i].Bind?
  {
    if mounts != [] {
      MountOpsBind(mounts[..|mounts| - 1], present);
    }
  }

  /** Everything after the fixed part, and the command. */
  method AppendVariable(
    args: seq<string>, ghost fixed: seq<Op>, tools: seq<ToolDir>, cfg: Option<ExecConfig>, present: string -> bool)
    returns (result: seq<string>)
    requires Harmless(fixed) && args == EncodeAll(fixed)
    ensures result == EncodeAll(fixed + VariableOps(tools, cfg, present))
  {
    result := AppendBwrapToolBinds(args, tools, present);
    NixStoreOnce(fixed, tools, present);
    result := AppendNixStoreBind(result, present);
    result := AppendConfig(result, cfg, present);
    EncodeVariable(fixed, Binds(ToolBinds(tools, present)), NixOps(tools, present), ConfigOps(cfg, present));
  }

  lemma EncodeVariable(fixed: seq<Op>, binds: seq<Op>, nix: seq<Op>, conf: seq<Op>)
    ensures EncodeAll(fixed) + EncodeAll(binds) + EncodeAll(nix) + EncodeAll(conf)
            == EncodeAll(fixed + (binds + nix + conf))
  {
    EncodeAppend(binds, nix);
    EncodeAppend(binds + nix, conf);
    EncodeAppend(fixed, binds + nix + conf);
    Associate(EncodeAll(fixed), EncodeAll(binds) + EncodeAll(nix), EncodeAll(conf));
    Associate(EncodeAll(fixed), EncodeAll(binds), EncodeAll(nix));
  }

  lemma RoundTripInParts(fixed: seq<Op>, variable: seq<Op>, command: string)
    requires Harmless(fixed) && Encodable(variable)
    ensures Parse(EncodeAll(fixed + variable) + ["--", "bash", "-c", command])
            == Some((fixed + variable, ["bash", "-c", command]))
  {
    RoundTrip(fixed + variable, ["bash", "-c", command]);
    assert EncodeAll(fixed + variable) + ["--"] + ["bash", "-c", command]
        == EncodeAll(fixed + variable) + ["--", "bash", "-c", command];
  }

  /** What bwrap reads off the command line is what was meant, for all paths and commands. */
  method BuildArgs(
    kubernetesMode: bool, tools: seq<ToolDir>, cfg: Option<ExecConfig>, present: string -> bool, command: string)
    returns (args: seq<string>)
    ensures Parse(args) == Some((SandboxOps(kubernetesMode, tools, cfg, present), ["bash", "-c", command]))
    ensures forall t, d | t in tools && d in t.readDirs && present(d) && !UnderStaticRoot(d) ::
              Bind(true, d, d) in Parse(args).value.0
    ensures InForce(Parse(args).value.0, kubernetesMode, tools, cfg, present)
  {
    ToolBound(kubernetesMode, tools, cfg, present);
    SandboxInForce(kubernetesMode, tools, cfg, present);
    args := StaticArgs(kubernetesMode);
    StaticArgsEncode(kubernetesMode);
    StaticOpsHarmless(kubernetesMode);
    args := AppendVariable(args, StaticOps(kubernetesMode), tools, cfg, present);
    VariableOpsEncodable(tools, cfg, present);
    RoundTripInParts(StaticOps(kubernetesMode), VariableOps(tools, cfg, present), command);
    args := args + ["--", "bash", "-c", command];
  }
}
