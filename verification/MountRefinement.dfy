/**
 * One mount list, two sandboxes: bubblewrap overlays its mounts in order, so the last one that covers a path
 * decides; seatbelt allows the union of its rules. What one leaves writable or readable is compared with what
 * the other allows. Paths are taken lexically; symbolic links are not followed.
 */
module MountRefinement {
  import opened Wrappers
  import opened Paths
  import opened Mounts
  import opened Sequences
  import opened Bwrap
  import opened Seatbelt

  datatype Place = Place(rooted: bool, parts: seq<string>)

  function PlaceOf(path: string): Place {
    Place(IsRooted(path), Components(path))
  }

  predicate Covers(top: Place, place: Place) {
    top.rooted == place.rooted && top.parts <= place.parts
  }

  // ---------- What bubblewrap's operations show ----------

  /** What is found at a place inside: nothing of the host's, or a place of the host's. */
  datatype View = Hidden | Private | Host(place: Place, writable: bool)

  function Target(op: Op): Option<string> {
    match op
    case Bind(_, _, target) => Some(target)
    case Tmpfs(path) => Some(path)
    case Proc(path) => Some(path)
    case Dev(path) => Some(path)
    case _ => None
  }

  predicate MountedOver(op: Op, place: Place) {
    Target(op).Some? && Covers(PlaceOf(Target(op).value), place)
  }

  /** The last operation that covers a place. */
  function Decider(ops: seq<Op>, place: Place): Option<Op> {
    if ops == [] then None
    else if MountedOver(ops[|ops| - 1], place) then Some(ops[|ops| - 1])
    else Decider(ops[..|ops| - 1], place)
  }

  function Shows(op: Op, place: Place): View
    requires MountedOver(op, place)
  {
    match op
    case Bind(readOnly, source, target) =>
      var below := place.parts[|Components(target)|..];
      Host(Place(IsRooted(source), Components(source) + below), !readOnly)
    case _ => Private
  }

  function ViewOf(ops: seq<Op>, place: Place): View {
    match Decider(ops, place)
    case None => Hidden
    case Some(op) => DeciderCovers(ops, place); Shows(op, place)
  }

  lemma {:induction false} DeciderCovers(ops: seq<Op>, place: Place)
    ensures Decider(ops, place).Some? ==>
              Decider(ops, place).value in ops && MountedOver(Decider(ops, place).value, place)
  {
    if ops != [] {
      DeciderCovers(ops[..|ops| - 1], place);
    }
  }

  lemma {:induction false} DeciderAppend(a: seq<Op>, b: seq<Op>, place: Place)
    ensures Decider(a + b, place) == if Decider(b, place).Some? then Decider(b, place) else Decider(a, place)
  {
    if b == [] {
      assert a + b == a;
    } else {
      assert (a + b)[..|a + b| - 1] == a + b[..|b| - 1];
      DeciderAppend(a, b[..|b| - 1], place);
    }
  }

  /** A bind onto its own source shows each place as itself. */
  lemma BindShowsItself(op: Op, place: Place)
    requires op.Bind? && op.source == op.target && MountedOver(op, place)
    ensures Shows(op, place) == Host(place, !op.readOnly)
  {
    TakeDrop(Components(op.source), place.parts);
  }

  // ---------- What seatbelt's rules allow ----------

  predicate Applies(g: Grant, place: Place) {
    g.filter.Subpath? && Covers(PlaceOf(g.path), place)
  }

  ghost predicate AllowsWrite(grants: seq<Grant>, place: Place) {
    exists g :: g in grants && g.perm.ReadWrite? && Applies(g, place)
  }

  ghost predicate AllowsRead(grants: seq<Grant>, place: Place) {
    exists g :: g in grants && (g.perm.Read? || g.perm.ReadWrite?) && Applies(g, place)
  }

  // ---------- Where writes can come from ----------

  predicate NeverWritable(op: Op) {
    op.Bind? ==> op.readOnly
  }

  lemma StaticNeverWritable(kubernetesMode: bool, op: Op)
    requires op in StaticOps(kubernetesMode)
    ensures NeverWritable(op)
  {
    assert op in ViewOps() || op in NamespaceOps(kubernetesMode) || op in NetworkOps() || op in LibraryOps();
  }

  function ToolOps(tools: seq<ToolDir>, present: string -> bool): seq<Op> {
    Binds(ToolBinds(tools, present)) + NixOps(tools, present)
  }

  lemma BeforeConfigNeverWritable(kubernetesMode: bool, tools: seq<ToolDir>, present: string -> bool, op: Op)
    requires op in StaticOps(kubernetesMode) + ToolOps(tools, present)
    ensures NeverWritable(op)
  {
    if op in StaticOps(kubernetesMode) {
      StaticNeverWritable(kubernetesMode, op);
    }
  }

  /** The working directory is no mount. */
  lemma ConfigDecides(cfg: Option<ExecConfig>, present: string -> bool, place: Place)
    ensures Decider(ConfigOps(cfg, present), place) == Decider(MountOps(MountsOf(cfg), present), place)
  {
    if cfg.Some? {
      var mountOps := MountOps(cfg.value.mounts, present);
      var tail := if cfg.value.workingDir != "" then [Chdir(cfg.value.workingDir)] else [];
      DeciderAppend(mountOps, tail, place);
      assert tail != [] ==> tail[..0] == [] && !MountedOver(tail[0], place);
    }
  }

  lemma SandboxDecides(
    kubernetesMode: bool, tools: seq<ToolDir>, cfg: Option<ExecConfig>, present: string -> bool, place: Place)
    ensures var mine := Decider(MountOps(MountsOf(cfg), present), place);
            Decider(SandboxOps(kubernetesMode, tools, cfg, present), place)
            == if mine.Some? then mine else Decider(StaticOps(kubernetesMode) + ToolOps(tools, present), place)
  {
    var before := StaticOps(kubernetesMode) + ToolOps(tools, present);
    assert before + ConfigOps(cfg, present) == SandboxOps(kubernetesMode, tools, cfg, present);
    DeciderAppend(before, ConfigOps(cfg, present), place);
    ConfigDecides(cfg, present, place);
  }

  predicate WritableView(view: View) {
    view.Host? && view.writable
  }

  /** Only the mount list makes anything of the host's writable. */
  lemma WritesComeFromMounts(
    kubernetesMode: bool, tools: seq<ToolDir>, cfg: Option<ExecConfig>, present: string -> bool, place: Place)
    ensures var mine := ViewOf(MountOps(MountsOf(cfg), present), place);
            var all := ViewOf(SandboxOps(kubernetesMode, tools, cfg, present), place);
            (WritableView(all) <==> WritableView(mine)) && (WritableView(mine) ==> all == mine)
  {
    SandboxDecides(kubernetesMode, tools, cfg, present, place);
    var before := StaticOps(kubernetesMode) + ToolOps(tools, present);
    DeciderCovers(before, place);
    if Decider(before, place).Some? {
      BeforeConfigNeverWritable(kubernetesMode, tools, present, Decider(before, place).value);
    }
  }

  // ---------- Mounts onto themselves ----------

  predicate Usable(m: Mount, present: string -> bool) {
    !m.metadataOnly && present(m.source)
  }

  lemma {:induction false} MountOpsAre(mounts: seq<Mount>, present: string -> bool, op: Op)
    ensures op in MountOps(mounts, present) <==> exists m :: m in mounts && Usable(m, present) && op == MountOp(m)
  {
    if mounts != [] {
      var before, m := mounts[..|mounts| - 1], mounts[|mounts| - 1];
      assert mounts == before + [m];
      MountOpsAre(before, present, op);
      if op == MountOp(m) && Usable(m, present) {
        assert m in mounts;
      }
    }
  }

  /** The mount that decides at a place, if one does, shows the place as itself. */
  lemma MountDecides(mounts: seq<Mount>, present: string -> bool, place: Place) returns (m: Mount)
    requires !AnyRemaps(mounts) && Decider(MountOps(mounts, present), place).Some?
    ensures m in mounts && Usable(m, present) && Decider(MountOps(mounts, present), place) == Some(MountOp(m))
    ensures m.source == m.target && Covers(PlaceOf(m.source), place)
    ensures ViewOf(MountOps(mounts, present), place) == Host(place, !m.readOnly)
  {
    var ops := MountOps(mounts, present);
    DeciderCovers(ops, place);
    MountOpsAre(mounts, present, Decider(ops, place).value);
    m :| m in mounts && Usable(m, present) && Decider(ops, place).value == MountOp(m);
    assert !Remaps(m);
    BindShowsItself(MountOp(m), place);
  }

  lemma MountGrantsAre(mounts: seq<Mount>, g: Grant)
    ensures g in MountGrants(mounts) <==> exists m :: m in mounts && g == GrantFor(KindOf(m), m.source)
  {
    if g in MountGrants(mounts) {
      var i :| 0 <= i < |mounts| && MountGrants(mounts)[i] == g;
      assert mounts[i] in mounts;
    }
    forall m | m in mounts && g == GrantFor(KindOf(m), m.source)
      ensures g in MountGrants(mounts)
    {
      var i :| 0 <= i < |mounts| && mounts[i] == m;
      assert MountGrants(mounts)[i] == g;
    }
  }

  ghost predicate WritableMountOver(mounts: seq<Mount>, place: Place) {
    exists m :: m in mounts && KindOf(m).Writable? && Covers(PlaceOf(m.source), place)
  }

  lemma MountsAllowWrite(mounts: seq<Mount>, place: Place)
    ensures AllowsWrite(MountGrants(mounts), place) <==> WritableMountOver(mounts, place)
  {
    if AllowsWrite(MountGrants(mounts), place) {
      var g :| g in MountGrants(mounts) && g.perm.ReadWrite? && Applies(g, place);
      MountGrantsAre(mounts, g);
      var m :| m in mounts && g == GrantFor(KindOf(m), m.source);
      assert KindOf(m).Writable?;
    }
    if WritableMountOver(mounts, place) {
      var m :| m in mounts && KindOf(m).Writable? && Covers(PlaceOf(m.source), place);
      var g := GrantFor(Writable, m.source);
      MountGrantsAre(mounts, g);
      assert g in MountGrants(mounts) && Applies(g, place);
    }
  }

  /** Neither tools nor the directories of symbolic links grant writing. */
  lemma {:induction false} ToolsGrantNoWrite(items: seq<Item>, g: Grant)
    requires g in ItemGrants(items)
    ensures !g.perm.ReadWrite?
  {
    if items != [] {
      var before, item := items[..|items| - 1], items[|items| - 1];
      if g in ItemGrants(before) {
        ToolsGrantNoWrite(before, g);
      }
    }
  }

  lemma WriteGrantsComeFromMounts(mounts: seq<Mount>, tools: seq<ToolDir>, metadataDirs: seq<string>, place: Place)
    ensures AllowsWrite(PolicyGrants(mounts, tools, metadataDirs), place) <==> AllowsWrite(MountGrants(mounts), place)
  {
    var all := PolicyGrants(mounts, tools, metadataDirs);
    if AllowsWrite(all, place) {
      var g :| g in all && g.perm.ReadWrite? && Applies(g, place);
      if g in ItemGrants(Items(tools)) {
        ToolsGrantNoWrite(Items(tools), g);
      }
      assert g in MountGrants(mounts);
    }
    forall g | g in MountGrants(mounts)
      ensures g in all
    {
    }
  }

  // ---------- Refinement ----------

  lemma WritableIsAllowed(mounts: seq<Mount>, present: string -> bool, place: Place)
    requires !AnyRemaps(mounts)
    ensures WritableView(ViewOf(MountOps(mounts, present), place)) ==> AllowsWrite(MountGrants(mounts), place)
  {
    if WritableView(ViewOf(MountOps(mounts, present), place)) {
      var m := MountDecides(mounts, present, place);
      assert KindOf(m).Writable? && WritableMountOver(mounts, place);
      MountsAllowWrite(mounts, place);
    }
  }

  /** Whatever bubblewrap lets be written on the host, seatbelt allows to be written. */
  lemma WriteRefinement(
    kubernetesMode: bool, tools: seq<ToolDir>, cfg: Option<ExecConfig>, present: string -> bool,
    tools': seq<ToolDir>, metadataDirs: seq<string>, place: Place)
    requires !AnyRemaps(MountsOf(cfg))
    ensures var view := ViewOf(SandboxOps(kubernetesMode, tools, cfg, present), place);
            WritableView(view) ==>
              view.place == place && AllowsWrite(PolicyGrants(MountsOf(cfg), tools', metadataDirs), view.place)
  {
    var mounts := MountsOf(cfg);
    WritesComeFromMounts(kubernetesMode, tools, cfg, present, place);
    WriteGrantsComeFromMounts(mounts, tools', metadataDirs, place);
    WritableIsAllowed(mounts, present, place);
    if WritableView(ViewOf(MountOps(mounts, present), place)) {
      var _ := MountDecides(mounts, present, place);
    }
  }

  /** Both sandboxes say the same about writing at a place. */
  ghost predicate Agree(mounts: seq<Mount>, present: string -> bool, place: Place) {
    WritableView(ViewOf(MountOps(mounts, present), place)) <==> AllowsWrite(MountGrants(mounts), place)
  }

  /** That is what bubblewrap's command line and the generated rules of the policy say. */
  lemma AgreeMeansSandboxes(
    kubernetesMode: bool, tools: seq<ToolDir>, cfg: Option<ExecConfig>, present: string -> bool,
    tools': seq<ToolDir>, metadataDirs: seq<string>, place: Place)
    requires !AnyRemaps(MountsOf(cfg))
    ensures Agree(MountsOf(cfg), present, place) <==>
              (ViewOf(SandboxOps(kubernetesMode, tools, cfg, present), place) == Host(place, true)
               <==> AllowsWrite(PolicyGrants(MountsOf(cfg), tools', metadataDirs), place))
  {
    var mounts := MountsOf(cfg);
    WritesComeFromMounts(kubernetesMode, tools, cfg, present, place);
    WriteGrantsComeFromMounts(mounts, tools', metadataDirs, place);
    if WritableView(ViewOf(MountOps(mounts, present), place)) {
      var _ := MountDecides(mounts, present, place);
    }
  }

  /** ^/dev/ttys[0-9]+, for a process that holds the terminal's extension. */
  predicate IsTerminal(place: Place) {
    && place.rooted && |place.parts| >= 2 && place.parts[0] == "dev"
    && var name := place.parts[1];
       |name| > 4 && name[..4] == "ttys" && '0' <= name[4] <= '9'
  }

  /** What the templates in front of the generated rules let be written, whatever the mounts. */
  predicate TemplateWrites(cacheDir: string, place: Place) {
    || (exists top :: top in TemplateSubpaths(cacheDir) && Covers(PlaceOf(top), place))
    || (exists device :: device in TEMPLATE_DEVICES && place == PlaceOf(device))
    || IsTerminal(place)
  }

  /** The policy as a whole, templates included, and the command line as a whole say the same about writing. */
  ghost predicate SandboxesAgree(
    kubernetesMode: bool, tools: seq<ToolDir>, cfg: Option<ExecConfig>, present: string -> bool,
    tools': seq<ToolDir>, metadataDirs: seq<string>, cacheDir: string, place: Place)
  {
    ViewOf(SandboxOps(kubernetesMode, tools, cfg, present), place) == Host(place, true)
    <==> TemplateWrites(cacheDir, place) || AllowsWrite(PolicyGrants(MountsOf(cfg), tools', metadataDirs), place)
  }

  /**
   * Outside what the templates let be written, the sandboxes agree just where the mount list makes them; inside, just
   * where a mount makes the place writable in bubblewrap, too.
   */
  lemma SandboxesAgreeExactly(
    kubernetesMode: bool, tools: seq<ToolDir>, cfg: Option<ExecConfig>, present: string -> bool,
    tools': seq<ToolDir>, metadataDirs: seq<string>, cacheDir: string, place: Place)
    requires !AnyRemaps(MountsOf(cfg))
    ensures SandboxesAgree(kubernetesMode, tools, cfg, present, tools', metadataDirs, cacheDir, place) <==>
              if TemplateWrites(cacheDir, place) then WritableView(ViewOf(MountOps(MountsOf(cfg), present), place))
              else Agree(MountsOf(cfg), present, place)
  {
    var mounts := MountsOf(cfg);
    AgreeMeansSandboxes(kubernetesMode, tools, cfg, present, tools', metadataDirs, place);
    WritesComeFromMounts(kubernetesMode, tools, cfg, present, place);
    if WritableView(ViewOf(MountOps(mounts, present), place)) {
      var _ := MountDecides(mounts, present, place);
    }
  }

  /** So they disagree about the host's temporary directories and devices as long as no mount covers them. */
  lemma TemplatesDisagree(
    kubernetesMode: bool, tools: seq<ToolDir>, cfg: Option<ExecConfig>, present: string -> bool,
    tools': seq<ToolDir>, metadataDirs: seq<string>, cacheDir: string, place: Place, path: string)
    requires !AnyRemaps(MountsOf(cfg)) && Decider(MountOps(MountsOf(cfg), present), place).None?
    requires
      || (Covers(PlaceOf(path), place)
          && (path in ["/tmp", "/private/tmp", "/var/tmp", "/private/var/tmp", "/dev/fd"]
              || path == cacheDir + "/com.apple.trustd"))
      || (place == PlaceOf(path) && path in ["/dev/ptmx", "/dev/null", "/dev/zero", "/dev/dtracehelper"])
    ensures !SandboxesAgree(kubernetesMode, tools, cfg, present, tools', metadataDirs, cacheDir, place)
  {
    assert path in TemplateSubpaths(cacheDir) || path in TEMPLATE_DEVICES;
    SandboxesAgreeExactly(kubernetesMode, tools, cfg, present, tools', metadataDirs, cacheDir, place);
  }

  lemma TemplateWritesAre(cacheDir: string, place: Place)
    ensures TemplateWrites(cacheDir, place) <==>
              || (exists path ::
                    path in ["/tmp", "/private/tmp", "/var/tmp", "/private/var/tmp", "/dev/fd",
                             cacheDir + "/com.apple.trustd"]
                    && Covers(PlaceOf(path), place))
              || (exists path ::
                    path in ["/dev/ptmx", "/dev/null", "/dev/zero", "/dev/dtracehelper"] && place == PlaceOf(path))
              || (place.rooted && |place.parts| >= 2 && place.parts[0] == "dev" && "ttys" <= place.parts[1]
                  && |place.parts[1]| > 4 && '0' <= place.parts[1][4] <= '9')
  {
  }

  /** Where no mount is, the sandboxes agree just where the templates let nothing be written. */
  lemma UncoveredAgreeExactly(
    kubernetesMode: bool, tools: seq<ToolDir>, cfg: Option<ExecConfig>, present: string -> bool,
    tools': seq<ToolDir>, metadataDirs: seq<string>, cacheDir: string, place: Place)
    requires !AnyRemaps(MountsOf(cfg))
    requires forall m | m in MountsOf(cfg) :: !Covers(PlaceOf(m.source), place)
    ensures SandboxesAgree(kubernetesMode, tools, cfg, present, tools', metadataDirs, cacheDir, place) <==>
              !TemplateWrites(cacheDir, place)
  {
    SandboxesAgreeExactly(kubernetesMode, tools, cfg, present, tools', metadataDirs, cacheDir, place);
    UncoveredIsNotWritten(MountsOf(cfg), present, place);
  }

  lemma UncoveredIsNotWritten(mounts: seq<Mount>, present: string -> bool, place: Place)
    requires !AnyRemaps(mounts) && forall m | m in mounts :: !Covers(PlaceOf(m.source), place)
    ensures !WritableView(ViewOf(MountOps(mounts, present), place)) && Agree(mounts, present, place)
  {
    var k := LastUsableDecides(mounts, present, place);
    assert k < |mounts| ==> mounts[k] in mounts;
    forall g | g in MountGrants(mounts)
      ensures !Applies(g, place)
    {
      var i :| 0 <= i < |mounts| && MountGrants(mounts)[i] == g;
      assert mounts[i] in mounts;
    }
  }

  lemma {:induction false} SomeDecides(ops: seq<Op>, op: Op, place: Place)
    requires op in ops && MountedOver(op, place)
    ensures Decider(ops, place).Some?
  {
    var before, last := ops[..|ops| - 1], ops[|ops| - 1];
    assert ops == before + [last];
    if op != last {
      SomeDecides(before, op, place);
    }
  }

  lemma NamedPath(names: seq<string>, path: string)
    requires Named(path, names)
    ensures PlaceOf(path) == Place(true, names)
  {
    ComponentsOfRender(true, names);
  }

  lemma StaticBindTargets(kubernetesMode: bool, op: Op)
    requires op in StaticOps(kubernetesMode) && op.Bind?
    ensures op.target in ["/usr", "/bin", "/lib"] || op.target in ["/etc/hosts", "/etc/resolv.conf", "/etc/ssl/certs"]
  {
    assert op in ViewOps() || op in NamespaceOps(kubernetesMode) || op in NetworkOps() || op in LibraryOps();
  }

  /** The path is written with these names. */
  ghost predicate Named(path: string, names: seq<string>) {
    names != [] && path == "/" + Join(names) && forall i | 0 <= i < |names| :: IsName(names[i])
  }

  lemma NamesOfBind(path: string) returns (names: seq<string>)
    requires path in ["/usr", "/bin", "/lib"]
    ensures Named(path, names) && names[0] in ["usr", "bin", "lib"]
  {
    names := [path[1..]];
  }

  lemma NamesOfFile(path: string) returns (names: seq<string>)
    requires path in ["/etc/hosts", "/etc/resolv.conf"]
    ensures Named(path, names) && names[0] == "etc"
  {
    var file := path[5..];
    names := ["etc", file];
    assert Join(names) == "etc" + "/" + file;
  }

  lemma NamesOfCerts(path: string) returns (names: seq<string>)
    requires path == "/" + "etc/ssl/certs"
    ensures Named(path, names) && names[0] == "etc"
  {
    names := ["etc", "ssl", "certs"];
    assert Join(names[1..]) == "ssl" + "/" + "certs";
  }

  lemma StaticBindsElsewhere(kubernetesMode: bool, op: Op)
    requires op in StaticOps(kubernetesMode) && op.Bind?
    ensures PlaceOf(op.target).parts != [] && PlaceOf(op.target).parts[0] in ["usr", "bin", "lib", "etc"]
  {
    var names;
    StaticBindTargets(kubernetesMode, op);
    if op.target in ["/usr", "/bin", "/lib"] {
      names := NamesOfBind(op.target);
    } else if op.target in ["/etc/hosts", "/etc/resolv.conf"] {
      names := NamesOfFile(op.target);
    } else {
      names := NamesOfCerts(op.target);
    }
    NamedPath(names, op.target);
  }

  lemma NamesOfScratch(path: string) returns (names: seq<string>)
    requires path == "/tmp" || path == "/home/agent"
    ensures Named(path, names) && names[0] in ["tmp", "home"]
  {
    names := if path == "/tmp" then ["tmp"] else ["home", "agent"];
    assert Join(["home", "agent"]) == "home" + "/" + "agent";
  }

  lemma ScratchPlace(scratch: string)
    requires scratch == "/tmp" || scratch == "/home/agent"
    ensures PlaceOf(scratch).parts != [] && PlaceOf(scratch).parts[0] in ["tmp", "home"]
  {
    var names := NamesOfScratch(scratch);
    NamedPath(names, scratch);
  }

  lemma StaticHasScratch(kubernetesMode: bool, scratch: string)
    requires scratch == "/tmp" || scratch == "/home/agent"
    ensures Tmpfs(scratch) in StaticOps(kubernetesMode)
  {
    assert ViewOps()[2] == Tmpfs("/tmp") && ViewOps()[3] == Tmpfs("/home/agent");
    assert Tmpfs(scratch) in ViewOps();
  }

  lemma TopsAgree(a: Place, b: Place, place: Place)
    requires Covers(a, place) && Covers(b, place) && a.parts != [] && b.parts != []
    ensures a.parts[0] == b.parts[0]
  {
  }

  /** Binds of other trees leave what is scratch alone. */
  lemma ScratchStays(ops: seq<Op>, scratch: string, place: Place)
    requires Tmpfs(scratch) in ops && Covers(PlaceOf(scratch), place) && PlaceOf(scratch).parts != []
    requires forall op | op in ops && op.Bind? ::
               PlaceOf(op.target).parts != [] && PlaceOf(op.target).parts[0] != PlaceOf(scratch).parts[0]
    ensures Decider(ops, place).Some? && !Decider(ops, place).value.Bind?
  {
    SomeDecides(ops, Tmpfs(scratch), place);
    DeciderCovers(ops, place);
    var op := Decider(ops, place).value;
    if op.Bind? {
      TopsAgree(PlaceOf(op.target), PlaceOf(scratch), place);
    }
  }

  lemma ScratchElsewhere(kubernetesMode: bool, op: Op, scratch: string)
    requires scratch == "/tmp" || scratch == "/home/agent"
    requires op in StaticOps(kubernetesMode) && op.Bind?
    ensures PlaceOf(scratch).parts != [] && PlaceOf(op.target).parts != []
    ensures PlaceOf(op.target).parts[0] != PlaceOf(scratch).parts[0]
  {
    StaticBindsElsewhere(kubernetesMode, op);
    ScratchPlace(scratch);
  }

  lemma ScratchDecided(kubernetesMode: bool, place: Place, scratch: string)
    requires scratch == "/tmp" || scratch == "/home/agent"
    requires Covers(PlaceOf(scratch), place)
    ensures Decider(StaticOps(kubernetesMode), place).Some? && !Decider(StaticOps(kubernetesMode), place).value.Bind?
  {
    StaticHasScratch(kubernetesMode, scratch);
    ScratchPlace(scratch);
    forall op | op in StaticOps(kubernetesMode) && op.Bind?
      ensures PlaceOf(op.target).parts != [] && PlaceOf(op.target).parts[0] != PlaceOf(scratch).parts[0]
    {
      ScratchElsewhere(kubernetesMode, op, scratch);
    }
    ScratchStays(StaticOps(kubernetesMode), scratch, place);
  }

  /** In bubblewrap nothing of the host's /tmp and /home/agent is seen where no tool, store or mount is bound. */
  lemma TmpfsHides(
    kubernetesMode: bool, tools: seq<ToolDir>, cfg: Option<ExecConfig>, present: string -> bool, place: Place,
    scratch: string)
    requires scratch == "/tmp" || scratch == "/home/agent"
    requires Covers(PlaceOf(scratch), place)
    requires Decider(VariableOps(tools, cfg, present), place).None?
    ensures ViewOf(SandboxOps(kubernetesMode, tools, cfg, present), place) == Private
  {
    DeciderAppend(StaticOps(kubernetesMode), VariableOps(tools, cfg, present), place);
    ScratchDecided(kubernetesMode, place, scratch);
  }

  /** No usable mount listed from `i` on covers the place. */
  ghost predicate NoneFrom(mounts: seq<Mount>, present: string -> bool, i: nat, place: Place) {
    forall j | i <= j < |mounts| && Usable(mounts[j], present) :: !Covers(PlaceOf(mounts[j].source), place)
  }

  ghost predicate NoneWritableFrom(mounts: seq<Mount>, present: string -> bool, i: nat, place: Place) {
    forall j | i <= j < |mounts| && Usable(mounts[j], present) && KindOf(mounts[j]).Writable? ::
      !Covers(PlaceOf(mounts[j].source), place)
  }

  /** A writable mount whose source does not exist and lies under no mount that does. */
  ghost predicate Missing(mounts: seq<Mount>, present: string -> bool, w: Mount) {
    w in mounts && KindOf(w).Writable? && NoneFrom(mounts, present, 0, PlaceOf(w.source))
  }

  /**
   * The writable mount w and the read-only mount number k overlap, and no writable mount is listed after k to make
   * the smaller of the two writable again.
   */
  ghost predicate Undone(mounts: seq<Mount>, present: string -> bool, w: Mount, k: nat, place: Place) {
    && w in mounts && KindOf(w).Writable?
    && k < |mounts| && KindOf(mounts[k]).Readable? && Usable(mounts[k], present)
    && (place == PlaceOf(w.source) || place == PlaceOf(mounts[k].source))
    && Covers(PlaceOf(w.source), place) && Covers(PlaceOf(mounts[k].source), place)
    && NoneWritableFrom(mounts, present, k + 1, place)
  }

  lemma OneMoreDecides(before: seq<Mount>, m: Mount, present: string -> bool, place: Place)
    ensures Decider(MountOps(before + [m], present), place)
            == if Usable(m, present) && MountedOver(MountOp(m), place) then Some(MountOp(m))
               else Decider(MountOps(before, present), place)
  {
    assert (before + [m])[..|before|] == before;
    if Usable(m, present) {
      DeciderAppend(MountOps(before, present), [MountOp(m)], place);
      assert [MountOp(m)][..0] == [];
    } else {
      assert MountOps(before, present) + [] == MountOps(before, present);
    }
  }

  /** A writable mount of which the sandboxes disagree, at its own path or at that of a mount inside it. */
  ghost predicate Disputed(mounts: seq<Mount>, present: string -> bool, w: Mount) {
    Missing(mounts, present, w) || exists k, at :: Undone(mounts, present, w, k, at)
  }

  /** Which entry of the list decides: the last usable one that covers the place. */
  lemma {:induction false} LastUsableDecides(mounts: seq<Mount>, present: string -> bool, place: Place) returns (k: nat)
    requires !AnyRemaps(mounts)
    ensures Decider(MountOps(mounts, present), place).None? ==> NoneFrom(mounts, present, 0, place)
    ensures Decider(MountOps(mounts, present), place).Some? ==>
              && k < |mounts| && Usable(mounts[k], present) && Covers(PlaceOf(mounts[k].source), place)
              && NoneFrom(mounts, present, k + 1, place)
              && ViewOf(MountOps(mounts, present), place) == Host(place, !mounts[k].readOnly)
  {
    k := 0;
    if mounts != [] {
      var before, m := mounts[..|mounts| - 1], mounts[|mounts| - 1];
      assert mounts == before + [m] && m in mounts && !Remaps(m);
      k := LastUsableDecides(before, present, place);
      OneMoreDecides(before, m, present, place);
      if Usable(m, present) && MountedOver(MountOp(m), place) {
        k := |before|;
        BindShowsItself(MountOp(m), place);
      }
    }
  }

  lemma UndoneDisagrees(mounts: seq<Mount>, present: string -> bool, w: Mount, k: nat, place: Place)
    requires !AnyRemaps(mounts) && Undone(mounts, present, w, k, place)
    ensures !Agree(mounts, present, place)
  {
    var last := LastUsableDecides(mounts, present, place);
    assert WritableMountOver(mounts, place);
    MountsAllowWrite(mounts, place);
    assert last < k ==> Decider(MountOps(mounts, present), place).None?;
  }

  lemma MissingDisagrees(mounts: seq<Mount>, present: string -> bool, w: Mount)
    requires !AnyRemaps(mounts) && Missing(mounts, present, w)
    ensures !Agree(mounts, present, PlaceOf(w.source))
  {
    var _ := LastUsableDecides(mounts, present, PlaceOf(w.source));
    assert WritableMountOver(mounts, PlaceOf(w.source));
    MountsAllowWrite(mounts, PlaceOf(w.source));
  }

  lemma NoneAbove(mounts: seq<Mount>, present: string -> bool, i: nat, place: Place, above: Place)
    requires Covers(above, place) && NoneFrom(mounts, present, i, place)
    ensures NoneFrom(mounts, present, i, above) && NoneWritableFrom(mounts, present, i, above)
  {
    forall j | i <= j < |mounts| && Usable(mounts[j], present)
      ensures !Covers(PlaceOf(mounts[j].source), above)
    {
      CoversTransitive(PlaceOf(mounts[j].source), above, place);
    }
  }

  lemma CoversTransitive(top: Place, above: Place, place: Place)
    requires Covers(above, place)
    ensures Covers(top, above) ==> Covers(top, place)
  {
  }

  /** Of two places over a third, the shorter is over the longer. */
  lemma CoversBetween(a: Place, b: Place, place: Place)
    requires Covers(a, place) && Covers(b, place) && |a.parts| <= |b.parts|
    ensures Covers(a, b)
  {
    assert a.parts == place.parts[..|a.parts|] && b.parts == place.parts[..|b.parts|];
  }

  lemma OverlapUndone(mounts: seq<Mount>, present: string -> bool, w: Mount, k: nat, place: Place)
    requires w in mounts && KindOf(w).Writable? && Covers(PlaceOf(w.source), place)
    requires k < |mounts| && KindOf(mounts[k]).Readable? && Usable(mounts[k], present)
    requires Covers(PlaceOf(mounts[k].source), place) && NoneFrom(mounts, present, k + 1, place)
    ensures exists at :: Undone(mounts, present, w, k, at)
  {
    var a, b := PlaceOf(w.source), PlaceOf(mounts[k].source);
    if |a.parts| <= |b.parts| {
      CoversBetween(a, b, place);
      NoneAbove(mounts, present, k + 1, place, b);
      assert Undone(mounts, present, w, k, b);
    } else {
      CoversBetween(b, a, place);
      NoneAbove(mounts, present, k + 1, place, a);
      assert Undone(mounts, present, w, k, a);
    }
  }

  /** Every disagreement is of one of the two kinds. */
  lemma DisagreementExplained(mounts: seq<Mount>, present: string -> bool, place: Place)
    requires !AnyRemaps(mounts) && !Agree(mounts, present, place)
    ensures exists w :: Disputed(mounts, present, w)
  {
    WritableIsAllowed(mounts, present, place);
    MountsAllowWrite(mounts, place);
    var w :| w in mounts && KindOf(w).Writable? && Covers(PlaceOf(w.source), place);
    var k := LastUsableDecides(mounts, present, place);
    if Decider(MountOps(mounts, present), place).None? {
      NoneAbove(mounts, present, 0, place, PlaceOf(w.source));
    } else {
      OverlapUndone(mounts, present, w, k, place);
    }
    assert Disputed(mounts, present, w);
  }

  /**
   * Mount operations and mount rules agree about every place if and only if every writable source exists, or lies
   * under a mount that does, and no read-only mount has the last word over a writable one it overlaps.
   */
  lemma AgreeExactly(mounts: seq<Mount>, present: string -> bool)
    requires !AnyRemaps(mounts)
    ensures (forall place :: Agree(mounts, present, place)) <==> (forall w :: !Disputed(mounts, present, w))
  {
    forall w | Disputed(mounts, present, w)
      ensures exists place :: !Agree(mounts, present, place)
    {
      if Missing(mounts, present, w) {
        MissingDisagrees(mounts, present, w);
      } else {
        var k, at :| Undone(mounts, present, w, k, at);
        UndoneDisagrees(mounts, present, w, k, at);
      }
    }
    forall place | !Agree(mounts, present, place)
      ensures exists w :: Disputed(mounts, present, w)
    {
      DisagreementExplained(mounts, present, place);
    }
  }

  /** With nothing disputed, the sandboxes as a whole agree wherever the templates let nothing be written. */
  lemma AgreeOutsideTemplates(
    kubernetesMode: bool, tools: seq<ToolDir>, cfg: Option<ExecConfig>, present: string -> bool,
    tools': seq<ToolDir>, metadataDirs: seq<string>, cacheDir: string)
    requires !AnyRemaps(MountsOf(cfg)) && forall w :: !Disputed(MountsOf(cfg), present, w)
    ensures forall place | !TemplateWrites(cacheDir, place) ::
              SandboxesAgree(kubernetesMode, tools, cfg, present, tools', metadataDirs, cacheDir, place)
  {
    AgreeExactly(MountsOf(cfg), present);
    forall place | !TemplateWrites(cacheDir, place)
      ensures SandboxesAgree(kubernetesMode, tools, cfg, present, tools', metadataDirs, cacheDir, place)
    {
      assert Agree(MountsOf(cfg), present, place);
      SandboxesAgreeExactly(kubernetesMode, tools, cfg, present, tools', metadataDirs, cacheDir, place);
    }
  }

  /** Read-only mounts before writable ones, and the writable ones exist. */
  ghost predicate ReadOnlyFirst(mounts: seq<Mount>, present: string -> bool) {
    && (forall i, j | 0 <= i < j < |mounts| && KindOf(mounts[i]).Writable? :: !KindOf(mounts[j]).Readable?)
    && (forall m | m in mounts && KindOf(m).Writable? :: present(m.source))
  }

  lemma OrderedLeavesNone(mounts: seq<Mount>, present: string -> bool, w: Mount)
    requires ReadOnlyFirst(mounts, present)
    ensures !Disputed(mounts, present, w)
  {
    if w in mounts && KindOf(w).Writable? {
      var i :| 0 <= i < |mounts| && mounts[i] == w;
      assert Usable(mounts[i], present) && Covers(PlaceOf(mounts[i].source), PlaceOf(w.source));
    }
  }

  lemma OrderedAgree(mounts: seq<Mount>, present: string -> bool)
    requires !AnyRemaps(mounts) && ReadOnlyFirst(mounts, present)
    ensures forall place :: Agree(mounts, present, place)
  {
    forall w
      ensures !Disputed(mounts, present, w)
    {
      OrderedLeavesNone(mounts, present, w);
    }
    AgreeExactly(mounts, present);
  }

  /** Config.BaselineMounts lists what is read-only first, so on it the sandboxes agree. */
  lemma BaselineAgrees(allowRead: seq<string>, allowWrite: seq<string>, present: string -> bool)
    requires forall path | path in allowWrite :: present(path)
    ensures forall place :: Agree(BaselineMounts(allowRead, allowWrite), present, place)
  {
    var mounts := BaselineMounts(allowRead, allowWrite);
    forall i | 0 <= i < |mounts|
      ensures i < |allowRead| ==> mounts[i] == Mount(allowRead[i], allowRead[i], true, false)
      ensures i >= |allowRead| ==>
                mounts[i] == Mount(allowWrite[i - |allowRead|], allowWrite[i - |allowRead|], false, false)
    {
    }
    OrderedAgree(mounts, present);
  }

  /** The other way round they do not: a read-only mount listed after a writable one above it. */
  lemma LaterReadOnlyDisagrees(outer: string, inner: string, present: string -> bool)
    requires Covers(PlaceOf(outer), PlaceOf(inner)) && present(inner)
    ensures var mounts := [Mount(outer, outer, false, false), Mount(inner, inner, true, false)];
            !AnyRemaps(mounts) && !Agree(mounts, present, PlaceOf(inner))
  {
    var w, r := Mount(outer, outer, false, false), Mount(inner, inner, true, false);
    var mounts := [w, r];
    assert mounts[..1] == [w];
    var before := MountOps([w], present);
    DeciderAppend(before, [MountOp(r)], PlaceOf(inner));
    assert [MountOp(r)][..0] == [];
    BindShowsItself(MountOp(r), PlaceOf(inner));
    assert w in mounts && KindOf(w).Writable?;
    MountsAllowWrite(mounts, PlaceOf(inner));
  }

  // ---------- Reading ----------

  lemma {:induction false} ReadsOnlyListed(grants: seq<Grant>, path: string)
    requires path in ReadsOnly(grants)
    ensures exists g :: g in grants && g.perm.Read? && g.path == path
  {
    if grants != [] {
      var before, g := grants[..|grants| - 1], grants[|grants| - 1];
      assert grants == before + [g];
      if path in ReadsOnly(before) {
        ReadsOnlyListed(before, path);
      }
    }
  }

  lemma {:induction false} ItemReadsAreSubpaths(items: seq<Item>, g: Grant)
    requires g in ItemGrants(items)
    ensures g.filter.Subpath?
  {
    if items != [] {
      var before, item := items[..|items| - 1], items[|items| - 1];
      if g in ItemGrants(before) {
        ItemReadsAreSubpaths(before, g);
      }
    }
  }

  lemma ToolReadAllowed(mounts: seq<Mount>, tools: seq<ToolDir>, metadataDirs: seq<string>, dir: string, place: Place)
    requires NoReadShadowed(Items(tools)) && dir in AllReadDirs(tools) && Covers(PlaceOf(dir), place)
    ensures AllowsRead(PolicyGrants(mounts, tools, metadataDirs), place)
  {
    ToolReadsAreFirstOccurrences(tools);
    ReadsOnlyListed(ItemGrants(Items(tools)), dir);
    var g :| g in ItemGrants(Items(tools)) && g.perm.Read? && g.path == dir;
    ItemReadsAreSubpaths(Items(tools), g);
    assert g in PolicyGrants(mounts, tools, metadataDirs) && Applies(g, place);
  }

  lemma MountReadAllowed(mounts: seq<Mount>, tools: seq<ToolDir>, metadataDirs: seq<string>, m: Mount, place: Place)
    requires m in mounts && !m.metadataOnly && Covers(PlaceOf(m.source), place)
    ensures AllowsRead(PolicyGrants(mounts, tools, metadataDirs), place)
  {
    var g := GrantFor(KindOf(m), m.source);
    MountGrantsAre(mounts, g);
    assert g in PolicyGrants(mounts, tools, metadataDirs) && Applies(g, place);
  }

  /** What bubblewrap shows everyone: the fixed binds and the nix store. */
  ghost predicate FixedView(kubernetesMode: bool, place: Place) {
    exists op :: (op in StaticOps(kubernetesMode) || op == ReadOnlyBind(NIX_STORE)) && MountedOver(op, place)
  }

  /** Under a directory of a tool. */
  ghost predicate ToolView(tools: seq<ToolDir>, place: Place) {
    exists dir :: dir in AllReadDirs(tools) && Covers(PlaceOf(dir), place)
  }

  /** Each platform has its own tools; what bubblewrap shows beside them and the fixed view, seatbelt allows as well. */
  lemma MountReadRefinement(
    kubernetesMode: bool, tools: seq<ToolDir>, cfg: Option<ExecConfig>, present: string -> bool,
    tools': seq<ToolDir>, metadataDirs: seq<string>, place: Place)
    requires !AnyRemaps(MountsOf(cfg))
    ensures var view := ViewOf(SandboxOps(kubernetesMode, tools, cfg, present), place);
            view.Host? ==>
              || FixedView(kubernetesMode, place)
              || (view.place == place && ToolView(tools, place))
              || (view.place == place && AllowsRead(PolicyGrants(MountsOf(cfg), tools', metadataDirs), place))
  {
    var mounts := MountsOf(cfg);
    SandboxDecides(kubernetesMode, tools, cfg, present, place);
    var before := StaticOps(kubernetesMode) + ToolOps(tools, present);
    DeciderCovers(before, place);
    if Decider(MountOps(mounts, present), place).Some? {
      var m := MountDecides(mounts, present, place);
      MountReadAllowed(mounts, tools', metadataDirs, m, place);
    } else if Decider(before, place).Some? {
      var op := Decider(before, place).value;
      if op !in StaticOps(kubernetesMode) && op != ReadOnlyBind(NIX_STORE) {
        assert op in Binds(ToolBinds(tools, present));
        BindShowsItself(op, place);
        assert op.source in AllReadDirs(tools);
      }
    }
  }

  /** Whatever else bubblewrap shows of the host, seatbelt allows to be read. */
  lemma ReadRefinement(
    kubernetesMode: bool, tools: seq<ToolDir>, cfg: Option<ExecConfig>, present: string -> bool,
    metadataDirs: seq<string>, place: Place)
    requires !AnyRemaps(MountsOf(cfg)) && NoReadShadowed(Items(tools))
    ensures var view := ViewOf(SandboxOps(kubernetesMode, tools, cfg, present), place);
            view.Host? ==>
              || FixedView(kubernetesMode, place)
              || (view.place == place && AllowsRead(PolicyGrants(MountsOf(cfg), tools, metadataDirs), place))
  {
    MountReadRefinement(kubernetesMode, tools, cfg, present, tools, metadataDirs, place);
    if ToolView(tools, place) {
      var dir :| dir in AllReadDirs(tools) && Covers(PlaceOf(dir), place);
      ToolReadAllowed(MountsOf(cfg), tools, metadataDirs, dir, place);
    }
  }

  // ---------- Metadata-only entries ----------

  predicate IsData(m: Mount) {
    !m.metadataOnly
  }

  predicate GrantsData(g: Grant) {
    !g.perm.ReadMetadata?
  }

  lemma {:induction false} MetadataMountsNothing(mounts: seq<Mount>, present: string -> bool)
    ensures MountOps(mounts, present) == MountOps(Filter(mounts, IsData), present)
  {
    if mounts != [] {
      var before, m := mounts[..|mounts| - 1], mounts[|mounts| - 1];
      assert before + [m] == mounts;
      MetadataMountsNothing(before, present);
      FilterOneMore(before, m, IsData);
      if IsData(m) {
        assert (Filter(before, IsData) + [m])[..|Filter(before, IsData)|] == Filter(before, IsData);
      } else {
        assert Filter(before, IsData) + [] == Filter(before, IsData);
        assert MountOps(before, present) + [] == MountOps(before, present);
      }
    }
  }

  lemma {:induction false} MetadataGrantsNothing(mounts: seq<Mount>)
    ensures Filter(MountGrants(mounts), GrantsData) == MountGrants(Filter(mounts, IsData))
  {
    if mounts != [] {
      var before, m := mounts[..|mounts| - 1], mounts[|mounts| - 1];
      var g := GrantFor(KindOf(m), m.source);
      assert before + [m] == mounts;
      MetadataGrantsNothing(before);
      FilterOneMore(before, m, IsData);
      FilterOneMore(MountGrants(before), g, GrantsData);
      assert MountGrants(mounts) == MountGrants(before) + [g];
      if IsData(m) {
        assert MountGrants(Filter(before, IsData) + [m]) == MountGrants(Filter(before, IsData)) + [g];
      } else {
        assert Filter(before, IsData) + [] == Filter(before, IsData);
      }
    }
  }

  lemma {:induction false} AncestorsAreMetadata(dirs: seq<string>)
    ensures Filter(AsMounts(dirs), IsData) == []
  {
    if dirs != [] {
      var before, dir := dirs[..|dirs| - 1], dirs[|dirs| - 1];
      AncestorsAreMetadata(before);
      FilterOneMore(AsMounts(before), Ancestor(dir), IsData);
      assert AsMounts(dirs) == AsMounts(before) + [Ancestor(dir)];
    }
  }

  /**
   * The ancestors that AddAncestorMounts appends change no bubblewrap operation and add no seatbelt grant to read
   * or write what files contain.
   */
  lemma AncestorsGrantNoContents(
    kubernetesMode: bool, tools: seq<ToolDir>, mounts: seq<Mount>, workingDir: string, present: string -> bool)
    ensures SandboxOps(kubernetesMode, tools, Some(ExecConfig(WithAncestors(mounts), workingDir)), present)
            == SandboxOps(kubernetesMode, tools, Some(ExecConfig(mounts, workingDir)), present)
    ensures Filter(MountGrants(WithAncestors(mounts)), GrantsData) == Filter(MountGrants(mounts), GrantsData)
  {
    var added := AsMounts(AddedTo(mounts));
    AncestorsAreMetadata(AddedTo(mounts));
    FilterAppend(mounts, added, IsData);
    assert Filter(mounts, IsData) + [] == Filter(mounts, IsData);
    MetadataMountsNothing(WithAncestors(mounts), present);
    MetadataMountsNothing(mounts, present);
    MetadataGrantsNothing(WithAncestors(mounts));
    MetadataGrantsNothing(mounts);
  }

  /** A directory whose metadata some rule grants. */
  ghost predicate StatAllowed(grants: seq<Grant>, dir: string) {
    exists g :: g in grants && !g.perm.MapExecutable? && g.path == dir
  }

  /** With every ancestor present, a process may look at each directory above what it may read or write. */
  lemma AncestorsVisible(mounts: seq<Mount>, m: Mount, dir: string)
    requires NoWalkCutShort(mounts) && m in mounts && !m.metadataOnly && dir in Ancestors(m.source)
    ensures StatAllowed(MountGrants(WithAncestors(mounts)), dir)
  {
    PromiseKeptExactly(mounts);
    assert dir in Sources(WithAncestors(mounts));
    var a :| a in WithAncestors(mounts) && a.source == dir;
    MountGrantsAre(WithAncestors(mounts), GrantFor(KindOf(a), dir));
  }
}
