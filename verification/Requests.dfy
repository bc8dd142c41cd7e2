/** What the comparison of the sandboxes says of the mount lists and tool directories that the daemon comes to use. */
module Requests {
  import opened Wrappers
  import opened Paths
  import opened Mounts
  import opened Bwrap
  import opened Seatbelt
  import opened MountRefinement
  import opened ToolDirs

  /** The mounts of one request: what BuildMounts returns when no path is refused. */
  ghost function RequestMounts(allowRead: seq<string>, allowWrite: seq<string>, paths: seq<AllowedPath>): seq<Mount> {
    WithAncestors(BaselineMounts(allowRead, allowWrite) + AllRequested(paths))
  }

  /** No request makes a mount that seatbelt would have to remap. */
  lemma RequestsNeverRemap(allowRead: seq<string>, allowWrite: seq<string>, paths: seq<AllowedPath>)
    ensures !AnyRemaps(RequestMounts(allowRead, allowWrite, paths))
  {
    var baseline, requested := BaselineMounts(allowRead, allowWrite), AllRequested(paths);
    var added := AsMounts(AddedTo(baseline + requested));
    forall m | m in RequestMounts(allowRead, allowWrite, paths)
      ensures !Remaps(m)
    {
      assert m in baseline || m in requested || m in added;
    }
  }

  /** Its configuration, with any working directory. */
  ghost function RequestConfig(
    allowRead: seq<string>, allowWrite: seq<string>, paths: seq<AllowedPath>, workingDir: string): Option<ExecConfig>
  {
    Some(ExecConfig(RequestMounts(allowRead, allowWrite, paths), workingDir))
  }

  /**
   * For every configuration, every request and each platform's own tools: what bubblewrap lets be written on the host,
   * seatbelt allows to be written, and what it shows beside the fixed view and its tools, seatbelt allows to be read.
   */
  lemma RequestsRefine(
    kubernetesMode: bool, allowRead: seq<string>, allowWrite: seq<string>, paths: seq<AllowedPath>, workingDir: string,
    tools: seq<ToolDir>, present: string -> bool, tools': seq<ToolDir>, metadataDirs: seq<string>, place: Place)
    ensures var mounts := RequestMounts(allowRead, allowWrite, paths);
            var cfg := RequestConfig(allowRead, allowWrite, paths, workingDir);
            var view := ViewOf(SandboxOps(kubernetesMode, tools, cfg, present), place);
            && (WritableView(view) ==>
                  view.place == place && AllowsWrite(PolicyGrants(mounts, tools', metadataDirs), place))
            && (view.Host? ==>
                  || FixedView(kubernetesMode, place)
                  || (view.place == place && ToolView(tools, place))
                  || (view.place == place && AllowsRead(PolicyGrants(mounts, tools', metadataDirs), place)))
  {
    var cfg := RequestConfig(allowRead, allowWrite, paths, workingDir);
    RequestsNeverRemap(allowRead, allowWrite, paths);
    WriteRefinement(kubernetesMode, tools, cfg, present, tools', metadataDirs, place);
    MountReadRefinement(kubernetesMode, tools, cfg, present, tools', metadataDirs, place);
  }

  /** With one platform's discovered tools on both sides, those are allowed to be read as well. */
  lemma DiscoveredToolsRefine(
    kubernetesMode: bool, allowRead: seq<string>, allowWrite: seq<string>, paths: seq<AllowedPath>, workingDir: string,
    darwin: bool, gopath: string, home: string, present: string -> bool, metadataDirs: seq<string>, place: Place)
    ensures var mounts := RequestMounts(allowRead, allowWrite, paths);
            var cfg := RequestConfig(allowRead, allowWrite, paths, workingDir);
            var tools := Discovered(darwin, gopath, home, present);
            var view := ViewOf(SandboxOps(kubernetesMode, tools, cfg, present), place);
            view.Host? ==>
              || FixedView(kubernetesMode, place)
              || (view.place == place && AllowsRead(PolicyGrants(mounts, tools, metadataDirs), place))
  {
    var cfg := RequestConfig(allowRead, allowWrite, paths, workingDir);
    RequestsNeverRemap(allowRead, allowWrite, paths);
    DiscoveredNotShadowed(darwin, gopath, home, present);
    ReadRefinement(kubernetesMode, Discovered(darwin, gopath, home, present), cfg, present, metadataDirs, place);
  }
}
