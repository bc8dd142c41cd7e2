/**
 * The daemon's side of control groups: sandbox/cgroup_k8s.go, sandbox/cgroup.go, sandbox/cgroup_bwrap.go and
 * the limit branches of Exec in sandbox/bwrap.go. Every method runs with other processes acting between any
 * two of its steps, and may be the work of a daemon restarted after earlier ones died anywhere.
 */
module CgroupRuntime {
  import opened Wrappers
  import opened CgroupKernel

  const INIT_LEAF := "init"
  const EXEC_PREFIX := "temenos-exec-"
  const INT64_HALF := 0x8000_0000_0000_0000
  const INT64_RANGE := 0x1_0000_0000_0000_0000

  datatype Errno = Success | Exists | Busy | Failure

  datatype Reason = NotMounted | NoDelegatedPath | MemoryControllerOff | NotWritable

  /** Two's complement wrap-around of int64 arithmetic. */
  function Wrap64(x: int): int {
    (x + INT64_HALF) % INT64_RANGE - INT64_HALF
  }

  /** int64(memoryMB) * 1024 * 1024 */
  function MemoryLimit(memoryMB: int): int {
    Wrap64(Wrap64(memoryMB * 1024) * 1024)
  }

  /** The limit written is the limit asked for exactly when it is below 2^43 MB. */
  lemma MemoryLimitExact(memoryMB: int)
    requires 0 < memoryMB < INT64_HALF
    ensures MemoryLimit(memoryMB) == memoryMB * 0x10_0000 <==> memoryMB < 0x800_0000_0000
  {
  }

  predicate IsInitLeaf(p: CgPath) {
    p != [] && p[|p| - 1] == INIT_LEAF
  }

  /** What a successful setup establishes, and what per-execution groups rely on. */
  predicate Migrated(k: Kernel, pid: Pid, base: CgPath) {
    && pid in k.procs && k.procs[pid] == base + [INIT_LEAF]
    && base in k.nodes && Memory in k.nodes[base].subtree
  }

  lemma MigratedSurvives(k: Kernel, t: Kernel, pid: Pid, base: CgPath, mine: Option<CgPath>)
    requires Migrated(k, pid, base) && Rely(k, t, pid, mine)
    ensures Migrated(t, pid, base)
  {
    assert base <= k.procs[pid];
  }

  /** Seeing the memory controller from inside the leaf is seeing that the parent hands it down. */
  lemma ProbeFindsMigrated(k: Kernel, pid: Pid, base: CgPath)
    requires WellFormed(k) && pid in k.procs && k.procs[pid] == base + [INIT_LEAF]
    requires Memory in Controllers(k, k.procs[pid])
    ensures Migrated(k, pid, base)
    ensures base == Parent(k.procs[pid])
  {
    assert Parent(base + [INIT_LEAF]) == base;
    assert NodeOk(k, k.procs[pid]);
  }

  lemma RelyReflexive(k: Kernel, me: Pid, mine: Option<CgPath>)
    requires WellFormed(k)
    ensures Rely(k, k, me, mine)
  {
  }

  /** What a process that is not in a leaf needs of the kernel to move into one and hand memory down. */
  predicate CanMigrate(k: Kernel, pid: Pid)
    requires pid in k.procs
  {
    var base := k.procs[pid];
    && Memory in Controllers(k, base)
    && !Distributes(k, base + ["init"])
    && (ExemptRoot(k, base) || forall other | other in k.procs && other != pid :: k.procs[other] != base)
  }

  /** What setup needs. */
  predicate CanSetUp(k: Kernel, pid: Pid, inPod: bool, mounted: bool)
    requires pid in k.procs
  {
    && inPod && mounted
    && if IsInitLeaf(k.procs[pid]) then Memory in Controllers(k, k.procs[pid]) else CanMigrate(k, pid)
  }

  lemma MoveIntoLeaf(k: Kernel, pid: Pid)
    requires WellFormed(k) && pid in k.procs
    ensures var base, leaf := k.procs[pid], k.procs[pid] + ["init"];
            && Parent(leaf) == base
            && (leaf in k.nodes || Permits(k, Mkdir(leaf)))
            && var made := if leaf in k.nodes then k else Apply(k, Mkdir(leaf));
               && (Permits(made, Move(pid, leaf)) <==> !Distributes(k, leaf))
               && (!Distributes(k, leaf) ==>
                     (Permits(Apply(made, Move(pid, leaf)), Enable(base, Memory)) <==> CanMigrate(k, pid)))
  {
    var base, leaf := k.procs[pid], k.procs[pid] + ["init"];
    assert Parent(leaf) == base && base != leaf;
    var made := if leaf in k.nodes then k else Apply(k, Mkdir(leaf));
    var moved := Apply(made, Move(pid, leaf));
    assert Controllers(moved, base) == Controllers(k, base) by {
      if base != [] {
        assert Parent(base) != leaf;
      }
    }
    assert IsDomain(Memory);
    forall other | other in k.procs && other != pid && k.procs[other] == base
      ensures Populated(moved, base)
    {
      assert moved.procs[other] == base;
    }
  }

  // ---------- The doctor's second derivation of the same parent ----------

  /** What a check finds when it reads: whether this is a pod, and which of the two files can be read. */
  datatype Reading = Reading(inPod: bool, procFile: bool, subtreeFile: bool)

  /** The path in /proc/1/cgroup. */
  function Proc1Path(k: Kernel, pid1: Pid, reading: Reading): Option<CgPath> {
    if reading.procFile && pid1 in k.procs then Some(k.procs[pid1]) else None
  }

  predicate CheckInitLeaf(k: Kernel, pid1: Pid, reading: Reading) {
    reading.inPod &&
    match Proc1Path(k, pid1, reading)
    case None => false
    case Some(path) => IsInitLeaf(path)
  }

  predicate CheckMemoryDelegated(k: Kernel, pid1: Pid, reading: Reading) {
    reading.inPod &&
    match Proc1Path(k, pid1, reading)
    case None => false
    case Some(path) =>
      var parent := if IsInitLeaf(path) then Parent(path) else path;
      reading.subtreeFile && parent in k.nodes && Memory in k.nodes[parent].subtree
  }

  /**
   * Both checks pass exactly when this is a pod, both files can be read, and the process they look at is migrated
   * under some base.
   */
  lemma DoctorAgrees(k: Kernel, pid1: Pid, reading: Reading)
    ensures CheckInitLeaf(k, pid1, reading) && CheckMemoryDelegated(k, pid1, reading)
            <==> reading == Reading(true, true, true) && exists base :: Migrated(k, pid1, base)
  {
    if CheckInitLeaf(k, pid1, reading) && CheckMemoryDelegated(k, pid1, reading) {
      var path := k.procs[pid1];
      assert path == Parent(path) + [INIT_LEAF];
      assert Migrated(k, pid1, Parent(path));
    }
    forall base | Migrated(k, pid1, base)
      ensures IsInitLeaf(k.procs[pid1]) && Parent(k.procs[pid1]) == base
    {
      assert Parent(base + [INIT_LEAF]) == base;
    }
  }

  /**
   * Once migrated, the parent can hold no process, so executions can only be its children; as no group can that hands
   * memory or io down.
   */
  lemma NoInternalProcess(k: Kernel, pid: Pid, base: CgPath)
    requires WellFormed(k) && Migrated(k, pid, base) && !ExemptRoot(k, base)
    ensures forall other | other in k.procs :: k.procs[other] != base
    ensures forall other | other in k.procs && !ExemptRoot(k, k.procs[other]) ::
              var node := k.nodes[k.procs[other]]; Memory !in node.subtree && Io !in node.subtree
  {
    assert IsDomain(Memory) && IsDomain(Io);
  }

  lemma ExecGroupIsNotLeaf(base: CgPath, id: string)
    ensures base + [EXEC_PREFIX + id] != base + [INIT_LEAF]
    ensures !(base + [EXEC_PREFIX + id] <= base + [INIT_LEAF])
  {
    assert |EXEC_PREFIX + id| > |INIT_LEAF|;
    assert (base + [EXEC_PREFIX + id])[|base|] != (base + [INIT_LEAF])[|base|];
  }

  /** The steps one execution takes on its own group. */
  predicate ExecStep(op: KernelOp, group: CgPath, me: Pid) {
    match op
    case Mkdir(p) => p == group
    case Rmdir(p) => p == group
    case Limit(p, _, _) => p == group
    case Spawn(pid, p) => p == group && pid != me
    case Exit(pid) => pid != me
    case _ => false
  }

  /** Executions under different ids are, to each other, just other processes. */
  lemma ExecutionsKeepApart(k: Kernel, op: KernelOp, me: Pid, base: CgPath, id: string, other: string)
    requires WellFormed(k) && Permits(k, op) && id != other
    requires ExecStep(op, base + [EXEC_PREFIX + id], me)
    ensures OthersMay(k, op, me, Some(base + [EXEC_PREFIX + other]))
    ensures Rely(k, Apply(k, op), me, Some(base + [EXEC_PREFIX + other]))
  {
    var group, mine := base + [EXEC_PREFIX + id], base + [EXEC_PREFIX + other];
    assert (EXEC_PREFIX + id)[|EXEC_PREFIX|..] == id;
    assert (EXEC_PREFIX + other)[|EXEC_PREFIX|..] == other;
    assert group[|base|] != mine[|base|];
    OtherStepMeetsRely(k, op, me, Some(mine));
  }

  /** The tree before and after a group was made, or an existing one taken over, and limited. */
  predicate SameButGroup(k: Kernel, t: Kernel, group: CgPath) {
    && group in t.nodes
    && t == k.(nodes := k.nodes[group := t.nodes[group]])
    && t.nodes[group].subtree == (if group in k.nodes then k.nodes[group].subtree else {})
  }

  /** Once migrated, the kernel permits a limited group under the base. */
  lemma CanMake(k: Kernel, pid: Pid, base: CgPath, path: CgPath, max: int)
    requires WellFormed(k) && Migrated(k, pid, base) && path != [] && Parent(path) == base
    ensures path in k.nodes || Permits(k, Mkdir(path))
    ensures var made := if path in k.nodes then k else Apply(k, Mkdir(path));
            Permits(made, Limit(path, max, 0)) && SameButGroup(k, Apply(made, Limit(path, max, 0)), path)
  {
    assert path != base;
  }

  lemma NothingBelow(k: Kernel, group: CgPath)
    requires WellFormed(k) && group !in k.nodes
    ensures !HasChild(k, group) && forall pid | pid in k.procs :: !(group <= k.procs[pid])
  {
    forall p | p in k.nodes
      ensures !(group <= p) && (p != [] ==> Parent(p) != group)
    {
      assert NodeOk(k, p);
      if group <= p {
        AncestorsExist(k, group, p);
      }
    }
  }

  /** A command was started in the group; then everything in it was killed and the group removed. */
  predicate Cleared(k: Kernel, group: CgPath, child: Pid, t: Kernel) {
    child !in k.procs && t == Apply(KillIn(Apply(k, Spawn(child, group)), group), Rmdir(group))
  }

  /** A new group, its command started, killed and removed: the tree is what it was. */
  lemma LeavesNoTrace(k: Kernel, made: Kernel, group: CgPath, child: Pid, t: Kernel)
    requires WellFormed(k) && group !in k.nodes && SameButGroup(k, made, group) && Cleared(made, group, child, t)
    ensures t == k
  {
    NothingBelow(k, group);
    assert t.nodes == k.nodes;
    assert t.procs == k.procs;
  }

  lemma SameChildren(k: Kernel, t: Kernel, group: CgPath)
    requires WellFormed(k) && group != [] && SameButGroup(k, t, group)
    ensures HasChild(t, group) <==> HasChild(k, group)
    ensures Distributes(t, group) <==> Distributes(k, group)
  {
    assert Parent(group) != group;
    if HasChild(k, group) {
      var q :| q in k.nodes && q != [] && Parent(q) == group;
      assert q in t.nodes;
    }
  }

  lemma {:induction false} SomePidIsFree(pids: set<Pid>) returns (free: Pid)
    ensures forall pid | pid in pids :: pid < free
  {
    if pids == {} {
      return 0;
    }
    var pid :| pid in pids;
    free := SomePidIsFree(pids - {pid});
    assert forall other | other in pids :: other == pid || other in pids - {pid};
    free := if pid < free then free else pid + 1;
  }

  class Daemon {
    const pid: Pid
    const inPod: bool          // KUBERNETES_SERVICE_HOST is set
    const mounted: bool        // cgroup.controllers exists at the root
    const calm: bool           // nothing else acts, and nothing fails that the kernel's rules permit
    var tree: Kernel
    var initLeaf: Option<bool> // initLeafOnce and whether initLeafErr is nil
    var execCgroupBase: Option<CgPath>
    var probe: Option<Option<Reason>> // cgroupOnce and cgroupReason
    var ready: bool

    constructor (pid: Pid, inPod: bool, mounted: bool, calm: bool, tree: Kernel)
      requires WellFormed(tree) && pid in tree.procs
      ensures this.pid == pid && this.inPod == inPod && this.mounted == mounted && this.calm == calm
      ensures this.tree == tree && Valid() && Fresh()
    {
      this.pid, this.inPod, this.mounted, this.calm, this.tree := pid, inPod, mounted, calm, tree;
      initLeaf, execCgroupBase, probe, ready := None, None, None, false;
    }

    ghost predicate Valid()
      reads this
    {
      && WellFormed(tree) && pid in tree.procs
      && (ready ==> probe == Some(None) && execCgroupBase.Some? && Migrated(tree, pid, execCgroupBase.value))
    }

    /** No setup and no probe yet in this process. */
    ghost predicate Fresh()
      reads this
    {
      initLeaf.None? && execCgroupBase.None? && probe.None? && !ready
    }

    /** Other processes act, any number of times. */
    method Others(mine: Option<CgPath>)
      requires Valid()
      modifies this`tree
      ensures Valid() && Rely(old(tree), tree, pid, mine)
      ensures tree.procs[pid] == old(tree).procs[pid]
      ensures forall base :: Migrated(old(tree), pid, base) ==> Migrated(tree, pid, base)
      ensures calm ==> tree == old(tree)
    {
      var steps: int := *;
      if calm {
        steps := 0;
      }
      RelyReflexive(tree, pid, mine);
      while steps > 0
        invariant Valid() && Rely(old(tree), tree, pid, mine)
        invariant calm ==> steps <= 0 && tree == old(tree)
      {
        steps := steps - 1;
        var op: KernelOp := *;
        if OthersMay(tree, op, pid, mine) {
          OtherStepMeetsRely(tree, op, pid, mine);
          RelyTransitive(old(tree), tree, Apply(tree, op), pid, mine);
          if ready {
            MigratedSurvives(tree, Apply(tree, op), pid, execCgroupBase.value, mine);
          }
          tree := Apply(tree, op);
        }
      }
      forall base | Migrated(old(tree), pid, base)
        ensures Migrated(tree, pid, base)
      {
        MigratedSurvives(old(tree), tree, pid, base, mine);
      }
    }

    /** A write to the file system: refused by the kernel's rules, or by anything else. */
    method Perform(op: KernelOp) returns (e: Errno)
      requires Valid() && !op.Exit? && (op.Move? && op.pid == pid ==> !ready)
      modifies this`tree
      ensures Valid()
      ensures !op.Move? ==> forall base :: Migrated(old(tree), pid, base) ==> Migrated(tree, pid, base)
      ensures e.Success? ==> Permits(old(tree), op) && tree == Apply(old(tree), op)
      ensures !e.Success? ==> tree == old(tree)
      ensures pid in tree.procs
      ensures tree.procs[pid] == if e.Success? && op.Move? && op.pid == pid then op.path else old(tree).procs[pid]
      ensures e.Exists? <==> op.Mkdir? && op.path in old(tree).nodes
      ensures calm && Permits(old(tree), op) ==> e.Success?
    {
      if op.Mkdir? && op.path in tree.nodes {
        return Exists;
      }
      if !Permits(tree, op) {
        return if op.Enable? && op.path in tree.nodes && op.controller in Controllers(tree, op.path)
               then Busy else Failure;
      }
      var refused: bool, busy: bool := *, *;
      if refused && !calm {
        return if busy then Busy else Failure;
      }
      OpKeepsWellFormed(tree, op);
      if !(op.Move? && op.pid == pid) {
        OtherStepMeetsRely(tree, op, pid, None);
        forall base | Migrated(tree, pid, base)
          ensures Migrated(Apply(tree, op), pid, base)
        {
          MigratedSurvives(tree, Apply(tree, op), pid, base, None);
        }
      }
      tree := Apply(tree, op);
      return Success;
    }

    method DiscoverDelegatedPath() returns (path: Option<CgPath>)
      requires Valid()
      modifies this`tree
      ensures Valid() && Rely(old(tree), tree, pid, None)
      ensures tree.procs[pid] == old(tree).procs[pid]
      ensures path.Some? ==> path.value == tree.procs[pid]
      ensures forall base :: Migrated(old(tree), pid, base) ==> Migrated(tree, pid, base)
      ensures calm ==> path.Some? && tree == old(tree)
    {
      Others(None);
      var failure: bool := *;
      return if failure && !calm then None else Some(tree.procs[pid]);
    }

    /** Writes "+memory", trying twice when the kernel answers EBUSY. */
    method EnableMemoryController(path: CgPath) returns (ok: bool, ghost answers: seq<Errno>)
      requires Valid() && !ready && tree.procs[pid] == path + [INIT_LEAF]
      modifies this`tree
      ensures Valid() && tree.procs[pid] == path + [INIT_LEAF]
      ensures ok ==> Migrated(tree, pid, path)
      ensures calm ==> (ok <==> Permits(old(tree), Enable(path, Memory)))
      ensures 1 <= |answers| <= 2 && (ok <==> Success in answers)
      ensures |answers| == 2 <==> answers[0] == Busy
    {
      var attempt := 0;
      answers := [];
      while attempt < 2
        invariant Valid() && tree.procs[pid] == path + [INIT_LEAF]
        invariant calm ==> tree == old(tree) && (attempt > 0 ==> !Permits(tree, Enable(path, Memory)))
        invariant |answers| == attempt <= 2 && forall i | 0 <= i < attempt :: answers[i] == Busy
        decreases 2 - attempt
      {
        Others(None);
        var e := Perform(Enable(path, Memory));
        answers := answers + [e];
        if e.Success? {
          return true, answers;
        }
        if !e.Busy? {
          return false, answers;
        }
        attempt := attempt + 1;
      }
      return false, answers;
    }

    /**
     * Success leaves the daemon in the init leaf under execCgroupBase; if it was not there already, memory has
     * been enabled for that leaf's siblings.
     */
    method RunInitLeaf() returns (ok: bool)
      requires Valid() && !ready
      modifies this`tree, this`execCgroupBase
      ensures Valid()
      ensures ok ==> execCgroupBase.Some? && tree.procs[pid] == execCgroupBase.value + [INIT_LEAF]
      ensures ok && !IsInitLeaf(old(tree).procs[pid]) ==> Migrated(tree, pid, execCgroupBase.value)
      ensures ok && IsInitLeaf(old(tree).procs[pid]) ==> tree.procs[pid] == old(tree).procs[pid]
      ensures ok ==> execCgroupBase == Some(Parent(tree.procs[pid]))
      ensures calm && IsInitLeaf(old(tree).procs[pid]) ==> (ok <==> mounted) && tree == old(tree)
      ensures calm && !IsInitLeaf(old(tree).procs[pid]) ==> (ok <==> mounted && CanMigrate(old(tree), pid))
    {
      if !mounted {
        return false;
      }
      var self := DiscoverDelegatedPath();
      if self.None? {
        return false;
      }
      if IsInitLeaf(self.value) {
        assert self.value == Parent(self.value) + [INIT_LEAF];
        execCgroupBase := Some(Parent(self.value));
        return true;
      }
      MoveIntoLeaf(tree, pid);
      ok := MigrateInto(self.value + [INIT_LEAF]);
      if !ok {
        return false;
      }
      ghost var answers;
      ok, answers := EnableMemoryController(self.value);
      if ok {
        execCgroupBase := Some(self.value);
      }
    }

    /** Makes the leaf, which may be left over from an earlier daemon, and moves this process there. */
    method MigrateInto(initDir: CgPath) returns (ok: bool)
      requires Valid() && !ready
      modifies this`tree
      ensures Valid() && (ok ==> tree.procs[pid] == initDir)
      ensures calm && (initDir in old(tree).nodes || Permits(old(tree), Mkdir(initDir))) ==>
                var made := if initDir in old(tree).nodes then old(tree) else Apply(old(tree), Mkdir(initDir));
                (ok <==> Permits(made, Move(pid, initDir))) && (ok ==> tree == Apply(made, Move(pid, initDir)))
    {
      var e := Perform(Mkdir(initDir));
      if !e.Success? && !e.Exists? {
        return false;
      }
      Others(None);
      e := Perform(Move(pid, initDir));
      return e.Success?;
    }

    method SetupInitLeaf() returns (ok: bool)
      requires Valid() && !ready
      modifies this`tree, this`execCgroupBase, this`initLeaf
      ensures Valid() && initLeaf == Some(ok)
      ensures old(initLeaf).Some? ==>
                initLeaf == old(initLeaf) && tree == old(tree) && execCgroupBase == old(execCgroupBase)
      ensures old(initLeaf).None? && ok ==>
                execCgroupBase.Some? && tree.procs[pid] == execCgroupBase.value + [INIT_LEAF]
      ensures old(initLeaf).None? && ok && IsInitLeaf(old(tree).procs[pid]) ==> tree.procs[pid] == old(tree).procs[pid]
      ensures old(initLeaf).None? && ok && !IsInitLeaf(old(tree).procs[pid]) ==>
                Migrated(tree, pid, execCgroupBase.value)
      ensures old(initLeaf).None? && calm && IsInitLeaf(old(tree).procs[pid]) ==> (ok <==> mounted) && tree == old(tree)
      ensures old(initLeaf).None? && calm && !IsInitLeaf(old(tree).procs[pid]) ==>
                (ok <==> mounted && CanMigrate(old(tree), pid))
    {
      if initLeaf.Some? {
        return initLeaf.value;
      }
      ok := RunInitLeaf();
      initLeaf := Some(ok);
    }

    /** checkCgroupAvailableWith: the memory controller must be listed in the daemon's own cgroup.controllers. */
    method CheckCgroupAvailable() returns (reason: Option<Reason>)
      requires Valid()
      modifies this`tree
      ensures Valid() && Rely(old(tree), tree, pid, None)
      ensures reason == Some(NotMounted) <==> !mounted
      ensures reason.None? ==> Memory in Controllers(tree, tree.procs[pid])
      ensures reason == Some(NotWritable) ==> Memory in Controllers(tree, tree.procs[pid])
      ensures calm ==> tree == old(tree)
      ensures calm && mounted ==>
                reason == if Memory in Controllers(tree, tree.procs[pid]) then None else Some(MemoryControllerOff)
      ensures forall base :: Migrated(old(tree), pid, base) ==> Migrated(tree, pid, base)
    {
      if !mounted {
        RelyReflexive(tree, pid, None);
        return Some(NotMounted);
      }
      var delegated := DiscoverDelegatedPath();
      if delegated.None? {
        return Some(NoDelegatedPath);
      }
      var unreadable: bool := *;
      if (unreadable && !calm) || Memory !in Controllers(tree, delegated.value) {
        return Some(MemoryControllerOff);
      }
      var writable: bool := *;
      return if writable || calm then None else Some(NotWritable);
    }

    /** Cached after the first call. */
    method CgroupAvailable() returns (available: bool)
      requires Valid()
      modifies this`tree, this`probe
      ensures Valid() && probe.Some? && (available <==> probe == Some(None))
      ensures old(probe).Some? ==> probe == old(probe) && tree == old(tree)
      ensures old(probe).None? ==> Rely(old(tree), tree, pid, None)
      ensures old(probe).None? && available ==> Memory in Controllers(tree, tree.procs[pid])
      ensures calm ==> tree == old(tree)
      ensures old(probe).None? && calm && mounted ==> (available <==> Memory in Controllers(tree, tree.procs[pid]))
      ensures forall base :: Migrated(old(tree), pid, base) ==> Migrated(tree, pid, base)
    {
      if probe.None? {
        var reason := CheckCgroupAvailable();
        probe := Some(reason);
      }
      return probe == Some(None);
    }

    /**
     * When setup succeeds as the first probe of its process, from any tree that earlier processes left behind,
     * the daemon is migrated and memory is enabled, on the path that finds it already in the leaf as well.
     */
    method SetupCgroupV2() returns (ok: bool)
      requires Valid() && Fresh()
      modifies this`tree, this`execCgroupBase, this`initLeaf, this`probe, this`ready
      ensures Valid()
      ensures ok ==> inPod && mounted && ready && execCgroupBase.Some? && Migrated(tree, pid, execCgroupBase.value)
      ensures ok ==> var reading := Reading(inPod && mounted, true, true);
                     CheckInitLeaf(tree, pid, reading) && CheckMemoryDelegated(tree, pid, reading)
      ensures !ok ==> !ready
      ensures ok && IsInitLeaf(old(tree).procs[pid]) ==>
                tree.procs[pid] == old(tree).procs[pid] && execCgroupBase == Some(Parent(old(tree).procs[pid]))
      ensures calm ==> (ok <==> CanSetUp(old(tree), pid, inPod, mounted))
    {
      if !mounted || !inPod {
        return false;
      }
      ok := SetupInitLeaf();
      if !ok {
        return false;
      }
      var available := CgroupAvailable();
      if !available {
        return false;
      }
      ProbeFindsMigrated(tree, pid, execCgroupBase.value);
      DoctorAgrees(tree, pid, Reading(true, true, true));
      ready := true;
    }

    /**
     * Makes one group, named after a random id, with memory.max and memory.swap.max set. A group that exists
     * already is taken over, as os.MkdirAll does.
     */
    method NewCgroupExec(memoryMB: int, id: Option<string>) returns (cg: CgroupExec?)
      requires Valid()
      modifies this`tree
      ensures Valid() && tree.procs[pid] == old(tree).procs[pid]
      ensures !ready || id.None? ==> cg == null
      ensures calm && ready && id.Some? ==> cg != null && SameButGroup(old(tree), tree, cg.path)
      ensures cg != null ==>
                && fresh(cg) && cg.Valid() && cg.daemon == this && cg.opens == 0
                && cg.path == BaseOf(old(tree)) + ["temenos-exec-" + id.value]
                && cg.path in tree.nodes && !(cg.path <= tree.procs[pid])
                && tree.nodes[cg.path].memoryMax == Some(MemoryLimit(memoryMB))
                && tree.nodes[cg.path].swapMax == Some(0)
                && (cg.made <==> cg.path !in old(tree).nodes)
      ensures forall base :: Migrated(old(tree), pid, base) ==> Migrated(tree, pid, base)
    {
      if !ready || id.None? {
        return null;
      }
      var base := BaseOf(tree);
      var path := base + [EXEC_PREFIX + id.value];
      assert Parent(path) == base;
      ExecGroupIsNotLeaf(base, id.value);
      var ok, made := NewManager(path, MemoryLimit(memoryMB));
      if !ok {
        return null;
      }
      return new CgroupExec(this, path, made);
    }

    /** cgroup2.NewManager: the directory, which may be there already, and its limits. */
    method NewManager(path: CgPath, max: int) returns (ok: bool, made: bool)
      requires Valid() && path != []
      modifies this`tree
      ensures Valid() && tree.procs[pid] == old(tree).procs[pid]
      ensures ok ==> path in tree.nodes && (made <==> path !in old(tree).nodes)
      ensures ok ==> tree.nodes[path].memoryMax == Some(max) && tree.nodes[path].swapMax == Some(0)
      ensures ok ==> Memory in Controllers(tree, path)
      ensures calm && Migrated(old(tree), pid, Parent(path)) ==> ok && SameButGroup(old(tree), tree, path)
      ensures forall base :: Migrated(old(tree), pid, base) ==> Migrated(tree, pid, base)
    {
      if Migrated(tree, pid, Parent(path)) {
        CanMake(tree, pid, Parent(path), path, max);
      }
      Others(Some(path));
      var e := Perform(Mkdir(path));
      if !e.Success? && !e.Exists? {
        return false, false;
      }
      made := e.Success?;
      Others(Some(path));
      e := Perform(Limit(path, max, 0));
      ok := e.Success?;
      if !ok {
        var _ := Perform(Rmdir(path));
      }
    }

    /** execCgroupBase if set, and the group of this process otherwise. */
    function BaseOf(k: Kernel): CgPath
      requires pid in k.procs
      reads this`execCgroupBase
    {
      if execCgroupBase.Some? then execCgroupBase.value else k.procs[pid]
    }

    /** Exactly the processes in the group and below it are gone, if the kernel complies. */
    method KillGroup(path: CgPath) returns (ok: bool)
      requires Valid() && !(path <= tree.procs[pid])
      modifies this`tree
      ensures Valid() && tree.nodes == old(tree).nodes && tree.delegated == old(tree).delegated
      ensures tree.systemRoot == old(tree).systemRoot
      ensures forall other ::
                other in tree.procs <==> other in old(tree).procs && !(ok && path <= old(tree).procs[other])
      ensures forall other | other in tree.procs :: tree.procs[other] == old(tree).procs[other]
      ensures calm ==> ok
    {
      ok := *;
      if calm {
        ok := true;
      }
      if ok {
        KillKeepsWellFormed(tree, path);
        tree := KillIn(tree, path);
      }
    }

    /** Starts the sandboxed command in a group, or reports that it could not. */
    method StartIn(path: CgPath) returns (child: Option<Pid>)
      requires Valid()
      modifies this`tree
      ensures Valid() && tree.procs[pid] == old(tree).procs[pid] && tree.nodes == old(tree).nodes
      ensures child.Some? ==> child.value !in old(tree).procs && tree == Apply(old(tree), Spawn(child.value, path))
      ensures child.None? ==> tree == old(tree)
      ensures calm ==> (child.Some? <==> path in tree.nodes && !Distributes(old(tree), path))
    {
      var answer: int := *;
      if calm {
        ghost var free := SomePidIsFree(tree.procs.Keys);
        assert free !in tree.procs.Keys;
        var unused: Pid :| unused !in tree.procs;
        answer := unused;
      }
      if answer < 0 || answer in tree.procs {
        return None;
      }
      var e := Perform(Spawn(answer, path));
      return if e.Success? then Some(answer) else None;
    }

    /**
     * BwrapSandbox.Exec. After the gate, a positive limit either fails or starts the command in a group that
     * has exactly that limit and no swap: the unlimited branches cannot be reached. On every path, failures
     * included, each descriptor opened has been closed once.
     */
    method Exec(memoryLimitMB: int, id: Option<string>) returns (outcome: ExecOutcome)
      requires Valid()
      modifies this`tree, this`probe
      ensures Valid() && tree.procs[pid] == old(tree).procs[pid]
      ensures outcome.Failed? ==> FailedCleanly(outcome)
      ensures outcome.RanUnlimited? ==> memoryLimitMB <= 0 || probe != Some(None)
      ensures calm && (memoryLimitMB <= 0 || probe != Some(None)) ==> outcome.RanUnlimited?
      ensures calm && ready && memoryLimitMB > 0 && id.Some? ==>
                var group := BaseOf(old(tree)) + ["temenos-exec-" + id.value];
                && (outcome.RanLimited? <==> !Distributes(old(tree), group))
                && (outcome.RanLimited? ==> (outcome.removed <==> !HasChild(old(tree), group)))
                && (group !in old(tree).nodes ==> outcome.RanLimited? && outcome.removed && tree == old(tree))
      ensures outcome.RanLimited? ==>
                && memoryLimitMB > 0 && probe == Some(None) && ready && id.Some?
                && outcome.memoryMax == Some(MemoryLimit(memoryLimitMB)) && outcome.swapMax == Some(0)
                && outcome.openedFds == outcome.closedFds == 1
                && (old(execCgroupBase).Some? ==>
                      outcome.group == old(execCgroupBase).value + ["temenos-exec-" + id.value])
                && (outcome.removed ==> outcome.group !in tree.nodes)
                && (old(probe).Some? && old(execCgroupBase).Some? ==>
                      (outcome.made <==> outcome.group !in old(tree).nodes))
      ensures ready && memoryLimitMB > 0 ==> !outcome.RanUnlimited?
    {
      if memoryLimitMB <= 0 {
        var child := StartIn(tree.procs[pid]);
        return if child.Some? then RanUnlimited else Failed(true, 0, 0);
      }
      var available := CgroupAvailable();
      if !available {
        var child := StartIn(tree.procs[pid]);
        return if child.Some? then RanUnlimited else Failed(true, 0, 0);
      }
      outcome := ExecLimited(memoryLimitMB, id);
    }

    /** The part with a limit: a new group, its descriptor, the command in it, and the cleanup. */
    method ExecLimited(memoryLimitMB: int, id: Option<string>) returns (outcome: ExecOutcome)
      requires Valid()
      modifies this`tree
      ensures Valid() && tree.procs[pid] == old(tree).procs[pid] && !outcome.RanUnlimited?
      ensures outcome.Failed? ==> FailedCleanly(outcome)
      ensures outcome.RanLimited? ==>
                && ready && id.Some?
                && outcome.memoryMax == Some(MemoryLimit(memoryLimitMB)) && outcome.swapMax == Some(0)
                && outcome.openedFds == outcome.closedFds == 1
                && outcome.group == BaseOf(old(tree)) + ["temenos-exec-" + id.value]
                && (outcome.removed ==> outcome.group !in tree.nodes)
                && (outcome.made <==> outcome.group !in old(tree).nodes)
      ensures calm && ready && id.Some? ==>
                var group := BaseOf(old(tree)) + ["temenos-exec-" + id.value];
                && (outcome.RanLimited? <==> !Distributes(old(tree), group))
                && (outcome.RanLimited? ==> (outcome.removed <==> !HasChild(old(tree), group)))
                && (group !in old(tree).nodes ==> outcome.RanLimited? && outcome.removed && tree == old(tree))
    {
      var cg := NewCgroupExec(memoryLimitMB, id);
      if cg == null {
        return Failed(false, 0, 0);
      }
      ghost var made := tree;
      outcome := RunIn(cg);
      if calm {
        SameChildren(old(tree), made, cg.path);
        if cg.path !in old(tree).nodes && outcome.RanLimited? {
          NothingBelow(old(tree), cg.path);
          ghost var child :| Cleared(made, cg.path, child, tree);
          LeavesNoTrace(old(tree), made, cg.path, child, tree);
        }
      }
    }

    /** From the new group to its cleanup, which follows every failure too. */
    method RunIn(cg: CgroupExec) returns (outcome: ExecOutcome)
      requires Valid() && cg.Valid() && cg.daemon == this && cg.fd == -1 && cg.opens == 0
      requires cg.path != [] && cg.path in tree.nodes && !(cg.path <= tree.procs[pid])
      modifies this`tree, cg
      ensures Valid() && tree.procs[pid] == old(tree).procs[pid] && !outcome.RanUnlimited?
      ensures outcome.Failed? ==> FailedCleanly(outcome)
      ensures outcome.RanLimited? ==>
                && outcome.group == cg.path && outcome.made == cg.made
                && outcome.memoryMax == old(tree).nodes[cg.path].memoryMax
                && outcome.swapMax == old(tree).nodes[cg.path].swapMax
                && outcome.openedFds == outcome.closedFds == 1
                && (outcome.removed ==> cg.path !in tree.nodes)
      ensures calm ==> (outcome.RanLimited? <==> !Distributes(old(tree), cg.path))
      ensures calm && outcome.RanLimited? ==> (outcome.removed <==> !HasChild(old(tree), cg.path))
      ensures calm && outcome.RanLimited? && outcome.removed ==>
                exists child :: Cleared(old(tree), cg.path, child, tree)
    {
      var attached := cg.Open();
      if !attached {
        var _, _ := cg.Cleanup();
        return Failed(false, cg.opens, cg.closes);
      }
      Others(Some(cg.path));
      var child := StartIn(cg.path);
      if child.None? {
        var _, _ := cg.Cleanup();
        return Failed(true, cg.opens, cg.closes);
      }
      var group := tree.procs[child.value];
      var limits := tree.nodes[group];
      Others(Some(cg.path));
      var removed := Finish(cg, old(tree), child.value);
      return RanLimited(group, cg.made, limits.memoryMax, limits.swapMax, cg.opens, cg.closes, removed);
    }

    /** The deferred cleanup, seen from before the command `child` was started. */
    method Finish(cg: CgroupExec, ghost before: Kernel, ghost child: Pid) returns (removed: bool)
      requires Valid() && cg.Valid() && cg.daemon == this
      requires cg.path != [] && cg.path in tree.nodes && !(cg.path <= tree.procs[pid])
      requires calm ==> child !in before.procs && tree == Apply(before, Spawn(child, cg.path))
      modifies this`tree, cg`fd, cg`closes
      ensures Valid() && tree.procs[pid] == old(tree).procs[pid]
      ensures cg.closes == cg.opens && (removed ==> cg.path !in tree.nodes)
      ensures calm ==> (removed <==> !HasChild(before, cg.path))
      ensures calm && removed ==> Cleared(before, cg.path, child, tree)
    {
      var killed;
      killed, removed := cg.Cleanup();
      if calm && removed {
        assert tree.procs == KillIn(old(tree), cg.path).procs;
      }
    }

    /** The gate in the daemon's Run: a limit that was asked for and cannot be set up stops the daemon. */
    method Startup(memoryLimitMB: int) returns (ok: bool)
      requires Valid() && Fresh()
      modifies this`tree, this`execCgroupBase, this`initLeaf, this`probe, this`ready
      ensures Valid()
      ensures memoryLimitMB <= 0 ==> ok && Fresh() && tree == old(tree)
      ensures ok && memoryLimitMB > 0 ==> ready && inPod && mounted
      ensures calm ==> (ok <==> memoryLimitMB <= 0 || CanSetUp(old(tree), pid, inPod, mounted))
    {
      if memoryLimitMB > 0 {
        ok := SetupCgroupV2();
        if !ok {
          return false;
        }
      }
      ok := true;
    }

    /** From startup through any number of executions, whatever else happens in the tree. */
    method Run(memoryLimitMB: int, ids: seq<Option<string>>) returns (started: bool, outcomes: seq<ExecOutcome>)
      requires Valid() && Fresh() && memoryLimitMB < INT64_HALF
      modifies this`tree, this`execCgroupBase, this`initLeaf, this`probe, this`ready
      ensures Valid()
      ensures started ==> |outcomes| == |ids|
      ensures started && memoryLimitMB > 0 ==>
                && execCgroupBase.Some? && Migrated(tree, pid, execCgroupBase.value)
                && forall i | 0 <= i < |ids| ::
                     FailedCleanly(outcomes[i]) || RanWithin(outcomes[i], execCgroupBase.value, ids[i], memoryLimitMB)
    {
      outcomes := [];
      started := Startup(memoryLimitMB);
      if !started {
        return;
      }
      for i := 0 to |ids|
        invariant Valid() && |outcomes| == i && (memoryLimitMB > 0 ==> ready)
        invariant memoryLimitMB > 0 ==> forall j | 0 <= j < i ::
          FailedCleanly(outcomes[j]) || RanWithin(outcomes[j], execCgroupBase.value, ids[j], memoryLimitMB)
      {
        Others(None);
        var outcome := Exec(memoryLimitMB, ids[i]);
        if memoryLimitMB > 0 {
          MemoryLimitExact(memoryLimitMB);
          if ids[i].Some? {
            ExecGroupIsNotLeaf(execCgroupBase.value, ids[i].value);
          }
        }
        outcomes := outcomes + [outcome];
      }
    }
  }

  /** `group` and the limits are those the command had when it started; `made` says that the group was new. */
  datatype ExecOutcome =
    | Failed(startFailed: bool, openedFds: nat, closedFds: nat)
    | RanUnlimited
    | RanLimited(
        group: CgPath, made: bool, memoryMax: Option<int>, swapMax: Option<int>,
        openedFds: nat, closedFds: nat, removed: bool)

  predicate FailedCleanly(outcome: ExecOutcome) {
    outcome.Failed? && outcome.openedFds == outcome.closedFds <= 1
  }

  /** Ran in its own group under `base`, next to the init leaf, with the limit, no swap, and no descriptor left open. */
  predicate RanWithin(outcome: ExecOutcome, base: CgPath, id: Option<string>, memoryMB: int) {
    && outcome.RanLimited? && id.Some?
    && outcome.group == base + ["temenos-exec-" + id.value] && outcome.group != base + ["init"]
    && (memoryMB < 0x800_0000_0000 ==> outcome.memoryMax == Some(memoryMB * 0x10_0000))
    && outcome.swapMax == Some(0)
    && outcome.openedFds == outcome.closedFds == 1
  }

  /** The group of one execution and the descriptor that CLONE_INTO_CGROUP needs. */
  class CgroupExec {
    const daemon: Daemon
    const path: CgPath
    const made: bool   // the directory did not exist before
    var fd: int
    var opens: nat     // descriptors opened on the group so far, and closed
    var closes: nat

    ghost predicate Valid()
      reads this
    {
      fd >= -1 && opens == closes + (if fd != -1 then 1 else 0)
    }

    constructor (daemon: Daemon, path: CgPath, made: bool)
      ensures Valid() && this.daemon == daemon && this.path == path && this.made == made
      ensures fd == -1 && opens == 0
    {
      this.daemon, this.path, this.made := daemon, path, made;
      fd, opens, closes := -1, 0, 0;
    }

    /** execWithCgroup: the descriptor is owned by this object until cleanup. */
    method Open() returns (ok: bool)
      requires Valid() && fd == -1
      modifies this
      ensures Valid() && (ok <==> fd != -1)
      ensures opens == old(opens) + if ok then 1 else 0
      ensures daemon.calm ==> ok
    {
      var answer: int := *;
      if daemon.calm {
        answer := 3;
      }
      if answer < 0 {
        return false;
      }
      fd := answer;
      opens := opens + 1;
      return true;
    }

    /**
     * Exactly the processes in the group and below it are killed, if the kernel complies, before the group is
     * removed; whatever was opened is closed, once: a second cleanup closes nothing.
     */
    method Cleanup() returns (killed: bool, removed: bool)
      requires Valid() && daemon.Valid() && !(path <= daemon.tree.procs[daemon.pid])
      modifies this`fd, this`closes, daemon`tree
      ensures Valid() && fd == -1 && closes == opens
      ensures old(fd) == -1 ==> closes == old(closes)
      ensures daemon.Valid() && daemon.tree.procs[daemon.pid] == old(daemon.tree).procs[daemon.pid]
      ensures forall other :: other in daemon.tree.procs <==>
                other in old(daemon.tree).procs && !(killed && path <= old(daemon.tree).procs[other])
      ensures forall other | other in daemon.tree.procs :: daemon.tree.procs[other] == old(daemon.tree).procs[other]
      ensures daemon.tree == old(daemon.tree).(
                procs := daemon.tree.procs,
                nodes := if removed then old(daemon.tree).nodes - {path} else old(daemon.tree).nodes)
      ensures daemon.calm ==> killed
      ensures daemon.calm && path != [] && path in old(daemon.tree).nodes ==>
                (removed <==> !HasChild(old(daemon.tree), path))
      ensures forall base ::
                Migrated(old(daemon.tree), daemon.pid, base) ==> Migrated(daemon.tree, daemon.pid, base)
    {
      killed := daemon.KillGroup(path);
      if fd != -1 {
        fd := -1;
        closes := closes + 1;
      }
      var e := daemon.Perform(Rmdir(path));
      removed := e.Success?;
    }
  }
}
