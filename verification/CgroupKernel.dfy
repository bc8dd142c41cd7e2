/**
 * The part of the kernel's control group v2 tree that the sandbox relies on: the sections "Enabling and
 * Disabling", "Top-down Constraint" and "No Internal Process Constraint" of the Linux kernel's
 * Control Group v2 document. Paths are component lists below the cgroup root that the daemon sees.
 */
module CgroupKernel {
  import opened Wrappers

  type CgPath = seq<string>
  type Pid = nat

  datatype Controller = Memory | Io | Cpu | Pids

  /** `subtree` is cgroup.subtree_control; the limits are memory.max and memory.swap.max. */
  datatype Node = Node(subtree: set<Controller>, memoryMax: Option<int>, swapMax: Option<int>)

  /**
   * `delegated` is what the host enables for the visible root; `systemRoot` says whether that root is the
   * system's own, which alone may hold processes and distribute domain resources at once.
   */
  datatype Kernel = Kernel(
    nodes: map<CgPath, Node>,
    procs: map<Pid, CgPath>,
    delegated: set<Controller>,
    systemRoot: bool)

  function Parent(p: CgPath): CgPath
    requires p != []
  {
    p[..|p| - 1]
  }

  /** cgroup.controllers: what the parent's subtree_control hands down. */
  function Controllers(k: Kernel, p: CgPath): set<Controller> {
    if p == [] then k.delegated
    else if Parent(p) in k.nodes then k.nodes[Parent(p)].subtree
    else {}
  }

  predicate IsDomain(c: Controller) {
    c.Memory? || c.Io?
  }

  predicate Populated(k: Kernel, p: CgPath) {
    exists pid :: pid in k.procs && k.procs[pid] == p
  }

  predicate ExemptRoot(k: Kernel, p: CgPath) {
    p == [] && k.systemRoot
  }

  /** Whether p hands domain controllers down, and so may not hold processes. */
  predicate Distributes(k: Kernel, p: CgPath) {
    && p in k.nodes && !ExemptRoot(k, p)
    && exists c :: c in k.nodes[p].subtree && IsDomain(c)
  }

  predicate HasChild(k: Kernel, p: CgPath) {
    exists q :: q in k.nodes && q != [] && Parent(q) == p
  }

  ghost predicate NodeOk(k: Kernel, p: CgPath)
    requires p in k.nodes
  {
    && (p != [] ==> Parent(p) in k.nodes)
    && k.nodes[p].subtree <= Controllers(k, p)
  }

  /** What the kernel keeps true at every moment, whoever acts. */
  ghost predicate WellFormed(k: Kernel) {
    && [] in k.nodes
    && (forall p {:trigger NodeOk(k, p)} | p in k.nodes :: NodeOk(k, p))
    && (forall pid | pid in k.procs :: k.procs[pid] in k.nodes && !Distributes(k, k.procs[pid]))
  }

  datatype KernelOp =
    | Mkdir(path: CgPath)
    | Rmdir(path: CgPath)
    | Move(pid: Pid, path: CgPath)     // write to cgroup.procs
    | Spawn(pid: Pid, path: CgPath)    // fork, or clone3 with CLONE_INTO_CGROUP
    | Exit(pid: Pid)
    | Enable(path: CgPath, controller: Controller)
    | Limit(path: CgPath, memoryMax: int, swapMax: int)

  predicate Permits(k: Kernel, op: KernelOp) {
    match op
    case Mkdir(p) => p != [] && p !in k.nodes && Parent(p) in k.nodes
    case Rmdir(p) => p != [] && p in k.nodes && !HasChild(k, p) && !Populated(k, p)
    case Move(pid, p) => pid in k.procs && p in k.nodes && !Distributes(k, p)
    case Spawn(pid, p) => pid !in k.procs && p in k.nodes && !Distributes(k, p)
    case Exit(pid) => pid in k.procs
    case Enable(p, c) =>
      p in k.nodes && c in Controllers(k, p)
      && (IsDomain(c) && c !in k.nodes[p].subtree ==> !Populated(k, p) || ExemptRoot(k, p))
    case Limit(p, _, _) => p != [] && p in k.nodes && Memory in Controllers(k, p)
  }

  function Apply(k: Kernel, op: KernelOp): Kernel {
    match op
    case Mkdir(p) => k.(nodes := k.nodes[p := Node({}, None, None)])
    case Rmdir(p) => k.(nodes := k.nodes - {p})
    case Move(pid, p) => k.(procs := k.procs[pid := p])
    case Spawn(pid, p) => k.(procs := k.procs[pid := p])
    case Exit(pid) => k.(procs := k.procs - {pid})
    case Enable(p, c) =>
      if p in k.nodes then k.(nodes := k.nodes[p := k.nodes[p].(subtree := k.nodes[p].subtree + {c})]) else k
    case Limit(p, max, swap) =>
      if p in k.nodes then k.(nodes := k.nodes[p := k.nodes[p].(memoryMax := Some(max), swapMax := Some(swap))]) else k
  }

  /** cgroup.kill: the processes of the group and of those below it are gone. */
  function KillIn(k: Kernel, group: CgPath): Kernel {
    k.(procs := map pid | pid in k.procs && !(group <= k.procs[pid]) :: k.procs[pid])
  }

  lemma KillKeepsWellFormed(k: Kernel, group: CgPath)
    requires WellFormed(k)
    ensures WellFormed(KillIn(k, group)) && !Populated(KillIn(k, group), group)
  {
    forall p | p in k.nodes
      ensures NodeOk(KillIn(k, group), p)
    {
      assert NodeOk(k, p);
    }
  }

  lemma OpKeepsNodes(k: Kernel, op: KernelOp, p: CgPath)
    requires WellFormed(k) && Permits(k, op) && p in Apply(k, op).nodes
    ensures NodeOk(Apply(k, op), p)
  {
    var t := Apply(k, op);
    if p in k.nodes {
      assert NodeOk(k, p);
      assert Controllers(k, p) <= Controllers(t, p);
    }
  }

  lemma OpKeepsProcs(k: Kernel, op: KernelOp, pid: Pid)
    requires WellFormed(k) && Permits(k, op) && pid in Apply(k, op).procs
    ensures var p := Apply(k, op).procs[pid];
            p in Apply(k, op).nodes && !Distributes(Apply(k, op), p)
  {
    var p := Apply(k, op).procs[pid];
    if pid in k.procs && k.procs[pid] == p {
      assert Populated(k, p);
    }
  }

  /** Nothing the kernel permits breaks its rules, so they hold after any history, crashes included. */
  lemma OpKeepsWellFormed(k: Kernel, op: KernelOp)
    requires WellFormed(k) && Permits(k, op)
    ensures WellFormed(Apply(k, op))
  {
    forall p | p in Apply(k, op).nodes
      ensures NodeOk(Apply(k, op), p)
    {
      OpKeepsNodes(k, op, p);
    }
    forall pid | pid in Apply(k, op).procs
      ensures Apply(k, op).procs[pid] in Apply(k, op).nodes && !Distributes(Apply(k, op), Apply(k, op).procs[pid])
    {
      OpKeepsProcs(k, op, pid);
    }
  }

  // ---------- What others may do meanwhile ----------

  predicate Within(group: CgPath, p: CgPath) {
    group <= p
  }

  /**
   * Any process but `me` may do anything the kernel permits, except that the group `mine` is the daemon's to
   * make, limit and remove (processes started inside it may fork and exit), and nobody disables a controller.
   */
  predicate OthersMay(k: Kernel, op: KernelOp, me: Pid, mine: Option<CgPath>) {
    && Permits(k, op)
    && (op.Move? || op.Spawn? || op.Exit? ==> op.pid != me)
    && (op.Mkdir? || op.Rmdir? || op.Limit? ==> mine.Some? ==> !Within(mine.value, op.path))
  }

  /** What interference leaves the daemon: its place, the controllers above it, and its own group. */
  ghost predicate Rely(k: Kernel, t: Kernel, me: Pid, mine: Option<CgPath>) {
    && WellFormed(t)
    && (me in k.procs ==> me in t.procs && t.procs[me] == k.procs[me])
    && (me in k.procs ==> forall p | p <= k.procs[me] && p in k.nodes ::
          p in t.nodes && k.nodes[p].subtree <= t.nodes[p].subtree)
    && (mine.Some? ==>
          && (mine.value in k.nodes <==> mine.value in t.nodes)
          && (mine.value in k.nodes ==>
                t.nodes[mine.value].memoryMax == k.nodes[mine.value].memoryMax
                && t.nodes[mine.value].swapMax == k.nodes[mine.value].swapMax))
  }

  lemma {:induction false} AncestorsExist(k: Kernel, p: CgPath, q: CgPath)
    requires WellFormed(k) && q in k.nodes && p <= q
    ensures p in k.nodes
    decreases |q|
  {
    if p != q {
      assert NodeOk(k, q);
      AncestorsExist(k, p, Parent(q));
    }
  }

  lemma AncestorNotRemoved(k: Kernel, p: CgPath, me: Pid)
    requires WellFormed(k) && me in k.procs && p <= k.procs[me]
    ensures p in k.nodes && (Populated(k, p) || HasChild(k, p))
  {
    var q := k.procs[me];
    AncestorsExist(k, p, q);
    if p != q {
      var child := q[..|p| + 1];
      AncestorsExist(k, child, q);
      assert Parent(child) == p;
    }
  }

  lemma OtherStepMeetsRely(k: Kernel, op: KernelOp, me: Pid, mine: Option<CgPath>)
    requires WellFormed(k) && OthersMay(k, op, me, mine)
    ensures Rely(k, Apply(k, op), me, mine)
  {
    OpKeepsWellFormed(k, op);
    var t := Apply(k, op);
    if me in k.procs {
      forall p | p <= k.procs[me] && p in k.nodes
        ensures p in t.nodes && k.nodes[p].subtree <= t.nodes[p].subtree
      {
        AncestorNotRemoved(k, p, me);
      }
    }
  }

  lemma RelyTransitive(k: Kernel, t: Kernel, u: Kernel, me: Pid, mine: Option<CgPath>)
    requires Rely(k, t, me, mine) && Rely(t, u, me, mine)
    ensures Rely(k, u, me, mine)
  {
  }

  ghost predicate AllOthers(k: Kernel, ops: seq<KernelOp>, me: Pid, mine: Option<CgPath>)
    decreases |ops|
  {
    ops != [] ==> OthersMay(k, ops[0], me, mine) && AllOthers(Apply(k, ops[0]), ops[1..], me, mine)
  }

  function ApplyAll(k: Kernel, ops: seq<KernelOp>): Kernel
    decreases |ops|
  {
    if ops == [] then k else ApplyAll(Apply(k, ops[0]), ops[1..])
  }

  /** Any number of steps by others leave the daemon what Rely says. */
  lemma {:induction false} OthersMeetRely(k: Kernel, ops: seq<KernelOp>, me: Pid, mine: Option<CgPath>)
    requires WellFormed(k) && AllOthers(k, ops, me, mine)
    ensures Rely(k, ApplyAll(k, ops), me, mine)
    decreases |ops|
  {
    if ops != [] {
      OtherStepMeetsRely(k, ops[0], me, mine);
      OthersMeetRely(Apply(k, ops[0]), ops[1..], me, mine);
      RelyTransitive(k, Apply(k, ops[0]), ApplyAll(k, ops), me, mine);
    }
  }
}
