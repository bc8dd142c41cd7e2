/**
 * All executions of one daemon at once, each in its own control group below the base: sandbox/cgroup.go's
 * newCgroupExec and cleanup around Exec in sandbox/bwrap.go. Ids are fresh when drawn, a group is made whole or
 * not at all, and the kernel does not refuse to kill; then removing a group never fails, and the groups that
 * exist are those of the executions in flight and those that earlier daemons, dying during an execution, left.
 */
module ExecGroups {
  import opened Wrappers
  import opened CgroupKernel
  import opened CgroupRuntime

  /** An execution between newCgroupExec and the end of cleanup. */
  datatype Phase = Created | Started | Ended | Killed

  datatype System = System(k: Kernel, execs: map<string, Phase>)

  datatype Action =
    | Create(id: string)
    | Start(id: string, child: Pid)
    | GiveUp(id: string)                   // the descriptor or the command could not be had
    | End(id: string)                      // the command's first process is gone
    | Fork(parent: Pid, child: Pid)        // a process starts another one next to itself
    | Kill(id: string)
    | Delete(id: string)
    | Other(op: KernelOp)

  function Group(base: CgPath, id: string): CgPath {
    base + [EXEC_PREFIX + id]
  }

  lemma GroupsDiffer(base: CgPath, id: string, id': string)
    ensures Group(base, id) == Group(base, id') <==> id == id'
    ensures Parent(Group(base, id)) == base && Group(base, id) != base + [INIT_LEAF]
  {
    assert (EXEC_PREFIX + id)[|EXEC_PREFIX|..] == id && (EXEC_PREFIX + id')[|EXEC_PREFIX|..] == id';
    assert Group(base, id)[|base|] == EXEC_PREFIX + id && Group(base, id')[|base|] == EXEC_PREFIX + id';
    ExecGroupIsNotLeaf(base, id);
  }

  /** The path is that of an execution's group, or below one. */
  predicate InExec(base: CgPath, p: CgPath) {
    |p| > |base| && p[..|base|] == base && EXEC_PREFIX <= p[|base|]
  }

  /** The id in the name of an execution's group. */
  function IdOf(base: CgPath, p: CgPath): string
    requires InExec(base, p)
  {
    p[|base|][|EXEC_PREFIX|..]
  }

  /** What everything else may do: not under the names that belong to executions, and not to the daemon. */
  predicate Foreign(k: Kernel, op: KernelOp, me: Pid, base: CgPath) {
    && Permits(k, op)
    && (op.Move? || op.Exit? ==> op.pid != me)
    && (op.Move? || op.Spawn? || op.Mkdir? || op.Rmdir? || op.Limit? || op.Enable? ==> !InExec(base, op.path))
  }

  function MakeGroup(k: Kernel, group: CgPath, memoryMB: int): Kernel {
    Apply(Apply(k, Mkdir(group)), Limit(group, MemoryLimit(memoryMB), 0))
  }

  predicate In(s: System, id: string, phase: Phase) {
    id in s.execs && s.execs[id] == phase
  }

  ghost predicate Enabled(s: System, a: Action, me: Pid, base: CgPath) {
    match a
    case Create(id) => id !in s.execs && Permits(s.k, Mkdir(Group(base, id)))
    case Start(id, child) => In(s, id, Created) && child !in s.k.procs
    case GiveUp(id) => In(s, id, Created)
    case End(id) => In(s, id, Started)
    case Fork(parent, child) => parent in s.k.procs && Permits(s.k, Spawn(child, s.k.procs[parent]))
    case Kill(id) => In(s, id, Ended)
    case Delete(id) => In(s, id, Killed)
    case Other(op) => Foreign(s.k, op, me, base)
  }

  function Next(s: System, a: Action, base: CgPath, memoryMB: int): System {
    match a
    case Create(id) => System(MakeGroup(s.k, Group(base, id), memoryMB), s.execs[id := Created])
    case Start(id, child) => System(Apply(s.k, Spawn(child, Group(base, id))), s.execs[id := Started])
    case GiveUp(id) => s.(execs := s.execs[id := Ended])
    case End(id) => s.(execs := s.execs[id := Ended])
    case Fork(parent, child) => if parent in s.k.procs then s.(k := Apply(s.k, Spawn(child, s.k.procs[parent]))) else s
    case Kill(id) => System(KillIn(s.k, Group(base, id)), s.execs[id := Killed])
    case Delete(id) => System(Apply(s.k, Rmdir(Group(base, id))), s.execs - {id})
    case Other(op) => s.(k := Apply(s.k, op))
  }

  /**
   * A group exists just while its execution is in flight, unless it was left behind; then it is nobody's. It has the
   * limit while its execution is in flight, and is empty once killed.
   */
  ghost predicate GroupOk(s: System, left: set<string>, base: CgPath, memoryMB: int, id: string) {
    var group := Group(base, id);
    && (group in s.k.nodes <==> id in s.execs || id in left)
    && !(id in s.execs && id in left)
    && (id in s.execs ==>
          s.k.nodes[group].memoryMax == Some(MemoryLimit(memoryMB)) && s.k.nodes[group].swapMax == Some(0)
          && s.k.nodes[group].subtree == {})
    && (In(s, id, Killed) ==> !Populated(s.k, group))
  }

  /** Nothing is below a group that was not left behind; what was may have any shape. */
  ghost predicate Flat(k: Kernel, left: set<string>, base: CgPath) {
    forall p | p in k.nodes && InExec(base, p) && IdOf(base, p) !in left :: |p| == |base| + 1
  }

  ghost predicate Inv(s: System, left: set<string>, me: Pid, base: CgPath, memoryMB: int) {
    && WellFormed(s.k) && Migrated(s.k, me, base)
    && Flat(s.k, left, base)
    && forall id :: GroupOk(s, left, base, memoryMB, id)
  }

  lemma GroupInExec(base: CgPath, id: string)
    ensures InExec(base, Group(base, id)) && IdOf(base, Group(base, id)) == id && !InExec(base, base + [INIT_LEAF])
  {
    assert Group(base, id)[..|base|] == base;
    assert !(EXEC_PREFIX <= INIT_LEAF) by { assert INIT_LEAF[0] != EXEC_PREFIX[0]; }
    assert (base + [INIT_LEAF])[|base|] == INIT_LEAF;
  }

  lemma ChildInExec(base: CgPath, id: string, q: CgPath)
    requires q != [] && Parent(q) == Group(base, id)
    ensures InExec(base, q) && IdOf(base, q) == id && |q| == |base| + 2
  {
    assert q[..|base|] == Group(base, id)[..|base|] && q[|base|] == Group(base, id)[|base|];
    assert Group(base, id)[..|base|] == base;
  }

  lemma NoChild(s: System, left: set<string>, me: Pid, base: CgPath, memoryMB: int, id: string)
    requires Inv(s, left, me, base, memoryMB) && id !in left
    ensures !HasChild(s.k, Group(base, id))
  {
    forall q | q in s.k.nodes && q != []
      ensures Parent(q) != Group(base, id)
    {
      if Parent(q) == Group(base, id) {
        ChildInExec(base, id, q);
      }
    }
  }

  /** Once its processes are killed, the kernel cannot refuse to remove a group. */
  lemma DeleteNeverFails(s: System, left: set<string>, me: Pid, base: CgPath, memoryMB: int, id: string)
    requires Inv(s, left, me, base, memoryMB) && Enabled(s, Delete(id), me, base)
    ensures Permits(s.k, Rmdir(Group(base, id)))
  {
    assert GroupOk(s, left, base, memoryMB, id);
    NoChild(s, left, me, base, memoryMB, id);
  }

  /** Nor to set the limit of a new group, nor to start the command in it. */
  lemma CreateAndStartNeverFail(
    s: System, left: set<string>, me: Pid, base: CgPath, memoryMB: int, id: string, child: Pid)
    requires Inv(s, left, me, base, memoryMB)
    ensures Enabled(s, Create(id), me, base) ==>
              Permits(Apply(s.k, Mkdir(Group(base, id))), Limit(Group(base, id), MemoryLimit(memoryMB), 0))
    ensures Enabled(s, Start(id, child), me, base) ==> Permits(s.k, Spawn(child, Group(base, id)))
  {
    GroupsDiffer(base, id, id);
    assert GroupOk(s, left, base, memoryMB, id);
  }

  // ---------- Every step keeps the invariant ----------

  /** The kernel operations that a step consists of. */
  ghost predicate Harmless(k: Kernel, op: KernelOp, me: Pid) {
    Permits(k, op) && (op.Move? || op.Exit? ==> op.pid != me)
  }

  lemma OpKeepsTree(k: Kernel, op: KernelOp, me: Pid, base: CgPath)
    requires WellFormed(k) && Migrated(k, me, base) && Harmless(k, op, me)
    ensures WellFormed(Apply(k, op)) && Migrated(Apply(k, op), me, base)
  {
    OtherStepMeetsRely(k, op, me, None);
    MigratedSurvives(k, Apply(k, op), me, base, None);
  }

  lemma StepKeepsTree(s: System, left: set<string>, a: Action, me: Pid, base: CgPath, memoryMB: int)
    requires Inv(s, left, me, base, memoryMB) && Enabled(s, a, me, base)
    ensures WellFormed(Next(s, a, base, memoryMB).k) && Migrated(Next(s, a, base, memoryMB).k, me, base)
  {
    match a
    case Create(id) =>
      CreateAndStartNeverFail(s, left, me, base, memoryMB, id, 0);
      OpKeepsTree(s.k, Mkdir(Group(base, id)), me, base);
      OpKeepsTree(Apply(s.k, Mkdir(Group(base, id))), Limit(Group(base, id), MemoryLimit(memoryMB), 0), me, base);
    case Start(id, child) =>
      CreateAndStartNeverFail(s, left, me, base, memoryMB, id, child);
      OpKeepsTree(s.k, Spawn(child, Group(base, id)), me, base);
    case Fork(parent, child) => OpKeepsTree(s.k, Spawn(child, s.k.procs[parent]), me, base);
    case Kill(id) =>
      KillKeepsWellFormed(s.k, Group(base, id));
      GroupsDiffer(base, id, id);
    case Delete(id) =>
      DeleteNeverFails(s, left, me, base, memoryMB, id);
      OpKeepsTree(s.k, Rmdir(Group(base, id)), me, base);
    case Other(op) => OpKeepsTree(s.k, op, me, base);
    case _ =>
  }

  lemma StepKeepsFlat(s: System, left: set<string>, a: Action, me: Pid, base: CgPath, memoryMB: int)
    requires Inv(s, left, me, base, memoryMB) && Enabled(s, a, me, base)
    ensures Flat(Next(s, a, base, memoryMB).k, left, base)
  {
  }

  lemma ForeignKeepsGroup(s: System, left: set<string>, op: KernelOp, me: Pid, base: CgPath, memoryMB: int, id: string)
    requires Foreign(s.k, op, me, base) && GroupOk(s, left, base, memoryMB, id)
    ensures GroupOk(s.(k := Apply(s.k, op)), left, base, memoryMB, id)
  {
    GroupInExec(base, id);
  }

  lemma ForkKeepsGroup(s: System, left: set<string>, parent: Pid, child: Pid, base: CgPath, memoryMB: int, id: string)
    requires parent in s.k.procs && GroupOk(s, left, base, memoryMB, id)
    ensures GroupOk(s.(k := Apply(s.k, Spawn(child, s.k.procs[parent]))), left, base, memoryMB, id)
  {
    assert Populated(s.k, s.k.procs[parent]);
  }

  lemma CreateKeepsGroup(s: System, left: set<string>, other: string, base: CgPath, memoryMB: int, id: string)
    requires Permits(s.k, Mkdir(Group(base, other))) && GroupOk(s, left, base, memoryMB, id)
    ensures GroupOk(Next(s, Create(other), base, memoryMB), left, base, memoryMB, id)
  {
    GroupsDiffer(base, id, other);
  }

  lemma StartKeepsGroup(
    s: System, left: set<string>, other: string, child: Pid, base: CgPath, memoryMB: int, id: string)
    requires other in s.execs && GroupOk(s, left, base, memoryMB, id)
    ensures GroupOk(Next(s, Start(other, child), base, memoryMB), left, base, memoryMB, id)
  {
    GroupsDiffer(base, id, other);
  }

  lemma KillKeepsGroup(s: System, left: set<string>, other: string, base: CgPath, memoryMB: int, id: string)
    requires other in s.execs && GroupOk(s, left, base, memoryMB, id)
    ensures GroupOk(Next(s, Kill(other), base, memoryMB), left, base, memoryMB, id)
  {
    GroupsDiffer(base, id, other);
  }

  lemma DeleteKeepsGroup(s: System, left: set<string>, other: string, base: CgPath, memoryMB: int, id: string)
    requires other !in left && GroupOk(s, left, base, memoryMB, id)
    ensures GroupOk(Next(s, Delete(other), base, memoryMB), left, base, memoryMB, id)
  {
    GroupsDiffer(base, id, other);
  }

  lemma StepKeepsGroup(s: System, left: set<string>, a: Action, me: Pid, base: CgPath, memoryMB: int, id: string)
    requires Inv(s, left, me, base, memoryMB) && Enabled(s, a, me, base)
    ensures GroupOk(Next(s, a, base, memoryMB), left, base, memoryMB, id)
  {
    assert GroupOk(s, left, base, memoryMB, id);
    match a
    case Create(other) => CreateKeepsGroup(s, left, other, base, memoryMB, id);
    case Start(other, child) => StartKeepsGroup(s, left, other, child, base, memoryMB, id);
    case Fork(parent, child) => ForkKeepsGroup(s, left, parent, child, base, memoryMB, id);
    case Kill(other) => KillKeepsGroup(s, left, other, base, memoryMB, id);
    case Delete(other) =>
      assert GroupOk(s, left, base, memoryMB, other);
      DeleteKeepsGroup(s, left, other, base, memoryMB, id);
    case Other(op) => ForeignKeepsGroup(s, left, op, me, base, memoryMB, id);
    case _ =>
  }

  lemma StepKeepsInv(s: System, left: set<string>, a: Action, me: Pid, base: CgPath, memoryMB: int)
    requires Inv(s, left, me, base, memoryMB) && Enabled(s, a, me, base)
    ensures Inv(Next(s, a, base, memoryMB), left, me, base, memoryMB)
  {
    StepKeepsTree(s, left, a, me, base, memoryMB);
    StepKeepsFlat(s, left, a, me, base, memoryMB);
    forall id
      ensures GroupOk(Next(s, a, base, memoryMB), left, base, memoryMB, id)
    {
      StepKeepsGroup(s, left, a, me, base, memoryMB, id);
    }
  }

  ghost predicate AllEnabled(s: System, actions: seq<Action>, me: Pid, base: CgPath, memoryMB: int)
    decreases |actions|
  {
    actions != [] ==>
      && Enabled(s, actions[0], me, base)
      && AllEnabled(Next(s, actions[0], base, memoryMB), actions[1..], me, base, memoryMB)
  }

  function RunAll(s: System, actions: seq<Action>, base: CgPath, memoryMB: int): System
    decreases |actions|
  {
    if actions == [] then s else RunAll(Next(s, actions[0], base, memoryMB), actions[1..], base, memoryMB)
  }

  lemma {:induction false} RunKeepsInv(
    s: System, left: set<string>, actions: seq<Action>, me: Pid, base: CgPath, memoryMB: int)
    requires Inv(s, left, me, base, memoryMB) && AllEnabled(s, actions, me, base, memoryMB)
    ensures Inv(RunAll(s, actions, base, memoryMB), left, me, base, memoryMB)
    decreases |actions|
  {
    if actions != [] {
      StepKeepsInv(s, left, actions[0], me, base, memoryMB);
      RunKeepsInv(Next(s, actions[0], base, memoryMB), left, actions[1..], me, base, memoryMB);
    }
  }

  // ---------- Theorems ----------

  /** The ids of the groups that exist. */
  ghost function IdsOfGroups(k: Kernel, base: CgPath): set<string> {
    set p | p in k.nodes && InExec(base, p) && p == Group(base, IdOf(base, p)) :: IdOf(base, p)
  }

  lemma IdsOfGroupsAre(k: Kernel, base: CgPath, id: string)
    ensures id in IdsOfGroups(k, base) <==> Group(base, id) in k.nodes
  {
    GroupInExec(base, id);
  }

  /** A migrated daemon with no execution in flight, on whatever tree was left. */
  ghost predicate AtRest(s: System, me: Pid, base: CgPath) {
    WellFormed(s.k) && Migrated(s.k, me, base) && s.execs == map[]
  }

  lemma InExecHasGroup(k: Kernel, base: CgPath, p: CgPath)
    requires WellFormed(k) && p in k.nodes && InExec(base, p)
    ensures IdOf(base, p) in IdsOfGroups(k, base)
  {
    var group := p[..|base| + 1];
    AncestorsExist(k, group, p);
    assert group[..|base|] == base && group[|base|] == p[|base|];
    assert p[|base|] == EXEC_PREFIX + IdOf(base, p);
    assert group == Group(base, IdOf(base, p));
    IdsOfGroupsAre(k, base, IdOf(base, p));
  }

  lemma StartInv(s: System, me: Pid, base: CgPath, memoryMB: int)
    requires AtRest(s, me, base)
    ensures Inv(s, IdsOfGroups(s.k, base), me, base, memoryMB)
  {
    forall id
      ensures GroupOk(s, IdsOfGroups(s.k, base), base, memoryMB, id)
    {
      IdsOfGroupsAre(s.k, base, id);
    }
    forall p | p in s.k.nodes && InExec(base, p)
      ensures IdOf(base, p) in IdsOfGroups(s.k, base)
    {
      InExecHasGroup(s.k, base, p);
    }
  }

  /**
   * Over every run, from any tree that earlier daemons left: this daemon stays in its leaf, no process is in the
   * base, each execution in flight has its group with its limit, and the groups that exist are those and the ones
   * that were left.
   */
  lemma GroupsAreInFlightOrLeft(s: System, actions: seq<Action>, me: Pid, base: CgPath, memoryMB: int, id: string)
    requires AtRest(s, me, base) && AllEnabled(s, actions, me, base, memoryMB) && !ExemptRoot(s.k, base)
    ensures var t, left := RunAll(s, actions, base, memoryMB), IdsOfGroups(s.k, base);
            && Migrated(t.k, me, base)
            && (forall pid | pid in t.k.procs :: t.k.procs[pid] != base)
            && (Group(base, id) in t.k.nodes <==> id in t.execs || id in left)
            && !(id in t.execs && id in left)
            && (id in t.execs ==> t.k.nodes[Group(base, id)].memoryMax == Some(MemoryLimit(memoryMB)))
            && (id in t.execs ==> t.k.nodes[Group(base, id)].swapMax == Some(0))
  {
    var t, left := RunAll(s, actions, base, memoryMB), IdsOfGroups(s.k, base);
    StartInv(s, me, base, memoryMB);
    RunKeepsInv(s, left, actions, me, base, memoryMB);
    SameRoot(s, actions, base, memoryMB);
    NoInternalProcess(t.k, me, base);
    assert GroupOk(t, left, base, memoryMB, id);
  }

  /** When nothing was left, the groups that exist are those of the executions in flight, and at rest there is none. */
  lemma LiveGroupsAreInFlight(s: System, actions: seq<Action>, me: Pid, base: CgPath, memoryMB: int, id: string)
    requires AtRest(s, me, base) && AllEnabled(s, actions, me, base, memoryMB) && !ExemptRoot(s.k, base)
    requires forall p | p in s.k.nodes :: !InExec(base, p)
    ensures var t := RunAll(s, actions, base, memoryMB);
            && Migrated(t.k, me, base)
            && (forall pid | pid in t.k.procs :: t.k.procs[pid] != base)
            && (Group(base, id) in t.k.nodes <==> id in t.execs)
            && (id in t.execs ==> t.k.nodes[Group(base, id)].memoryMax == Some(MemoryLimit(memoryMB)))
            && (id in t.execs ==> t.k.nodes[Group(base, id)].swapMax == Some(0))
  {
    assert IdsOfGroups(s.k, base) == {};
    GroupsAreInFlightOrLeft(s, actions, me, base, memoryMB, id);
  }

  /** A daemon that dies leaves exactly the groups of its executions in flight, on top of what it had found. */
  lemma CrashLeavesInFlight(s: System, actions: seq<Action>, me: Pid, base: CgPath, memoryMB: int)
    requires AtRest(s, me, base) && AllEnabled(s, actions, me, base, memoryMB)
    ensures var t := RunAll(s, actions, base, memoryMB);
            IdsOfGroups(t.k, base) == IdsOfGroups(s.k, base) + t.execs.Keys
  {
    StartInv(s, me, base, memoryMB);
    RunKeepsInv(s, IdsOfGroups(s.k, base), actions, me, base, memoryMB);
    GroupsOfInv(RunAll(s, actions, base, memoryMB), IdsOfGroups(s.k, base), me, base, memoryMB);
  }

  lemma GroupsOfInv(t: System, left: set<string>, me: Pid, base: CgPath, memoryMB: int)
    requires Inv(t, left, me, base, memoryMB)
    ensures IdsOfGroups(t.k, base) == left + t.execs.Keys
  {
    forall id
      ensures id in IdsOfGroups(t.k, base) <==> id in left || id in t.execs
    {
      assert GroupOk(t, left, base, memoryMB, id);
      IdsOfGroupsAre(t.k, base, id);
    }
  }

  lemma {:induction false} SameRoot(s: System, actions: seq<Action>, base: CgPath, memoryMB: int)
    ensures RunAll(s, actions, base, memoryMB).k.systemRoot == s.k.systemRoot
    decreases |actions|
  {
    if actions != [] {
      SameRoot(Next(s, actions[0], base, memoryMB), actions[1..], base, memoryMB);
    }
  }

  /** How an execution goes on from each phase without anything else. */
  function Rest(phase: Phase, id: string, child: Pid): seq<Action> {
    match phase
    case Created => [Start(id, child), End(id), Kill(id), Delete(id)]
    case Started => [End(id), Kill(id), Delete(id)]
    case Ended => [Kill(id), Delete(id)]
    case Killed => [Delete(id)]
  }

  lemma OneStep(s: System, a: Action, rest: seq<Action>, me: Pid, base: CgPath, memoryMB: int)
    requires Enabled(s, a, me, base) && AllEnabled(Next(s, a, base, memoryMB), rest, me, base, memoryMB)
    ensures AllEnabled(s, [a] + rest, me, base, memoryMB)
    ensures RunAll(s, [a] + rest, base, memoryMB) == RunAll(Next(s, a, base, memoryMB), rest, base, memoryMB)
  {
    assert ([a] + rest)[1..] == rest;
  }

  /**
   * No execution is ever stuck: from wherever it stands, with any others in flight, it can go on to the end, and then
   * it is gone with its group and the processes in it, and the others are where they were.
   */
  lemma {:induction false} EveryExecutionCanEnd(s: System, me: Pid, base: CgPath, memoryMB: int, id: string, child: Pid)
    requires id in s.execs && child !in s.k.procs
    ensures var actions := Rest(s.execs[id], id, child);
            && AllEnabled(s, actions, me, base, memoryMB)
            && var t := RunAll(s, actions, base, memoryMB);
               && t.execs == s.execs - {id} && t.k.nodes == s.k.nodes - {Group(base, id)}
               && (forall pid | pid in t.k.procs :: pid in s.k.procs && t.k.procs[pid] == s.k.procs[pid])
               && (forall pid | pid in s.k.procs && !(Group(base, id) <= s.k.procs[pid]) :: pid in t.k.procs)
               && (s.execs[id] != Killed ==> forall pid | pid in t.k.procs :: !(Group(base, id) <= t.k.procs[pid]))
    decreases |Rest(s.execs[id], id, child)|
  {
    var actions := Rest(s.execs[id], id, child);
    var next := Next(s, actions[0], base, memoryMB);
    assert actions == [actions[0]] + actions[1..];
    if s.execs[id] == Killed {
      assert actions[1..] == [];
    } else {
      assert actions[1..] == Rest(next.execs[id], id, child);
      var unused := SomePidIsFree(next.k.procs.Keys);
      EveryExecutionCanEnd(next, me, base, memoryMB, id, unused);
      assert Rest(next.execs[id], id, unused) == Rest(next.execs[id], id, child);
    }
    OneStep(s, actions[0], actions[1..], me, base, memoryMB);
  }

  /** And a new one can begin under every id whose group is not there, however many are in flight. */
  lemma EveryIdCanBegin(s: System, left: set<string>, me: Pid, base: CgPath, memoryMB: int, id: string)
    requires Inv(s, left, me, base, memoryMB) && id !in s.execs && id !in left
    ensures Enabled(s, Create(id), me, base)
    ensures In(Next(s, Create(id), base, memoryMB), id, Created)
  {
    assert GroupOk(s, left, base, memoryMB, id);
    GroupsDiffer(base, id, id);
  }
}
