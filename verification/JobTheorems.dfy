/** What holds over whole runs of the job protocol, in terms of the history of actions alone. */
module JobTheorems {
  import opened Wrappers
  import opened Numerals
  import opened Jobs
  import opened JobProtocol

  datatype Behavior = Behavior(states: seq<State>, actions: seq<Action>)

  ghost predicate StepAt(b: Behavior, i: nat)
    requires i < |b.actions| && |b.states| == |b.actions| + 1
  {
    Enabled(b.states[i], b.actions[i]) && b.states[i + 1] == Apply(b.states[i], b.actions[i])
  }

  /** The daemon from its start, under some interleaving. */
  ghost predicate IsBehavior(b: Behavior) {
    && |b.states| == |b.actions| + 1
    && Init(b.states[0])
    && forall i | 0 <= i < |b.actions| :: StepAt(b, i)
  }

  ghost predicate HasRun(b: Behavior, n: nat, r: nat) {
    n < |b.states| && r < |b.states[n].runs|
  }

  ghost function RunAt(b: Behavior, n: nat, r: nat): Run
    requires HasRun(b, n, r)
  {
    b.states[n].runs[r]
  }

  /** Action k does `op` to run r. */
  ghost predicate Does(b: Behavior, k: nat, r: nat, op: Op) {
    k < |b.actions| && k < |b.states| && OpOf(b.states[k], b.actions[k]) == Some((r, op))
  }

  lemma InvNext(s: State, a: Action, t: State)
    requires Inv(s) && Enabled(s, a) && t == Apply(s, a)
    ensures Inv(t)
  {
    StepKeepsInv(s, a);
  }

  lemma {:induction false} InvAt(b: Behavior, n: nat)
    requires IsBehavior(b) && n < |b.states|
    ensures Inv(b.states[n])
  {
    if n == 0 {
      InitInv(b.states[0]);
    } else {
      InvAt(b, n - 1);
      assert StepAt(b, n - 1);
      InvNext(b.states[n - 1], b.actions[n - 1], b.states[n]);
    }
  }

  /** The clock never goes back. */
  lemma {:induction false} ClockGoesOn(b: Behavior, i: nat, j: nat)
    requires IsBehavior(b) && i <= j < |b.states|
    ensures b.states[i].now <= b.states[j].now
    decreases j - i
  {
    if i < j {
      ClockGoesOn(b, i, j - 1);
      assert StepAt(b, j - 1);
    }
  }

  lemma RunInvAt(b: Behavior, n: nat, r: nat)
    requires IsBehavior(b) && HasRun(b, n, r)
    ensures RunInv(RunAt(b, n, r))
  {
    InvAt(b, n);
  }

  lemma EvolvesStep(b: Behavior, n: nat, r: nat)
    requires IsBehavior(b) && n < |b.actions| && HasRun(b, n, r)
    ensures HasRun(b, n + 1, r) && Evolves(RunAt(b, n, r), RunAt(b, n + 1, r))
  {
    InvAt(b, n);
    assert StepAt(b, n);
    StepKeepsRun(b.states[n], b.actions[n], r);
  }

  lemma {:induction false} EvolvesBetween(b: Behavior, i: nat, j: nat, r: nat)
    requires IsBehavior(b) && HasRun(b, i, r) && i <= j < |b.states|
    ensures HasRun(b, j, r) && Evolves(RunAt(b, i, r), RunAt(b, j, r))
    decreases j - i
  {
    if i < j {
      EvolvesBetween(b, i, j - 1, r);
      EvolvesStep(b, j - 1, r);
      EvolvesTransitive(RunAt(b, i, r), RunAt(b, j - 1, r), RunAt(b, j, r));
    }
  }

  /** From one state to the next a run is new, untouched, or changed by one operation. */
  lemma RunStep(b: Behavior, n: nat, r: nat) returns (op: Option<Op>)
    requires IsBehavior(b) && n < |b.actions| && HasRun(b, n + 1, r)
    ensures HasRun(b, n, r) ==>
              match op
              case Some(o) =>
                Does(b, n, r, o) && OpEnabled(RunAt(b, n, r), o, b.states[n].now)
                && RunAt(b, n + 1, r) == ApplyOp(RunAt(b, n, r), o, b.states[n].now)
              case None => RunAt(b, n + 1, r) == RunAt(b, n, r) && forall o :: !Does(b, n, r, o)
    ensures !HasRun(b, n, r) ==>
              var run := RunAt(b, n + 1, r);
              run.handler.Preparing? && run.worker.NotStarted? && Unfinished(run.job) && !Registered(run)
              && !run.innerEnded && !run.outerEnded
  {
    assert StepAt(b, n);
    var touched := OpOf(b.states[n], b.actions[n]);
    op := if touched.Some? && touched.value.0 == r then Some(touched.value.1) else None;
  }

  // ---------- Publication order ----------

  /**
   * done closed implies cleanup ran, which implies a terminal status, which implies that both buffers
   * hold everything Exec returned and that the completion time and exit code are in place.
   */
  lemma Publication(b: Behavior, n: nat, r: nat)
    requires IsBehavior(b) && HasRun(b, n, r)
    ensures var run := RunAt(b, n, r);
            && (run.done ==> run.cleaned)
            && (run.cleaned ==> run.job.Terminal())
            && (run.job.Terminal() ==>
                  OutputComplete(run) && run.job.completedAt.Some? && run.job.exitCode == run.result.value.exitCode)
  {
    RunInvAt(b, n, r);
  }

  /** What a full read of an ended job shows of the two streams, and of the rest. */
  lemma ShowsAll(run: Run)
    requires RunInv(run) && run.job.Terminal()
    ensures run.result.Some?
    ensures var info, result := Info(run.job, true), run.result.value;
            var raw := (if result.err.Some? then result.err.value + "\n" else "") + result.stderr;
            && (|result.stdout| <= 65536 ==> info.stdout == result.stdout)
            && (|result.stdout| > 65536 ==> info.stdout == result.stdout[..65536] + "\n...(truncated)")
            && (|raw| <= 65536 ==> info.stderr == raw)
            && (|raw| > 65536 ==> info.stderr == raw[..65536] + "\n...(truncated)")
            && info.exitCode == result.exitCode && info.completedAt.Some? && info.status != Running
  {
  }

  lemma ShowsTheSame(before: Run, after: Run)
    requires JobEvolves(before, after) && Registered(before) && Started(before) && before.job.Terminal()
    ensures Info(after.job, true) == Info(before.job, true)
  {
  }

  /**
   * A full read of a registered job that has ended carries all the output, and every later one is the same.
   */
  lemma ReadsAreFinal(b: Behavior, i: nat, j: nat, r: nat)
    requires IsBehavior(b) && HasRun(b, i, r) && i <= j < |b.states|
    requires Registered(RunAt(b, i, r)) && RunAt(b, i, r).job.Terminal()
    ensures HasRun(b, j, r) && Info(RunAt(b, j, r).job, true) == Info(RunAt(b, i, r).job, true)
    ensures RunAt(b, i, r).result.Some?
    ensures var info := Info(RunAt(b, j, r).job, true);
            var result := RunAt(b, i, r).result.value;
            var raw := (if result.err.Some? then result.err.value + "\n" else "") + result.stderr;
            && (|result.stdout| <= 65536 ==> info.stdout == result.stdout)
            && (|result.stdout| > 65536 ==> info.stdout == result.stdout[..65536] + "\n...(truncated)")
            && (|raw| <= 65536 ==> info.stderr == raw)
            && (|raw| > 65536 ==> info.stderr == raw[..65536] + "\n...(truncated)")
            && info.exitCode == result.exitCode && info.completedAt.Some? && info.status != Running
  {
    RunInvAt(b, i, r);
    EvolvesBetween(b, i, j, r);
    ShowsAll(RunAt(b, i, r));
    ShowsTheSame(RunAt(b, i, r), RunAt(b, j, r));
  }

  // ---------- No result is lost unread ----------

  ghost predicate FullyReads(b: Behavior, k: nat, r: nat) {
    Does(b, k, r, FullRead) || Does(b, k, r, ReadOwn)
  }

  /** When run r was first read in full after it ended, among the first n actions. */
  ghost function FirstRead(b: Behavior, n: nat, r: nat): Option<Time>
    requires n < |b.states|
  {
    if n == 0 then None
    else if FirstRead(b, n - 1, r).Some? then FirstRead(b, n - 1, r)
    else if HasRun(b, n - 1, r) && RunAt(b, n - 1, r).job.Terminal() && FullyReads(b, n - 1, r)
    then Some(b.states[n - 1].now)
    else None
  }

  lemma OpStartsCountdown(run: Run, op: Op, now: Time)
    requires RunInv(run) && OpEnabled(run, op, now)
    ensures ApplyOp(run, op, now).job.lastAccessedAt
            == if run.job.lastAccessedAt.Some? then run.job.lastAccessedAt
               else if run.job.Terminal() && (op.FullRead? || op.ReadOwn?) then Some(now)
               else None
  {
  }

  /** The countdown starts at the first full read of the ended job: listing never starts it, reads never move it. */
  lemma {:induction false} CountdownStartsAtFirstRead(b: Behavior, n: nat, r: nat)
    requires IsBehavior(b) && n < |b.states|
    ensures FirstRead(b, n, r) == if HasRun(b, n, r) then RunAt(b, n, r).job.lastAccessedAt else None
  {
    if n > 0 {
      CountdownStartsAtFirstRead(b, n - 1, r);
      if HasRun(b, n, r) {
        var op := RunStep(b, n - 1, r);
        if HasRun(b, n - 1, r) {
          RunInvAt(b, n - 1, r);
          if op.Some? {
            OpStartsCountdown(RunAt(b, n - 1, r), op.value, b.states[n - 1].now);
          }
        }
      } else {
        NoOpWithoutRun(b, n - 1, r);
      }
    }
  }

  lemma NoOpWithoutRun(b: Behavior, n: nat, r: nat)
    requires IsBehavior(b) && n < |b.actions| && !HasRun(b, n + 1, r)
    ensures !HasRun(b, n, r)
  {
    assert StepAt(b, n);
  }

  // ---------- Identifiers ----------

  ghost predicate AddsAt(b: Behavior, k: nat) {
    k < |b.actions| && k < |b.states| && b.actions[k].Register? && AddSucceeds(b.states[k])
  }

  /** How many of the first n actions registered a job. */
  ghost function Adds(b: Behavior, n: nat): nat {
    if n == 0 then 0 else Adds(b, n - 1) + if AddsAt(b, n - 1) then 1 else 0
  }

  lemma {:induction false} AddsMonotone(b: Behavior, i: nat, j: nat)
    requires i <= j
    ensures Adds(b, i) <= Adds(b, j)
    ensures i < j && AddsAt(b, i) ==> Adds(b, i) < Adds(b, j)
    decreases j
  {
    if i < j {
      AddsMonotone(b, i, j - 1);
    }
  }

  /** The registration made by action k, as the 64-bit counter numbers it. */
  lemma {:induction false} CounterCountsAdds(b: Behavior, n: nat)
    requires IsBehavior(b) && n < |b.states|
    ensures b.states[n].counter == Adds(b, n) % UINT64_RANGE
    ensures NextCounter(b.states[n].counter) == (Adds(b, n) + 1) % UINT64_RANGE
  {
    if n > 0 {
      CounterCountsAdds(b, n - 1);
      assert StepAt(b, n - 1);
      CounterStep(b.states[n - 1], b.actions[n - 1]);
    }
    NextCounterOfRemainder(Adds(b, n));
  }

  lemma CounterStep(s: State, a: Action)
    requires Enabled(s, a)
    ensures Apply(s, a).counter == if a.Register? && AddSucceeds(s) then NextCounter(s.counter) else s.counter
  {
  }

  lemma NextCounterOfRemainder(adds: nat)
    ensures NextCounter(adds % UINT64_RANGE) == (adds + 1) % UINT64_RANGE
  {
  }

  /** Action k registered run r; it was the (Adds(b, k) + 1)-th registration. */
  ghost predicate RegisteredAt(b: Behavior, k: nat, r: nat) {
    AddsAt(b, k) && b.actions[k].run == r
  }

  /** Action k registered run r, which drew `id` from the counter and was filed under it. */
  ghost predicate DrewAt(b: Behavior, k: nat, r: nat, id: string) {
    && RegisteredAt(b, k, r) && k + 1 < |b.states|
    && id == FormatId(NextCounter(b.states[k].counter))
    && id in b.states[k + 1].registry && b.states[k + 1].registry[id] == r
  }

  lemma DrawsNow(b: Behavior, k: nat, r: nat)
    requires IsBehavior(b) && k < |b.actions| && HasRun(b, k + 1, r) && Registered(RunAt(b, k + 1, r))
    requires HasRun(b, k, r) ==> !Registered(RunAt(b, k, r))
    ensures DrewAt(b, k, r, RunAt(b, k + 1, r).job.id)
  {
    InvAt(b, k);
    assert StepAt(b, k);
    RegistrationStep(b.states[k], b.actions[k], r);
  }

  lemma IdStays(b: Behavior, n: nat, r: nat)
    requires IsBehavior(b) && n < |b.actions| && HasRun(b, n, r) && Registered(RunAt(b, n, r))
    ensures HasRun(b, n + 1, r) && RunAt(b, n + 1, r).job.id == RunAt(b, n, r).job.id
  {
    EvolvesStep(b, n, r);
  }

  /** A job carries the identifier that its registration drew. */
  lemma {:induction false} IdWasDrawn(b: Behavior, n: nat, r: nat) returns (k: nat)
    requires IsBehavior(b) && HasRun(b, n, r) && Registered(RunAt(b, n, r))
    ensures k < n && DrewAt(b, k, r, RunAt(b, n, r).job.id)
  {
    if n == 0 {
      assert false;
    } else if HasRun(b, n - 1, r) && Registered(RunAt(b, n - 1, r)) {
      IdStays(b, n - 1, r);
      k := IdWasDrawn(b, n - 1, r);
    } else {
      k := n - 1;
      DrawsNow(b, k, r);
    }
  }

  lemma OnlyRegistration(b: Behavior, k: nat, r: nat)
    requires IsBehavior(b) && RegisteredAt(b, k, r)
    ensures forall l: nat | RegisteredAt(b, l, r) :: l == k
  {
    forall l: nat | RegisteredAt(b, l, r)
      ensures l == k
    {
      RegisteredOnce(b, k, l, r);
    }
  }

  /** The one registration of a job, and the identifier it drew. */
  lemma IdNamesRegistration(b: Behavior, n: nat, r: nat) returns (k: nat)
    requires IsBehavior(b) && HasRun(b, n, r) && Registered(RunAt(b, n, r))
    ensures k < n && RegisteredAt(b, k, r) && forall l: nat | RegisteredAt(b, l, r) :: l == k
    ensures RunAt(b, n, r).job.id == FormatId(NextCounter(b.states[k].counter))
    ensures RunAt(b, n, r).job.id in b.states[k + 1].registry
    ensures b.states[k + 1].registry[RunAt(b, n, r).job.id] == r
  {
    k := IdWasDrawn(b, n, r);
    OnlyRegistration(b, k, r);
  }

  lemma OnlyAssignIdNames(run: Run, op: Op, now: Time)
    requires RunInv(run) && OpEnabled(run, op, now) && !Registered(run) && Registered(ApplyOp(run, op, now))
    ensures op.AssignId? && ApplyOp(run, op, now).job.id == op.id
  {
  }

  lemma OnlyRegisterAssigns(s: State, a: Action, r: nat, id: string)
    requires Enabled(s, a) && OpOf(s, a) == Some((r, AssignId(id)))
    ensures a.Register? && a.run == r && AddSucceeds(s) && id == FormatId(NextCounter(s.counter))
    ensures id in NextRegistry(s, a) && NextRegistry(s, a)[id] == r
  {
  }

  /** A run that gains an identifier gains the next one, and is filed under it. */
  lemma RegistrationStep(s: State, a: Action, r: nat)
    requires Inv(s) && Enabled(s, a) && r < |NextRuns(s, a)|
    requires Registered(NextRuns(s, a)[r]) && (r < |s.runs| ==> !Registered(s.runs[r]))
    ensures a.Register? && a.run == r && AddSucceeds(s)
    ensures NextRuns(s, a)[r].job.id == FormatId(NextCounter(s.counter))
    ensures NextRuns(s, a)[r].job.id in NextRegistry(s, a) && NextRegistry(s, a)[NextRuns(s, a)[r].job.id] == r
  {
    var touched := OpOf(s, a);
    if touched.Some? && touched.value.0 == r {
      OnlyAssignIdNames(s.runs[r], touched.value.1, s.now);
      OnlyRegisterAssigns(s, a, r, touched.value.1.id);
    } else {
      assert false;
    }
  }

  /** A run is registered at most once. */
  lemma RegisteredOnce(b: Behavior, k: nat, l: nat, r: nat)
    requires IsBehavior(b) && RegisteredAt(b, k, r) && RegisteredAt(b, l, r)
    ensures k == l
  {
    if k < l {
      RegisteredLater(b, k, l, r);
    } else if l < k {
      RegisteredLater(b, l, k, r);
    }
  }

  lemma RegisterNames(s: State, a: Action)
    requires Inv(s) && Enabled(s, a) && a.Register?
    ensures a.run < |s.runs| && !Registered(s.runs[a.run])
    ensures AddSucceeds(s) ==> Registered(NextRuns(s, a)[a.run])
  {
    RegistersUnnamed(s, a);
    if AddSucceeds(s) {
      AddedIsNamed(s, a);
      FormatIdNotEmpty(NextCounter(s.counter));
    }
  }

  lemma RegisteredNow(b: Behavior, k: nat, r: nat)
    requires IsBehavior(b) && RegisteredAt(b, k, r)
    ensures HasRun(b, k, r) && !Registered(RunAt(b, k, r))
    ensures HasRun(b, k + 1, r) && Registered(RunAt(b, k + 1, r))
  {
    InvAt(b, k);
    assert StepAt(b, k);
    RegisterNames(b.states[k], b.actions[k]);
  }

  lemma RegisteredLater(b: Behavior, k: nat, l: nat, r: nat)
    requires IsBehavior(b) && RegisteredAt(b, k, r) && k < l < |b.states|
    ensures HasRun(b, l, r) && Registered(RunAt(b, l, r))
    ensures !RegisteredAt(b, l, r)
  {
    RegisteredNow(b, k, r);
    EvolvesBetween(b, k + 1, l, r);
    if RegisteredAt(b, l, r) {
      RegisteredNow(b, l, r);
    }
  }

  lemma SameRemainder(x: nat, y: nat)
    ensures (x + 1) % UINT64_RANGE == (y + 1) % UINT64_RANGE <==> (x - y) % UINT64_RANGE == 0
  {
  }

  lemma CountersEqual(b: Behavior, k: nat, l: nat)
    requires IsBehavior(b) && k < |b.states| && l < |b.states|
    ensures NextCounter(b.states[k].counter) == NextCounter(b.states[l].counter)
            <==> (Adds(b, k) - Adds(b, l)) % UINT64_RANGE == 0
  {
    CounterCountsAdds(b, k);
    CounterCountsAdds(b, l);
    SameRemainder(Adds(b, k), Adds(b, l));
  }

  /** The identifiers next to draw are alike exactly when a multiple of 2^64 additions lies between two moments. */
  lemma CountersCollide(b: Behavior, k: nat, l: nat)
    requires IsBehavior(b) && k < |b.states| && l < |b.states|
    ensures FormatId(NextCounter(b.states[k].counter)) == FormatId(NextCounter(b.states[l].counter))
            <==> (Adds(b, k) - Adds(b, l)) % UINT64_RANGE == 0
  {
    CountersEqual(b, k, l);
    FormatIdInjective(NextCounter(b.states[k].counter), NextCounter(b.states[l].counter));
  }

  /** Two registrations give the same identifier exactly when a multiple of 2^64 registrations lies between them. */
  lemma IdsCollide(b: Behavior, n: nat, k: nat, l: nat, r: nat, t: nat)
    requires IsBehavior(b) && n < |b.states| && k < n && l < n
    requires RegisteredAt(b, k, r) && RegisteredAt(b, l, t)
    ensures HasRun(b, n, r) && HasRun(b, n, t)
    ensures RunAt(b, n, r).job.id == RunAt(b, n, t).job.id <==> (Adds(b, k) - Adds(b, l)) % UINT64_RANGE == 0
  {
    RegisteredLater(b, k, n, r);
    RegisteredLater(b, l, n, t);
    var _ := IdNamesRegistration(b, n, r);
    var _ := IdNamesRegistration(b, n, t);
    CountersCollide(b, k, l);
  }

  /** Until 2^64 jobs have been registered, distinct jobs have distinct identifiers. */
  lemma IdsAreFresh(b: Behavior, n: nat, r: nat, t: nat)
    requires IsBehavior(b) && HasRun(b, n, r) && HasRun(b, n, t) && Adds(b, n) <= UINT64_RANGE
    requires Registered(RunAt(b, n, r)) && RunAt(b, n, r).job.id == RunAt(b, n, t).job.id
    ensures r == t
  {
    var k := IdNamesRegistration(b, n, r);
    var l := IdNamesRegistration(b, n, t);
    IdsCollide(b, n, k, l, r, t);
    AddsMonotone(b, k, n);
    AddsMonotone(b, l, n);
    if k < l {
      AddsMonotone(b, k, l);
    } else if l < k {
      AddsMonotone(b, l, k);
    }
  }

  /** The registry holds at most 100 jobs, each filed under its own identifier and no other. */
  lemma RegistryIsExact(b: Behavior, n: nat)
    requires IsBehavior(b) && n < |b.states|
    ensures var registry := b.states[n].registry;
            && |registry| <= 100
            && (forall id | id in registry ::
                  HasRun(b, n, registry[id]) && RunAt(b, n, registry[id]).job.id == id)
            && (forall id, id' | id in registry && id' in registry :: registry[id] == registry[id'] ==> id == id')
  {
    InvAt(b, n);
    assert RegistryInv(b.states[n]);
  }

  /** An identifier that has left the registry never names a job again, until 2^64 jobs have been registered. */
  lemma {:induction false} GoneForGood(b: Behavior, i: nat, m: nat, j: nat, id: string)
    requires IsBehavior(b) && i <= m <= j < |b.states| && Adds(b, j) <= UINT64_RANGE
    requires id in b.states[i].registry && id !in b.states[m].registry
    ensures id !in b.states[j].registry
    decreases j
  {
    if m < j {
      AddsMonotone(b, j - 1, j);
      GoneForGood(b, i, m, j - 1, id);
      if id in b.states[j].registry {
        var r := b.states[i].registry[id];
        var t := b.states[j].registry[id];
        assert StepAt(b, j - 1);
        NextRegistryEntry(b.states[j - 1], b.actions[j - 1], id);
        assert RegisteredAt(b, j - 1, t);
        RegistryIsExact(b, i);
        RegistryIsExact(b, j);
        EvolvesBetween(b, i, j, r);
        FormatIdRoundTrip(NextCounter(b.states[j - 1].counter));
        IdsAreFresh(b, j, r, t);
        var _ := IdNamesRegistration(b, i, r);
      }
    }
  }

  /** A survivor is lost only when a new job takes its identifier. */
  lemma SurvivorOverwritten(s: State, a: Action, id: string)
    requires Enabled(s, a) && id in s.registry && id in Survivors(s)
    requires !(id in NextRegistry(s, a) && NextRegistry(s, a)[id] == s.registry[id])
    ensures a.Register? && AddSucceeds(s) && id == FormatId(NextCounter(s.counter))
  {
  }

  /** That takes 2^64 registrations. */
  lemma SameIdTakesAWrap(b: Behavior, i: nat, id: string)
    requires IsBehavior(b) && i < |b.states| && id in b.states[i].registry
    requires id == FormatId(NextCounter(b.states[i].counter))
    ensures Adds(b, i) >= UINT64_RANGE
  {
    var r := b.states[i].registry[id];
    RegistryIsExact(b, i);
    var k := IdWasDrawn(b, i, r);
    CountersCollide(b, i, k);
    AddsMonotone(b, k, i);
  }

  /** A registered job survives a collection unless it expired, and an addition unless the counter has wrapped. */
  lemma NoResultLost(b: Behavior, i: nat, id: string)
    requires IsBehavior(b) && i < |b.actions| && id in b.states[i].registry
    requires !(id in b.states[i + 1].registry && b.states[i + 1].registry[id] == b.states[i].registry[id])
    ensures b.actions[i].Register? && HasRun(b, i, b.states[i].registry[id])
    ensures var r := b.states[i].registry[id];
            || (&& RunAt(b, i, r).job.Terminal()
                && FirstRead(b, i, r).Some?
                && b.states[i].now - FirstRead(b, i, r).value >= 5 * 60 * 1_000_000_000)
            || Adds(b, i) >= UINT64_RANGE
  {
    var s := b.states[i];
    assert StepAt(b, i);
    RegistryIsExact(b, i);
    CountdownStartsAtFirstRead(b, i, s.registry[id]);
    if id in Survivors(s) {
      SurvivorOverwritten(s, b.actions[i], id);
      SameIdTakesAWrap(b, i, id);
    }
  }

  /** What an Add throws away: ended, and first read in full five minutes ago or longer. */
  ghost predicate Outlived(b: Behavior, i: nat, r: nat) {
    && HasRun(b, i, r) && RunAt(b, i, r).job.Terminal()
    && FirstRead(b, i, r).Some? && b.states[i].now - FirstRead(b, i, r).value >= 5 * 60 * 1_000_000_000
  }

  lemma SurvivorsExactly(b: Behavior, i: nat, id: string)
    requires IsBehavior(b) && i < |b.states|
    ensures id in Survivors(b.states[i]) <==>
              id in b.states[i].registry && !Outlived(b, i, b.states[i].registry[id])
  {
    if id in b.states[i].registry {
      RegistryIsExact(b, i);
      CountdownStartsAtFirstRead(b, i, b.states[i].registry[id]);
    }
  }

  lemma RegisterKeeps(s: State, a: Action, id: string)
    requires a.Register? && id in s.registry
    requires !(AddSucceeds(s) && id == FormatId(NextCounter(s.counter)))
    ensures id in NextRegistry(s, a) <==> id in Survivors(s)
    ensures id in Survivors(s) ==> NextRegistry(s, a)[id] == s.registry[id]
  {
  }

  /** An Add throws away exactly what has outlived its reading, until 2^64 registrations. */
  lemma AddDropsExactly(b: Behavior, i: nat, id: string)
    requires IsBehavior(b) && i < |b.actions| && b.actions[i].Register? && Adds(b, i) < UINT64_RANGE
    requires id in b.states[i].registry
    ensures id in b.states[i + 1].registry <==> !Outlived(b, i, b.states[i].registry[id])
    ensures id in b.states[i + 1].registry ==> b.states[i + 1].registry[id] == b.states[i].registry[id]
  {
    assert StepAt(b, i);
    if id == FormatId(NextCounter(b.states[i].counter)) {
      SameIdTakesAWrap(b, i, id);
    }
    RegisterKeeps(b.states[i], b.actions[i], id);
    SurvivorsExactly(b, i, id);
  }

  /** It files its job just when fewer than 100 are left after that. */
  lemma AddSucceedsExactly(b: Behavior, i: nat, r: nat)
    requires IsBehavior(b) && i < |b.actions| && b.actions[i] == Register(r)
    ensures RegisteredAt(b, i, r) <==>
              |set id | id in b.states[i].registry && !Outlived(b, i, b.states[i].registry[id])| < 100
  {
    var left := set id | id in b.states[i].registry && !Outlived(b, i, b.states[i].registry[id]);
    forall id
      ensures id in left <==> id in Survivors(b.states[i])
    {
      SurvivorsExactly(b, i, id);
    }
    assert left == Survivors(b.states[i]);
  }

  // ---------- Status tells the truth ----------

  /** What the worker has decided, from its context test on. */
  function Verdict(run: Run): Option<Status> {
    match run.worker
    case Finishing(verdict) => Some(verdict)
    case _ => if run.job.Terminal() then Some(run.job.status) else None
  }

  function TestOutcome(run: Run): Status {
    if run.innerEnded then Killed else Completed
  }

  lemma OpVerdict(run: Run, op: Op, now: Time)
    requires RunInv(run) && OpEnabled(run, op, now)
    ensures Verdict(ApplyOp(run, op, now)) == if op.TestContext? then Some(TestOutcome(run)) else Verdict(run)
    ensures op.TestContext? ==> Verdict(run) == None
  {
    match op
    case Launch =>
    case TestContext =>
    case RecordFinish =>
    case PollTick =>
    case Settle =>
    case _ =>
  }

  /** A verdict is what the context test found, at the moment of that test. */
  lemma {:induction false} VerdictIsTest(b: Behavior, n: nat, r: nat)
    requires IsBehavior(b) && HasRun(b, n, r)
    ensures Verdict(RunAt(b, n, r)).Some? <==> exists k: nat :: k < n && Does(b, k, r, TestContext)
    ensures forall k: nat | k < n && Does(b, k, r, TestContext) ::
              HasRun(b, k, r) && Verdict(RunAt(b, n, r)) == Some(TestOutcome(RunAt(b, k, r)))
  {
    if n > 0 {
      var op := RunStep(b, n - 1, r);
      if HasRun(b, n - 1, r) {
        VerdictIsTest(b, n - 1, r);
        RunInvAt(b, n - 1, r);
        if op.Some? {
          OpVerdict(RunAt(b, n - 1, r), op.value, b.states[n - 1].now);
        }
      } else {
        NoOpsBeforeStart(b, n - 1, r);
        assert StepAt(b, n - 1);
      }
    }
  }

  lemma {:induction false} NoOpsBeforeStart(b: Behavior, n: nat, r: nat)
    requires IsBehavior(b) && n < |b.states| && !HasRun(b, n, r)
    ensures forall k: nat, op | k < n :: !Does(b, k, r, op)
  {
    if n > 0 {
      NoOpWithoutRun(b, n - 1, r);
      NoOpsBeforeStart(b, n - 1, r);
      assert StepAt(b, n - 1);
    }
  }

  lemma TestedOnce(b: Behavior, k: nat, l: nat, r: nat)
    requires IsBehavior(b) && Does(b, k, r, TestContext) && Does(b, l, r, TestContext)
    ensures k == l
  {
    TestedBefore(b, k, l, r);
    TestedBefore(b, l, k, r);
  }

  lemma TestedBefore(b: Behavior, k: nat, l: nat, r: nat)
    requires IsBehavior(b) && Does(b, k, r, TestContext) && Does(b, l, r, TestContext)
    ensures !(k < l)
  {
    assert StepAt(b, l);
    if k < l {
      VerdictIsTest(b, l, r);
      RunInvAt(b, l, r);
      OpVerdict(RunAt(b, l, r), TestContext, b.states[l].now);
    }
  }

  /**
   * A terminal status is the outcome of the one context test the worker ever makes: killed if and only if
   * the job's context had ended by then.
   */
  lemma StatusTellsTheTruth(b: Behavior, n: nat, r: nat)
    requires IsBehavior(b) && HasRun(b, n, r) && RunAt(b, n, r).job.Terminal()
    ensures exists k: nat ::
              && k < n && Does(b, k, r, TestContext) && HasRun(b, k, r)
              && (forall l: nat | Does(b, l, r, TestContext) :: l == k)
              && RunAt(b, n, r).job.status == (if RunAt(b, k, r).innerEnded then Killed else Completed)
  {
    RunInvAt(b, n, r);
    VerdictIsTest(b, n, r);
    var k: nat :| k < n && Does(b, k, r, TestContext);
    forall l: nat | Does(b, l, r, TestContext)
      ensures l == k
    {
      TestedOnce(b, k, l, r);
    }
  }

  /** The status changes once: whatever a terminal status is, it stays. */
  lemma StatusIsFinal(b: Behavior, i: nat, j: nat, r: nat)
    requires IsBehavior(b) && HasRun(b, i, r) && i <= j < |b.states| && RunAt(b, i, r).job.Terminal()
    ensures HasRun(b, j, r) && RunAt(b, j, r).job.status == RunAt(b, i, r).job.status
  {
    EvolvesBetween(b, i, j, r);
  }

  /**
   * A Kill that cancelled, so that it returns true, before the worker's test makes the job killed. One that did so
   * after it, even if it had found the job running before, leaves the verdict as the test found it.
   */
  lemma KillDecides(b: Behavior, i: nat, k: nat, n: nat, r: nat)
    requires IsBehavior(b) && Does(b, i, r, Kill) && Does(b, k, r, TestContext) && k < n < |b.states|
    ensures HasRun(b, k, r) && HasRun(b, n, r)
    ensures i < k ==> Verdict(RunAt(b, n, r)) == Some(Killed)
    ensures k < i ==> Verdict(RunAt(b, n, r)) == Some(TestOutcome(RunAt(b, k, r)))
  {
    assert StepAt(b, i);
    assert StepAt(b, k);
    EvolvesBetween(b, k, n, r);
    VerdictIsTest(b, n, r);
    if i < k {
      EvolvesBetween(b, i + 1, k, r);
    }
  }

  /** DELETE looks the identifier up twice; what it cancels is the job it looked at, until 2^64 have been registered. */
  lemma KillCancelsWhatItReports(b: Behavior, k: nat, c: nat, r: nat)
    requires IsBehavior(b) && k < |b.actions| && b.actions[k] == KillCancel(c) && Adds(b, k) <= UINT64_RANGE
    requires Does(b, k, r, Kill)
    ensures HasRun(b, k, r) && Registered(RunAt(b, k, r))
    ensures b.states[k + 1].ClientAt(c) == KillReplies(r)
  {
    InvAt(b, k);
    assert StepAt(b, k);
    var s := b.states[k];
    assert c in s.clients && ClientInv(s, s.clients[c]);
    IdsAreFresh(b, k, s.clients[c].target, s.clients[c].job);
  }

  // ---------- When Kill returns true ----------

  function ClientOf(a: Action): Option<nat> {
    match a
    case GetLookup(c, _) => Some(c)
    case GetRead(c) => Some(c)
    case KillLookup(c, _) => Some(c)
    case KillCheck(c) => Some(c)
    case KillFind(c) => Some(c)
    case KillSelect(c) => Some(c)
    case KillCancel(c) => Some(c)
    case KillReply(c) => Some(c)
    case _ => None
  }

  /** Action k is client c looking whether run t is done, and finding that it is not. */
  ghost predicate FoundRunning(b: Behavior, k: nat, c: nat, t: nat, j: nat) {
    && k < |b.actions| && k < |b.states| && b.actions[k] == KillSelect(c)
    && b.states[k].ClientAt(c) == KillSelects(t, j)
    && HasRun(b, k, t) && !RunAt(b, k, t).done
  }

  ghost predicate NoMoveSince(b: Behavior, k: nat, n: nat, c: nat) {
    forall l | k < l < n && l < |b.actions| :: ClientOf(b.actions[l]) != Some(c)
  }

  lemma ClientStep(s: State, a: Action, c: nat)
    requires Enabled(s, a)
    ensures ClientOf(a) != Some(c) ==> Apply(s, a).ClientAt(c) == s.ClientAt(c)
    ensures Apply(s, a).ClientAt(c).KillCancels? && ClientOf(a) == Some(c) ==>
              a.KillSelect? && s.ClientAt(c).KillSelects? && s.ClientAt(c).target < |s.runs|
    ensures a == KillSelect(c) && s.runs[s.ClientAt(c).target].done ==> Apply(s, a).ClientAt(c).Idle?
    ensures a == KillSelect(c) && !s.runs[s.ClientAt(c).target].done ==>
              Apply(s, a).ClientAt(c) == KillCancels(s.ClientAt(c).target, s.ClientAt(c).job)
  {
  }

  /** Kill goes on to cancel, and so to return true, if and only if its look at the job found it not done. */
  lemma {:induction false} KillReturnsTrueExactly(b: Behavior, n: nat, c: nat, t: nat, j: nat)
    requires IsBehavior(b) && n < |b.states|
    ensures b.states[n].ClientAt(c) == KillCancels(t, j)
            <==> exists k: nat :: k < n && FoundRunning(b, k, c, t, j) && NoMoveSince(b, k, n, c)
  {
    if n > 0 {
      var a := b.actions[n - 1];
      assert StepAt(b, n - 1);
      KillReturnsTrueExactly(b, n - 1, c, t, j);
      ClientStep(b.states[n - 1], a, c);
      if ClientOf(a) == Some(c) {
        forall k: nat | k < n && FoundRunning(b, k, c, t, j) && NoMoveSince(b, k, n, c)
          ensures k == n - 1
        {
        }
        if b.states[n].ClientAt(c) == KillCancels(t, j) {
          assert FoundRunning(b, n - 1, c, t, j) && NoMoveSince(b, n - 1, n, c);
        }
      } else {
        forall k: nat | k < n && FoundRunning(b, k, c, t, j)
          ensures k < n - 1 && (NoMoveSince(b, k, n, c) <==> NoMoveSince(b, k, n - 1, c))
        {
        }
      }
    }
  }

  /** Action k is client c looking up an identifier, and finding run r filed under it. */
  ghost predicate LooksUp(b: Behavior, k: nat, c: nat, id: string, r: nat) {
    && k < |b.actions| && k < |b.states| && b.actions[k] == GetLookup(c, id)
    && id in b.states[k].registry && b.states[k].registry[id] == r
  }

  lemma GetStep(s: State, a: Action, c: nat)
    requires Enabled(s, a)
    ensures ClientOf(a) != Some(c) ==> Apply(s, a).ClientAt(c) == s.ClientAt(c)
    ensures ClientOf(a) == Some(c) && Apply(s, a).ClientAt(c).GetHolds? ==>
              a.GetLookup? && a.id in s.registry && Apply(s, a).ClientAt(c).job == s.registry[a.id]
    ensures ClientOf(a) == Some(c) && a.GetLookup? && a.id in s.registry ==>
              Apply(s, a).ClientAt(c) == GetHolds(s.registry[a.id])
  {
  }

  /** GET holds a job if and only if its lookup found that job filed under the identifier asked for. */
  lemma {:induction false} GetHoldsWhatWasFiled(b: Behavior, n: nat, c: nat, r: nat)
    requires IsBehavior(b) && n < |b.states|
    ensures b.states[n].ClientAt(c) == GetHolds(r)
            <==> exists k: nat, id :: k < n && LooksUp(b, k, c, id, r) && NoMoveSince(b, k, n, c)
  {
    if n > 0 {
      var a := b.actions[n - 1];
      assert StepAt(b, n - 1);
      GetHoldsWhatWasFiled(b, n - 1, c, r);
      GetStep(b.states[n - 1], a, c);
      if ClientOf(a) == Some(c) {
        forall k: nat, id | k < n && LooksUp(b, k, c, id, r) && NoMoveSince(b, k, n, c)
          ensures k == n - 1
        {
        }
        if b.states[n].ClientAt(c) == GetHolds(r) {
          assert LooksUp(b, n - 1, c, a.id, r) && NoMoveSince(b, n - 1, n, c);
        }
      } else {
        forall k: nat, id | k < n && LooksUp(b, k, c, id, r)
          ensures k < n - 1 && (NoMoveSince(b, k, n, c) <==> NoMoveSince(b, k, n - 1, c))
        {
        }
      }
    }
  }

  /** And it reads the job that it holds. */
  lemma GetReadsWhatWasFiled(b: Behavior, n: nat, c: nat) returns (k: nat, id: string, r: nat)
    requires IsBehavior(b) && n < |b.actions| && b.actions[n] == GetRead(c)
    ensures k < n && LooksUp(b, k, c, id, r) && Does(b, n, r, FullRead)
  {
    assert StepAt(b, n);
    r := b.states[n].ClientAt(c).job;
    GetHoldsWhatWasFiled(b, n, c, r);
    k, id :| k < n && LooksUp(b, k, c, id, r) && NoMoveSince(b, k, n, c);
  }

  /** The job that a DELETE is about, once it has been found running. */
  function Deleting(client: Client): Option<nat> {
    match client
    case KillReady(_, job) => Some(job)
    case KillSelects(_, job) => Some(job)
    case KillCancels(_, job) => Some(job)
    case KillReplies(job) => Some(job)
    case _ => None
  }

  /** Action k is client c finding that the job it has looked up is not done. */
  ghost predicate ChecksRunning(b: Behavior, k: nat, c: nat, r: nat) {
    && k < |b.actions| && b.actions[k] == KillCheck(c)
    && HasRun(b, k, r) && !RunAt(b, k, r).done
    && b.states[k].ClientAt(c).KillHolds? && b.states[k].ClientAt(c).job == r
  }

  lemma DeleteStep(s: State, a: Action, c: nat, r: nat)
    requires Enabled(s, a) && Deleting(Apply(s, a).ClientAt(c)) == Some(r) && Deleting(s.ClientAt(c)) != Some(r)
    ensures a == KillCheck(c) && s.ClientAt(c).KillHolds? && s.ClientAt(c).job == r
    ensures r < |s.runs| && !s.runs[r].done
  {
  }

  /** A DELETE goes on only after it has found its own job running. */
  lemma {:induction false} DeleteFoundRunning(b: Behavior, n: nat, c: nat, r: nat) returns (k: nat)
    requires IsBehavior(b) && n < |b.states| && Deleting(b.states[n].ClientAt(c)) == Some(r)
    ensures k < n && ChecksRunning(b, k, c, r)
  {
    if n == 0 {
      assert false;
    } else {
      assert StepAt(b, n - 1);
      k := n - 1;
      if Deleting(b.states[n - 1].ClientAt(c)) == Some(r) {
        k := DeleteFoundRunning(b, n - 1, c, r);
      } else {
        DeleteStep(b.states[n - 1], b.actions[n - 1], c, r);
      }
    }
  }

  /** What it answers with is a full read of the job it found running. */
  lemma DeleteReadsWhatItChecked(b: Behavior, n: nat, c: nat) returns (k: nat, r: nat)
    requires IsBehavior(b) && n < |b.actions| && b.actions[n] == KillReply(c)
    ensures k < n && ChecksRunning(b, k, c, r) && Does(b, n, r, FullRead)
  {
    assert StepAt(b, n);
    r := b.states[n].ClientAt(c).job;
    k := DeleteFoundRunning(b, n, c, r);
  }

  ghost function Last(b: Behavior): State
    requires b.states != []
  {
    b.states[|b.states| - 1]
  }

  lemma Extend(b: Behavior, a: Action) returns (b': Behavior)
    requires IsBehavior(b) && Enabled(Last(b), a)
    ensures IsBehavior(b') && b'.actions == b.actions + [a] && b'.states == b.states + [Apply(Last(b), a)]
  {
    b' := Behavior(b.states + [Apply(Last(b), a)], b.actions + [a]);
    forall i | 0 <= i < |b'.actions|
      ensures StepAt(b', i)
    {
      if i < |b.actions| {
        assert StepAt(b, i);
      }
    }
  }

  /** One more operation of the only run there is. */
  lemma ExtendRun(b: Behavior, op: Op) returns (b': Behavior)
    requires IsBehavior(b) && |Last(b).runs| == 1 && IsOwn(op) && OpEnabled(Last(b).runs[0], op, Last(b).now)
    ensures IsBehavior(b') && Last(b') == Last(b).(runs := [ApplyOp(Last(b).runs[0], op, Last(b).now)])
  {
    b' := Extend(b, OnRun(0, op));
    assert Last(b').runs == [ApplyOp(Last(b).runs[0], op, Last(b).now)];
  }

  /** The daemon has started and registered one job. */
  lemma RegisterOne(callerId: string, command: string, timeout: nat) returns (b: Behavior)
    ensures IsBehavior(b) && |Last(b).runs| == 1
    ensures var run := Last(b).runs[0];
            && Last(b).registry == map[FormatId(1) := 0] && Last(b).clients == map[]
            && run.handler.Naming? && run.worker.Executing? && !run.innerEnded && !run.done && run.job.id == FormatId(1)
  {
    b := StartOne(callerId, command, timeout);
    b := ExtendRun(b, Threshold);
    RegisterFirst(Last(b));
    b := Extend(b, Register(0));
  }

  lemma RegisterFirst(s: State)
    requires |s.runs| == 1 && s.runs[0].handler.Registering? && s.registry == map[] && s.counter == 0
    ensures Enabled(s, Register(0))
    ensures var t := Apply(s, Register(0));
            && t.registry == map[FormatId(1) := 0] && t.clients == s.clients
            && t.runs == [s.runs[0].(job := s.runs[0].job.(id := FormatId(1)), handler := Naming)]
  {
    assert Survivors(s) == {};
  }

  /** Client c asks for the job to be killed, and finds it running. */
  lemma AskToKill(b: Behavior, c: nat, id: string) returns (b': Behavior)
    requires IsBehavior(b) && |Last(b).runs| == 1 && !Last(b).runs[0].done
    requires Last(b).registry == map[id := 0] && Last(b).ClientAt(c).Idle?
    ensures IsBehavior(b') && Last(b').runs == Last(b).runs && Last(b').now == Last(b).now
    ensures Last(b').ClientAt(c) == KillCancels(0, 0)
  {
    b' := Extend(b, KillLookup(c, id));
    b' := Extend(b', KillCheck(c));
    b' := Extend(b', KillFind(c));
    b' := Extend(b', KillSelect(c));
  }

  /** Meanwhile the command ends, and the worker with it. */
  lemma WorkerFinishes(b: Behavior, result: ExecResult) returns (b': Behavior)
    requires IsBehavior(b) && |Last(b).runs| == 1
    requires Last(b).runs[0].worker.Executing? && !Last(b).runs[0].innerEnded
    ensures IsBehavior(b') && |Last(b').runs| == 1 && Last(b').clients == Last(b).clients
    ensures Last(b').runs[0].done && Last(b').runs[0].job.status == Completed
    ensures Last(b').runs[0].handler == Last(b).runs[0].handler && Last(b').runs[0].result == Some(result)
  {
    b' := WorkerWrites(b, result);
    b' := ExtendRun(b', TestContext);
    b' := ExtendRun(b', RecordFinish);
    b' := ExtendRun(b', RunCleanup);
    b' := ExtendRun(b', CloseDone);
  }

  lemma WorkerWrites(b: Behavior, result: ExecResult) returns (b': Behavior)
    requires IsBehavior(b) && |Last(b).runs| == 1
    requires Last(b).runs[0].worker.Executing? && !Last(b).runs[0].innerEnded
    ensures IsBehavior(b') && |Last(b').runs| == 1 && Last(b').clients == Last(b).clients
    ensures Last(b').runs[0].worker.TestingContext? && !Last(b').runs[0].innerEnded
    ensures Last(b').runs[0].handler == Last(b).runs[0].handler && Last(b').runs[0].result == Some(result)
  {
    b' := ExecReturns(b, result);
    b' := ExtendRun(b', WriteStdout);
    b' := ExtendRun(b', WriteStderr);
  }

  /** Exec returns, and its error, if there is one, is written. */
  lemma ExecReturns(b: Behavior, result: ExecResult) returns (b': Behavior)
    requires IsBehavior(b) && |Last(b).runs| == 1
    requires Last(b).runs[0].worker.Executing? && !Last(b).runs[0].innerEnded
    ensures IsBehavior(b') && |Last(b').runs| == 1 && Last(b').clients == Last(b).clients
    ensures Last(b').runs[0].worker.WritingStdout? && !Last(b').runs[0].innerEnded
    ensures Last(b').runs[0].handler == Last(b).runs[0].handler && Last(b').runs[0].result == Some(result)
  {
    b' := ExtendRun(b, ExecReturn(result));
    if result.err.Some? {
      b' := ExtendRun(b', WriteError);
    }
  }

  /** Kill can return true for a job that is done, completed and past cancelling, for every command and client. */
  lemma KillCanComeLate(callerId: string, command: string, timeout: nat, result: ExecResult, c: nat)
    returns (b: Behavior, k: nat)
    ensures IsBehavior(b) && k < |b.actions| && b.actions[k] == KillCancel(c) && Does(b, k, 0, Kill)
    ensures HasRun(b, k, 0) && RunAt(b, k, 0).done
    ensures HasRun(b, k + 1, 0) && RunAt(b, k + 1, 0).job.status == Completed
    ensures b.states[k + 1].ClientAt(c) == KillReplies(0)
  {
    b := RegisterOne(callerId, command, timeout);
    b := AskToKill(b, c, FormatId(1));
    b := WorkerFinishes(b, result);
    var before := b;
    k := |b.actions|;
    b := Extend(before, KillCancel(c));
    assert StepAt(b, k);
  }

  // ---------- Each outcome happens ----------

  lemma StartOne(callerId: string, command: string, timeout: nat) returns (b: Behavior)
    ensures IsBehavior(b) && |Last(b).runs| == 1 && Last(b).registry == map[] && Last(b).counter == 0
    ensures Last(b).clients == map[]
    ensures Last(b).runs[0].handler.Polling? && Last(b).runs[0].worker.Executing? && !Last(b).runs[0].innerEnded
    ensures !Last(b).runs[0].done && !Last(b).runs[0].requestGone
  {
    b := Behavior([State(0, [], map[], 0, map[])], []);
    b := Extend(b, Begin(callerId, command, timeout));
    b := ExtendRun(b, Launch);
  }

  lemma HandlerReads(b: Behavior) returns (b': Behavior)
    requires IsBehavior(b) && |Last(b).runs| == 1 && Last(b).runs[0].handler.Polling? && Last(b).runs[0].done
    ensures IsBehavior(b') && |Last(b').runs| == 1
    ensures Last(b').runs[0].handler.Returned? && Last(b').runs[0].handler.outcome.Foreground?
    ensures Last(b').runs[0].result == Last(b).runs[0].result
  {
    b' := ExtendRun(b, PollTick);
    b' := ExtendRun(b', ReadOwn);
    b' := ExtendRun(b', Settle);
  }

  /** A command that ends in time is answered with its output, whatever that is. */
  lemma ForegroundHappens(callerId: string, command: string, timeout: nat, result: ExecResult) returns (b: Behavior)
    ensures IsBehavior(b) && |Last(b).runs| == 1 && Last(b).runs[0].result == Some(result)
    ensures Last(b).runs[0].handler.Returned? && Last(b).runs[0].handler.outcome.Foreground?
  {
    b := StartOne(callerId, command, timeout);
    b := WorkerFinishes(b, result);
    b := HandlerReads(b);
  }

  /** One that does not is left behind under the first identifier. */
  lemma BackgroundHappens(callerId: string, command: string, timeout: nat) returns (b: Behavior)
    ensures IsBehavior(b) && |Last(b).runs| == 1 && Last(b).registry == map["000001" := 0]
    ensures Last(b).runs[0].handler == Returned(Background("000001")) && !Last(b).runs[0].innerEnded
  {
    b := RegisterOne(callerId, command, timeout);
    FirstId();
    b := ExtendRun(b, NameOutcome);
    b := ExtendRun(b, Settle);
  }

  lemma FirstId()
    ensures FormatId(1) == "000001"
  {
    var zero := "0";
    assert Print(1, Hex) == "1";
    assert zero + "1" == "01" && zero + "01" == "001" && zero + "001" == "0001" && zero + "0001" == "00001";
    assert zero + "00001" == "000001";
    PadOnce("1", 6);
    PadOnce("01", 6);
    PadOnce("001", 6);
    PadOnce("0001", 6);
    PadOnce("00001", 6);
  }

  lemma PadOnce(s: string, width: nat)
    requires |s| < width
    ensures ZeroPad(s, width) == ZeroPad("0" + s, width)
  {
  }

  /** One whose client goes away is given up. */
  lemma FailureHappens(callerId: string, command: string, timeout: nat) returns (b: Behavior)
    ensures IsBehavior(b) && |Last(b).runs| == 1 && Last(b).registry == map[]
    ensures Last(b).runs[0].handler == Returned(Failed) && Last(b).runs[0].innerEnded
  {
    b := StartOne(callerId, command, timeout);
    b := ExtendRun(b, RequestGone);
    b := ExtendRun(b, NoticeGone);
    b := ExtendRun(b, CancelOwn);
    b := ExtendRun(b, Settle);
  }

  // ---------- Contexts and outcomes ----------

  /** Action k is the handler of run r ending a context of its own request. */
  ghost predicate HandlerCancels(b: Behavior, k: nat, r: nat) {
    || Does(b, k, r, CancelOwn)
    || (Does(b, k, r, Settle) && HasRun(b, k, r) && RunAt(b, k, r).handler.Returning?
        && CancelsOnReturn(RunAt(b, k, r).handler.outcome))
  }

  ghost predicate EndedFromOutside(b: Behavior, k: nat, r: nat) {
    Does(b, k, r, Kill) || Does(b, k, r, Deadline) || Does(b, k, r, RunCleanup)
  }

  lemma OpEndsContext(run: Run, op: Op, now: Time)
    requires RunInv(run) && OpEnabled(run, op, now) && !run.innerEnded && !run.outerEnded
    requires ApplyOp(run, op, now).innerEnded || ApplyOp(run, op, now).outerEnded
    ensures op.Kill? || op.Deadline? || op.RunCleanup? || op.CancelOwn?
            || (op.Settle? && CancelsOnReturn(run.handler.outcome))
  {
  }

  lemma {:induction false} SomethingEndedIt(b: Behavior, n: nat, r: nat) returns (k: nat)
    requires IsBehavior(b) && HasRun(b, n, r) && (RunAt(b, n, r).innerEnded || RunAt(b, n, r).outerEnded)
    ensures k < n && (EndedFromOutside(b, k, r) || HandlerCancels(b, k, r))
  {
    if n == 0 {
      assert false;
    } else {
      var op := RunStep(b, n - 1, r);
      if HasRun(b, n - 1, r) {
        RunInvAt(b, n - 1, r);
        if RunAt(b, n - 1, r).innerEnded || RunAt(b, n - 1, r).outerEnded {
          k := SomethingEndedIt(b, n - 1, r);
        } else {
          k := n - 1;
          OpEndsContext(RunAt(b, k, r), op.value, b.states[k].now);
        }
      }
    }
  }

  lemma DetachedNeverRegisters(b: Behavior, k: nat, n: nat, r: nat)
    requires IsBehavior(b) && HasRun(b, k, r) && HasRun(b, n, r) && HandlerDetached(RunAt(b, k, r))
    ensures !Registered(RunAt(b, n, r))
  {
    RunInvAt(b, k, r);
    RunInvAt(b, n, r);
    if k <= n {
      EvolvesBetween(b, k, n, r);
    } else {
      EvolvesBetween(b, n, k, r);
    }
  }

  /** A handler ends only contexts of jobs that are never registered, neither before nor after. */
  lemma HandlerCancelsOnlyUnregistered(b: Behavior, k: nat, n: nat, r: nat)
    requires IsBehavior(b) && HandlerCancels(b, k, r) && HasRun(b, n, r)
    ensures !Registered(RunAt(b, n, r))
  {
    assert StepAt(b, k);
    RunInvAt(b, k, r);
    DetachedNeverRegisters(b, k, n, r);
  }

  /** The context of a registered job ends by a Kill, by the run timeout or by its own cleanup, and by nothing else. */
  lemma ContextOwnership(b: Behavior, n: nat, r: nat)
    requires IsBehavior(b) && HasRun(b, n, r) && Registered(RunAt(b, n, r)) && RunAt(b, n, r).innerEnded
    ensures exists k: nat :: k < n && EndedFromOutside(b, k, r)
  {
    var k := SomethingEndedIt(b, n, r);
    if HandlerCancels(b, k, r) {
      HandlerCancelsOnlyUnregistered(b, k, n, r);
    }
  }

  /** Action j began run r with that timeout. */
  ghost predicate BeganAt(b: Behavior, j: nat, r: nat, timeout: nat) {
    && j < |b.actions| && j + 1 < |b.states| && b.actions[j].Begin? && b.actions[j].timeout == timeout
    && r == |b.states[j].runs|
  }

  lemma OpKeepsDeadline(run: Run, op: Op, now: Time)
    requires OpEnabled(run, op, now)
    ensures ApplyOp(run, op, now).deadline == run.deadline
  {
    match op
    case Launch =>
    case Deadline =>
    case PollTick =>
    case ReadOwn =>
    case Settle =>
    case FullRead =>
    case _ =>
  }

  lemma DeadlineStays(s: State, a: Action, r: nat)
    requires Enabled(s, a) && r < |s.runs|
    ensures r < |NextRuns(s, a)| && NextRuns(s, a)[r].deadline == s.runs[r].deadline
  {
    match OpOf(s, a)
    case Some((run, op)) => OpKeepsDeadline(s.runs[run], op, s.now);
    case None =>
  }

  /** The deadline of a run is its beginning and its timeout. */
  lemma {:induction false} DeadlineIsTimeout(b: Behavior, n: nat, r: nat) returns (j: nat, timeout: nat)
    requires IsBehavior(b) && HasRun(b, n, r)
    ensures j < n && BeganAt(b, j, r, timeout) && RunAt(b, n, r).deadline == b.states[j].now + timeout
  {
    if n == 0 {
      assert false;
    } else {
      assert StepAt(b, n - 1);
      if HasRun(b, n - 1, r) {
        DeadlineStays(b.states[n - 1], b.actions[n - 1], r);
        j, timeout := DeadlineIsTimeout(b, n - 1, r);
      } else {
        j, timeout := n - 1, b.actions[n - 1].timeout;
      }
    }
  }

  /** The run timeout ends a context only once the timeout asked for has passed since the request began. */
  lemma TimeoutIsNotEarly(b: Behavior, k: nat, r: nat) returns (j: nat, timeout: nat)
    requires IsBehavior(b) && Does(b, k, r, Deadline)
    ensures j < k && BeganAt(b, j, r, timeout) && b.states[k].now >= b.states[j].now + timeout
  {
    assert StepAt(b, k);
    j, timeout := DeadlineIsTimeout(b, k, r);
  }

  ghost predicate NeverRegistered(b: Behavior, r: nat) {
    forall m: nat | HasRun(b, m, r) ::
      !Registered(RunAt(b, m, r)) && forall id | id in b.states[m].registry :: b.states[m].registry[id] != r
  }

  /** How a /run ended: with the finished job's output, with a job left behind, or with an error. */
  lemma RunEndsOneWay(b: Behavior, n: nat, r: nat)
    requires IsBehavior(b) && HasRun(b, n, r) && RunAt(b, n, r).handler.Returned?
    ensures var run := RunAt(b, n, r);
            match run.handler.outcome
            case Foreground(info) =>
              && run.done && OutputComplete(run) && NeverRegistered(b, r)
              && var result := run.result.value;
                 var raw := (if result.err.Some? then result.err.value + "\n" else "") + result.stderr;
                 && (|result.stdout| <= 65536 ==> info.stdout == result.stdout)
                 && (|result.stdout| > 65536 ==> info.stdout == result.stdout[..65536] + "\n...(truncated)")
                 && (|raw| <= 65536 ==> info.stderr == raw)
                 && (|raw| > 65536 ==> info.stderr == raw[..65536] + "\n...(truncated)")
                 && info.exitCode == result.exitCode && info == Info(run.job, true)
            case Background(id) =>
              && (exists k: nat :: k < n && RegisteredAt(b, k, r)
                                   && id in b.states[k + 1].registry && b.states[k + 1].registry[id] == r)
              && (forall k: nat :: !HandlerCancels(b, k, r))
            case Failed =>
              && NeverRegistered(b, r) && (Started(run) ==> run.innerEnded) && run.outerEnded
              && exists k: nat :: k < n && FailedBecause(b, k, r)
  {
    var run := RunAt(b, n, r);
    RunInvAt(b, n, r);
    if run.handler.outcome.Background? {
      var k := IdNamesRegistration(b, n, r);
      forall l: nat
        ensures !HandlerCancels(b, l, r)
      {
        if HandlerCancels(b, l, r) {
          HandlerCancelsOnlyUnregistered(b, l, n, r);
        }
      }
    } else {
      if run.handler.outcome.Foreground? {
        ShowsAll(run);
      } else {
        var _ := FailsForAReason(b, n, r);
      }
      forall m: nat | HasRun(b, m, r)
        ensures !Registered(RunAt(b, m, r)) && forall id | id in b.states[m].registry :: b.states[m].registry[id] != r
      {
        DetachedNeverRegisters(b, n, m, r);
        RegistryIsExact(b, m);
        FiledMeansRegistered(b, m, r);
      }
    }
  }

  /** The handler is on its way to an error, or there. */
  predicate Failing(handler: Handler) {
    match handler
    case Cancelling => true
    case Returning(outcome) => outcome.Failed?
    case Returned(outcome) => outcome.Failed?
    case _ => false
  }

  /** A request that was refused, a client that went away, or a registry with 100 jobs left after the collection. */
  ghost predicate FailedBecause(b: Behavior, k: nat, r: nat) {
    || Does(b, k, r, Reject)
    || Does(b, k, r, RequestGone)
    || (k < |b.actions| && k < |b.states| && b.actions[k] == Register(r) && |Survivors(b.states[k])| >= 100)
  }

  lemma OpFails(run: Run, op: Op, now: Time)
    requires OpEnabled(run, op, now) && Failing(ApplyOp(run, op, now).handler) && !Failing(run.handler)
    requires RunInv(run)
    ensures op.Reject? || op.RefuseAdd? || run.requestGone
  {
  }

  lemma OpGone(run: Run, op: Op, now: Time)
    requires OpEnabled(run, op, now)
    ensures ApplyOp(run, op, now).requestGone <==> run.requestGone || op.RequestGone?
  {
    match op
    case Launch =>
    case RequestGone =>
    case PollTick =>
    case Settle =>
    case _ =>
  }

  /** The handler sees the client gone only when it is. */
  lemma {:induction false} GoneWasGone(b: Behavior, n: nat, r: nat) returns (k: nat)
    requires IsBehavior(b) && HasRun(b, n, r) && RunAt(b, n, r).requestGone
    ensures k < n && Does(b, k, r, RequestGone)
  {
    if n == 0 {
      assert false;
    } else {
      var op := RunStep(b, n - 1, r);
      k := n - 1;
      if HasRun(b, n - 1, r) {
        if op.Some? {
          OpGone(RunAt(b, n - 1, r), op.value, b.states[n - 1].now);
        }
        if RunAt(b, n - 1, r).requestGone {
          k := GoneWasGone(b, n - 1, r);
        }
      } else {
        NewRunNotGone(b, n - 1, r);
      }
    }
  }

  lemma NewRunNotGone(b: Behavior, n: nat, r: nat)
    requires IsBehavior(b) && n < |b.actions| && HasRun(b, n + 1, r) && !HasRun(b, n, r)
    ensures !RunAt(b, n + 1, r).requestGone
  {
    assert StepAt(b, n);
  }

  lemma OnlyRegisterRefuses(s: State, a: Action, r: nat)
    requires Enabled(s, a) && OpOf(s, a) == Some((r, RefuseAdd))
    ensures a == Register(r) && |Survivors(s)| >= 100
  {
  }

  /** A /run fails only for one of three reasons, found in the history before. */
  lemma {:induction false} FailsForAReason(b: Behavior, n: nat, r: nat) returns (k: nat)
    requires IsBehavior(b) && HasRun(b, n, r) && Failing(RunAt(b, n, r).handler)
    ensures k < n && FailedBecause(b, k, r)
  {
    if n == 0 {
      assert false;
    } else {
      var op := RunStep(b, n - 1, r);
      k := n - 1;
      if HasRun(b, n - 1, r) {
        RunInvAt(b, n - 1, r);
        if Failing(RunAt(b, n - 1, r).handler) {
          k := FailsForAReason(b, n - 1, r);
        } else {
          OpFails(RunAt(b, n - 1, r), op.value, b.states[n - 1].now);
          if op.value.RefuseAdd? {
            assert StepAt(b, n - 1);
            OnlyRegisterRefuses(b.states[n - 1], b.actions[n - 1], r);
          } else if !op.value.Reject? {
            k := GoneWasGone(b, n - 1, r);
          }
        }
      }
    }
  }

  lemma FiledMeansRegistered(b: Behavior, m: nat, r: nat)
    requires IsBehavior(b) && HasRun(b, m, r) && !Registered(RunAt(b, m, r))
    ensures forall id | id in b.states[m].registry :: b.states[m].registry[id] != r
  {
    InvAt(b, m);
  }
}
