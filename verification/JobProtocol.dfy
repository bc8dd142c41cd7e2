/**
 * The job protocol of internal/daemon: one worker goroutine and one polling handler for each /run,
 * HTTP clients that read and kill, and a registry that collects garbage when it is added to.
 * Every critical section and every channel or context operation is one atomic action; the actions
 * of all goroutines interleave freely.
 */
module JobProtocol {
  import opened Wrappers
  import opened Jobs

  /** The four values that sbx.Exec returns. */
  datatype ExecResult = ExecResult(stdout: string, stderr: string, exitCode: int, err: Option<string>)

  /** Where the worker goroutine stands. */
  datatype Worker =
    | NotStarted
    | Executing
    | WritingError
    | WritingStdout
    | WritingStderr
    | TestingContext
    | Finishing(verdict: Status)
    | CleaningUp
    | Closing
    | Exited

  datatype Outcome =
    | Foreground(info: JobInfo)
    | Background(id: string)
    | Failed

  /** Where handleRun and handleRunAutoBackground stand. */
  datatype Handler =
    | Preparing
    | Polling
    | Reading
    | Registering
    | Naming
    | Cancelling
    | Returning(outcome: Outcome)
    | Returned(outcome: Outcome)

  /**
   * One /run request. `outerEnded` is the context made by handleRun, `innerEnded` the one derived from
   * it in newBackgroundJob; the worker tests the inner one. `result` holds the worker's local variables.
   */
  datatype Run = Run(
    job: Job,
    worker: Worker,
    handler: Handler,
    result: Option<ExecResult>,
    deadline: Time,
    requestGone: bool,
    outerEnded: bool,
    innerEnded: bool,
    cleaned: bool,
    done: bool)

  /** What can happen to one run. */
  datatype Op =
    | Reject                          // buildMounts or validateEnv fails
    | Launch                          // newBackgroundJob
    | ExecReturn(result: ExecResult)
    | WriteError
    | WriteStdout
    | WriteStderr
    | TestContext
    | RecordFinish
    | RunCleanup
    | CloseDone
    | Deadline                        // the run timeout of the outer context
    | RequestGone                     // the HTTP client went away
    | PollTick
    | Threshold
    | NoticeGone
    | CancelOwn                       // job.cancel() on an error path
    | ReadOwn
    | NameOutcome
    | Settle                          // handleRun cancels unless a job id is returned
    | AssignId(id: string)            // Add succeeds
    | RefuseAdd                       // Add fails
    | FullRead                        // snapshot(true) for an HTTP client
    | Kill                            // j.cancel() for an HTTP client

  predicate IsOwn(op: Op) {
    !op.AssignId? && !op.RefuseAdd? && !op.FullRead? && !op.Kill?
  }

  function ErrorText(result: ExecResult): string {
    match result.err
    case Some(text) => text + "\n"
    case None => ""
  }

  predicate CancelsOnReturn(outcome: Outcome) {
    outcome.Failed? || outcome.Foreground? || outcome.id == ""
  }

  predicate OpEnabled(run: Run, op: Op, now: Time) {
    match op
    case Reject => run.handler.Preparing?
    case Launch => run.handler.Preparing?
    case ExecReturn(_) => run.worker.Executing?
    case WriteError => run.worker.WritingError? && run.result.Some? && run.result.value.err.Some?
    case WriteStdout => run.worker.WritingStdout? && run.result.Some?
    case WriteStderr => run.worker.WritingStderr? && run.result.Some?
    case TestContext => run.worker.TestingContext?
    case RecordFinish => run.worker.Finishing? && run.result.Some?
    case RunCleanup => run.worker.CleaningUp?
    case CloseDone => run.worker.Closing?
    case Deadline => now >= run.deadline
    case RequestGone => true
    case PollTick => run.handler.Polling?
    case Threshold => run.handler.Polling?
    case NoticeGone => run.handler.Polling? && run.requestGone
    case CancelOwn => run.handler.Cancelling?
    case ReadOwn => run.handler.Reading?
    case NameOutcome => run.handler.Naming?
    case Settle => run.handler.Returning?
    case AssignId(_) => run.handler.Registering?
    case RefuseAdd => run.handler.Registering?
    case FullRead => true
    case Kill => true
  }

  function ApplyOp(run: Run, op: Op, now: Time): Run
    requires OpEnabled(run, op, now)
  {
    match op
    case Reject => run.(handler := Returning(Failed))
    case Launch =>
      run.(job := NewJob(run.job.callerId, run.job.command, now), worker := Executing, handler := Polling,
           innerEnded := run.outerEnded)
    case ExecReturn(result) =>
      run.(result := Some(result), worker := if result.err.Some? then WritingError else WritingStdout)
    case WriteError =>
      run.(job := run.job.(stderr := run.job.stderr + run.result.value.err.value + "\n"), worker := WritingStdout)
    case WriteStdout =>
      run.(job := run.job.(stdout := run.job.stdout + run.result.value.stdout), worker := WritingStderr)
    case WriteStderr =>
      run.(job := run.job.(stderr := run.job.stderr + run.result.value.stderr), worker := TestingContext)
    case TestContext => run.(worker := Finishing(if run.innerEnded then Killed else Completed))
    case RecordFinish =>
      run.(job := Finish(run.job, run.worker.verdict, run.result.value.exitCode, now), worker := CleaningUp)
    case RunCleanup => run.(worker := Closing, cleaned := true, outerEnded := true, innerEnded := true)
    case CloseDone => run.(worker := Exited, done := true)
    case Deadline => run.(outerEnded := true, innerEnded := run.innerEnded || !run.worker.NotStarted?)
    case RequestGone => run.(requestGone := true)
    case PollTick => if run.done then run.(handler := Reading) else run
    case Threshold => run.(handler := Registering)
    case NoticeGone => run.(handler := Cancelling)
    case CancelOwn => run.(handler := Returning(Failed), innerEnded := true)
    case ReadOwn =>
      run.(job := AfterSnapshot(run.job, true, now), handler := Returning(Foreground(Info(run.job, true))))
    case NameOutcome => run.(handler := Returning(Background(run.job.id)))
    case Settle =>
      var outcome := run.handler.outcome;
      var ends := CancelsOnReturn(outcome);
      run.(handler := Returned(outcome), outerEnded := run.outerEnded || ends,
           innerEnded := run.innerEnded || (ends && !run.worker.NotStarted?))
    case AssignId(id) => run.(job := run.job.(id := id), handler := Naming)
    case RefuseAdd => run.(handler := Cancelling)
    case FullRead => run.(job := AfterSnapshot(run.job, true, now))
    case Kill => run.(innerEnded := true)
  }

  /**
   * Where an HTTP client's request stands: GET /jobs/{id}, or DELETE /jobs/{id}, which looks up twice
   * and finds the job running before it cancels.
   */
  datatype Client =
    | Idle
    | GetHolds(job: nat)
    | KillHolds(id: string, job: nat)
    | KillReady(id: string, job: nat)
    | KillSelects(target: nat, job: nat)
    | KillCancels(target: nat, job: nat)
    | KillReplies(job: nat)

  datatype State = State(
    now: Time,
    runs: seq<Run>,
    registry: map<string, nat>,
    counter: nat,
    clients: map<nat, Client>)
  {
    function ClientAt(c: nat): Client {
      if c in clients then clients[c] else Idle
    }
  }

  datatype Action =
    | Tick(to: Time)
    | Begin(callerId: string, command: string, timeout: nat)
    | OnRun(run: nat, op: Op)
    | Register(run: nat)
    | ListJobs
    | GetLookup(client: nat, id: string)
    | GetRead(client: nat)
    | KillLookup(client: nat, id: string)
    | KillCheck(client: nat)
    | KillFind(client: nat)
    | KillSelect(client: nat)
    | KillCancel(client: nat)
    | KillReply(client: nat)

  function Survivors(s: State): (ids: set<string>)
  {
    set id | id in s.registry && !(s.registry[id] < |s.runs| && Expired(s.runs[s.registry[id]].job, s.now))
  }

  predicate AddSucceeds(s: State) {
    |Survivors(s)| < MAX_BACKGROUND_JOBS
  }

  /** The run an action touches, and how. */
  function OpOf(s: State, a: Action): Option<(nat, Op)> {
    match a
    case OnRun(run, op) => Some((run, op))
    case Register(run) =>
      Some((run, if AddSucceeds(s) then AssignId(FormatId(NextCounter(s.counter))) else RefuseAdd))
    case GetRead(c) => if s.ClientAt(c).GetHolds? then Some((s.ClientAt(c).job, FullRead)) else None
    case KillCancel(c) => if s.ClientAt(c).KillCancels? then Some((s.ClientAt(c).target, Kill)) else None
    case KillReply(c) => if s.ClientAt(c).KillReplies? then Some((s.ClientAt(c).job, FullRead)) else None
    case _ => None
  }

  predicate Enabled(s: State, a: Action) {
    && (OpOf(s, a).Some? ==>
          var (run, op) := OpOf(s, a).value;
          run < |s.runs| && OpEnabled(s.runs[run], op, s.now))
    && match a
       case Tick(to) => to >= s.now
       case OnRun(_, op) => IsOwn(op)
       case GetLookup(c, _) => s.ClientAt(c).Idle?
       case GetRead(c) => s.ClientAt(c).GetHolds?
       case KillLookup(c, _) => s.ClientAt(c).Idle?
       case KillCheck(c) => s.ClientAt(c).KillHolds? && s.ClientAt(c).job < |s.runs|
       case KillFind(c) => s.ClientAt(c).KillReady?
       case KillSelect(c) => s.ClientAt(c).KillSelects? && s.ClientAt(c).target < |s.runs|
       case KillCancel(c) => s.ClientAt(c).KillCancels?
       case KillReply(c) => s.ClientAt(c).KillReplies?
       case _ => true
  }

  function NextRuns(s: State, a: Action): seq<Run>
    requires Enabled(s, a)
  {
    match OpOf(s, a)
    case Some((run, op)) => s.runs[run := ApplyOp(s.runs[run], op, s.now)]
    case None =>
      if a.Begin? then
        s.runs + [Run(NewJob(a.callerId, a.command, s.now), NotStarted, Preparing, None, s.now + a.timeout,
                      false, false, false, false, false)]
      else s.runs
  }

  function NextRegistry(s: State, a: Action): map<string, nat> {
    if a.Register? then
      var kept := map id | id in Survivors(s) :: s.registry[id];
      if AddSucceeds(s) then kept[FormatId(NextCounter(s.counter)) := a.run] else kept
    else s.registry
  }

  function NextClients(s: State, a: Action): map<nat, Client>
    requires Enabled(s, a)
  {
    match a
    case GetLookup(c, id) => if id in s.registry then s.clients[c := GetHolds(s.registry[id])] else s.clients
    case GetRead(c) => s.clients[c := Idle]
    case KillLookup(c, id) => if id in s.registry then s.clients[c := KillHolds(id, s.registry[id])] else s.clients
    case KillCheck(c) =>
      var KillHolds(id, job) := s.ClientAt(c);
      s.clients[c := if s.runs[job].done then Idle else KillReady(id, job)]
    case KillFind(c) =>
      var KillReady(id, job) := s.ClientAt(c);
      s.clients[c := if id in s.registry then KillSelects(s.registry[id], job) else Idle]
    case KillSelect(c) =>
      var KillSelects(target, job) := s.ClientAt(c);
      s.clients[c := if s.runs[target].done then Idle else KillCancels(target, job)]
    case KillCancel(c) => s.clients[c := KillReplies(s.ClientAt(c).job)]
    case KillReply(c) => s.clients[c := Idle]
    case _ => s.clients
  }

  function Apply(s: State, a: Action): State
    requires Enabled(s, a)
  {
    State(
      if a.Tick? then a.to else s.now,
      NextRuns(s, a),
      NextRegistry(s, a),
      if a.Register? && AddSucceeds(s) then NextCounter(s.counter) else s.counter,
      NextClients(s, a))
  }

  predicate Init(s: State) {
    s.runs == [] && s.registry == map[] && s.counter == 0 && s.clients == map[]
  }

  // ---------- What every interleaving keeps ----------

  predicate Started(run: Run) { !run.worker.NotStarted? }

  predicate Registered(run: Run) { run.job.id != "" }

  /** Nothing has been recorded, and nothing has been read. */
  predicate Unfinished(job: Job) {
    job.status == Running && job.exitCode == 0 && job.completedAt.None? && job.lastAccessedAt.None?
  }

  /** Both buffers hold all that Exec returned. */
  predicate OutputComplete(run: Run) {
    && run.result.Some?
    && run.job.stdout == run.result.value.stdout
    && run.job.stderr == ErrorText(run.result.value) + run.result.value.stderr
  }

  predicate Recorded(run: Run) {
    && OutputComplete(run)
    && run.job.Terminal() && run.job.completedAt.Some? && run.job.exitCode == run.result.value.exitCode
    && (run.job.status.Killed? ==> run.innerEnded)
  }

  predicate WorkerInv(run: Run) {
    && (run.done <==> run.worker.Exited?)
    && (run.cleaned <==> run.worker.Closing? || run.worker.Exited?)
    && (run.cleaned ==> run.outerEnded)
    && (run.outerEnded && Started(run) ==> run.innerEnded)
    && match run.worker
       case NotStarted =>
         Unfinished(run.job) && run.job.stdout == run.job.stderr == "" && run.result.None? && !run.innerEnded
       case Executing => Unfinished(run.job) && run.job.stdout == run.job.stderr == "" && run.result.None?
       case WritingError =>
         Unfinished(run.job) && run.job.stdout == run.job.stderr == ""
         && run.result.Some? && run.result.value.err.Some?
       case WritingStdout =>
         Unfinished(run.job) && run.job.stdout == ""
         && run.result.Some? && run.job.stderr == ErrorText(run.result.value)
       case WritingStderr =>
         Unfinished(run.job) && run.result.Some?
         && run.job.stdout == run.result.value.stdout && run.job.stderr == ErrorText(run.result.value)
       case TestingContext => Unfinished(run.job) && OutputComplete(run)
       case Finishing(verdict) =>
         Unfinished(run.job) && OutputComplete(run) && !verdict.Running? && (verdict.Killed? ==> run.innerEnded)
       case _ => Recorded(run)
  }

  predicate OutcomeInv(run: Run, outcome: Outcome, settled: bool) {
    match outcome
    case Foreground(info) =>
      !Registered(run) && run.done && info == Info(run.job, true) && (settled ==> run.outerEnded)
    case Background(id) => Registered(run) && id == run.job.id && Started(run)
    case Failed =>
      !Registered(run) && (Started(run) ==> run.innerEnded) && (settled ==> run.outerEnded)
  }

  predicate HandlerInv(run: Run) {
    match run.handler
    case Preparing => !Registered(run) && !Started(run)
    case Reading => !Registered(run) && run.done
    case Naming => Registered(run) && Started(run)
    case Returning(outcome) => OutcomeInv(run, outcome, false)
    case Returned(outcome) => OutcomeInv(run, outcome, true)
    case _ => !Registered(run) && Started(run)
  }

  predicate RunInv(run: Run) {
    WorkerInv(run) && HandlerInv(run)
  }

  ghost predicate Holds(s: State, job: nat) {
    job < |s.runs| && Registered(s.runs[job])
  }

  ghost predicate HoldsAlike(s: State, target: nat, job: nat) {
    Holds(s, target) && Holds(s, job) && s.runs[target].job.id == s.runs[job].job.id
  }

  ghost predicate RegistryInv(s: State) {
    && |s.registry| <= MAX_BACKGROUND_JOBS
    && s.counter < UINT64_RANGE
    && forall id | id in s.registry :: Holds(s, s.registry[id]) && s.runs[s.registry[id]].job.id == id
  }

  ghost predicate ClientInv(s: State, client: Client) {
    match client
    case Idle => true
    case GetHolds(job) => Holds(s, job)
    case KillHolds(id, job) => Holds(s, job) && s.runs[job].job.id == id
    case KillReady(id, job) => Holds(s, job) && s.runs[job].job.id == id
    case KillSelects(target, job) => HoldsAlike(s, target, job)
    case KillCancels(target, job) => HoldsAlike(s, target, job)
    case KillReplies(job) => Holds(s, job)
  }

  ghost predicate Inv(s: State) {
    && (forall r | 0 <= r < |s.runs| :: RunInv(s.runs[r]))
    && RegistryInv(s)
    && (forall c | c in s.clients :: ClientInv(s, s.clients[c]))
  }

  lemma OpKeepsWorkerInv(run: Run, op: Op, now: Time)
    requires RunInv(run) && OpEnabled(run, op, now)
    requires op.FullRead? || op.Kill? ==> Registered(run)
    ensures WorkerInv(ApplyOp(run, op, now))
  {
    match op
    case WriteStdout => assert "" + run.result.value.stdout == run.result.value.stdout;
    case WriteError => assert "" + run.result.value.err.value + "\n" == run.result.value.err.value + "\n";
    case _ =>
  }

  /** The worker's operations, and those from outside, leave the handler where it is. */
  predicate MovesHandler(op: Op) {
    op.Reject? || op.Launch? || op.PollTick? || op.Threshold? || op.NoticeGone? || op.CancelOwn? || op.ReadOwn?
    || op.NameOutcome? || op.Settle? || op.AssignId? || op.RefuseAdd?
  }

  lemma OtherOpKeepsHandlerInv(run: Run, op: Op, now: Time)
    requires RunInv(run) && OpEnabled(run, op, now) && !MovesHandler(op)
    requires op.FullRead? || op.Kill? ==> Registered(run)
    ensures HandlerInv(ApplyOp(run, op, now))
  {
  }

  lemma OwnOpKeepsHandlerInv(run: Run, op: Op, now: Time)
    requires RunInv(run) && OpEnabled(run, op, now) && MovesHandler(op)
    requires op.AssignId? ==> op.id != ""
    ensures HandlerInv(ApplyOp(run, op, now))
  {
  }

  lemma OpKeepsHandlerInv(run: Run, op: Op, now: Time)
    requires RunInv(run) && OpEnabled(run, op, now)
    requires op.AssignId? ==> op.id != ""
    requires op.FullRead? || op.Kill? ==> Registered(run)
    ensures HandlerInv(ApplyOp(run, op, now))
  {
    if MovesHandler(op) {
      OwnOpKeepsHandlerInv(run, op, now);
    } else {
      OtherOpKeepsHandlerInv(run, op, now);
    }
  }

  lemma OpKeepsRunInv(run: Run, op: Op, now: Time)
    requires RunInv(run) && OpEnabled(run, op, now)
    requires op.AssignId? ==> op.id != ""
    requires op.FullRead? || op.Kill? ==> Registered(run)
    ensures RunInv(ApplyOp(run, op, now))
  {
    OpKeepsWorkerInv(run, op, now);
    OpKeepsHandlerInv(run, op, now);
  }

  /** What no later action undoes. */
  predicate Evolves(before: Run, after: Run) {
    JobEvolves(before, after) && ControlEvolves(before, after)
  }

  predicate JobEvolves(before: Run, after: Run) {
    && (Registered(before) ==> after.job.id == before.job.id)
    && (Started(before) ==>
          after.job.callerId == before.job.callerId && after.job.command == before.job.command
          && after.job.startedAt == before.job.startedAt)
    && (before.job.Terminal() ==>
          && after.job.status == before.job.status && after.job.exitCode == before.job.exitCode
          && after.job.stdout == before.job.stdout && after.job.stderr == before.job.stderr
          && after.job.completedAt == before.job.completedAt)
    && (before.job.lastAccessedAt.Some? ==> after.job.lastAccessedAt == before.job.lastAccessedAt)
  }

  predicate ControlEvolves(before: Run, after: Run) {
    && FlagsEvolve(before, after)
    && (HandlerDetached(before) ==> HandlerDetached(after))
  }

  predicate FlagsEvolve(before: Run, after: Run) {
    && (before.result.Some? ==> after.result == before.result)
    && (before.innerEnded ==> after.innerEnded) && (before.outerEnded ==> after.outerEnded)
    && (before.cleaned ==> after.cleaned) && (before.done ==> after.done)
    && (Started(before) ==> Started(after))
  }

  /** The handler is on a path that returns without having registered the job. */
  predicate HandlerDetached(run: Run) {
    match run.handler
    case Reading => true
    case Cancelling => true
    case Returning(outcome) => !outcome.Background?
    case Returned(outcome) => !outcome.Background?
    case _ => false
  }

  lemma OpEvolvesJob(run: Run, op: Op, now: Time)
    requires RunInv(run) && OpEnabled(run, op, now)
    ensures JobEvolves(run, ApplyOp(run, op, now))
  {
  }

  lemma OpEvolvesFlags(run: Run, op: Op, now: Time)
    requires RunInv(run) && OpEnabled(run, op, now)
    ensures FlagsEvolve(run, ApplyOp(run, op, now))
  {
  }

  lemma DetachedStays(run: Run, op: Op, now: Time)
    requires OpEnabled(run, op, now) && HandlerDetached(run)
    ensures HandlerDetached(ApplyOp(run, op, now))
  {
  }

  lemma OpEvolvesControl(run: Run, op: Op, now: Time)
    requires RunInv(run) && OpEnabled(run, op, now)
    ensures ControlEvolves(run, ApplyOp(run, op, now))
  {
    OpEvolvesFlags(run, op, now);
    if HandlerDetached(run) {
      DetachedStays(run, op, now);
    }
  }

  lemma OpEvolves(run: Run, op: Op, now: Time)
    requires RunInv(run) && OpEnabled(run, op, now)
    ensures Evolves(run, ApplyOp(run, op, now))
  {
    OpEvolvesJob(run, op, now);
    OpEvolvesControl(run, op, now);
  }

  lemma EvolvesTransitive(a: Run, b: Run, c: Run)
    requires Evolves(a, b) && Evolves(b, c)
    ensures Evolves(a, c)
  {
  }

  lemma InitInv(s: State)
    requires Init(s)
    ensures Inv(s)
  {
  }

  /** A client, or the handler itself, only ever touches a job in the way its place allows. */
  lemma TouchedRun(s: State, a: Action)
    requires Inv(s) && Enabled(s, a)
    ensures OpOf(s, a).Some? ==>
              var (r, op) := OpOf(s, a).value;
              && (op.AssignId? ==> op.id != "")
              && (op.FullRead? || op.Kill? ==> Registered(s.runs[r]))
  {
    FormatIdNotEmpty(NextCounter(s.counter));
    match a
    case GetRead(c) => assert c in s.clients;
    case KillCancel(c) => assert c in s.clients;
    case KillReply(c) => assert c in s.clients;
    case _ =>
  }

  /** One run of the next state: untouched, touched by one operation, or new. */
  lemma StepKeepsRun(s: State, a: Action, r: nat)
    requires Inv(s) && Enabled(s, a) && r < |NextRuns(s, a)|
    ensures RunInv(NextRuns(s, a)[r])
    ensures r < |s.runs| ==> Evolves(s.runs[r], NextRuns(s, a)[r])
  {
    var touched := OpOf(s, a);
    if touched.Some? && touched.value.0 == r {
      TouchedRun(s, a);
      OpKeepsRunInv(s.runs[r], touched.value.1, s.now);
      OpEvolves(s.runs[r], touched.value.1, s.now);
    } else if r < |s.runs| {
      assert NextRuns(s, a)[r] == s.runs[r];
    }
  }

  lemma StepKeepsRuns(s: State, a: Action)
    requires Inv(s) && Enabled(s, a)
    ensures |s.runs| <= |NextRuns(s, a)|
    ensures forall r | 0 <= r < |NextRuns(s, a)| :: RunInv(NextRuns(s, a)[r])
    ensures forall r | 0 <= r < |s.runs| :: Evolves(s.runs[r], NextRuns(s, a)[r])
  {
    forall r | 0 <= r < |NextRuns(s, a)|
      ensures RunInv(NextRuns(s, a)[r])
      ensures r < |s.runs| ==> Evolves(s.runs[r], NextRuns(s, a)[r])
    {
      StepKeepsRun(s, a, r);
    }
  }

  lemma StepKeepsHolds(s: State, a: Action, job: nat)
    requires Inv(s) && Enabled(s, a) && Holds(s, job)
    ensures Holds(Apply(s, a), job) && Apply(s, a).runs[job].job.id == s.runs[job].job.id
  {
    StepKeepsRun(s, a, job);
  }

  lemma SubsetSize<T>(a: set<T>, b: set<T>)
    requires a <= b
    ensures |a| <= |b|
  {
    assert b == a + (b - a);
  }

  lemma NextRegistrySize(s: State, a: Action)
    requires |s.registry| <= MAX_BACKGROUND_JOBS
    ensures |NextRegistry(s, a)| <= MAX_BACKGROUND_JOBS
  {
    if a.Register? {
      var kept := map id | id in Survivors(s) :: s.registry[id];
      assert kept.Keys == Survivors(s);
      SubsetSize(kept.Keys, s.registry.Keys);
      if AddSucceeds(s) {
        assert NextRegistry(s, a).Keys == kept.Keys + {FormatId(NextCounter(s.counter))};
      }
    }
  }

  /** An entry of the next registry is an old one, or the one just added. */
  lemma NextRegistryEntry(s: State, a: Action, id: string)
    requires id in NextRegistry(s, a)
    ensures (id in s.registry && NextRegistry(s, a)[id] == s.registry[id])
            || (a.Register? && AddSucceeds(s) && id == FormatId(NextCounter(s.counter))
                && NextRegistry(s, a)[id] == a.run)
  {
  }

  lemma AssignNames(run: Run, id: string, now: Time)
    requires OpEnabled(run, AssignId(id), now)
    ensures ApplyOp(run, AssignId(id), now).job.id == id
  {
  }

  lemma RegisteringUnnamed(run: Run)
    requires HandlerInv(run) && run.handler.Registering?
    ensures !Registered(run)
  {
  }

  lemma RegistersUnnamed(s: State, a: Action)
    requires Inv(s) && Enabled(s, a) && a.Register?
    ensures a.run < |s.runs| && !Registered(s.runs[a.run])
  {
    assert RunInv(s.runs[a.run]);
    RegisteringUnnamed(s.runs[a.run]);
  }

  /** The job just added carries the next identifier. */
  lemma AddedIsNamed(s: State, a: Action)
    requires Enabled(s, a) && a.Register? && AddSucceeds(s)
    ensures a.run < |s.runs| && a.run < |NextRuns(s, a)|
    ensures NextRuns(s, a)[a.run].job.id == FormatId(NextCounter(s.counter))
  {
    AssignNames(s.runs[a.run], FormatId(NextCounter(s.counter)), s.now);
  }

  /** What is filed next is a registered job under its own identifier: an old entry, or the one just added. */
  lemma StepKeepsEntry(s: State, a: Action, id: string)
    requires Inv(s) && Enabled(s, a) && id in NextRegistry(s, a)
    ensures var t := Apply(s, a);
            Holds(t, t.registry[id]) && t.runs[t.registry[id]].job.id == id
  {
    NextRegistryEntry(s, a, id);
    if id in s.registry && NextRegistry(s, a)[id] == s.registry[id] {
      StepKeepsHolds(s, a, s.registry[id]);
    } else {
      AddedIsNamed(s, a);
      FormatIdNotEmpty(NextCounter(s.counter));
    }
  }

  lemma StepKeepsRegistry(s: State, a: Action)
    requires Inv(s) && Enabled(s, a)
    ensures RegistryInv(Apply(s, a))
  {
    var t := Apply(s, a);
    NextRegistrySize(s, a);
    forall id | id in t.registry
      ensures Holds(t, t.registry[id]) && t.runs[t.registry[id]].job.id == id
    {
      StepKeepsEntry(s, a, id);
    }
  }

  lemma ClientMoves(s: State, a: Action, c: nat)
    requires Inv(s) && Enabled(s, a) && c in NextClients(s, a)
    ensures ClientInv(s, NextClients(s, a)[c])
  {
    assert c in s.clients ==> ClientInv(s, s.clients[c]);
  }

  lemma StepKeepsClient(s: State, a: Action, c: nat)
    requires Inv(s) && Enabled(s, a) && c in NextClients(s, a)
    ensures ClientInv(Apply(s, a), NextClients(s, a)[c])
  {
    ClientMoves(s, a, c);
    forall job: nat | Holds(s, job)
      ensures Holds(Apply(s, a), job) && Apply(s, a).runs[job].job.id == s.runs[job].job.id
    {
      StepKeepsHolds(s, a, job);
    }
  }

  lemma StepKeepsInv(s: State, a: Action)
    requires Inv(s) && Enabled(s, a)
    ensures Inv(Apply(s, a))
  {
    StepKeepsRuns(s, a);
    StepKeepsRegistry(s, a);
    forall c | c in NextClients(s, a)
      ensures ClientInv(Apply(s, a), NextClients(s, a)[c])
    {
      StepKeepsClient(s, a, c);
    }
  }
}
