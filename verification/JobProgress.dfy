/**
 * What can still happen in a run of the job protocol, from whatever point: no worker, handler or client is ever stuck,
 * and which ways out of a /run are open does not depend on what else has happened.
 */
module JobProgress {
  import opened Wrappers
  import opened Jobs
  import opened JobProtocol
  import opened JobTheorems

  /** b' begins as b did. */
  ghost predicate Continues(b: Behavior, b': Behavior) {
    IsBehavior(b') && b.states <= b'.states && b.actions <= b'.actions
  }

  ghost predicate HasLast(b: Behavior, r: nat) {
    IsBehavior(b) && r < |Last(b).runs|
  }

  ghost function LastRun(b: Behavior, r: nat): Run
    requires HasLast(b, r)
  {
    Last(b).runs[r]
  }

  /** One more operation of run r, which leaves everything else alone. */
  lemma Go(b: Behavior, r: nat, op: Op) returns (b': Behavior)
    requires HasLast(b, r) && IsOwn(op) && OpEnabled(LastRun(b, r), op, Last(b).now)
    ensures Continues(b, b') && HasLast(b', r)
    ensures LastRun(b', r) == ApplyOp(LastRun(b, r), op, Last(b).now)
    ensures Last(b') == Last(b).(runs := Last(b).runs[r := LastRun(b', r)])
  {
    b' := Extend(b, OnRun(r, op));
  }

  lemma LastInv(b: Behavior, r: nat)
    requires HasLast(b, r)
    ensures RunInv(LastRun(b, r))
  {
    RunInvAt(b, |b.states| - 1, r);
  }

  // ---------- The worker ----------

  function StepsLeft(worker: Worker): nat {
    match worker
    case NotStarted => 9
    case Executing => 8
    case WritingError => 7
    case WritingStdout => 6
    case WritingStderr => 5
    case TestingContext => 4
    case Finishing(_) => 3
    case CleaningUp => 2
    case Closing => 1
    case Exited => 0
  }

  /** What the worker does next; Exec may return anything. */
  function NextStep(worker: Worker, result: ExecResult): Op {
    match worker
    case NotStarted => Launch
    case Executing => ExecReturn(result)
    case WritingError => WriteError
    case WritingStdout => WriteStdout
    case WritingStderr => WriteStderr
    case TestingContext => TestContext
    case Finishing(_) => RecordFinish
    case CleaningUp => RunCleanup
    case Closing => CloseDone
    case Exited => CloseDone
  }

  lemma WorkerSteps(run: Run, result: ExecResult, now: Time)
    requires RunInv(run) && Started(run) && !run.worker.Exited?
    ensures var op := NextStep(run.worker, result);
            && IsOwn(op) && OpEnabled(run, op, now)
            && var next := ApplyOp(run, op, now);
               && StepsLeft(next.worker) < StepsLeft(run.worker) && Started(next)
               && next.handler == run.handler && next.requestGone == run.requestGone
               && next.result == (if run.worker.Executing? then Some(result) else run.result)
  {
  }

  /** Once started, the worker can always go on to the end, and closes done. */
  lemma {:induction false} WorkerCanFinish(b: Behavior, r: nat, result: ExecResult) returns (b': Behavior)
    requires HasLast(b, r) && Started(LastRun(b, r))
    ensures Continues(b, b') && HasLast(b', r)
    ensures LastRun(b', r).done && LastRun(b', r).handler == LastRun(b, r).handler
    ensures LastRun(b, r).worker.Executing? ==> LastRun(b', r).result == Some(result)
    decreases StepsLeft(LastRun(b, r).worker)
  {
    LastInv(b, r);
    if LastRun(b, r).worker.Exited? {
      return b;
    }
    WorkerSteps(LastRun(b, r), result, Last(b).now);
    var next := Go(b, r, NextStep(LastRun(b, r).worker, result));
    b' := WorkerCanFinish(next, r, result);
    LastInv(b', r);
    if LastRun(b, r).worker.Executing? {
      EvolvesBetween(b', |next.states| - 1, |b'.states| - 1, r);
    }
  }

  // ---------- The handler ----------

  /** Done, the command's output can be the answer, whether or not the client went away. */
  lemma CanAnswer(b: Behavior, r: nat) returns (b': Behavior)
    requires HasLast(b, r) && LastRun(b, r).handler.Polling? && LastRun(b, r).done
    ensures Continues(b, b') && HasLast(b', r)
    ensures LastRun(b', r).handler.Returned? && LastRun(b', r).handler.outcome.Foreground?
  {
    b' := Go(b, r, PollTick);
    b' := Go(b', r, ReadOwn);
    b' := Go(b', r, Settle);
  }

  /** Once the client is gone the handler can give up, whether or not the job is done. */
  lemma CanGiveUp(b: Behavior, r: nat) returns (b': Behavior)
    requires HasLast(b, r) && LastRun(b, r).handler.Polling? && LastRun(b, r).requestGone
    ensures Continues(b, b') && HasLast(b', r) && LastRun(b', r).handler == Returned(Failed)
  {
    b' := Go(b, r, NoticeGone);
    b' := Go(b', r, CancelOwn);
    b' := Go(b', r, Settle);
  }

  /** The threshold may pass at any time: even a job that is done can be left behind, if there is room. */
  lemma CanRegister(b: Behavior, r: nat) returns (b': Behavior)
    requires HasLast(b, r) && LastRun(b, r).handler.Polling?
    ensures Continues(b, b') && HasLast(b', r) && LastRun(b', r).handler.Returned?
    ensures |Survivors(Last(b))| < 100 ==>
              && LastRun(b', r).handler.outcome.Background?
              && LastRun(b', r).handler.outcome.id in Last(b').registry
              && Last(b').registry[LastRun(b', r).handler.outcome.id] == r
    ensures |Survivors(Last(b))| >= 100 ==> LastRun(b', r).handler.outcome.Failed?
  {
    b' := Go(b, r, Threshold);
    SameSurvivors(b, b', r);
    b' := CanAdd(b', r);
  }

  lemma SameSurvivors(b: Behavior, b': Behavior, r: nat)
    requires HasLast(b, r) && HasLast(b', r) && Last(b') == Last(b).(runs := Last(b').runs)
    requires Last(b').runs == Last(b).runs[r := LastRun(b', r)] && LastRun(b', r).job == LastRun(b, r).job
    ensures Survivors(Last(b')) == Survivors(Last(b))
  {
    assert forall i | 0 <= i < |Last(b).runs| :: Last(b').runs[i].job == Last(b).runs[i].job;
  }

  lemma CanAdd(b: Behavior, r: nat) returns (b': Behavior)
    requires HasLast(b, r) && LastRun(b, r).handler.Registering?
    ensures Continues(b, b') && HasLast(b', r) && LastRun(b', r).handler.Returned?
    ensures |Survivors(Last(b))| < 100 ==>
              && LastRun(b', r).handler.outcome.Background?
              && LastRun(b', r).handler.outcome.id in Last(b').registry
              && Last(b').registry[LastRun(b', r).handler.outcome.id] == r
    ensures |Survivors(Last(b))| >= 100 ==> LastRun(b', r).handler.outcome.Failed?
  {
    AddSteps(Last(b), r);
    b' := Extend(b, Register(r));
    b' := Go(b', r, if |Survivors(Last(b))| < 100 then NameOutcome else CancelOwn);
    b' := Go(b', r, Settle);
  }

  lemma AddSteps(s: State, r: nat)
    requires r < |s.runs| && s.runs[r].handler.Registering?
    ensures Enabled(s, Register(r))
    ensures var t := Apply(s, Register(r));
            && |t.runs| == |s.runs|
            && (|Survivors(s)| < 100 ==>
                  t.runs[r].handler.Naming? && t.runs[r].job.id in t.registry && t.registry[t.runs[r].job.id] == r)
            && (|Survivors(s)| >= 100 ==> t.runs[r].handler.Cancelling?)
  {
  }

  /** A request is either refused or started; the client may be gone already, and the context ended. */
  lemma CanBegin(b: Behavior, r: nat) returns (refused: Behavior, started: Behavior)
    requires HasLast(b, r) && LastRun(b, r).handler.Preparing?
    ensures Continues(b, refused) && HasLast(refused, r) && LastRun(refused, r).handler == Returned(Failed)
    ensures Continues(b, started) && HasLast(started, r) && LastRun(started, r).handler.Polling?
    ensures LastRun(started, r).worker.Executing?
    ensures LastRun(started, r).innerEnded == LastRun(b, r).outerEnded
  {
    refused := Go(b, r, Reject);
    refused := Go(refused, r, Settle);
    started := Go(b, r, Launch);
  }

  lemma HandlerCanReturn(b: Behavior, r: nat) returns (b': Behavior)
    requires HasLast(b, r)
    ensures Continues(b, b') && HasLast(b', r) && LastRun(b', r).handler.Returned?
  {
    b' := b;
    match LastRun(b, r).handler
    case Preparing =>
      b' := Go(b, r, Reject);
      b' := Go(b', r, Settle);
    case Polling => b' := CanRegister(b, r);
    case Reading =>
      b' := Go(b, r, ReadOwn);
      b' := Go(b', r, Settle);
    case Registering => b' := CanAdd(b, r);
    case Naming =>
      b' := Go(b, r, NameOutcome);
      b' := Go(b', r, Settle);
    case Cancelling =>
      b' := Go(b, r, CancelOwn);
      b' := Go(b', r, Settle);
    case Returning(_) => b' := Go(b, r, Settle);
    case Returned(_) =>
  }

  /** Whatever has happened, every /run can still be answered and its worker, if there is one, can still end. */
  lemma EveryRunCanEnd(b: Behavior, r: nat) returns (b': Behavior)
    requires HasLast(b, r)
    ensures Continues(b, b') && HasLast(b', r) && LastRun(b', r).handler.Returned?
    ensures Started(LastRun(b', r)) ==> LastRun(b', r).done
  {
    b' := HandlerCanReturn(b, r);
    if Started(LastRun(b', r)) {
      b' := WorkerCanFinish(b', r, ExecResult("", "", 0, None));
    }
  }

  /** And time can pass to any later moment while everything else waits. */
  lemma TimeCanPass(b: Behavior, to: Time) returns (b': Behavior)
    requires IsBehavior(b) && Last(b).now <= to
    ensures Continues(b, b') && Last(b') == Last(b).(now := to)
  {
    b' := Extend(b, Tick(to));
  }

  /** The client can go away at any moment, which by itself changes nothing else. */
  lemma CanLeave(b: Behavior, r: nat) returns (b': Behavior)
    requires HasLast(b, r)
    ensures Continues(b, b') && HasLast(b', r) && LastRun(b', r) == LastRun(b, r).(requestGone := true)
  {
    b' := Go(b, r, RequestGone);
  }

  /** Every run can outlast its timeout, which ends its context and, if it has started, its job's. */
  lemma CanTimeOut(b: Behavior, r: nat) returns (b': Behavior)
    requires HasLast(b, r)
    ensures Continues(b, b') && HasLast(b', r)
    ensures LastRun(b', r).outerEnded && (Started(LastRun(b, r)) ==> LastRun(b', r).innerEnded)
    ensures LastRun(b', r).handler == LastRun(b, r).handler && LastRun(b', r).worker == LastRun(b, r).worker
  {
    b' := TimeCanPass(b, if Last(b).now < LastRun(b, r).deadline then LastRun(b, r).deadline else Last(b).now);
    b' := Go(b', r, Deadline);
  }

  // ---------- The clients ----------

  function MovesLeft(client: Client): nat {
    match client
    case Idle => 0
    case GetHolds(_) => 1
    case KillReplies(_) => 1
    case KillCancels(_, _) => 2
    case KillSelects(_, _) => 3
    case KillReady(_, _) => 4
    case KillHolds(_, _) => 5
  }

  function NextMove(client: Client, c: nat): Action {
    match client
    case Idle => ListJobs
    case GetHolds(_) => GetRead(c)
    case KillReplies(_) => KillReply(c)
    case KillCancels(_, _) => KillCancel(c)
    case KillSelects(_, _) => KillSelect(c)
    case KillReady(_, _) => KillFind(c)
    case KillHolds(_, _) => KillCheck(c)
  }

  lemma ClientMoves(s: State, c: nat)
    requires Inv(s)
    ensures var a := NextMove(s.ClientAt(c), c);
            Enabled(s, a) && (!s.ClientAt(c).Idle? ==> MovesLeft(Apply(s, a).ClientAt(c)) < MovesLeft(s.ClientAt(c)))
  {
    if c in s.clients {
      assert ClientInv(s, s.clients[c]);
    }
  }

  /** Every GET and every DELETE can still be answered. */
  lemma {:induction false} EveryClientCanEnd(b: Behavior, c: nat) returns (b': Behavior)
    requires IsBehavior(b)
    ensures Continues(b, b') && Last(b').ClientAt(c).Idle?
    decreases MovesLeft(Last(b).ClientAt(c))
  {
    b' := b;
    if !Last(b).ClientAt(c).Idle? {
      InvAt(b, |b.states| - 1);
      ClientMoves(Last(b), c);
      b' := Extend(b, NextMove(Last(b).ClientAt(c), c));
      b' := EveryClientCanEnd(b', c);
    }
  }
}
