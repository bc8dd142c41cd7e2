/**
 * A background job as a value: what each critical section of internal/daemon/jobs.go does to it,
 * and what a reader gets to see. The classes of JobManager.dfy are proved against these functions,
 * and the protocol of JobProtocol.dfy takes its steps with them.
 */
module Jobs {
  import opened Wrappers
  import opened Numerals

  const MAX_BACKGROUND_JOBS := 100
  const RETENTION_NS := 300_000_000_000 // five minutes
  const MAX_OUTPUT_BYTES := 65536
  const UINT64_RANGE := 0x1_0000_0000_0000_0000

  /** An instant of the monotonic clock, in nanoseconds. Go's zero time is None. */
  type Time = int

  datatype Status = Running | Completed | Killed

  datatype Job = Job(
    id: string,
    callerId: string,
    command: string,
    startedAt: Time,
    stdout: string,
    stderr: string,
    status: Status,
    exitCode: int,
    completedAt: Option<Time>,
    lastAccessedAt: Option<Time>)
  {
    predicate Terminal() { status != Running }
  }

  datatype JobInfo = JobInfo(
    id: string,
    callerId: string,
    command: string,
    status: Status,
    exitCode: int,
    stdout: string,
    stderr: string,
    startedAt: Time,
    completedAt: Option<Time>)

  function NewJob(callerId: string, command: string, now: Time): Job {
    Job("", callerId, command, now, "", "", Running, 0, None, None)
  }

  function Finish(job: Job, status: Status, exitCode: int, now: Time): Job {
    job.(status := status, exitCode := exitCode, completedAt := Some(now))
  }

  /** What a snapshot shows. */
  function Info(job: Job, withOutput: bool): JobInfo {
    var shown := withOutput && job.Terminal();
    JobInfo(
      job.id, job.callerId, job.command, job.status, job.exitCode,
      if shown then Truncate(job.stdout) else "",
      if shown then Truncate(job.stderr) else "",
      job.startedAt, job.completedAt)
  }

  /** What a snapshot leaves behind: the first full read of a finished job starts the countdown. */
  function AfterSnapshot(job: Job, withOutput: bool, now: Time): Job {
    if withOutput && job.Terminal() && job.lastAccessedAt.None?
    then job.(lastAccessedAt := Some(now))
    else job
  }

  predicate Expired(job: Job, now: Time) {
    job.Terminal() && job.lastAccessedAt.Some? && now - job.lastAccessedAt.value >= RETENTION_NS
  }

  /** seq++ on a uint64. */
  function NextCounter(counter: nat): nat {
    (counter + 1) % UINT64_RANGE
  }

  /** "%06x" */
  function FormatId(counter: nat): string {
    ZeroPad(Print(counter, Hex), 6)
  }

  /** Identifiers are undone by hexadecimal parsing, so they never collide unless the counters do. */
  lemma FormatIdRoundTrip(counter: nat)
    ensures Parse(FormatId(counter), Hex) == counter
    ensures FormatId(counter) != ""
  {
    ParsePrint(counter, Hex);
    ParseZeroPad(Print(counter, Hex), 6, Hex);
  }

  lemma FormatIdNotEmpty(counter: nat)
    ensures FormatId(counter) != ""
  {
    FormatIdRoundTrip(counter);
  }

  lemma FormatIdInjective(x: nat, y: nat)
    ensures FormatId(x) == FormatId(y) <==> x == y
  {
    FormatIdRoundTrip(x);
    FormatIdRoundTrip(y);
  }

  /** At least six digits, and as few as that takes: no zero in front of a number that needs more. */
  lemma FormatIdShape(counter: nat)
    ensures |FormatId(counter)| >= 6
    ensures |FormatId(counter)| > 6 ==> FormatId(counter) == Print(counter, Hex)
    ensures |Print(counter, Hex)| <= 6 ==> |FormatId(counter)| == 6
  {
    ZeroPadLength(Print(counter, Hex), 6);
  }

  function Truncate(s: string): string {
    if |s| <= MAX_OUTPUT_BYTES then s else s[..MAX_OUTPUT_BYTES] + "\n...(truncated)"
  }

  /**
   * The sandbox cuts each stream before the daemon does. Whatever it marks the cut with, cutting twice shows what
   * cutting the raw stream once would show, also behind an error text that was written first.
   */
  lemma DoubleTruncation(errorText: string, raw: string, marker: string)
    requires marker != ""
    ensures var cut := if |raw| <= 65536 then raw else raw[..65536] + marker;
            Truncate(errorText + cut) == Truncate(errorText + raw)
    ensures |errorText + raw| > 65536 ==>
              Truncate(errorText + raw) == (errorText + raw)[..65536] + "\n...(truncated)"
  {
    if |raw| > MAX_OUTPUT_BYTES {
      var once := errorText + raw;
      var twice := errorText + (raw[..65536] + marker);
      assert once[..MAX_OUTPUT_BYTES] == twice[..MAX_OUTPUT_BYTES];
    }
  }
}
