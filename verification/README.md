# Temenos in Dafny

Temenos runs shell commands for agents inside a sandbox. Its daemon starts each command, keeps it as a background job
when it takes long, limits its memory through control groups, and compiles one list of mounts to two kinds of sandbox.
This project models the parts of it where order, concurrency and translation decide what happens, and proves what
those parts are for.

| files | what they model |
|---|---|
| `Jobs.dfy`, `JobManager.dfy` | a background job and the registry: values, and the two objects updated in place |
| `JobProtocol.dfy`, `JobTheorems.dfy`, `JobProgress.dfy`, `JobRefinement.dfy` | worker, handler, HTTP readers and killers, and the registry as one state machine whose atomic steps interleave freely; theorems over every run, and over what every run can still come to |
| `CgroupKernel.dfy`, `CgroupRuntime.dfy`, `ExecGroups.dfy` | the kernel's control group tree, the daemon's steps over it with other processes acting in between, and all executions at once |
| `Paths.dfy`, `Mounts.dfy` | Go's path functions on strings, and the list of mounts with its ancestors |
| `ToolDirs.dfy`, `Bwrap.dfy`, `Seatbelt.dfy`, `MountRefinement.dfy`, `Requests.dfy` | the discovered tool directories, the bubblewrap command line, the generated seatbelt rules and their parameters, and a comparison of what both allow |
| `Env.dfy` | the environment from the request to the sandboxed process |
| `TokenCache.dfy`, `TokenCacheProtocol.dfy` | the cache of validated tokens, alone and under concurrency |
| `Wrappers.dfy`, `Sequences.dfy`, `Numerals.dfy`, `Assignments.dfy` | shared helpers |

`dafny verify dfyconfig.toml` checks everything.

## How the concurrent parts are modelled

In the job protocol an action is one critical section, one channel or context operation, or one reading of the clock
together with the section it is read in. A context that ends ends the contexts derived from it in the same action. The
worker's program counter runs through the return of `Exec`, the three writes, the context test, `finish`, `cleanup` and
the closing of `done`; the handler's through its select loop and the four ways out of it. `Exec` may return at any time
with anything. The clock never goes back. A garbage collection reads the clock and visits every job in one action:
all jobs are judged by the one reading that `gcLocked` takes, and a first full read that slips in between sets a later
time, which cannot make a job expire.

The control group methods are classes over a kernel tree. Between any two of their steps `Others` lets all other
processes do whatever the kernel permits, any number of times; a daemon that died at any point and was restarted is
one that starts on whatever tree was left. The constant `calm` says that nothing else acts and that nothing fails which the
kernel's rules permit; the methods' contracts say what then has to succeed. What is assumed of the others: nobody disables a controller, anywhere in the
tree; nobody moves or ends the daemon's process; and nobody else makes, limits or removes the group that an execution
has drawn for itself, or makes or removes anything below it. Processes inside that group may fork and exit.
In `ExecGroups.dfy` all names with the executions' prefix are off limits to others; groups that an earlier daemon left may
have any shape, and their processes may fork and exit.

## Where the code and its documentation differ

The model follows the code.

* `AddAncestorMounts` is documented to add every ancestor of every mount that is not metadata-only. The walk stops at
  the first ancestor that is listed, and nothing walks on from a listed metadata-only entry, so a directory above one can
  be missing. `Mounts.PromiseCanFail` gives such a list and `Mounts.PromiseKeptExactly` says when the promise is kept.
* `Kill` is documented to return false for a job that is already done. It looks before it cancels, so it can return
  true for a job that finishes in between: `JobTheorems.KillCanComeLate`, and exactly when it returns true in
  `JobTheorems.KillReturnsTrueExactly`. `JobTheorems.KillDecides` says what such a call can still change.
* The cached validator is documented to return the same username for a token within the TTL.
  `TokenCacheProtocol.AnswersAgree` says exactly when two usernames it returns differ: when another one was stored in
  between. Reviews of the token have to answer differently for that, and then it can happen through reviews that overlap
  (`TokenCacheProtocol.PromiseCanBeBroken`) or through the lazy deletion of a fresh entry
  (`TokenCacheProtocol.PromiseCanBeBrokenByDeletion`).
* The two sandboxes are meant to enforce one mount list. They disagree about writing when a read-only mount is listed
  after a writable one that it overlaps: `MountRefinement.LaterReadOnlyDisagrees`, and exactly when in
  `MountRefinement.AgreeExactly`. Beside the mounts, seatbelt's templates let the host's /tmp be written, where
  bubblewrap has a tmpfs: `MountRefinement.TemplatesDisagree`, and `MountRefinement.SandboxesAgreeExactly` for both together.

## Model

| member | source | states |
|---|---|---|
| `JobTheorems.Publication` | internal/daemon/jobs.go:121-148 | in every run: `done` closed implies cleanup ran, which implies a terminal status, which implies both buffers, exit code and completion time are all in place |
| `JobTheorems.ReadsAreFinal` | internal/daemon/jobs.go:150-176 | a full read of a registered job that ended shows each stream that `Exec` returned (the error text in front of stderr) as it is up to 65536 characters, and otherwise its first 65536 and the marker; every later read shows the same |
| `JobTheorems.CountdownStartsAtFirstRead` | internal/daemon/jobs.go:168-174 | the retention countdown of a job is exactly the time of its first full read after it ended, taken from the history of actions; listing never starts it and no read moves it |
| `JobTheorems.NoResultLost` | internal/daemon/jobs.go:178-208 | a job leaves the registry only in the collection of an `Add`, only if it ended, and only if its first full read was at least five minutes earlier (or 2^64 jobs were registered before) |
| `JobTheorems.AddDropsExactly` | internal/daemon/jobs.go:263-270 | the converse, too: an `Add` drops exactly the jobs that ended and whose first full read, taken from the history, was at least five minutes before, until 2^64 registrations |
| `JobTheorems.AddSucceedsExactly` | internal/daemon/jobs.go:198-203 | it files its job if and only if fewer than 100 jobs are left after that |
| `JobTheorems.IdNamesRegistration` | internal/daemon/jobs.go:204-206 | a job that has an id was filed under it by one `Add` and no other, which drew it from the counter |
| `JobTheorems.RegisteredOnce` | internal/daemon/handler.go:280-289 | no job is registered twice |
| `JobTheorems.CounterCountsAdds` | internal/daemon/jobs.go:204-206 | the 64-bit counter is the number of successful additions so far, modulo 2^64 |
| `JobTheorems.IdsCollide` | internal/daemon/jobs.go:204-206 | two registrations give the same id if and only if a multiple of 2^64 registrations lies between them |
| `JobTheorems.IdsAreFresh` | internal/daemon/jobs.go:204-206 | until 2^64 registrations, distinct registered jobs have distinct ids |
| `JobTheorems.RegistryIsExact` | internal/daemon/jobs.go:194-208 | at most 100 jobs, each filed under its own id and under no other |
| `JobTheorems.GoneForGood` | internal/daemon/jobs.go:194-208 | an id that has left the registry never names a job again, until 2^64 registrations |
| `JobTheorems.VerdictIsTest` | internal/daemon/jobs.go:130-134 | what the worker records is what its context test found at the moment of the test, and there is no verdict before the test |
| `JobTheorems.StatusTellsTheTruth` | internal/daemon/jobs.go:121-148 | a terminal status is the outcome of the only context test of the run: killed if and only if the job's context had ended by then |
| `JobTheorems.StatusIsFinal` | internal/daemon/jobs.go:140-148 | a terminal status never changes |
| `JobTheorems.KillDecides` | internal/daemon/jobs.go:244-259 | a Kill that cancels before the test makes the job killed; one that cancels after it leaves the verdict alone |
| `JobTheorems.KillReturnsTrueExactly` | internal/daemon/jobs.go:252-258 | in every run: a Kill goes on to cancel and return true if and only if its own look at the job found `done` still open |
| `JobTheorems.KillCanComeLate` | internal/daemon/jobs.go:252-258 | a run, for every command, every outcome of `Exec` and every client, in which a Kill that returns true cancels a job that is done and completed |
| `JobTheorems.KillCancelsWhatItReports` | internal/daemon/handler.go:382-400 | DELETE looks the id up twice; until 2^64 registrations what it cancels is the job it checked and reports |
| `JobTheorems.ContextOwnership` | internal/daemon/handler.go:201-217 | the context of a registered job ends only by Kill, by the run timeout or by the job's own cleanup |
| `JobTheorems.HandlerCancelsOnlyUnregistered` | internal/daemon/handler.go:212-216 | a handler ends contexts only of jobs that are registered neither before nor after |
| `JobTheorems.RunEndsOneWay` | internal/daemon/handler.go:258-294 | each /run ends as foreground (finished, never registered, with the streams whole or cut at 65536 characters and the exit code), background (registered under the id returned, not cancelled by its handler) or error (never registered, any started job's context ended, and for one of the three reasons of `FailsForAReason`) |
| `JobTheorems.FailsForAReason` | internal/daemon/handler.go:280-292 | a /run fails only if the history before holds its rejection, its client going away, or its `Add` at a moment when 100 or more jobs survived the collection |
| `JobTheorems.ForegroundHappens` | internal/daemon/handler.go:267-279 | for every command and every outcome of `Exec`, a run that answers with it |
| `JobTheorems.BackgroundHappens` | internal/daemon/handler.go:280-289 | for every command, a run that leaves the job behind, uncancelled, under "000001" |
| `JobTheorems.FailureHappens` | internal/daemon/handler.go:290-292 | for every command, a run that is given up, its context ended, when its client goes away |
| `JobTheorems.TimeoutIsNotEarly` | internal/daemon/handler.go:201-211 | the run timeout ends a context only when the timeout asked for has passed since the request began |
| `JobTheorems.GetReadsWhatWasFiled` | internal/daemon/handler.go:369-380 | what GET reads is the job that was filed under the id asked for when it was looked up |
| `JobTheorems.DeleteReadsWhatItChecked` | internal/daemon/handler.go:384-400 | what DELETE answers with is a full read of the very job that it had looked up and found running |
| `JobProgress.EveryRunCanEnd` | internal/daemon/handler.go:267-294 | no deadlock: every behaviour can go on to one in which this /run is answered and its worker, if started, has closed `done` |
| `JobProgress.WorkerCanFinish` | internal/daemon/jobs.go:121-135 | a started worker can always go on to the end, with any outcome of `Exec`, whatever its handler does |
| `JobProgress.CanBegin` | internal/daemon/handler.go:201-217 | a request can be refused or started, with its client gone or not; a context that has ended by then is the job's from its start |
| `JobProgress.CanAnswer` | internal/daemon/handler.go:269-279 | a done job can be answered in the foreground even when its client is gone: the select takes either |
| `JobProgress.CanRegister` | internal/daemon/handler.go:280-289 | the threshold can win at any moment, even over a job that is done: left behind with fewer than 100 survivors, refused otherwise |
| `JobProgress.CanGiveUp` | internal/daemon/handler.go:290-292 | with the client gone the handler can give up even when the job is done |
| `JobProgress.CanTimeOut` | internal/daemon/handler.go:206-210 | every run can outlast its timeout, wherever it stands; that ends its context and, once started, its job's |
| `JobProgress.EveryClientCanEnd` | internal/daemon/handler.go:369-400 | every GET and every DELETE can still be answered, wherever it stands |
| `JobTheorems.InvAt` | internal/daemon/handler.go:232-295 | the inductive invariant of all runs, clients and the registry holds in every state of every run |
| `JobTheorems.EvolvesBetween` | internal/daemon/jobs.go:121-148 | what no later action undoes: id, status, exit code, output, read time, ended contexts, closed `done` |
| `JobProtocol.StepKeepsInv` | internal/daemon/jobs.go:121-135 | every action of every goroutine keeps the invariant |
| `JobProtocol.StepKeepsRun` | internal/daemon/handler.go:267-294 | one action on one run keeps its invariant and undoes nothing |
| `JobProtocol.StepKeepsRegistry` | internal/daemon/jobs.go:194-208 | one action keeps the registry: at most 100, each entry a registered job under its own id |
| `JobProtocol.StepKeepsClient` | internal/daemon/handler.go:369-400 | a reader or killer only ever holds registered jobs |
| `Jobs.FormatIdRoundTrip` | internal/daemon/jobs.go:205 | zero-padded hexadecimal is undone by parsing, for every counter value |
| `Jobs.FormatIdInjective` | internal/daemon/jobs.go:205 | two counters print alike only if they are equal |
| `Jobs.FormatIdShape` | internal/daemon/jobs.go:205 | an id has at least six digits and no more than it needs beyond that |
| `Jobs.DoubleTruncation` | sandbox/sandbox.go:172-177 | whatever the sandbox marks its own cut with, cutting again shows what cutting the raw stream once would show, also behind an error text |
| `JobManager.BackgroundJob.constructor` | internal/daemon/jobs.go:109-119 | a new job is running, without id, output or times |
| `JobManager.BackgroundJob.Finish` | internal/daemon/jobs.go:141-148 | status, exit code and completion time change together and nothing else does |
| `JobManager.BackgroundJob.Snapshot` | internal/daemon/jobs.go:153-176 | output only of a finished job and only on request, whole up to 65536 characters and otherwise cut there and marked; the first such read, and no other, marks the job; the same read again shows the same |
| `JobManager.BackgroundJob.IsExpired` | internal/daemon/jobs.go:179-190 | finished, read, and first read at least five minutes ago |
| `JobManager.BackgroundJobManager.GcLocked` | internal/daemon/jobs.go:263-270 | in whatever order the map is visited, exactly the expired jobs go |
| `JobManager.BackgroundJobManager.Add` | internal/daemon/jobs.go:194-208 | succeeds if and only if fewer than 100 jobs survive the collection; the registry is then exactly the survivors and the given job under the next id; each job stays filed under its own id if and only if the given one did not survive under another |
| `JobRefinement.AddIsRegister` | internal/daemon/jobs.go:194-208 | what `Add` does to the registry and the job is what the protocol's action does to the state, success and refusal alike |
| `JobManager.BackgroundJobManager.Get` | internal/daemon/jobs.go:211-215 | in a valid registry: a job is found if and only if one is filed under the id, it carries that id itself, and it is filed under no other |
| `JobManager.BackgroundJobManager.Remove` | internal/daemon/jobs.go:218-222 | exactly that id goes |
| `JobManager.BackgroundJobManager.Kill` | internal/daemon/jobs.go:244-259 | without interference, true exactly for a known job that is not done, whose context and no other is then cancelled |
| `JobManager.BackgroundJobManager.List` | internal/daemon/jobs.go:225-241 | each job of the given status and caller (any, if none is given) once, in some order, without output, and no job is marked as read |
| `CgroupKernel.OpKeepsWellFormed` | sandbox/cgroup_k8s.go:106-125 | whatever the kernel permits keeps its rules: controllers come from the parent, and no group but an exempt root both holds processes and hands domain controllers down |
| `CgroupKernel.OthersMeetRely` | sandbox/cgroup_k8s.go:87-132 | any number of steps by other processes leaves the daemon in its group with the controllers above it, and its own group as it was |
| `CgroupRuntime.MemoryLimitExact` | sandbox/cgroup.go:94 | the limit written is the limit asked for if and only if it is below 2^43 MB, by int64 wrap-around |
| `CgroupRuntime.ProbeFindsMigrated` | sandbox/cgroup.go:153-170 | a process in the leaf that sees the memory controller is migrated: its parent hands memory down |
| `CgroupRuntime.MigratedSurvives` | sandbox/cgroup_k8s.go:118-129 | other processes cannot undo the migration |
| `CgroupRuntime.DoctorAgrees` | sandbox/status.go:134-223 | the init_leaf and memory_delegated checks both pass if and only if this is a pod, both files can be read, and the process they look at is migrated |
| `CgroupRuntime.NoInternalProcess` | sandbox/cgroup_k8s.go:118-129 | after migration no process at all is in the parent group, as none is in any that hands memory or io down |
| `CgroupRuntime.ExecutionsKeepApart` | sandbox/cgroup.go:85 | the steps of an execution under another id are, to this one, those of any other process |
| `CgroupRuntime.Daemon.DiscoverDelegatedPath` | sandbox/cgroup_k8s.go:27-49 | the group this process is in, or a failure |
| `CgroupRuntime.Daemon.EnableMemoryController` | sandbox/cgroup_k8s.go:136-148 | success leaves the daemon migrated; a second attempt is made exactly when the kernel was busy at the first, with others acting in between; with nothing else acting it succeeds if and only if the kernel permits it |
| `CgroupRuntime.Daemon.RunInitLeaf` | sandbox/cgroup_k8s.go:87-132 | success leaves the daemon in the leaf under the base; memory is enabled unless it was in the leaf already, and then it does not move; with nothing else acting it succeeds exactly when mounted and in the leaf, or able to migrate |
| `CgroupRuntime.Daemon.MigrateInto` | sandbox/cgroup_k8s.go:106-116 | success leaves the daemon in the leaf, made now or left over |
| `CgroupRuntime.Daemon.SetupInitLeaf` | sandbox/cgroup_k8s.go:72-77 | the outcome is decided once and kept |
| `CgroupRuntime.Daemon.CheckCgroupAvailable` | sandbox/cgroup.go:153-170 | "not mounted" exactly when it is not; available only if the memory controller is listed where the daemon is, and with nothing else acting exactly then, "controller off" otherwise |
| `CgroupRuntime.Daemon.CgroupAvailable` | sandbox/cgroup.go:125-140 | decided once and kept |
| `CgroupRuntime.Daemon.SetupCgroupV2` | sandbox/cgroup_k8s.go:169-185 | success as the first probe of a process, on any tree earlier processes left behind, means migrated with memory enabled, also on the path that skips enabling it; both checks of the doctor would then pass for this process; only success makes the daemon ready; with nothing else acting it succeeds if and only if this is a pod with a mounted tree, and the daemon is in a leaf that sees the controller, or is alone in a group that sees it (or in the system's root) with a leaf below that may hold it |
| `CgroupRuntime.Daemon.NewCgroupExec` | sandbox/cgroup.go:62-106 | refused before setup; otherwise one group next to the leaf with the limit and no swap, and whether it is new; with nothing else acting it never fails once ready and changes nothing but that group |
| `CgroupRuntime.Daemon.Exec` | sandbox/bwrap.go:38-75 | once ready, a positive limit either fails or starts the command in its own group with exactly that limit and no swap; running without a limit is unreachable; on every path, failures included, each descriptor opened is closed once; with nothing else acting a fresh id always runs limited and leaves the tree as it was |
| `CgroupRuntime.LeavesNoTrace` | sandbox/cgroup.go:109-120 | a group made for an execution, its command started, all that is in it killed and the group removed, gives back the tree as it was |
| `CgroupRuntime.Daemon.Startup` | internal/daemon/daemon.go:63-69 | the gate passes with a limit only when the daemon is ready; with nothing else acting it passes if and only if no limit is asked for or setup can succeed |
| `CgroupRuntime.Daemon.Run` | internal/daemon/daemon.go:49-107 | from startup through any number of executions one after the other: each fails with its descriptors closed or runs in its own group beside the leaf with MB times 2^20 bytes (below 2^43 MB) and no swap, and the daemon is still migrated |
| `CgroupRuntime.CgroupExec.Open` | sandbox/cgroup_bwrap.go:24-37 | the descriptor belongs to the execution, and a failure leaves none |
| `CgroupRuntime.CgroupExec.Cleanup` | sandbox/cgroup.go:109-120 | exactly the processes in the group and below it are killed if the kernel complies, and nothing else in the tree changes but the group removed; with nothing else acting it is removed unless a group is left below it; every descriptor opened is closed once, a second cleanup closes nothing, and the daemon stays migrated |
| `ExecGroups.GroupsAreInFlightOrLeft` | sandbox/cgroup.go:62-120 | over every interleaving of executions and other processes, from any tree that earlier daemons left: the daemon stays in its leaf, no process is in the base, each execution in flight has its group with its limit, and the groups that exist are those and the ones left |
| `ExecGroups.LiveGroupsAreInFlight` | sandbox/cgroup.go:62-120 | when no earlier daemon left a group, the groups that exist are exactly those of the executions in flight |
| `ExecGroups.CrashLeavesInFlight` | sandbox/cgroup.go:109-120 | a daemon that dies at any point leaves exactly the groups of its executions in flight, on top of those it had found |
| `ExecGroups.DeleteNeverFails` | sandbox/cgroup.go:109-120 | once its processes are killed the kernel cannot refuse to remove a group |
| `ExecGroups.CreateAndStartNeverFail` | sandbox/bwrap.go:63-74 | setting the limit of a new group and starting a process in it are always permitted |
| `ExecGroups.EveryExecutionCanEnd` | sandbox/bwrap.go:56-75 | no execution is ever stuck: from each phase, with any others in flight, it can go on to the end, and then exactly its group and the processes in it are gone |
| `ExecGroups.EveryIdCanBegin` | sandbox/cgroup.go:62-106 | however many are in flight, another can begin under every id whose group is not there |
| `ExecGroups.StepKeepsInv` | sandbox/cgroup.go:62-120 | every step keeps the tree well formed, the daemon migrated and each group tied to its execution |
| `Mounts.AddAncestorMounts` | sandbox/sandbox.go:56-74 | terminates, and returns the input untouched followed by what the walks append |
| `Mounts.LeastFixedPoint` | sandbox/sandbox.go:56-74 | the sources of the result are the smallest set with the input's sources that is closed under parent from every mount that is not metadata-only and from every added directory |
| `Mounts.OrderIrrelevant` | sandbox/sandbox.go:56-74 | order and repetition in the input make no difference to the sources of the result |
| `Mounts.Idempotent` | sandbox/sandbox.go:56-74 | a second pass adds nothing, for every input |
| `Mounts.AppendsOnlyNewAncestors` | sandbox/sandbox.go:51-74 | what is appended is metadata-only, pairwise distinct, not listed before, and an ancestor of a mount that is not metadata-only |
| `Mounts.AncestorsArePrefixes` | sandbox/sandbox.go:65-71 | the ancestors of an absolute path are its proper prefixes, component by component, from the nearest up, the root excluded |
| `Mounts.ClosedForm` | sandbox/sandbox.go:56-74 | a directory is in the result if and only if it is listed or lies above a walked mount with no listed directory in between |
| `Mounts.PromiseKeptExactly` | sandbox/sandbox.go:51-55 | all ancestors are present if and only if no listed metadata-only entry cuts a walk short |
| `Mounts.PromiseCanFail` | sandbox/sandbox.go:65-68 | with /a/b/c writable and /a/b listed as metadata-only, /a is missing |
| `Mounts.BuildMounts` | internal/daemon/handler.go:82-101 | fails if and only if a requested path does not begin with a slash, naming one; otherwise entry by entry the baseline as it was, then each request with its own two flags and both ends at its cleaned path, then metadata-only entries, which are the ancestors |
| `Paths.CleanKeepsRooted` | internal/daemon/handler.go:70-74 | a cleaned path is absolute if and only if the path begins with a slash |
| `Paths.CleanDropsNothing` | internal/daemon/handler.go:67-70 | empty and "." components make no difference to the cleaned path |
| `Paths.CleanGoesUp` | internal/daemon/handler.go:67-70 | a name followed by ".." makes no difference, wherever it stands |
| `Paths.CleanStopsAtRoot` | internal/daemon/handler.go:67-70 | ".." at the root stays at the root |
| `Paths.CleanKeepsNames` | internal/daemon/handler.go:93-94 | a path of ordinary names is left as it is |
| `Bwrap.BuildArgs` | sandbox/bwrap.go:83-172 | bwrap's own reading of the command line is exactly the static operations, the tool binds, the nix bind, the mounts in order, the working directory and `bash -c command`, for all paths and commands; in it each tool directory that exists and is not in or below /usr, /bin or /lib is bound onto itself read-only exactly once and nothing else is in that part, the store is bound if it exists, each existing data mount is bound in its mode, and the directory is changed exactly to a working directory that is given |
| `Bwrap.ToolBindsExactly` | sandbox/bwrap.go:181-204 | a directory is bound for the tools if and only if a tool reads it, it exists, and it is not one of /usr, /bin and /lib or below one |
| `Bwrap.ToolSegment` | sandbox/bwrap.go:181-204 | right after the static operations there is one read-only bind onto itself for each of those directories, and no other operation |
| `Bwrap.ChdirExactly` | sandbox/bwrap.go:166-168 | the line changes to a directory if and only if that is the working directory and not empty |
| `Bwrap.RoundTrip` | sandbox/bwrap.go:83-172 | an arity-directed parser gets every list of operations and every command back, whatever their strings look like |
| `Bwrap.AppendBwrapToolBinds` | sandbox/bwrap.go:181-204 | a read-only bind for each existing tool directory outside the static roots, once, where it first occurs |
| `Bwrap.AppendNixStoreBind` | sandbox/bwrap.go:209-221 | binds the store if it exists and the line does not seem to bind it |
| `Bwrap.NixStoreOnce` | sandbox/bwrap.go:209-230 | at the point where it is used, the store is bound exactly once |
| `Bwrap.ScanBound` | sandbox/bwrap.go:223-230 | true if and only if a bind flag is followed by the source somewhere in the line |
| `Bwrap.IsBoundExact` | sandbox/bwrap.go:223-230 | on lines whose binds are onto themselves, the scan says exactly whether the store is bound |
| `Bwrap.IsBoundCanMislead` | sandbox/bwrap.go:223-230 | on other lines it can be wrong |
| `Bwrap.AppendMounts` | sandbox/bwrap.go:146-164 | one bind for each existing mount that is not metadata-only, in order, in its mode |
| `Seatbelt.BuildPolicy` | sandbox/policy.go:22-79 | fails if and only if a mount that is not metadata-only has another target than its source, naming one, or there is no cache directory; otherwise every parameter of every generated rule has exactly one definition, and substitution gives the mounts' grants in order (the metadata of that one path, or reading, or reading and writing, from it on down), then the tools', then those for symbolic links |
| `Seatbelt.MountGrantAt` | sandbox/policy.go:34-61 | entry i of the mounts is granted as grant i: metadata on the literal path, reading or reading and writing on the subtree |
| `Seatbelt.EveryItemGranted` | sandbox/policy.go:81-106 | unless two directories share a key of the seen map, each to read is granted for reading and each to execute from for mapping executables |
| `Seatbelt.AppendMountRules` | sandbox/policy.go:34-61 | the rules and definitions of the mount list, or a mount that cannot be remapped |
| `Seatbelt.AppendToolDirRules` | sandbox/policy.go:81-106 | the tools' rules, numbered on from the mounts', each key of the shared map once |
| `Seatbelt.AddBuilds` | sandbox/policy.go:34-61 | one more rule gets a key no other has, and leaves the meaning of all earlier rules alone |
| `Seatbelt.KeysDiffer` | sandbox/policy.go:37-53 | parameter keys coincide only for the same kind and number |
| `Seatbelt.ParseRenderedDefs` | sandbox/policy.go:34-76 | the -D strings read back as the definitions written, whatever the paths |
| `Seatbelt.MeaningUnique` | sandbox/policy.go:30-106 | with distinct keys, substitution has one outcome |
| `Seatbelt.ToolReadsAreFirstOccurrences` | sandbox/policy.go:81-106 | the tools' read grants are their directories, each where it first occurs, if and only if none is shadowed by a directory to execute from |
| `Seatbelt.RootedNotShadowed` | sandbox/policy.go:97-101 | absolute directories are never shadowed |
| `Seatbelt.ShadowedRead` | sandbox/policy.go:97-101 | on an arbitrary list a relative one can be |
| `ToolDirs.AllToolDirs` | sandbox/paths.go:143-162 | the static directories and those from the environment, in order, whose BinDir is set and exists |
| `ToolDirs.DiscoveredNotShadowed` | sandbox/paths.go:36-169 | for every GOPATH and HOME, absolute or not, no discovered directory is shadowed: the tools' read grants are exactly the discovered directories, each where it first occurs |
| `ToolDirs.DiscoveredGranted` | sandbox/paths.go:143-162 | every directory of every tool whose BinDir exists is granted: for reading, and for executing where it is listed for that |
| `ToolDirs.DynamicFromHome` | sandbox/paths.go:80-119 | GOPATH goes before HOME, and each other tool has its directory under HOME |
| `ToolDirs.DynamicWithoutHome` | sandbox/paths.go:100-119 | without HOME only GOPATH counts |
| `ToolDirs.StaticByPlatform` | sandbox/paths.go:36-78 | the directories at fixed places on each platform, each tool with its BinDir in the `bin` of the one it reads |
| `MountRefinement.WriteRefinement` | sandbox/bwrap.go:146-164 | every host path that bubblewrap leaves writable is the path itself and is write-allowed by the generated rules of seatbelt's policy |
| `MountRefinement.ReadRefinement` | sandbox/bwrap.go:141-164 | given one list of tools, every host path that bubblewrap shows outside its fixed view and the nix store is read-allowed by the generated rules |
| `MountRefinement.MountReadRefinement` | sandbox/bwrap.go:146-164 | given each platform's own tools, every host path that bubblewrap shows outside its fixed view, the nix store and its tools is read-allowed by the generated rules |
| `Requests.RequestsNeverRemap` | internal/daemon/handler.go:82-101 | no mount list built from a configuration and a request holds a mount that seatbelt would refuse |
| `Requests.RequestsRefine` | internal/daemon/handler.go:242-256 | so both refinements hold for every configuration, every request and each platform's own tools |
| `Requests.DiscoveredToolsRefine` | sandbox/paths.go:143-162 | with the tools that one platform can discover, those are read-allowed too, for every GOPATH and HOME |
| `MountRefinement.WritesComeFromMounts` | sandbox/bwrap.go:99-170 | nothing but the mount list makes anything of the host's writable |
| `MountRefinement.AgreeExactly` | sandbox/policy.go:34-61 | bubblewrap's mount operations and seatbelt's mount rules agree about writing at every place if and only if no writable mount is missing and none is overlapped by a read-only one that has the last word |
| `MountRefinement.AgreeMeansSandboxes` | sandbox/policy.go:30-79 | that agreement is the agreement of the whole command line with all the generated rules |
| `MountRefinement.SandboxesAgreeExactly` | sandbox/seatbelt_platform.sbpl:44-49 | templates included: where the templates let nothing be written the two sandboxes agree just where the mount list makes them; elsewhere just where a mount makes the place writable in bubblewrap too |
| `MountRefinement.TemplatesDisagree` | sandbox/seatbelt_platform.sbpl:44-49 | they disagree about the host's four temporary directories, /dev/fd and the trust cache, with everything below them, and four devices, wherever no mount covers them |
| `MountRefinement.UncoveredAgreeExactly` | sandbox/seatbelt_platform.sbpl:44-49 | where no mount is, the sandboxes agree if and only if the templates let nothing be written |
| `MountRefinement.TmpfsHides` | sandbox/bwrap.go:99-107 | in bubblewrap nothing of the host's /tmp and /home/agent is seen where no tool, store or mount is bound |
| `MountRefinement.AgreeOutsideTemplates` | sandbox/policy.go:22-79 | with no mount disputed, the whole sandboxes agree wherever the templates let nothing be written |
| `MountRefinement.OrderedAgree` | sandbox/policy.go:34-61 | with read-only mounts listed before writable ones that exist, mount operations and mount rules agree at every place |
| `MountRefinement.BaselineAgrees` | sandbox/config.go:200-209 | on the baseline mounts, which list what is read-only first, mount operations and mount rules agree at every place once the writable sources exist |
| `MountRefinement.LaterReadOnlyDisagrees` | sandbox/policy.go:34-61 | with a read-only mount listed after a writable one above it, they do not |
| `MountRefinement.AncestorsGrantNoContents` | internal/daemon/handler.go:76-101 | the ancestors added change no bubblewrap operation and no grant to read or write contents |
| `MountRefinement.MetadataGrantsNothing` | sandbox/policy.go:36-43 | metadata-only entries add nothing to the grants of contents |
| `MountRefinement.AncestorsVisible` | sandbox/sandbox.go:51-55 | when no walk is cut short, the metadata of every directory above a mount is granted |
| `Env.IsValidEnvName` | internal/daemon/handler.go:120-136 | a letter or underscore followed by letters, digits and underscores |
| `Env.ValidateEnv` | internal/daemon/handler.go:145-155 | in whatever order, fails if and only if a name or a value is invalid, and names one that is |
| `Env.EffectiveAllowEnv` | sandbox/config.go:313-329 | baseline first, then the operator's patterns, each where it first occurs |
| `Env.BaselineExcludesInjected` | sandbox/config.go:273-307 | none of the variables that are injected is in the baseline, and HOME is |
| `Env.BaselineIs` | sandbox/config.go:273-298 | the seventeen names and patterns |
| `Env.FilterEnv` | sandbox/config.go:350-377 | in whatever order, exactly the matching variables are kept with their values, and the other names are returned sorted |
| `Env.SortedUnique` | sandbox/config.go:375 | the sorted list is determined by what is in it |
| `Env.BelowIsLexicographic` | sandbox/config.go:375 | the order is that of strings: a prefix first, otherwise the first difference decides |
| `Env.EnvMapToSlice` | internal/daemon/handler.go:158-167 | in whatever order, one entry for each variable, read back as the variables if and only if no name contains an equals sign |
| `Env.EnvContainsKey` | sandbox/sandbox.go:162-170 | true if and only if a process would find the variable |
| `Env.BuildEnv` | sandbox/sandbox.go:138-159 | last-wins lookup gives the caller's entries; where those have none, HOME is the fallback, or /home/agent if that is empty, PATH the path given, TERM dumb and GOTELEMETRY off; there is nothing else |
| `Env.ChildEnv` | internal/daemon/handler.go:247-256 | end to end, for every request and every iteration order: the caller's value for each name that matches a pattern of the baseline or the operator, else HOME, PATH, TERM and GOTELEMETRY by their defaults, and nothing else; the names that match no pattern are reported; an error if and only if a variable is invalid |
| `Env.ChildEnvTwice` | internal/daemon/handler.go:247-256 | two passes over one request, each with its own orders of iteration, agree on success, on every variable and on the stripped names |
| `TokenCache.Cache.Get` | internal/auth/auth_cache.go:62-77 | without interference, the username if the token is held and now is not after its expiry, and otherwise none and the token gone; the answer is that of a map that never deletes |
| `TokenCache.Cache.Judge` | internal/auth/auth_cache.go:67-77 | an entry is good up to and including its expiry time; an expired one removes whatever the map holds by then |
| `TokenCache.Cache.Set` | internal/auth/auth_cache.go:79-86 | the token's entry is replaced, to expire one TTL later |
| `TokenCache.Cache.DeleteExpired` | internal/auth/auth_cache.go:47-56 | in whatever order, exactly the entries whose expiry is before now go |
| `TokenCache.ValidateToken` | internal/auth/auth_cache.go:101-113 | the review is asked if and only if the cache has no good answer; an error is not cached, an answer is |
| `TokenCache.DeletingIsInvisible` | internal/auth/auth_cache.go:47-86 | for every sequence of atomic operations, all answers are those of a reference map that never deletes |
| `TokenCacheProtocol.HitsAreValidated` | internal/auth/auth_cache.go:62-113 | in every interleaving, a hit's username came from a review of that token, was the last stored before the lookup, and was stored at most one TTL before the expiry check |
| `TokenCacheProtocol.ChecksExactly` | internal/auth/auth_cache.go:67-77 | in every interleaving, a lookup that found an entry is answered if and only if its check comes at most one TTL after the last store before the lookup, with the username stored then; later the client goes on to delete |
| `TokenCacheProtocol.HitsLinearizeAtLookup` | internal/auth/auth_cache.go:62-77 | a hit answers what the reference map would have answered at its lookup |
| `TokenCacheProtocol.LookupsExactly` | internal/auth/auth_cache.go:62-77 | a token that was never stored is never found, and one whose last store has not expired is found if and only if no client has lazily deleted it since |
| `TokenCacheProtocol.AnswersAgree` | internal/auth/auth_cache.go:88-113 | two usernames returned for one token, each found in the cache or straight from a review, differ if and only if what was stored last for the token between the places where they were fixed carries another username |
| `TokenCacheProtocol.AnswersAreStored` | internal/auth/auth_cache.go:99-113 | every username returned came from a review of that token and is what was stored last before its lookup, or by its own store |
| `TokenCacheProtocol.HitsAgree` | internal/auth/auth_cache.go:88-89 | in particular, two hits differ if and only if what was stored last between their lookups carries another username |
| `TokenCacheProtocol.AlikeReviewsKeepPromise` | internal/auth/auth_cache.go:88-89 | if all reviews of a token answer alike, every username returned for it is that answer |
| `TokenCacheProtocol.PromiseCanBeBroken` | internal/auth/auth_cache.go:101-113 | a reachable run, for every TTL and any two usernames, in which two hits on one token at one instant answer differently, after two reviews that overlapped |
| `TokenCacheProtocol.PromiseCanBeBrokenByDeletion` | internal/auth/auth_cache.go:70-75 | another, in which no reviews overlap: a fresh entry is hit, then lazily deleted, and at the same instant the next review answers otherwise |
| `TokenCacheProtocol.FreshEntryCanBeDropped` | internal/auth/auth_cache.go:70-75 | a reachable run, for every TTL, in which the lazy deletion removes an entry that has just been stored |
| `TokenCacheProtocol.EveryValidationCanEnd` | internal/auth/auth_cache.go:101-113 | from wherever it stands, every validation can still end without touching another one |
| `TokenCacheProtocol.MissCanFail` | internal/auth/auth_cache.go:105-109 | after a miss it can end with an error, and then nothing has been stored |
| `TokenCacheProtocol.StepKeepsInv` | internal/auth/auth_cache.go:47-113 | every step keeps the entries equal to the reference's, the times in order and every event justified |

## Left out

- HTTP routing, JSON, sockets, the Go client, the command line and launchd: plumbing.
- Strings are sequences of characters, and a character stands for one byte of the code's strings.
- Authorization of a request before its context is made: it ends such a request without touching any of the state modelled.
- The token review request: a nondeterministic answer. All requests are taken to use one review URL, as the daemon's do.
- Reading configuration files, `~` expansion, environment lookups: their results are arbitrary inputs, and so is which paths exist. The theorems about the sandboxes hold for arbitrary tool directories, not only for those that `ToolDirs` discovers.
- `filepath.Match`: an arbitrary predicate.
- `os.Stat` errors other than absence: the code skips such a path as it skips an absent one, and so does the model.
- The text of the policy: generated rules are values; quoting and layout are not modelled. Of the seatbelt templates only what they let be written is a part; terminals count as writable, though a process needs an extension for that.
- Symbolic links and mounts that bubblewrap cannot make because a directory is missing: paths are compared lexically.
- Real processes: `Exec` returns at any time with anything. The sandbox's own timeout is one way for it to return an error, and then the job is recorded as completed; no bound on the duration of a run is claimed.
- The 100 ms ticker and the threshold timer: they may fire at any time while the handler polls.
- JobManager.BackgroundJobManager.Kill: proved without interference between the test and the cancellation; the interleavings are those of `JobTheorems.KillReturnsTrueExactly`.
- `Remove` is not an action of the job protocol, since no handler calls it.
- containerd's cgroup manager: making a group is a directory and a write of the limits, each of which may fail; killing and deleting may fail as well, except in `ExecGroups`, where they succeed, ids are fresh and a group is made whole or not at all.
- CgroupRuntime.Daemon.NewCgroupExec: the `0::` line of /proc/self/cgroup and the check that the path lies under the root are part of discovery, which may fail; paths are component lists below the root.
- CgroupRuntime.Daemon.SetupCgroupV2: assumes that nobody disables a controller while the daemon runs; the kernel tree has no such operation.
- CgroupRuntime.Daemon.Run: executions follow one another, and those of other requests are among the other processes; executions that overlap are the subject of `ExecGroups`.
- MountRefinement.ReadRefinement: leaves out the fixed binds and the nix store, which only bubblewrap has; the templates' own reads are not modelled.
- `ProcessTracker`, `NoopSandbox`, `UnavailableSandbox`, status texts, address-prefix detection: simple members.
