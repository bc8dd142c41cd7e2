/** The two objects of internal/daemon/jobs.go, updated in place. */
module JobManager {
  import opened Wrappers
  import opened Jobs

  class BackgroundJob {
    var id: string
    const callerId: string
    const command: string
    const startedAt: Time
    var stdout: string
    var stderr: string
    var done: bool
    var cancelled: bool
    var status: Status
    var exitCode: int
    var completedAt: Option<Time>
    var lastAccessedAt: Option<Time>

    ghost function View(): Job
      reads this
    {
      Job(id, callerId, command, startedAt, stdout, stderr, status, exitCode, completedAt, lastAccessedAt)
    }

    constructor (callerId: string, command: string, now: Time)
      ensures View() == NewJob(callerId, command, now)
      ensures !done && !cancelled
    {
      id := "";
      this.callerId := callerId;
      this.command := command;
      startedAt := now;
      stdout, stderr := "", "";
      done, cancelled := false, false;
      status, exitCode := Running, 0;
      completedAt, lastAccessedAt := None, None;
    }

    method Finish(status: Status, exitCode: int, now: Time)
      modifies this`status, this`exitCode, this`completedAt
      ensures View() == Jobs.Finish(old(View()), status, exitCode, now)
    {
      this.status := status;
      this.exitCode := exitCode;
      completedAt := Some(now);
    }

    method Snapshot(withOutput: bool, now: Time) returns (info: JobInfo)
      modifies this`lastAccessedAt
      ensures info == Info(old(View()), withOutput)
      ensures withOutput && status != Running ==>
                && (|stdout| <= 65536 ==> info.stdout == stdout)
                && (|stdout| > 65536 ==> info.stdout == stdout[..65536] + "\n...(truncated)")
                && (|stderr| <= 65536 ==> info.stderr == stderr)
                && (|stderr| > 65536 ==> info.stderr == stderr[..65536] + "\n...(truncated)")
      ensures !withOutput || status == Running ==> info.stdout == info.stderr == ""
      ensures View() == AfterSnapshot(old(View()), withOutput, now)
      ensures Info(View(), withOutput) == info
      ensures !withOutput ==> lastAccessedAt == old(lastAccessedAt)
    {
      info := JobInfo(id, callerId, command, status, exitCode, "", "", startedAt, completedAt);
      if withOutput && status != Running {
        info := info.(stdout := Truncate(stdout), stderr := Truncate(stderr));
        if lastAccessedAt.None? {
          lastAccessedAt := Some(now);
        }
      }
    }

    method IsExpired(now: Time) returns (expired: bool)
      ensures expired == Expired(View(), now)
      ensures expired <==>
                status != Running && lastAccessedAt.Some? && now - lastAccessedAt.value >= 5 * 60 * 1_000_000_000
    {
      if status == Running {
        return false;
      }
      if lastAccessedAt.None? {
        return false;
      }
      return now - lastAccessedAt.value >= RETENTION_NS;
    }
  }

  class BackgroundJobManager {
    var jobs: map<string, BackgroundJob>
    var counter: nat

    predicate Bounded()
      reads this
    {
      counter < UINT64_RANGE && |jobs| <= MAX_BACKGROUND_JOBS
    }

    /** At most 100 jobs, each filed under its own identifier; so no job is filed twice. */
    ghost predicate Valid()
      reads this, jobs.Values
    {
      Bounded() && forall id | id in jobs :: jobs[id].id == id
    }

    /** What a garbage collection at `now` keeps. */
    ghost function Survivors(now: Time): map<string, BackgroundJob>
      reads this, jobs.Values
    {
      map id | id in jobs && !Expired(jobs[id].View(), now) :: jobs[id]
    }

    ghost function Views(): map<string, Job>
      reads this, jobs.Values
    {
      map id | id in jobs :: jobs[id].View()
    }

    constructor ()
      ensures Valid() && jobs == map[] && counter == 0
    {
      jobs := map[];
      counter := 0;
    }

    /** Go ranges over the map in any order and may delete the current key. */
    method GcLocked(now: Time)
      requires Valid()
      modifies this`jobs
      ensures Valid() && jobs == old(Survivors(now))
    {
      var pending := jobs.Keys;
      while pending != {}
        invariant pending <= jobs.Keys <= old(jobs).Keys
        invariant forall id | id in jobs :: jobs[id] == old(jobs)[id]
        invariant forall id | id in old(jobs) ::
                    id in jobs <==> id in pending || !Expired(old(jobs)[id].View(), now)
        decreases pending
      {
        var id :| id in pending;
        var expired := jobs[id].IsExpired(now);
        if expired {
          jobs := jobs - {id};
        }
        pending := pending - {id};
      }
      SizeOfSubmap(jobs, old(jobs));
    }

    /**
     * Add succeeds if and only if fewer than 100 jobs survive the collection. It files exactly the given job under the
     * next identifier. The registry is valid afterwards unless the job was there already under another one: then it
     * is filed twice.
     */
    method Add(job: BackgroundJob, now: Time) returns (ok: bool)
      requires Valid()
      modifies this, job`id
      ensures Bounded()
      ensures ok <==> |old(Survivors(now))| < MAX_BACKGROUND_JOBS
      ensures !ok ==> counter == old(counter) && job.id == old(job.id)
      ensures ok ==> counter == NextCounter(old(counter)) && job.id == FormatId(counter)
      ensures jobs == if ok then old(Survivors(now))[job.id := job] else old(Survivors(now))
      ensures job.View() == old(job.View()).(id := job.id)
      ensures Valid() <==>
                !ok || forall id | id in old(Survivors(now)) && old(Survivors(now))[id] == job :: id == job.id
      ensures job !in old(jobs.Values) ==>
                Valid() && AddSpec(old(Views()), old(counter), old(job.View()), now, ok, Views(), counter, job.View())
    {
      ghost var views := Views();
      GcLocked(now);
      assert Views() == Unexpired(views, now);
      assert |Views()| == |Views().Keys| && Views().Keys == jobs.Keys;
      if |jobs| >= MAX_BACKGROUND_JOBS {
        return false;
      }
      File(job);
      return true;
    }

    /** m.seq++ and the identifier printed from it. */
    method Name(job: BackgroundJob)
      requires counter < UINT64_RANGE
      modifies this`counter, job`id
      ensures counter == NextCounter(old(counter)) && job.id == FormatId(counter)
      ensures job.View() == old(job.View()).(id := job.id)
    {
      counter := NextCounter(counter);
      job.id := FormatId(counter);
    }

    method File(job: BackgroundJob)
      requires Valid() && |jobs| < MAX_BACKGROUND_JOBS
      modifies this, job`id
      ensures Bounded()
      ensures counter == NextCounter(old(counter)) && job.id == FormatId(counter)
      ensures jobs == old(jobs)[job.id := job]
      ensures job.View() == old(job.View()).(id := job.id)
      ensures Valid() <==> forall id | id in old(jobs) && old(jobs)[id] == job :: id == job.id
      ensures job !in old(jobs.Values) ==> Views() == old(Views())[job.id := job.View()]
    {
      ghost var before, views := jobs, Views();
      assert job !in jobs.Values ==> forall id | id in jobs :: jobs[id] != job;
      Name(job);
      assert job !in before.Values ==> Views() == views;
      Enter(job);
      forall id | id in before && id != job.id
        ensures id in jobs && jobs[id] == before[id] && (before[id] != job ==> jobs[id].id == id)
      {
      }
    }

    /** m.jobs[job.id] = job */
    method Enter(job: BackgroundJob)
      requires Bounded() && |jobs| < MAX_BACKGROUND_JOBS
      modifies this`jobs
      ensures Bounded()
      ensures jobs == old(jobs)[job.id := job] && Views() == old(Views())[job.id := job.View()]
    {
      SizeOfUpdate(jobs, job.id, job);
      jobs := jobs[job.id := job];
    }

    /** The job that goes by the identifier, if there is one; in a valid registry there is no other. */
    method Get(id: string) returns (job: BackgroundJob?)
      requires Valid()
      ensures job != null <==> id in jobs
      ensures job != null ==> job.id == id && forall other | other in jobs :: jobs[other] == job <==> other == id
    {
      if id in jobs { return jobs[id]; }
      return null;
    }

    method Remove(id: string)
      requires Valid()
      modifies this`jobs
      ensures Valid() && jobs == old(jobs) - {id}
    {
      SizeOfSubmap(jobs - {id}, jobs);
      jobs := jobs - {id};
    }

    /**
     * Kill tests done and then cancels: true exactly when the job is known and its done channel is still
     * open, and then the job's context has ended.
     */
    method Kill(id: string) returns (ok: bool)
      requires Valid()
      modifies jobs.Values`cancelled
      ensures ok <==> id in jobs && !jobs[id].done
      ensures forall other | other in jobs ::
                jobs[other].cancelled == (old(jobs[other].cancelled) || (ok && other == id))
      ensures Valid() && jobs == old(jobs) && forall id | id in jobs :: jobs[id].View() == old(jobs[id].View())
    {
      if id !in jobs {
        return false;
      }
      if jobs[id].done {
        return false;
      }
      jobs[id].cancelled := true;
      return true;
    }

    /** A job without its output, which changes nothing. */
    method Peek(id: string, now: Time) returns (info: JobInfo)
      requires id in jobs
      modifies jobs.Values`lastAccessedAt
      ensures Views() == old(Views()) && info == Info(Views()[id], false)
    {
      info := jobs[id].Snapshot(false, now);
      assert forall other | other in jobs :: jobs[other].View() == old(jobs[other].View());
    }

    /** Each matching job once, in some order, without its output; nothing is marked as read. */
    method List(status: Option<Status>, callerId: string, now: Time)
      returns (result: seq<JobInfo>, ghost order: seq<string>)
      requires Valid()
      modifies jobs.Values`lastAccessedAt
      ensures Valid() && Views() == old(Views())
      ensures Lists(Views(), Views().Keys, status, callerId, result, order)
      ensures forall id :: id in order <==>
                && id in Views()
                && (status.Some? ==> Views()[id].status == status.value)
                && (callerId != "" ==> Views()[id].callerId == callerId)
    {
      result, order := [], [];
      var pending := jobs.Keys;
      ghost var views := Views();
      while pending != {}
        invariant pending <= jobs.Keys
        invariant Views() == views
        invariant Lists(views, views.Keys - pending, status, callerId, result, order)
        decreases pending
      {
        var id :| id in pending;
        var info := Peek(id, now);
        ListOneMore(views, views.Keys - pending, id, status, callerId, result, order);
        assert views.Keys - (pending - {id}) == views.Keys - pending + {id};
        pending := pending - {id};
        if Matches(info, status, callerId) {
          result := result + [info];
          order := order + [id];
        }
      }
      assert views.Keys - pending == views.Keys;
      ListedExactly(views, status, callerId, result, order);
    }
  }

  lemma ListedExactly(
    views: map<string, Job>, status: Option<Status>, callerId: string, result: seq<JobInfo>, order: seq<string>)
    requires Lists(views, views.Keys, status, callerId, result, order)
    ensures forall id :: id in order <==>
              && id in views
              && (status.Some? ==> views[id].status == status.value)
              && (callerId != "" ==> views[id].callerId == callerId)
  {
  }

  function Unexpired(views: map<string, Job>, now: Time): map<string, Job> {
    map id | id in views && !Expired(views[id], now) :: views[id]
  }

  /** What Add does to the registry and to the job, seen through their values. */
  ghost predicate AddSpec(
    before: map<string, Job>, counter: nat, job: Job, now: Time,
    ok: bool, after: map<string, Job>, counter': nat, job': Job)
  {
    var kept := Unexpired(before, now);
    if |kept| < MAX_BACKGROUND_JOBS then
      && ok && counter' == NextCounter(counter) && job' == job.(id := FormatId(counter'))
      && after == kept[job'.id := job']
    else
      !ok && counter' == counter && job' == job && after == kept
  }

  lemma SizeOfUpdate<K, V>(m: map<K, V>, k: K, v: V)
    ensures |m[k := v]| <= |m| + 1
  {
    assert m[k := v].Keys == m.Keys + {k};
    assert |m.Keys + {k}| <= |m.Keys| + 1;
  }

  lemma SizeOfSubmap<K, V>(m: map<K, V>, n: map<K, V>)
    requires m.Keys <= n.Keys
    ensures |m| <= |n|
  {
    assert n.Keys == m.Keys + (n.Keys - m.Keys);
    assert |m.Keys| == |m| && |n.Keys| == |n|;
  }

  /** `result` lists the matching jobs among `ids`, each once, in the order given, none with its output. */
  ghost predicate Lists(
    views: map<string, Job>, ids: set<string>, status: Option<Status>, callerId: string,
    result: seq<JobInfo>, order: seq<string>)
  {
    && |result| == |order|
    && (forall i, k | 0 <= i < k < |order| :: order[i] != order[k])
    && (forall id :: id in order <==> id in ids && id in views && Matches(Info(views[id], false), status, callerId))
    && (forall i | 0 <= i < |order| :: order[i] in views && result[i] == Info(views[order[i]], false))
  }

  lemma ListOneMore(
    views: map<string, Job>, ids: set<string>, id: string, status: Option<Status>, callerId: string,
    result: seq<JobInfo>, order: seq<string>)
    requires Lists(views, ids, status, callerId, result, order) && id in views && id !in ids
    ensures var info := Info(views[id], false);
            if Matches(info, status, callerId)
            then Lists(views, ids + {id}, status, callerId, result + [info], order + [id])
            else Lists(views, ids + {id}, status, callerId, result, order)
  {
    assert id !in order;
    assert forall x :: x in order + [id] <==> x in order || x == id;
  }

  /** The filters of List: an absent status and an empty caller match every job. */
  predicate Matches(info: JobInfo, status: Option<Status>, callerId: string) {
    (status.Some? ==> info.status == status.value) && (callerId != "" ==> info.callerId == callerId)
  }
}
