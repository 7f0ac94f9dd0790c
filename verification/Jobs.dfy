/**
 Jobs and the store they live in, and what one driver does to them inside each of its critical
 sections.
 */
module Jobs {
  import opened Common
  import opened Decimal
  import opened Unsigned

  type JobId = string

  datatype Status = Running | Finished | Error | Timeout

  datatype Job = Job(status: Status, exitCode: int, output: string, finishedAt: nat)

  type Store = map<JobId, Job>

  /** The job a driver's shell is busy with. */
  datatype Pending = Pending(jobId: JobId, deadline: Option<nat>, pgid: int)

  // ---- The store ------------------------------------------------------------------------

  function Finish(jobs: Store, id: JobId, status: Status, code: int, now: nat): Store {
    if id in jobs then jobs[id := jobs[id].(status := status, exitCode := code, finishedAt := now)] else jobs
  }

  function Append(jobs: Store, id: JobId, chunk: string): Store {
    if chunk != [] && id in jobs then jobs[id := jobs[id].(output := jobs[id].output + chunk)] else jobs
  }

  /** A finished job older than `maxAge`. */
  predicate Old(j: Job, now: nat, maxAge: nat) {
    !j.status.Running? && Age(now, j.finishedAt) > maxAge
  }

  function Prune(jobs: Store, now: nat, maxAge: nat): Store {
    map id | id in jobs && !Old(jobs[id], now, maxAge) :: jobs[id]
  }

  class JobStore {
    var jobs: Store

    constructor ()
      ensures jobs == map[]
    {
      jobs := map[];
    }

    method Upsert(id: JobId, job: Job)
      modifies this
      ensures jobs == old(jobs)[id := job]
    {
      jobs := jobs[id := job];
    }

    method AppendOutput(id: JobId, chunk: string)
      modifies this
      ensures jobs == Append(old(jobs), id, chunk)
    {
      if chunk == [] { return; }
      if id in jobs {
        jobs := jobs[id := jobs[id].(output := jobs[id].output + chunk)];
      }
    }

    method FinishJob(id: JobId, status: Status, code: int, now: nat)
      modifies this
      ensures jobs == Finish(old(jobs), id, status, code, now)
    {
      if id in jobs {
        jobs := jobs[id := jobs[id].(status := status, exitCode := code, finishedAt := now)];
      }
    }

    /** Visits every job once, in any order; `now` was read before the lock was taken. */
    method PruneJobs(now: nat, maxAge: nat)
      modifies this
      ensures jobs == Prune(old(jobs), now, maxAge)
    {
      var left := jobs.Keys;
      while left != {}
        invariant left <= jobs.Keys <= old(jobs).Keys
        invariant forall id | id in jobs :: jobs[id] == old(jobs)[id]
        invariant forall id | id in old(jobs) && id !in left :: id in jobs <==> !Old(old(jobs)[id], now, maxAge)
        decreases left
      {
        var id :| id in left;
        left := left - {id};
        if Old(jobs[id], now, maxAge) {
          jobs := jobs - {id};
        }
      }
    }
  }

  // ---- One driver -----------------------------------------------------------------------

  /** The store as one driver sees it, with the job its shell is busy with. */
  datatype Local = Local(jobs: Store, current: Option<Pending>)

  predicate IsCurrent(l: Local, id: JobId) {
    l.current.Some? && l.current.value.jobId == id
  }

  /** finish_job_locked: only the current job can be finished. */
  function FinishLocked(l: Local, id: JobId, status: Status, code: int, now: nat): Local {
    if IsCurrent(l, id) then Local(Finish(l.jobs, id, status, code, now), None) else l
  }

  function OnOutput(l: Local, chunk: string): Local {
    if l.current.Some? then l.(jobs := Append(l.jobs, l.current.value.jobId, chunk)) else l
  }

  function OnPid(l: Local, tokenMatches: bool, id: JobId, pid: int, pgid: int): Local {
    if tokenMatches && pid > 0 && IsCurrent(l, id)
    then l.(current := Some(l.current.value.(pgid := if pgid <= 0 then pid else pgid)))
    else l
  }

  const TIMEOUT_CODE: int := 124

  function EndStatus(code: int): Status {
    if code == TIMEOUT_CODE then Timeout else Finished
  }

  function OnEnd(l: Local, tokenMatches: bool, id: JobId, code: int, now: nat): Local {
    if tokenMatches then FinishLocked(l, id, EndStatus(code), code, now) else l
  }

  /** What the reader does at the end of the stream, and close once the threads are gone. */
  function Finalise(l: Local, now: nat): Local {
    if l.current.Some? then Local(Finish(l.jobs, l.current.value.jobId, Error, -1, now), None) else l
  }

  class LocalPtyDriver {
    const sessionToken: string
    const store: JobStore
    var current: Option<Pending>

    ghost function View(): Local
      reads this, store
    {
      Local(store.jobs, current)
    }

    constructor (token: string, store: JobStore)
      ensures View() == Local(store.jobs, None) && sessionToken == token && this.store == store
    {
      sessionToken, this.store, current := token, store, None;
    }

    method FinishJobLocked(id: JobId, status: Status, code: int, now: nat)
      modifies this, store
      ensures View() == FinishLocked(old(View()), id, status, code, now)
    {
      if current.Some? && current.value.jobId == id {
        store.FinishJob(id, status, code, now);
        current := None;
      }
    }

    /** The reader's callbacks. */
    method HandleOutput(chunk: string)
      modifies this, store
      ensures View() == OnOutput(old(View()), chunk)
    {
      if current.Some? {
        store.AppendOutput(current.value.jobId, chunk);
      }
    }

    method HandlePid(token: string, id: JobId, pid: int, groupOf: int -> int)
      modifies this
      ensures View() == OnPid(old(View()), token == sessionToken, id, pid, groupOf(pid))
      ensures token == sessionToken && pid > 0 && IsCurrent(old(View()), id) ==>
                current.Some? && current.value.pgid == if groupOf(pid) > 0 then groupOf(pid) else pid
    {
      if token != sessionToken || pid <= 0 { return; }
      if current.Some? && current.value.jobId == id {
        var pgid := groupOf(pid);
        if pgid <= 0 { pgid := pid; }
        current := Some(current.value.(pgid := pgid));
      }
    }

    method HandleEnd(token: string, id: JobId, code: int, now: nat)
      modifies this, store
      ensures View() == OnEnd(old(View()), token == sessionToken, id, code, now)
      ensures token == sessionToken && IsCurrent(old(View()), id) && id in old(store.jobs) ==>
                var status := if code == 124 then Timeout else Finished;
                current.None? && store.jobs ==
                  old(store.jobs)[id := Job(status, code, old(store.jobs)[id].output, now)]
    {
      if token != sessionToken { return; }
      FinishJobLocked(id, if code == TIMEOUT_CODE then Timeout else Finished, code, now);
    }

    /** The timeout thread after its sleep on job `id`. */
    method HandleDeadline(id: JobId, now: nat)
      modifies this, store
      ensures View() == FinishLocked(old(View()), id, Timeout, TIMEOUT_CODE, now)
    {
      if current.None? || current.value.jobId != id { return; }
      FinishJobLocked(id, Timeout, TIMEOUT_CODE, now);
    }

    method FinaliseCurrent(now: nat)
      modifies this, store
      ensures View() == Finalise(old(View()), now)
    {
      if current.Some? {
        store.FinishJob(current.value.jobId, Error, -1, now);
        current := None;
      }
    }

    /** The second lock scope of exec. */
    method Install(id: JobId, deadline: Option<nat>)
      modifies this
      ensures View() == old(View()).(current := Some(Pending(id, deadline, -1)))
    {
      current := Some(Pending(id, deadline, -1));
    }

    method HandleWriteFailure(id: JobId, now: nat)
      modifies this, store
      ensures View() == FinishLocked(old(View()), id, Error, -1, now)
    {
      if current.Some? && current.value.jobId == id {
        store.FinishJob(id, Error, -1, now);
        current := None;
      }
    }

    /** exec from the job's registration on, without other threads in between; `written` says whether the shell took the
        command. Whatever job was current before is forgotten. */
    method Exec(id: JobId, deadline: Option<nat>, written: bool, now: nat)
      modifies this, store
      ensures written ==> IsCurrent(View(), id) && store.jobs == old(store.jobs)[id := Job(Running, -1, "", 0)]
      ensures !written ==> current.None? && store.jobs == old(store.jobs)[id := Job(Error, -1, "", now)]
    {
      store.Upsert(id, Job(Running, -1, "", 0));
      Install(id, deadline);
      if !written { HandleWriteFailure(id, now); }
    }
  }

  // ---- Job ids ------------------------------------------------------------------------------

  function MakeJobId(ms: nat, n: nat): JobId {
    "job_" + Digits(ms) + "_" + Digits(n)
  }

  /** Ids made with different counter values differ, whatever the clock said. */
  lemma JobIdsDiffer(ms: nat, n: nat, ms': nat, n': nat)
    requires MakeJobId(ms, n) == MakeJobId(ms', n')
    ensures n == n'
  {
    var a, b, x, y := Digits(ms), Digits(ms'), Digits(n), Digits(n');
    DigitsAreDigits(ms);
    DigitsAreDigits(ms');
    assert MakeJobId(ms, n) == "job_" + (a + "_" + x) && MakeJobId(ms', n') == "job_" + (b + "_" + y);
    DropPrefix("job_", a + "_" + x, b + "_" + y);
    SplitAtSeparator(a, x, b, y);
    DigitsInjective(n, n');
  }

  lemma DropPrefix(p: string, s: string, t: string)
    requires p + s == p + t
    ensures s == t
  {
    assert s == (p + s)[|p|..] && t == (p + t)[|p|..];
  }

  lemma SplitAtSeparator(a: string, x: string, b: string, y: string)
    requires a + "_" + x == b + "_" + y
    requires (forall k | 0 <= k < |a| :: IsDigit(a[k])) && (forall k | 0 <= k < |b| :: IsDigit(b[k]))
    ensures x == y
  {
    var s := a + "_" + x;
    assert s[|a|] == '_' && s[|b|] == '_';
    assert forall k | 0 <= k < |a| :: s[k] == a[k];
    assert forall k | 0 <= k < |b| :: s[k] == b[k];
    assert |a| == |b|;
    assert x == s[|a| + 1..] && y == s[|b| + 1..];
  }
}
