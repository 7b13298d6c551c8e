/** The background job worker of `src/gateway/jobs/manager.py`. One worker runs; between any two of
    its database commands other requests may create jobs and rows may be deleted. */
module Jobs {
  import opened Numbers
  import opened Wrappers

  const BATCH := 50

  datatype Status = Pending | InProgress | Completed | Failed

  datatype Reason = NoEndpoint | NoVendor | NoAdapter | HttpError(statusCode: nat) | CallFailed

  /** A row of the job table; `history` lists the statuses committed so far. */
  datatype Job = Job(status: Status, error: Option<Reason>, response: Option<nat>, history: seq<Status>)

  type Table = map<nat, Job>

  /** What one run of a job meets: what it looks up, whether building the adapter raises, and
      what the vendor answers. */
  datatype Fate = MissingEndpoint | MissingVendor | MissingAdapter | BuildRaises | VendorRaises | Answers(statusCode: nat)

  /** What other requests may do to the table. */
  datatype Deed = Create | Remove(ids: set<nat>)

  const NEW_JOB := Job(Pending, None, None, [Pending])

  predicate Finished(status: Status) {
    status.Completed? || status.Failed?
  }

  /** The committed statuses are a prefix of pending, in_progress, completed-or-failed; a completed
      job has a response below 400, a failed one a reason. */
  predicate WellRun(job: Job) {
    && 1 <= |job.history| <= 3 && job.status == job.history[|job.history| - 1]
    && job.history[0] == Pending
    && (1 < |job.history| ==> job.history[1] == InProgress)
    && (2 < |job.history| ==> Finished(job.history[2]))
    && (job.status.Completed? ==> job.response.Some? && job.response.value < 400 && job.error.None?)
    && (job.status.Failed? ==> job.error.Some? && (job.response.Some? ==> job.error == Some(HttpError(job.response.value)) && 400 <= job.response.value))
    && (!Finished(job.status) ==> job.error.None? && job.response.None?)
  }

  function PendingIn(jobs: Table): set<nat> {
    set id | id in jobs && jobs[id].status.Pending?
  }

  /** Other requests ran: they created pending jobs, and rows may be gone. */
  predicate Lived(before: Table, n: nat, after: Table, m: nat) {
    n <= m && forall id :: id in after ==> Kept(before, n, after, m, id)
  }

  predicate Kept(before: Table, n: nat, after: Table, m: nat, id: nat)
    requires id in after
  {
    if id in before then after[id] == before[id] else n <= id < m && after[id] == NEW_JOB
  }

  /** The same, except for job `mine`. */
  predicate LivedBut(before: Table, n: nat, after: Table, m: nat, mine: nat) {
    n <= m && forall id :: id in after && id != mine ==> Kept(before, n, after, m, id)
  }

  /** The row says what the run met: completed with the answer's code when the vendor answered below
      400, in progress when building the adapter raised, and failed for the one reason there was
      otherwise; a response is there exactly when the vendor answered. */
  ghost predicate Reports(job: Job, fate: Fate) {
    && (job.status.Completed? <==> fate.Answers? && fate.statusCode < 400)
    && (job.status.InProgress? <==> fate.BuildRaises?)
    && !job.status.Pending?
    && (forall code: nat :: job.response == Some(code) <==> fate == Answers(code))
    && (forall code: nat :: job.error == Some(HttpError(code)) <==> fate == Answers(code) && 400 <= code)
    && (job.error == Some(CallFailed) <==> fate.VendorRaises?)
    && (job.error == Some(NoEndpoint) <==> fate.MissingEndpoint?)
    && (job.error == Some(NoVendor) <==> fate.MissingVendor?)
    && (job.error == Some(NoAdapter) <==> fate.MissingAdapter?)
  }

  /** What one run made of a pending job whose row is still there. */
  predicate Ran(job: Job, raised: bool) {
    WellRun(job) && (Finished(job.status) || (raised && job.status.InProgress?))
  }

  /** What `_process_pending_jobs` did: it ran the jobs in `handled`, and nothing else touched the
      rows that were there before. Only the last job run can be stranded, and only by a raise. */
  ghost predicate Passed(before: Table, n: nat, after: Table, m: nat, handled: set<nat>, stranded: Option<nat>) {
    && n <= m
    && (forall id :: id in after && id !in handled ==> Kept(before, n, after, m, id))
    && (forall id :: id in handled && id in after ==> Ran(after[id], stranded == Some(id)))
  }

  lemma ThenRun(before: Table, n: nat, mid: Table, k: nat, after: Table, m: nat, handled: set<nat>, id: nat, raised: bool)
    requires Passed(before, n, mid, k, handled, None) && LivedBut(mid, k, after, m, id)
    requires id in after ==> Ran(after[id], raised)
    requires handled <= before.Keys && forall j :: j in before ==> j < n
    ensures Passed(before, n, after, m, handled + {id}, if raised then Some(id) else None)
  {
    forall j | j in after && j != id
      ensures if j in handled then Ran(after[j], false) else Kept(before, n, after, m, j)
    {
      assert Kept(mid, k, after, m, j);
      assert j in mid && j !in handled ==> Kept(before, n, mid, k, j);
    }
  }

  /** With one worker, a job that was pending when the batch was selected still is, or is gone. */
  lemma StillPending(before: Table, n: nat, mid: Table, k: nat, handled: set<nat>, id: nat)
    requires Passed(before, n, mid, k, handled, None) && id in PendingIn(before) && id !in handled && id < n
    ensures id < k && (id in mid ==> mid[id].status.Pending?)
  {
    assert id in mid ==> Kept(before, n, mid, k, id);
  }

  class Manager {
    var jobs: Table
    var next: nat
    /** The jobs whose vendor was called, in the order of the calls. */
    var calls: seq<nat>

    /** Every row is well run and no vendor was called twice for a job, nor for a pending one. */
    ghost predicate Valid()
      reads this
    {
      && (forall id :: id in jobs ==> id < next && WellRun(jobs[id]))
      && (forall i :: 0 <= i < |calls| ==> calls[i] < next && (calls[i] in jobs ==> !jobs[calls[i]].status.Pending?))
      && (forall i, j :: 0 <= i < j < |calls| ==> calls[i] != calls[j])
    }

    constructor ()
      ensures Valid() && jobs == map[] && calls == []
    {
      jobs, next, calls := map[], 0, [];
    }

    /** `create_job`. */
    method CreateJob() returns (id: nat)
      requires Valid()
      modifies this`jobs, this`next
      ensures Valid() && id == old(next) && next == id + 1
      ensures jobs == old(jobs)[id := Job(Pending, None, None, [Pending])]
      ensures Lived(old(jobs), old(next), jobs, next)
    {
      id := next;
      jobs := jobs[id := NEW_JOB];
      next := next + 1;
    }

    /** What other requests do while the worker is suspended. */
    method Others()
      requires Valid()
      modifies this`jobs, this`next
      ensures Valid() && Lived(old(jobs), old(next), jobs, next)
    {
      var deeds: seq<Deed> := *;
      for i := 0 to |deeds|
        invariant Valid() && Lived(old(jobs), old(next), jobs, next)
      {
        match deeds[i] {
          case Create => var _ := CreateJob();
          case Remove(ids) => jobs := jobs - ids;
        }
      }
    }

    /** A commit of one row; it raises when the row is gone. */
    method Commit(id: nat, job: Job) returns (raised: bool)
      requires Valid() && id < next && WellRun(job)
      requires id in jobs && id in calls ==> !job.status.Pending?
      modifies this`jobs, this`next
      ensures Valid() && LivedBut(old(jobs), old(next), jobs, next, id)
      ensures raised <==> id !in old(jobs)
      ensures id in jobs ==> !raised && jobs[id] == job
    {
      raised := id !in jobs;
      if !raised {
        jobs := jobs[id := job];
      }
      Others();
    }

    /** The vendor call of `run_job` and the commit of its result. */
    method CallVendor(id: nat, started: Job, fate: Fate) returns (raised: bool)
      requires Valid() && id < next && id !in calls && (fate.VendorRaises? || fate.Answers?)
      requires WellRun(started) && started.status.InProgress? && (id in jobs ==> jobs[id] == started)
      modifies this
      ensures Valid() && LivedBut(old(jobs), old(next), jobs, next, id)
      ensures calls == old(calls) + [id]
      ensures id in jobs ==> !raised && Ran(jobs[id], false) && Reports(jobs[id], fate)
    {
      calls := calls + [id];
      Others();
      var job := started;
      match fate {
        case Answers(statusCode) =>
          if 400 <= statusCode {
            job := Closed(job, Failed, Some(HttpError(statusCode)), Some(statusCode));
          } else {
            job := Closed(job, Completed, None, Some(statusCode));
          }
        case _ =>
          job := Closed(job, Failed, Some(CallFailed), None);
      }
      raised := Commit(id, job);
    }

    /** `run_job`: in_progress, the lookups, the vendor call, the result, the webhook. */
    method RunJob(id: nat, fate: Fate, webhookRaises: bool) returns (raised: bool)
      requires Valid() && id in jobs && jobs[id].status.Pending?
      modifies this
      ensures Valid() && LivedBut(old(jobs), old(next), jobs, next, id)
      ensures id in jobs ==> Ran(jobs[id], raised) && Reports(jobs[id], fate)
      ensures id in jobs ==> (raised <==> fate.BuildRaises? || ((fate.VendorRaises? || fate.Answers?) && webhookRaises))
      ensures calls == old(calls) || calls == old(calls) + [id]
      ensures id in jobs ==> (calls != old(calls) <==> fate.VendorRaises? || fate.Answers?)
    {
      var job := jobs[id].(status := InProgress, history := jobs[id].history + [InProgress]);
      raised := Commit(id, job);
      if raised {
        return;
      }
      Others();
      if fate.MissingEndpoint? {
        raised := Commit(id, Closed(job, Failed, Some(NoEndpoint), None));
        return;
      }
      if fate.MissingVendor? {
        raised := Commit(id, Closed(job, Failed, Some(NoVendor), None));
        return;
      }
      if fate.BuildRaises? {
        return true;
      }
      if fate.MissingAdapter? {
        raised := Commit(id, Closed(job, Failed, Some(NoAdapter), None));
        return;
      }
      raised := CallVendor(id, job, fate);
      if webhookRaises {
        raised := true;
      }
    }

    /** SELECT … WHERE status = 'pending' LIMIT 50, in any order. */
    method SelectPending() returns (batch: seq<nat>)
      ensures Distinct(batch) && |batch| <= 50 && |batch| <= |PendingIn(jobs)|
      ensures |batch| == 50 || |batch| == |PendingIn(jobs)|
      ensures forall id :: id in batch ==> id in PendingIn(jobs)
    {
      var rest := PendingIn(jobs);
      batch := [];
      while |batch| < BATCH && rest != {}
        invariant rest <= PendingIn(jobs) && |batch| <= BATCH && |batch| + |rest| == |PendingIn(jobs)|
        invariant Distinct(batch)
        invariant forall id :: id in batch ==> id in PendingIn(jobs) - rest
      {
        var id :| id in rest;
        assert id !in batch;
        rest := rest - {id};
        batch := batch + [id];
      }
    }

    /** One turn of the pass: the job is looked up again and, when it is still pending, run. */
    method RunIfPending(id: nat) returns (raised: bool)
      requires Valid() && (id in jobs ==> jobs[id].status.Pending?) && id < next
      modifies this
      ensures Valid() && LivedBut(old(jobs), old(next), jobs, next, id)
      ensures id in jobs ==> Ran(jobs[id], raised)
    {
      raised := false;
      Others();
      ghost var mid, n := jobs, next;
      if id in jobs && jobs[id].status.Pending? {
        var fate: Fate := *;
        var webhookRaises: bool := *;
        raised := RunJob(id, fate, webhookRaises);
        forall j | j in jobs && j != id
          ensures Kept(old(jobs), old(next), jobs, next, j)
        {
          assert Kept(mid, n, jobs, next, j);
        }
      }
    }

    /** `_process_pending_jobs`: a batch of pending jobs is run one after the other; an exception
        of one run ends the pass. */
    method ProcessPendingJobs() returns (raised: bool, handled: set<nat>)
      requires Valid()
      modifies this
      ensures Valid() && handled <= PendingIn(old(jobs))
      ensures |handled| <= 50 && (PendingIn(old(jobs)) != {} ==> handled != {})
      ensures !raised ==> |handled| == 50 || |handled| == |PendingIn(old(jobs))|
      ensures exists stranded: Option<nat> :: (stranded.Some? ==> raised) && Passed(old(jobs), old(next), jobs, next, handled, stranded)
    {
      ghost var before, n := jobs, next;
      var batch := SelectPending();
      assert forall id :: id in batch ==> id in PendingIn(before) && id < n;
      raised, handled := false, {};
      var i := 0;
      while i < |batch| && !raised
        invariant i <= |batch| && |handled| == i && (raised ==> 0 < i)
        invariant forall id :: id in handled <==> id in batch[..i]
        invariant Valid() && handled <= PendingIn(before)
        invariant !raised ==> Passed(before, n, jobs, next, handled, None)
        invariant raised ==> Passed(before, n, jobs, next, handled, Some(batch[i - 1]))
      {
        var id := batch[i];
        Unhandled(batch, i, handled);
        ghost var mid, k := jobs, next;
        StillPending(before, n, mid, k, handled, id);
        raised := RunIfPending(id);
        ThenRun(before, n, mid, k, jobs, next, handled, id, raised);
        handled := handled + {id};
        i := i + 1;
      }
    }

    /** `_worker_loop`, cut off after some passes. No job's vendor is ever called twice; and when no
        job arrives, a pass that raises lowers the number of pending jobs by one at least, any
        other by 50, until none is left. */
    method Work(passes: nat) returns (raises: nat)
      requires Valid()
      modifies this
      ensures Valid() && raises <= passes
      ensures next == old(next) ==>
                PendingIn(jobs) == {} || |PendingIn(jobs)| + raises + 50 * (passes - raises) <= |PendingIn(old(jobs))|
    {
      raises := 0;
      for n := 0 to passes
        invariant Valid() && old(next) <= next && raises <= n
        invariant next == old(next) ==>
                    PendingIn(jobs) == {} || |PendingIn(jobs)| + raises + 50 * (n - raises) <= |PendingIn(old(jobs))|
      {
        ghost var before, k := jobs, next;
        var raised, handled := ProcessPendingJobs();
        ghost var stranded :| Passed(before, k, jobs, next, handled, stranded);
        PassDrains(before, k, jobs, next, handled, stranded);
        ghost var mid, m := jobs, next;
        Others();
        OthersDrain(mid, m, jobs, next);
        raises := raises + if raised then 1 else 0;
      }
    }
  }

  /** A pass without arrivals takes the jobs it ran off the pending ones; when no row was deleted
      either, it takes off nothing else. */
  lemma PassDrains(before: Table, n: nat, after: Table, m: nat, handled: set<nat>, stranded: Option<nat>)
    requires Passed(before, n, after, m, handled, stranded) && handled <= PendingIn(before)
    ensures n == m ==> |PendingIn(after)| <= |PendingIn(before)| - |handled|
    ensures n == m && before.Keys <= after.Keys ==> |PendingIn(after)| == |PendingIn(before)| - |handled|
  {
    assert |PendingIn(before) - handled| == |PendingIn(before)| - |handled|;
    if n == m {
      assert PendingIn(after) <= PendingIn(before) - handled;
      SubsetSize(PendingIn(after), PendingIn(before) - handled);
      if before.Keys <= after.Keys {
        forall id | id in PendingIn(before) - handled
          ensures id in PendingIn(after)
        {
          assert Kept(before, n, after, m, id);
        }
        assert PendingIn(after) == PendingIn(before) - handled;
      }
    }
  }

  lemma OthersDrain(before: Table, n: nat, after: Table, m: nat)
    requires Lived(before, n, after, m)
    ensures n == m ==> |PendingIn(after)| <= |PendingIn(before)|
  {
    if n == m {
      assert forall id :: id in after ==> Kept(before, n, after, m, id);
      SubsetSize(PendingIn(after), PendingIn(before));
    }
  }

  /** A pass strands no job unless it raises, and one at most then: every other job it ran and
      whose row is still there is finished. */
  lemma OnlyARaiseStrands(before: Table, n: nat, after: Table, m: nat, handled: set<nat>, stranded: Option<nat>, id: nat)
    requires Passed(before, n, after, m, handled, stranded) && id in handled && id in after && stranded != Some(id)
    ensures Finished(after[id].status) && |after[id].history| == 3
  {
    assert Ran(after[id], false);
  }

  lemma Unhandled(batch: seq<nat>, i: nat, handled: set<nat>)
    requires i < |batch| && Distinct(batch)
    requires forall id :: id in handled <==> id in batch[..i]
    ensures batch[i] !in handled
    ensures forall id :: id in handled + {batch[i]} <==> id in batch[..i + 1]
  {
    assert batch[..i + 1] == batch[..i] + [batch[i]];
  }

  predicate Distinct(s: seq<nat>) {
    forall i, j :: 0 <= i < j < |s| ==> s[i] != s[j]
  }

  function Closed(job: Job, status: Status, error: Option<Reason>, response: Option<nat>): Job {
    Job(status, error, response, job.history + [status])
  }
}
