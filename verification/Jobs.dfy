/** Job creation with a 24-hour idempotency window. */
module Jobs {

  /** What two requests must share to be the same one. */
  datatype JobKey = JobKey(org: nat, kind: string, target: nat, idempotencyKey: string)

  datatype Job = Job(key: JobKey, createdAt: int, input: string)

  /** 24 hours, in seconds. */
  const DAY := 86400

  function FindRecent(jobs: seq<Job>, key: JobKey, now: int): (i: int)
    ensures -1 <= i < |jobs|
    ensures i >= 0 ==> jobs[i].key == key && jobs[i].createdAt >= now - DAY
    ensures i == -1 ==> forall k :: 0 <= k < |jobs| && jobs[k].key == key ==> jobs[k].createdAt < now - DAY
  {
    if jobs == [] then -1
    else
      var last := |jobs| - 1;
      if jobs[last].key == key && jobs[last].createdAt >= now - DAY then last else FindRecent(jobs[..last], key, now)
  }

  /** Jobs of one key lie more than a day apart, and none is dated after the clock. */
  ghost predicate Spaced(jobs: seq<Job>, clock: int) {
    && (forall i :: 0 <= i < |jobs| ==> jobs[i].createdAt <= clock)
    && (forall i, j :: 0 <= i < j < |jobs| && jobs[i].key == jobs[j].key ==> jobs[j].createdAt > jobs[i].createdAt + DAY)
  }

  class JobTable {
    var jobs: seq<Job>

    constructor ()
      ensures jobs == []
    {
      jobs := [];
    }

    /** A request repeated within the window gets the job of the first; any other gets a new one. */
    method CreateJob(key: JobKey, input: string, now: int) returns (job: Job, replayed: bool)
      modifies this
      ensures job.key == key && job in jobs
      ensures replayed <==> exists i :: 0 <= i < |old(jobs)| && old(jobs)[i].key == key && old(jobs)[i].createdAt >= now - DAY
      ensures replayed ==> jobs == old(jobs) && job in old(jobs) && job.createdAt >= now - DAY
      ensures !replayed ==> jobs == old(jobs) + [job] && job == Job(key, now, input)
      ensures (jobs, job) == Create(old(jobs), Request(key, input, now))
      ensures forall clock :: Spaced(old(jobs), clock) && clock <= now ==> Spaced(jobs, now)
    {
      var existing := FindRecent(jobs, key, now);
      if existing >= 0 {
        return jobs[existing], true;
      }
      job := Job(key, now, input);
      jobs := jobs + [job];
      replayed := false;
    }
  }

  // ---------------------------------------------------------------- runs

  datatype Request = Request(key: JobKey, input: string, now: int)

  /** The job a request is answered with, and the table after it. */
  function Create(jobs: seq<Job>, r: Request): (seq<Job>, Job) {
    var existing := FindRecent(jobs, r.key, r.now);
    if existing >= 0 then (jobs, jobs[existing])
    else (jobs + [Job(r.key, r.now, r.input)], Job(r.key, r.now, r.input))
  }

  function After(requests: seq<Request>): seq<Job> {
    if requests == [] then []
    else Create(After(requests[..|requests| - 1]), requests[|requests| - 1]).0
  }

  function Answer(requests: seq<Request>, n: nat): Job
    requires n < |requests|
  {
    Create(After(requests[..n]), requests[n]).1
  }

  ghost predicate Clocked(requests: seq<Request>) {
    forall i, j :: 0 <= i < j < |requests| ==> requests[i].now <= requests[j].now
  }

  lemma {:induction false} RunsAreSpaced(requests: seq<Request>, clock: int)
    requires Clocked(requests)
    requires forall i :: 0 <= i < |requests| ==> requests[i].now <= clock
    ensures Spaced(After(requests), clock)
  {
    if requests != [] {
      var n := |requests| - 1;
      RunsAreSpaced(requests[..n], requests[n].now);
    }
  }

  lemma CreateGrows(jobs: seq<Job>, r: Request)
    ensures jobs <= Create(jobs, r).0
  {
  }

  /** Rows stay where they are while the table grows. */
  lemma {:induction false} JobStays(requests: seq<Request>, n: nat, k: nat)
    requires n <= |requests| && k < |After(requests[..n])|
    ensures k < |After(requests)| && After(requests)[k] == After(requests[..n])[k]
  {
    hide Create;
    if n < |requests| {
      var m := |requests| - 1;
      assert requests[..m][..n] == requests[..n];
      JobStays(requests[..m], n, k);
      CreateGrows(After(requests[..m]), requests[m]);
    } else {
      assert requests[..n] == requests;
    }
  }

  /** A job that answered a request is still there when a later one comes. */
  lemma AnswerStays(requests: seq<Request>, i: nat, j: nat) returns (k: nat)
    requires i < j < |requests|
    ensures k < |After(requests[..j])| && After(requests[..j])[k] == Answer(requests, i)
    ensures Answer(requests, i).key == requests[i].key
  {
    assert requests[..i + 1][..i] == requests[..i];
    assert requests[..j][..i + 1] == requests[..i + 1];
    var jobs := After(requests[..i]);
    assert After(requests[..i + 1]) == Create(jobs, requests[i]).0;
    var existing := FindRecent(jobs, requests[i].key, requests[i].now);
    k := if existing >= 0 then existing else |jobs|;
    hide Create;
    JobStays(requests[..j], i + 1, k);
  }

  /** With the window kept, there is one recent job of a key. */
  lemma RecentIsUnique(jobs: seq<Job>, clock: int, key: JobKey, now: int, i: nat)
    requires Spaced(jobs, clock) && clock <= now
    requires i < |jobs| && jobs[i].key == key && jobs[i].createdAt >= now - DAY
    ensures FindRecent(jobs, key, now) == i
  {
    var k := FindRecent(jobs, key, now);
    assert k >= 0;
  }

  /**
    * Over every run on a clock that never goes back: a repetition of a request is answered with the same job
    * exactly when it comes within 24 hours of that job's creation; later it is answered with a new one.
    */
  lemma {:induction false} ReplayWindow(requests: seq<Request>, i: nat, j: nat)
    requires Clocked(requests) && i < j < |requests| && requests[i].key == requests[j].key
    ensures Answer(requests, j) == Answer(requests, i) <==> requests[j].now - Answer(requests, i).createdAt <= 24 * 60 * 60
  {
    var first, now := Answer(requests, i), requests[j].now;
    var jobs := After(requests[..j]);
    var k := AnswerStays(requests, i, j);
    assert Clocked(requests[..j]) && forall l :: 0 <= l < j ==> requests[..j][l].now <= now;
    RunsAreSpaced(requests[..j], now);
    hide Spaced, Clocked, After;
    if first.createdAt >= now - DAY {
      RecentIsUnique(jobs, now, first.key, now, k);
    }
  }
}
