/**
 * The worker pool of the Go sample (Go/GoSample/main.go, `worker` and
 * `demonstrateWorkerPool`): a buffered `jobs` channel, N workers that each
 * range over it and send `job * 2` to a `results` channel, a WaitGroup
 * counting the workers still running, and a closer that closes `results`
 * once the WaitGroup reaches zero.
 *
 * Each worker's receive, its send of the result and its exit (the deferred
 * `wg.Done()`) are separate atomic steps of the Pool class, so that the
 * steps of different workers can interleave in any order. Run lets an
 * arbitrary live worker take its next step until all have exited, which
 * covers every schedule the Go runtime may choose.
 */
module WorkerPool {
  import opened Wrappers
  import opened Numeric

  /** What a worker sends for one job: `job * 2` in Go's wrapping `int`. */
  function Process(job: Int64): (r: Int64)
    ensures (job * 2 - r) % TWO_TO_64 == 0
    ensures MIN_INT64 <= job * 2 <= MAX_INT64 ==> r == job * 2
  {
    if MIN_INT64 <= job * 2 <= MAX_INT64 then WrapInRange(job * 2); Wrap64(job * 2) else Wrap64(job * 2)
  }

  /** The results for a sequence of jobs, one per job, in the same order. */
  function ProcessAll(jobs: seq<Int64>): (r: seq<Int64>)
    ensures |r| == |jobs|
  {
    if jobs == [] then [] else ProcessAll(jobs[..|jobs| - 1]) + [Process(jobs[|jobs| - 1])]
  }

  /** The i-th result is the result for the i-th job. */
  lemma {:induction false} ProcessAllAt(jobs: seq<Int64>, i: nat)
    requires i < |jobs|
    ensures ProcessAll(jobs)[i] == Process(jobs[i])
  {
    if i < |jobs| - 1 {
      ProcessAllAt(jobs[..|jobs| - 1], i);
    }
  }

  /** Answering one more job appends its result to the answers so far. */
  lemma ProcessAllSnoc(published: seq<Int64>, job: Int64)
    ensures ProcessAll(published + [job]) == ProcessAll(published) + [Process(job)]
  {
    assert (published + [job])[..|published|] == published;
  }

  lemma {:induction false} ProcessAllAppend(a: seq<Int64>, b: seq<Int64>)
    ensures ProcessAll(a + b) == ProcessAll(a) + ProcessAll(b)
  {
    if b == [] {
      assert a + b == a;
    } else {
      var b' := b[..|b| - 1];
      assert (a + b)[..|a + b| - 1] == a + b';
      ProcessAllAppend(a, b');
    }
  }

  /** Taking one job out of the middle takes its result out of the results. */
  lemma ProcessAllRemove(pre: seq<Int64>, x: Int64, post: seq<Int64>)
    ensures multiset(ProcessAll(pre + [x] + post)) == multiset(ProcessAll(pre + post)) + multiset{Process(x)}
  {
    ProcessAllAppend(pre + [x], post);
    ProcessAllSnoc(pre, x);
    ProcessAllAppend(pre, post);
    calc {
      multiset(ProcessAll(pre + [x] + post));
      multiset(ProcessAll(pre) + [Process(x)] + ProcessAll(post));
      multiset(ProcessAll(pre)) + multiset{Process(x)} + multiset(ProcessAll(post));
      multiset(ProcessAll(pre + post)) + multiset{Process(x)};
    }
  }

  /** If `x` occurs in `t`, then `t` is some `pre + [x] + post`, and removing that `x` leaves `s'` when `t` was `s' + [x]` reordered. */
  lemma SplitAt(s': seq<Int64>, x: Int64, t: seq<Int64>) returns (pre: seq<Int64>, post: seq<Int64>)
    requires multiset(s' + [x]) == multiset(t)
    ensures t == pre + [x] + post
    ensures multiset(s') == multiset(pre + post)
  {
    assert multiset(s' + [x]) == multiset(s') + multiset{x};
    assert x in multiset(t);
    var i :| 0 <= i < |t| && t[i] == x;
    pre, post := t[..i], t[i + 1..];
    assert t == pre + [x] + post;
    assert multiset(t) == multiset(pre + post) + multiset{x} by {
      assert multiset(t) == multiset(pre) + multiset{x} + multiset(post);
    }
    forall y ensures multiset(s')[y] == multiset(pre + post)[y] {
      assert multiset(s' + [x])[y] == multiset(t)[y];
    }
  }

  /** Answering the same jobs in another order gives the same results in another order. */
  lemma {:induction false} ProcessAllPermutation(s: seq<Int64>, t: seq<Int64>)
    requires multiset(s) == multiset(t)
    ensures multiset(ProcessAll(s)) == multiset(ProcessAll(t))
    decreases |s|
  {
    if s != [] {
      var s', x := s[..|s| - 1], s[|s| - 1];
      assert s == s' + [x];
      var pre, post := SplitAt(s', x, t);
      ProcessAllPermutation(s', pre + post);
      ProcessAllRemove(pre, x, post);
      ProcessAllSnoc(s', x);
      assert multiset(ProcessAll(s)) == multiset(ProcessAll(s')) + multiset{Process(x)};
    }
  }

  /** The job an optional slot holds, as a multiset of size 0 or 1. */
  function SlotJob(slot: Option<Int64>): multiset<Int64>
  {
    if slot.Some? then multiset{slot.value} else multiset{}
  }

  /** The jobs the workers have received but not yet answered. */
  function Held(holding: seq<Option<Int64>>): multiset<Int64>
  {
    if holding == [] then multiset{} else SlotJob(holding[0]) + Held(holding[1..])
  }

  /** Replacing one worker's slot swaps that slot's job in the held multiset. */
  lemma {:induction false} HeldUpdate(holding: seq<Option<Int64>>, w: nat, slot: Option<Int64>)
    requires w < |holding|
    ensures Held(holding[w := slot]) + SlotJob(holding[w]) == Held(holding) + SlotJob(slot)
  {
    var h' := holding[w := slot];
    if w == 0 {
      assert h'[1..] == holding[1..];
    } else {
      var t := holding[1..];
      var t' := t[w - 1 := slot];
      assert h'[1..] == t';
      assert Held(h') == SlotJob(holding[0]) + Held(t');
      assert holding[w] == t[w - 1];
      HeldUpdate(t, w - 1, slot);
      forall y ensures (Held(h') + SlotJob(holding[w]))[y] == (Held(holding) + SlotJob(slot))[y] {
        assert (Held(t') + SlotJob(t[w - 1]))[y] == (Held(t) + SlotJob(slot))[y];
      }
    }
  }

  /** Answering a job leaves one job fewer held; receiving one leaves one more. */
  lemma HeldSize(holding: seq<Option<Int64>>, w: nat, slot: Option<Int64>)
    requires w < |holding| && holding[w].Some? != slot.Some?
    ensures |Held(holding[w := slot])| == if slot.Some? then |Held(holding)| + 1 else |Held(holding)| - 1
  {
    HeldUpdate(holding, w, slot);
    var added, removed := SlotJob(slot), SlotJob(holding[w]);
    assert |Held(holding[w := slot]) + removed| == |Held(holding) + added|;
    if slot.Some? {
      assert removed == multiset{} && |added| == 1;
    } else {
      assert added == multiset{} && |removed| == 1;
    }
  }

  /** When no worker holds a job, nothing is held. */
  lemma {:induction false} HeldEmpty(holding: seq<Option<Int64>>)
    requires forall w :: 0 <= w < |holding| ==> holding[w].None?
    ensures Held(holding) == multiset{}
  {
    if holding != [] {
      HeldEmpty(holding[1..]);
    }
  }

  /** The number of workers that have not exited: the WaitGroup's counter. */
  function Active(exited: seq<bool>): nat
  {
    if exited == [] then 0 else (if exited[0] then 0 else 1) + Active(exited[1..])
  }

  lemma {:induction false} ActiveAllRunning(n: nat)
    ensures Active(seq(n, _ => false)) == n
  {
    if n > 0 {
      assert seq(n, _ => false)[1..] == seq(n - 1, _ => false);
      ActiveAllRunning(n - 1);
    }
  }

  /** A worker's exit lowers the counter by exactly one. */
  lemma {:induction false} ActiveExit(exited: seq<bool>, w: nat)
    requires w < |exited| && !exited[w]
    ensures Active(exited[w := true]) == Active(exited) - 1
  {
    if w > 0 {
      assert exited[w := true][1..] == exited[1..][w - 1 := true];
      ActiveExit(exited[1..], w - 1);
    }
  }

  /** The counter is zero exactly when every worker has exited. */
  lemma {:induction false} ActiveZero(exited: seq<bool>)
    ensures Active(exited) == 0 <==> forall w :: 0 <= w < |exited| ==> exited[w]
  {
    if exited != [] {
      ActiveZero(exited[1..]);
      if Active(exited) == 0 {
        forall w | 0 <= w < |exited| ensures exited[w] {
          if w > 0 { assert exited[w] == exited[1..][w - 1]; }
        }
      }
      if forall w :: 0 <= w < |exited| ==> exited[w] {
        forall w | 0 <= w < |exited| - 1 ensures exited[1..][w] {
          assert exited[1..][w] == exited[w + 1];
        }
      }
    }
  }

  /** Every job sent is exactly once either still queued, held by a worker, or answered. */
  ghost predicate Balanced(jobs: seq<Int64>, holding: seq<Option<Int64>>, published: seq<Int64>, submitted: seq<Int64>)
  {
    multiset(jobs) + Held(holding) + multiset(published) == multiset(submitted)
  }

  /** With a single worker, answered, held and queued jobs are the sent jobs in order. */
  ghost predicate Sequential(jobs: seq<Int64>, holding: seq<Option<Int64>>, published: seq<Int64>, submitted: seq<Int64>)
  {
    |holding| == 1 ==> published + SlotSeq(holding[0]) + jobs == submitted
  }

  /** Sending a job keeps every job accounted for. */
  lemma SendBalanced(jobs: seq<Int64>, holding: seq<Option<Int64>>, published: seq<Int64>, submitted: seq<Int64>, job: Int64)
    requires Balanced(jobs, holding, published, submitted)
    ensures Balanced(jobs + [job], holding, published, submitted + [job])
  {
    assert multiset(jobs + [job]) == multiset(jobs) + multiset{job};
    assert multiset(submitted + [job]) == multiset(submitted) + multiset{job};
  }

  /** With one worker, sending a job keeps the order. */
  lemma SendSequential(jobs: seq<Int64>, holding: seq<Option<Int64>>, published: seq<Int64>, submitted: seq<Int64>, job: Int64)
    requires Sequential(jobs, holding, published, submitted)
    ensures Sequential(jobs + [job], holding, published, submitted + [job])
  {
    if |holding| == 1 {
      assert published + SlotSeq(holding[0]) + (jobs + [job]) == (published + SlotSeq(holding[0]) + jobs) + [job];
    }
  }

  /** A worker taking the head of the queue keeps every job accounted for. */
  lemma ReceiveBalanced(jobs: seq<Int64>, holding: seq<Option<Int64>>, published: seq<Int64>, submitted: seq<Int64>, w: nat)
    requires Balanced(jobs, holding, published, submitted)
    requires w < |holding| && holding[w].None? && jobs != []
    ensures Balanced(jobs[1..], holding[w := Some(jobs[0])], published, submitted)
  {
    var job, rest := jobs[0], jobs[1..];
    var h' := holding[w := Some(job)];
    HeldUpdate(holding, w, Some(job));
    assert Held(h') == Held(holding) + multiset{job};
    assert jobs == [job] + rest;
    calc {
      multiset(rest) + Held(h') + multiset(published);
      multiset(rest) + (Held(holding) + multiset{job}) + multiset(published);
      (multiset{job} + multiset(rest)) + Held(holding) + multiset(published);
      { assert multiset(jobs) == multiset{job} + multiset(rest); }
      multiset(jobs) + Held(holding) + multiset(published);
    }
  }

  /** With one worker, taking the head of the queue keeps the order. */
  lemma ReceiveSequential(jobs: seq<Int64>, holding: seq<Option<Int64>>, published: seq<Int64>, submitted: seq<Int64>, w: nat)
    requires Sequential(jobs, holding, published, submitted)
    requires w < |holding| && holding[w].None? && jobs != []
    ensures Sequential(jobs[1..], holding[w := Some(jobs[0])], published, submitted)
  {
    if |holding| == 1 {
      assert published + SlotSeq(Some(jobs[0])) + jobs[1..] == published + SlotSeq(holding[0]) + jobs;
    }
  }

  /** A worker answering its job keeps every job accounted for. */
  lemma PublishBalanced(jobs: seq<Int64>, holding: seq<Option<Int64>>, published: seq<Int64>, submitted: seq<Int64>, w: nat)
    requires Balanced(jobs, holding, published, submitted)
    requires w < |holding| && holding[w].Some?
    ensures Balanced(jobs, holding[w := None], published + [holding[w].value], submitted)
  {
    var job := holding[w].value;
    var h' := holding[w := None];
    HeldUpdate(holding, w, None);
    assert Held(h') + multiset{job} == Held(holding);
    calc {
      multiset(jobs) + Held(h') + multiset(published + [job]);
      { assert multiset(published + [job]) == multiset(published) + multiset{job}; }
      multiset(jobs) + (Held(h') + multiset{job}) + multiset(published);
      multiset(jobs) + Held(holding) + multiset(published);
    }
  }

  /** With one worker, answering the held job keeps the order. */
  lemma PublishSequential(jobs: seq<Int64>, holding: seq<Option<Int64>>, published: seq<Int64>, submitted: seq<Int64>, w: nat)
    requires Sequential(jobs, holding, published, submitted)
    requires w < |holding| && holding[w].Some?
    ensures Sequential(jobs, holding[w := None], published + [holding[w].value], submitted)
  {
    if |holding| == 1 {
      assert (published + [holding[w].value]) + SlotSeq(None) + jobs == published + SlotSeq(holding[0]) + jobs;
    }
  }

  /** A slot's job as a sequence of length 0 or 1. */
  function SlotSeq(slot: Option<Int64>): seq<Int64>
  {
    if slot.Some? then [slot.value] else []
  }

  class Pool {
    /** numWorkers */
    const workers: nat
    /** The buffered contents of the `jobs` channel and whether it is closed. */
    var jobs: seq<Int64>
    var jobsClosed: bool
    /** For each worker, the job it has received and not yet answered. */
    var holding: seq<Option<Int64>>
    /** For each worker, whether it has left its range loop (and called wg.Done). */
    var exited: seq<bool>
    /** The WaitGroup's counter. */
    var waiting: nat
    /** What has been sent on the `results` channel, and whether it is closed. */
    var results: seq<Int64>
    var resultsClosed: bool
    /** Every job ever sent on `jobs`, in order. */
    ghost var submitted: seq<Int64>
    /** The jobs whose results have been sent, in the order they were sent. */
    ghost var published: seq<Int64>

    /**
     * The WaitGroup counts the workers still running; a worker exits only
     * empty-handed after `jobs` is closed and drained; `results` is closed
     * only after the counter reached zero.
     */
    ghost predicate Coordinated()
      reads this
    {
      |holding| == workers && |exited| == workers &&
      waiting == Active(exited) &&
      (resultsClosed ==> waiting == 0) &&
      forall w :: 0 <= w < workers && exited[w] ==> holding[w].None? && jobsClosed && jobs == []
    }

    /** Every job sent is exactly once either queued, held by a worker, or answered. */
    ghost predicate Accounted()
      reads this
    {
      results == ProcessAll(published) && Balanced(jobs, holding, published, submitted)
    }

    /** A single worker takes and answers the jobs in the order they were sent. */
    ghost predicate InOrder()
      reads this
    {
      Sequential(jobs, holding, published, submitted)
    }

    ghost predicate Valid()
      reads this
    {
      Coordinated() && Accounted() && InOrder()
    }

    /** Make both channels and call wg.Add(1) for each of the `workers` workers. */
    constructor (workers: nat)
      ensures Valid() && this.workers == workers
      ensures jobs == [] && !jobsClosed && results == [] && !resultsClosed
      ensures waiting == workers && submitted == [] && published == []
      ensures forall w :: 0 <= w < workers ==> !exited[w] && holding[w].None?
    {
      this.workers := workers;
      jobs, jobsClosed := [], false;
      holding := seq(workers, _ => None);
      exited := seq(workers, _ => false);
      waiting := workers;
      results, resultsClosed := [], false;
      submitted, published := [], [];
      new;
      ActiveAllRunning(workers);
      HeldEmpty(holding);
    }

    /** `jobs <- job`. Sending on a closed channel panics, so the channel must be open. */
    method Send(job: Int64)
      requires Valid() && !jobsClosed
      modifies this
      ensures Valid()
      ensures jobs == old(jobs) + [job] && submitted == old(submitted) + [job]
      ensures jobsClosed == old(jobsClosed) && holding == old(holding) && exited == old(exited)
      ensures waiting == old(waiting) && results == old(results) && resultsClosed == old(resultsClosed)
      ensures published == old(published)
    {
      SendBalanced(jobs, holding, published, submitted, job);
      SendSequential(jobs, holding, published, submitted, job);
      jobs := jobs + [job];
      submitted := submitted + [job];
    }

    /** `close(jobs)`. Closing a channel twice panics. */
    method CloseJobs()
      requires Valid() && !jobsClosed
      modifies this
      ensures Valid() && jobsClosed
      ensures jobs == old(jobs) && holding == old(holding) && exited == old(exited)
      ensures waiting == old(waiting) && results == old(results) && resultsClosed == old(resultsClosed)
      ensures submitted == old(submitted) && published == old(published)
    {
      jobsClosed := true;
    }

    /** Worker `w` receives the next job of its `range jobs` loop. */
    method Receive(w: nat)
      requires Valid() && w < workers && !exited[w] && holding[w].None? && jobs != []
      modifies this
      ensures Valid()
      ensures holding == old(holding)[w := Some(old(jobs)[0])] && jobs == old(jobs)[1..]
      ensures jobsClosed == old(jobsClosed) && exited == old(exited) && waiting == old(waiting)
      ensures results == old(results) && resultsClosed == old(resultsClosed)
      ensures submitted == old(submitted) && published == old(published)
    {
      ReceiveBalanced(jobs, holding, published, submitted, w);
      ReceiveSequential(jobs, holding, published, submitted, w);
      holding := holding[w := Some(jobs[0])];
      jobs := jobs[1..];
    }

    /** Worker `w` sends `job * 2` for the job it holds: one result per job. */
    method Publish(w: nat)
      requires Valid() && w < workers && holding[w].Some?
      requires !resultsClosed
      modifies this
      ensures Valid()
      ensures results == old(results) + [Process(old(holding[w]).value)]
      ensures holding == old(holding)[w := None]
      ensures published == old(published) + [old(holding[w]).value]
      ensures jobs == old(jobs) && jobsClosed == old(jobsClosed) && exited == old(exited)
      ensures waiting == old(waiting) && resultsClosed == old(resultsClosed) && submitted == old(submitted)
    {
      var job := holding[w].value;
      PublishBalanced(jobs, holding, published, submitted, w);
      PublishSequential(jobs, holding, published, submitted, w);
      ProcessAllSnoc(published, job);
      holding := holding[w := None];
      results := results + [Process(job)];
      published := published + [job];
    }

    /** Worker `w` finds `jobs` closed and drained, leaves its loop and calls wg.Done(). */
    method Exit(w: nat)
      requires Valid() && w < workers && !exited[w] && holding[w].None?
      requires jobsClosed && jobs == []
      modifies this
      ensures Valid()
      ensures exited == old(exited)[w := true] && waiting == old(waiting) - 1
      ensures jobs == old(jobs) && jobsClosed == old(jobsClosed) && holding == old(holding)
      ensures results == old(results) && resultsClosed == old(resultsClosed)
      ensures submitted == old(submitted) && published == old(published)
    {
      ActiveExit(exited, w);
      exited := exited[w := true];
      waiting := waiting - 1;
    }

    /** The closer goroutine: `wg.Wait()` has returned, so `close(results)`, once. */
    method CloseResults()
      requires Valid() && waiting == 0 && !resultsClosed
      modifies this
      ensures Valid() && resultsClosed
      ensures jobs == old(jobs) && jobsClosed == old(jobsClosed) && holding == old(holding)
      ensures exited == old(exited) && waiting == old(waiting) && results == old(results)
      ensures submitted == old(submitted) && published == old(published)
    {
      resultsClosed := true;
    }

    /** While a worker is still running, `results` is open: no send can hit a closed channel. */
    lemma ResultsOpenWhileWorking(w: nat)
      requires Valid() && w < workers && !exited[w]
      ensures !resultsClosed && waiting > 0
    {
      ActiveZero(exited);
    }

    /**
     * Once the WaitGroup reaches zero (with at least one worker), every job
     * sent has been answered: closing `results` then loses nothing.
     */
    lemma AllAnsweredWhenIdle()
      requires Valid() && waiting == 0 && workers > 0
      ensures jobs == [] && Held(holding) == multiset{}
      ensures multiset(published) == multiset(submitted)
      ensures workers == 1 ==> published == submitted
    {
      ActiveZero(exited);
      assert exited[0];
      HeldEmpty(holding);
    }

    /** Work not yet done: queued jobs count twice (receive, then answer), held jobs and running workers once. */
    ghost function Pending(): nat
      reads this
    {
      2 * |jobs| + |Held(holding)| + waiting
    }

    /**
     * One step of the running worker `w` after `close(jobs)`: answer the job
     * it holds, else receive the next job, else leave the loop.
     */
    method Step(w: nat)
      requires Valid() && jobsClosed && w < workers && !exited[w]
      modifies this
      ensures Valid() && jobsClosed && resultsClosed == old(resultsClosed) && submitted == old(submitted)
      ensures Pending() < old(Pending())
      ensures old(holding[w]).Some? ==>
        holding == old(holding)[w := None] && results == old(results) + [Process(old(holding[w]).value)] &&
        jobs == old(jobs) && exited == old(exited)
      ensures old(holding[w]).None? && old(jobs) != [] ==>
        holding == old(holding)[w := Some(old(jobs)[0])] && jobs == old(jobs)[1..] &&
        results == old(results) && exited == old(exited)
      ensures old(holding[w]).None? && old(jobs) == [] ==>
        exited == old(exited)[w := true] && holding == old(holding) && results == old(results) && jobs == old(jobs)
    {
      if holding[w].Some? {
        HeldSize(holding, w, None);
        ResultsOpenWhileWorking(w);
        Publish(w);
      } else if jobs != [] {
        HeldSize(holding, w, Some(jobs[0]));
        Receive(w);
      } else {
        Exit(w);
      }
    }

    /**
     * Everything after `close(jobs)`: the workers run in any interleaving
     * until all have exited, then the closer closes `results`.
     */
    method Run()
      requires Valid() && jobsClosed && !resultsClosed
      modifies this
      ensures Valid() && resultsClosed && submitted == old(submitted)
      ensures workers > 0 ==> multiset(results) == multiset(ProcessAll(submitted))
      ensures workers == 1 ==> results == ProcessAll(submitted)
      ensures workers == 0 ==> results == old(results) && jobs == old(jobs)
    {
      if workers == 0 {
        ActiveZero(exited);
      }
      while waiting > 0
        invariant Valid() && jobsClosed && !resultsClosed && submitted == old(submitted)
        invariant workers == 0 ==> results == old(results) && jobs == old(jobs)
        decreases Pending()
      {
        ActiveZero(exited);
        var w :| 0 <= w < workers && !exited[w];
        Step(w);
      }
      if workers > 0 {
        AllAnsweredWhenIdle();
        ProcessAllPermutation(published, submitted);
      }
      CloseResults();
    }
  }

  /** The jobs 1..n, as `demonstrateWorkerPool` sends them. */
  function JobNumbers(n: nat): (s: seq<Int64>)
    requires n <= MAX_INT64
    ensures |s| == n && forall i :: 0 <= i < n ==> s[i] == i + 1
  {
    seq(n, i requires 0 <= i < n => i + 1)
  }

  /**
   * demonstrateWorkerPool: three workers, jobs 1..9. Whatever the schedule,
   * the results are 2, 4, ..., 18, each exactly once, in some order.
   */
  method DemonstrateWorkerPool() returns (results: seq<Int64>)
    ensures |results| == 9
    ensures multiset(results) == multiset{2, 4, 6, 8, 10, 12, 14, 16, 18}
  {
    var pool := new Pool(3);
    for j := 1 to 10
      invariant pool.Valid() && pool.workers == 3 && !pool.jobsClosed && !pool.resultsClosed
      invariant pool.submitted == JobNumbers(j - 1)
    {
      JobNumbersStep(j);
      pool.Send(j);
    }
    pool.CloseJobs();
    pool.Run();
    results := pool.results;
    NineResults();
  }

  lemma JobNumbersStep(n: nat)
    requires 0 < n <= MAX_INT64
    ensures JobNumbers(n - 1) + [n] == JobNumbers(n)
  {
  }

  /** The results for jobs 1..n are 2, 4, ..., 2n. */
  lemma {:induction false} ProcessJobNumbers(n: nat)
    requires 2 * n <= MAX_INT64
    ensures ProcessAll(JobNumbers(n)) == seq(n, i requires 0 <= i < n => 2 * (i + 1))
  {
    if n > 0 {
      ProcessJobNumbers(n - 1);
      JobNumbersStep(n);
      ProcessAllSnoc(JobNumbers(n - 1), n);
      WrapInRange(2 * n);
    }
  }

  /** The nine results of the demonstration, as a bag. */
  lemma NineResults()
    ensures multiset(ProcessAll(JobNumbers(9))) == multiset{2, 4, 6, 8, 10, 12, 14, 16, 18}
  {
    ProcessJobNumbers(9);
    assert ProcessAll(JobNumbers(9)) == [2, 4, 6, 8, 10, 12, 14, 16, 18];
  }
}
