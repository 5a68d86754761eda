/** runBulk's producer and workers as programs, each run among the others: before every action of
    its own, a thread lets the others take any number of steps. Handing over a job is the producer's
    action. Blocking is waiting for `patience` turns; a thread stops short of its end only if what
    it waits for still is not there. Every loop but the waits ends because the measure of the machine
    falls. */
module BulkProgram {
  import opened Bytes
  import opened Bulk

  datatype Thread = Producer | OneWorker(w: nat)

  predicate Mine(th: Thread, step: Step) {
    if step.Hand? || step.Close? || step.Join? then th.Producer? else th.OneWorker? && th.w == step.w
  }

  /** Nothing that was counted, noted, handed out or posted is ever taken back. */
  predicate Grows(s: State, t: State) {
    && s.staged <= t.staged && s.failed <= t.failed && (s.firstErr ==> t.firstErr)
    && s.given <= t.given && s.good <= t.good && s.bad <= t.bad
  }

  /** The others leave the producer's loop variable, phase and jobs alone, and a worker where it is,
      unless they hand it a job. */
  predicate KeepsPlace(s: State, t: State, th: Thread) {
    && |t.workers| == |s.workers| && Grows(s, t)
    && (th.Producer? ==> t.lo == s.lo && t.main == s.main && t.given == s.given)
    && (th.OneWorker? && th.w < |s.workers| ==> SameOrHanded(s.workers[th.w], t.workers[th.w], t))
  }

  predicate SameOrHanded(x: Worker, y: Worker, t: State) {
    y == x || (x.Waiting? && y.Holding? && y.job in t.given)
  }

  lemma OthersKeep(total: nat, chunk: nat, s: State, step: Step, th: Thread)
    requires Enabled(total, s, step) && !Mine(th, step)
    ensures KeepsPlace(s, Effect(total, chunk, s, step), th)
  {
  }

  lemma {:induction false} FollowsOn(total: nat, chunk: nat, s: State, run: seq<Step>, t: State, step: Step)
    requires Follows(total, chunk, s, run, t) && Enabled(total, t, step)
    ensures Follows(total, chunk, s, run + [step], Effect(total, chunk, t, step))
    decreases |run|
  {
    if run == [] {
      assert (run + [step])[1..] == [];
    } else {
      assert (run + [step])[1..] == run[1..] + [step];
      FollowsOn(total, chunk, Effect(total, chunk, s, run[0]), run[1..], t, step);
    }
  }

  class BulkRun {
    const total: nat
    const chunk: nat
    const conns: nat
    ghost var trace: seq<Step>
    /** The channel, the counters, firstErr, and where every thread stands. */
    var s: State
    /** What the others try before this thread's k-th action, and the status its post gets at tick k,
        if it gets a response at all. */
    const schedule: nat -> seq<Step>
    const posts: nat -> Option<nat>
    var tick: nat

    ghost predicate Valid()
      reads this
    {
      chunk >= 1 && Follows(total, chunk, Init(conns), trace, s)
    }

    constructor (total: nat, chunk: nat, conns: nat, others: nat -> seq<Step>, posts: nat -> Option<nat>)
      requires chunk >= 1
      ensures Valid() && s == Init(conns) && this.total == total && this.conns == conns
    {
      this.total, this.chunk, this.conns := total, chunk, conns;
      trace, s := [], Init(conns);
      schedule, this.posts, tick := others, posts, 0;
    }

    /** The steps that anybody may still take, at most. */
    ghost function Left(): nat
      reads this
      requires Valid()
    {
      Measure(total, chunk, s)
    }

    method Act(step: Step)
      requires Valid() && Enabled(total, s, step)
      modifies this`s, this`trace
      ensures Valid() && s == Effect(total, chunk, old(s), step) && Left() < old(Left())
    {
      FollowsOn(total, chunk, Init(conns), trace, s, step);
      StepDescends(total, chunk, s, step);
      trace := trace + [step];
      s := Effect(total, chunk, s, step);
    }

    /** The others' turn. */
    method Others(th: Thread)
      requires Valid()
      modifies this
      ensures Valid() && KeepsPlace(old(s), s, th) && Left() <= old(Left())
    {
      var steps := schedule(tick);
      tick := tick + 1;
      for i := 0 to |steps|
        invariant Valid() && KeepsPlace(old(s), s, th) && Left() <= old(Left())
      {
        if Enabled(total, s, steps[i]) && !Mine(th, steps[i]) {
          OthersKeep(total, chunk, s, steps[i], th);
          Act(steps[i]);
        }
      }
    }

    // ---------- a worker ----------

    /** The job was posted after the first n posts of that outcome. */
    predicate PostedSince(n: nat, jobs: seq<Job>, job: Job) {
      exists i :: n <= i < |jobs| && jobs[i] == job
    }

    /** One turn of a worker that holds a job: the post, the count, and the error if there is one. */
    method PostJob(w: nat) returns (job: Job, ok: bool)
      requires Valid() && w < |s.workers| && s.workers[w].Holding?
      modifies this
      ensures Valid() && w < |s.workers| && s.workers[w].Waiting? && Left() < old(Left()) && Grows(old(s), s)
      ensures job == old(s.workers[w]).job
      ensures ok <==> posts(old(tick)).Some? && posts(old(tick)).value < 300
      ensures ok ==> PostedSince(|old(s.good)|, s.good, job) && s.staged >= old(s.staged) + Len(job)
      ensures !ok ==> PostedSince(|old(s.bad)|, s.bad, job) && s.failed >= old(s.failed) + Len(job) && s.firstErr
    {
      var resp := posts(tick);
      job, ok := s.workers[w].job, resp.Some? && resp.value < 300;
      Act(Post(w, ok));
      assert ok ==> s.good[|old(s.good)|] == job;
      assert !ok ==> s.bad[|old(s.bad)|] == job;
      Others(OneWorker(w));
      Act(Add(w));
      if !ok {
        Others(OneWorker(w));
        Act(Note(w));
      }
    }

    /** What one turn of the loop comes to: no job so far, the channel closed, or a job handled. */
    method HandleJob(w: nat, patience: nat) returns (turn: Turn)
      requires Valid() && w < |s.workers| && s.workers[w].Waiting?
      modifies this
      ensures Valid() && w < |s.workers|
      ensures turn.NoJob? ==> s.workers[w].Waiting? && s.main.Producing?
      ensures turn.Over? ==> s.workers[w].Gone? && !s.main.Producing?
      ensures turn.Handled? ==> s.workers[w].Waiting? && turn.job in s.given && Left() < old(Left())
      ensures turn.Handled? && turn.ok ==>
                PostedSince(|old(s.good)|, s.good, turn.job) && s.staged >= old(s.staged) + Len(turn.job)
      ensures turn.Handled? && !turn.ok ==>
                PostedSince(|old(s.bad)|, s.bad, turn.job) && s.failed >= old(s.failed) + Len(turn.job) && s.firstErr
    {
      Others(OneWorker(w));
      for i := 0 to patience
        invariant Valid() && KeepsPlace(old(s), s, OneWorker(w)) && Left() <= old(Left())
      {
        if s.workers[w].Waiting? && s.main.Producing? {
          Others(OneWorker(w));
        }
      }
      if s.workers[w].Holding? {
        var job, ok := PostJob(w);
        return Handled(job, ok);
      }
      if s.main.Producing? {
        return NoJob;
      }
      Act(Leave(w));
      return Over;
    }

    /** A worker: it is over only when the channel is closed, and stops before that only if there is
        no job to take. */
    method Work(w: nat, patience: nat) returns (over: bool)
      requires Valid() && w < |s.workers| && s.workers[w].Waiting?
      modifies this
      ensures Valid() && w < |s.workers|
      ensures over ==> s.workers[w].Gone? && !s.main.Producing?
      ensures !over ==> s.workers[w].Waiting? && s.main.Producing?
    {
      var turn := HandleJob(w, patience);
      while turn.Handled?
        invariant Valid() && w < |s.workers|
        invariant turn.Handled? ==> s.workers[w].Waiting?
        invariant turn.NoJob? ==> s.workers[w].Waiting? && s.main.Producing?
        invariant turn.Over? ==> s.workers[w].Gone? && !s.main.Producing?
        decreases if turn.Handled? then 1 + Left() else 0
      {
        turn := HandleJob(w, patience);
      }
      over := turn.Over?;
    }

    // ---------- the producer ----------

    predicate NobodyWaits()
      reads this
    {
      forall w :: 0 <= w < |s.workers| ==> !s.workers[w].Waiting?
    }

    predicate AllGone()
      reads this
    {
      forall w :: 0 <= w < |s.workers| ==> s.workers[w].Gone?
    }

    /** jobs <- job{lo, hi}: hands exactly that job to a worker at the channel, unless none comes. */
    method Send(patience: nat) returns (sent: bool)
      requires Valid() && s.main.Producing? && s.lo < total
      modifies this
      ensures Valid() && s.main.Producing?
      ensures sent ==> s.lo == old(s.lo) + chunk && s.given == old(s.given) + [Next(old(s.lo), total, chunk)]
      ensures !sent ==> s.lo == old(s.lo) && s.given == old(s.given) && NobodyWaits()
    {
      Others(Producer);
      for i := 0 to patience
        invariant Valid() && s.main.Producing? && s.lo == old(s.lo) && s.given == old(s.given)
      {
        if NobodyWaits() {
          Others(Producer);
        }
      }
      sent := !NobodyWaits();
      if sent {
        var w :| 0 <= w < |s.workers| && s.workers[w].Waiting?;
        Act(Hand(w));
      }
    }

    /** wg.Wait() */
    method Wait(patience: nat) returns (joined: bool)
      requires Valid() && s.main.Joining?
      modifies this
      ensures Valid()
      ensures if joined then s.main.Joined? else s.main.Joining? && !AllGone()
    {
      Others(Producer);
      for i := 0 to patience
        invariant Valid() && s.main.Joining?
      {
        if !AllGone() {
          Others(Producer);
        }
      }
      joined := AllGone();
      if joined {
        Act(Join);
      }
    }

    /** When runBulk comes to report, the counters split the total, an error is at hand exactly when
        something failed, and with no failure every id is in exactly one successful post. It does not
        come to report only if no worker comes for a job, or some worker does not return. */
    method Run(patience: nat) returns (reported: bool)
      requires Valid() && s == Init(conns)
      modifies this
      ensures reported ==> s.main.Joined? && s.given == Jobs(0, total, chunk)
      ensures reported ==> s.staged + s.failed == total && (s.firstErr <==> s.failed > 0)
      ensures reported && s.failed == 0 ==>
                forall id: nat :: Sum(s.good, Once(id)) == if id < total then 1 else 0
      ensures !reported ==> (s.main.Producing? && s.lo < total && NobodyWaits()) || (s.main.Joining? && !AllGone())
    {
      var lo := 0;
      while lo < total
        invariant Valid() && s.main.Producing? && s.lo == lo
        decreases total - lo
      {
        var sent := Send(patience);
        if !sent {
          return false;
        }
        lo := lo + chunk;
      }
      Act(Close);
      reported := Wait(patience);
      if reported {
        Reports();
      }
    }

    lemma Reports()
      requires Valid() && s.main.Joined?
      ensures s.given == Jobs(0, total, chunk)
      ensures s.staged + s.failed == total && (s.firstErr <==> s.failed > 0)
      ensures s.failed == 0 ==> forall id: nat :: Sum(s.good, Once(id)) == if id < total then 1 else 0
    {
      Conservation(total, chunk, conns, trace, s, 0);
      HandsOutJobs(total, chunk, Init(conns), trace, s);
      NothingLeft(total, chunk, conns, trace, s);
      assert [] + Jobs(0, total, chunk) == Jobs(0, total, chunk) && s.given + [] == s.given;
      forall id: nat | s.failed == 0
        ensures Sum(s.good, Once(id)) == if id < total then 1 else 0
      {
        AllStagedOnce(total, chunk, conns, trace, s, id);
      }
    }
  }

  datatype Turn = NoJob | Over | Handled(job: Job, ok: bool)

  lemma NothingLeft(total: nat, chunk: nat, conns: nat, run: seq<Step>, t: State)
    requires chunk >= 1 && Follows(total, chunk, Init(conns), run, t) && t.main.Joined?
    ensures Jobs(t.lo, total, chunk) == []
  {
    InvInit(total, chunk, conns, Size());
    InvAlong(total, chunk, Init(conns), run, t, Size());
  }
}
