/** runBulk of netvec/main.go: one producer hands jobs over an unbuffered channel to workers that
    post them, add to shared counters, and note the first error. Every atomic step may interleave
    with every other; whether a post succeeds is up to the step. */
module Bulk {

  /** The ids lo, lo + 1, ..., hi - 1. */
  datatype Job = Job(lo: nat, hi: nat)

  function Next(lo: nat, total: nat, chunk: nat): Job {
    Job(lo, if lo + chunk > total then total else lo + chunk)
  }

  /** The jobs the producer still has to hand out at lo. */
  function Jobs(lo: nat, total: nat, chunk: nat): seq<Job>
    requires chunk >= 1
    decreases if lo < total then total - lo else 0
  {
    if lo >= total then [] else [Next(lo, total, chunk)] + Jobs(lo + chunk, total, chunk)
  }

  // ---------- the partition ----------

  predicate Has(j: Job, id: nat) {
    j.lo <= id < j.hi
  }

  function Once(id: nat): Job -> nat {
    (j: Job) => if Has(j, id) then 1 else 0
  }

  function Len(j: Job): nat {
    if j.hi >= j.lo then j.hi - j.lo else 0
  }

  function Size(): Job -> nat {
    (j: Job) => Len(j)
  }

  function Sum(js: seq<Job>, weight: Job -> nat): nat {
    if js == [] then 0 else weight(js[0]) + Sum(js[1..], weight)
  }

  /** Every id from lo to total is in exactly one job, no other id is in any, and no job is empty
      or larger than a chunk. */
  lemma {:induction false} JobsPartition(lo: nat, total: nat, chunk: nat, id: nat)
    requires chunk >= 1
    ensures Sum(Jobs(lo, total, chunk), Once(id)) == if lo <= id < total then 1 else 0
    ensures Sum(Jobs(lo, total, chunk), Size()) == if lo < total then total - lo else 0
    ensures forall i :: 0 <= i < |Jobs(lo, total, chunk)| ==>
              var j := Jobs(lo, total, chunk)[i]; 1 <= j.hi - j.lo <= chunk
    decreases if lo < total then total - lo else 0
  {
    if lo < total {
      JobsPartition(lo + chunk, total, chunk, id);
      assert Jobs(lo, total, chunk)[1..] == Jobs(lo + chunk, total, chunk);
    }
  }

  lemma {:induction false} SumAppend(a: seq<Job>, b: seq<Job>, weight: Job -> nat)
    ensures Sum(a + b, weight) == Sum(a, weight) + Sum(b, weight)
  {
    if a == [] {
      assert a + b == b;
    } else {
      assert (a + b)[1..] == a[1..] + b;
      SumAppend(a[1..], b, weight);
    }
  }

  lemma SumPush(a: seq<Job>, j: Job, weight: Job -> nat)
    ensures Sum(a + [j], weight) == Sum(a, weight) + weight(j)
  {
    SumAppend(a, [j], weight);
    assert Sum([j], weight) == weight(j) + Sum([j][1..], weight);
  }

  /** The producer's loop. */
  method ListJobs(total: nat, chunk: nat) returns (jobs: seq<Job>)
    requires chunk >= 1
    ensures jobs == Jobs(0, total, chunk)
    ensures forall id: nat :: Sum(jobs, Once(id)) == if id < total then 1 else 0
  {
    jobs := [];
    var lo := 0;
    while lo < total
      invariant jobs + Jobs(lo, total, chunk) == Jobs(0, total, chunk)
      decreases total - lo
    {
      var hi := lo + chunk;
      if hi > total {
        hi := total;
      }
      Regroup(jobs, [Job(lo, hi)], Jobs(lo + chunk, total, chunk));
      jobs := jobs + [Job(lo, hi)];
      lo := lo + chunk;
    }
    assert jobs + [] == jobs;
    forall id: nat
      ensures Sum(jobs, Once(id)) == if id < total then 1 else 0
    {
      JobsPartition(0, total, chunk, id);
    }
  }

  // ---------- the machine ----------

  /** Where a worker stands: at the channel, holding a job, back from a post whose count it has yet
      to add, about to note an error, or returned. */
  datatype Worker =
    | Waiting
    | Holding(job: Job)
    | Posted(job: Job, ok: bool)
    | Noting
    | Gone

  datatype Main = Producing | Joining | Joined

  /** given, good and bad are history: the jobs handed out, and those whose post succeeded or not. */
  datatype State = State(
    lo: nat,
    main: Main,
    workers: seq<Worker>,
    staged: nat,
    failed: nat,
    firstErr: bool,
    given: seq<Job>,
    good: seq<Job>,
    bad: seq<Job>)

  datatype Step =
    | Hand(w: nat)
    | Close
    | Post(w: nat, ok: bool)
    | Add(w: nat)
    | Note(w: nat)
    | Leave(w: nat)
    | Join

  function Init(conns: nat): State {
    State(0, Producing, seq(conns, _ => Waiting), 0, 0, false, [], [], [])
  }

  predicate Enabled(total: nat, s: State, step: Step) {
    match step
    case Hand(w) => s.main.Producing? && s.lo < total && w < |s.workers| && s.workers[w].Waiting?
    case Close => s.main.Producing? && s.lo >= total
    case Post(w, _) => w < |s.workers| && s.workers[w].Holding?
    case Add(w) => w < |s.workers| && s.workers[w].Posted?
    case Note(w) => w < |s.workers| && s.workers[w].Noting?
    case Leave(w) => !s.main.Producing? && w < |s.workers| && s.workers[w].Waiting?
    case Join => s.main.Joining? && forall w :: 0 <= w < |s.workers| ==> s.workers[w].Gone?
  }

  function Effect(total: nat, chunk: nat, s: State, step: Step): State
    requires Enabled(total, s, step)
  {
    match step
    case Hand(w) =>
      var j := Next(s.lo, total, chunk);
      s.(lo := s.lo + chunk, workers := s.workers[w := Holding(j)], given := s.given + [j])
    case Close => s.(main := Joining)
    case Post(w, ok) =>
      var j := s.workers[w].job;
      var t := s.(workers := s.workers[w := Posted(j, ok)]);
      if ok then t.(good := s.good + [j]) else t.(bad := s.bad + [j])
    case Add(w) =>
      var n := Len(s.workers[w].job);
      if s.workers[w].ok then s.(staged := s.staged + n, workers := s.workers[w := Waiting])
      else s.(failed := s.failed + n, workers := s.workers[w := Noting])
    case Note(w) => s.(firstErr := true, workers := s.workers[w := Waiting])
    case Leave(w) => s.(workers := s.workers[w := Gone])
    case Join => s.(main := Joined)
  }

  ghost predicate Follows(total: nat, chunk: nat, s: State, run: seq<Step>, t: State)
    decreases |run|
  {
    if run == [] then s == t
    else Enabled(total, s, run[0]) && Follows(total, chunk, Effect(total, chunk, s, run[0]), run[1..], t)
  }

  // ---------- counting over workers ----------

  function Count(ws: seq<Worker>, f: Worker -> nat): nat {
    if ws == [] then 0 else f(ws[0]) + Count(ws[1..], f)
  }

  lemma {:induction false} CountUpdate(ws: seq<Worker>, w: nat, x: Worker, f: Worker -> nat)
    requires w < |ws|
    ensures Count(ws[w := x], f) + f(ws[w]) == Count(ws, f) + f(x)
  {
    if w == 0 {
      assert ws[w := x][1..] == ws[1..];
    } else {
      assert ws[w := x][1..] == ws[1..][w - 1 := x];
      CountUpdate(ws[1..], w - 1, x, f);
    }
  }

  lemma {:induction false} CountAll(ws: seq<Worker>, x: Worker, f: Worker -> nat)
    requires forall w :: 0 <= w < |ws| ==> ws[w] == x
    ensures Count(ws, f) == |ws| * f(x)
  {
    if ws != [] {
      CountAll(ws[1..], x, f);
    }
  }

  lemma {:induction false} CountAtLeast(ws: seq<Worker>, w: nat, f: Worker -> nat)
    requires w < |ws|
    ensures f(ws[w]) <= Count(ws, f)
  {
    if w > 0 {
      CountAtLeast(ws[1..], w - 1, f);
    }
  }

  function HeldBy(weight: Job -> nat): Worker -> nat {
    (x: Worker) => if x.Holding? then weight(x.job) else 0
  }

  function PendingOf(ok: bool): Worker -> nat {
    (x: Worker) => if x.Posted? && x.ok == ok then Len(x.job) else 0
  }

  function NotingIn(): Worker -> nat {
    (x: Worker) => if x.Noting? then 1 else 0
  }

  // ---------- the invariant, for any way of weighing jobs ----------

  ghost predicate Inv(total: nat, chunk: nat, s: State, weight: Job -> nat)
    requires chunk >= 1
  {
    && Sum(s.given, weight) + Sum(Jobs(s.lo, total, chunk), weight) == Sum(Jobs(0, total, chunk), weight)
    && Sum(s.good, weight) + Sum(s.bad, weight) + Count(s.workers, HeldBy(weight)) == Sum(s.given, weight)
    && s.staged + Count(s.workers, PendingOf(true)) == Sum(s.good, Size())
    && s.failed + Count(s.workers, PendingOf(false)) == Sum(s.bad, Size())
    && (s.firstErr ==> s.failed > 0)
    && (Count(s.workers, NotingIn()) > 0 ==> s.failed > 0)
    && (s.failed > 0 ==> s.firstErr || Count(s.workers, NotingIn()) > 0)
    && (!s.main.Producing? ==> s.lo >= total)
    && (s.main.Joined? ==> forall w :: 0 <= w < |s.workers| ==> s.workers[w].Gone?)
    && Sized(s)
  }

  /** No job in hand is empty. */
  predicate Sized(s: State) {
    forall w :: 0 <= w < |s.workers| && (s.workers[w].Holding? || s.workers[w].Posted?) ==>
      s.workers[w].job.lo < s.workers[w].job.hi
  }

  lemma InvInit(total: nat, chunk: nat, conns: nat, weight: Job -> nat)
    requires chunk >= 1
    ensures Inv(total, chunk, Init(conns), weight)
  {
    var ws := Init(conns).workers;
    CountAll(ws, Waiting, HeldBy(weight));
    CountAll(ws, Waiting, PendingOf(true));
    CountAll(ws, Waiting, PendingOf(false));
    CountAll(ws, Waiting, NotingIn());
  }

  /** A worker's move changes each count by its own share. */
  lemma Moves(ws: seq<Worker>, w: nat, x: Worker, weight: Job -> nat)
    requires w < |ws|
    ensures Count(ws[w := x], HeldBy(weight)) + HeldBy(weight)(ws[w]) == Count(ws, HeldBy(weight)) + HeldBy(weight)(x)
    ensures Count(ws[w := x], PendingOf(true)) + PendingOf(true)(ws[w]) == Count(ws, PendingOf(true)) + PendingOf(true)(x)
    ensures Count(ws[w := x], PendingOf(false)) + PendingOf(false)(ws[w]) == Count(ws, PendingOf(false)) + PendingOf(false)(x)
    ensures Count(ws[w := x], NotingIn()) + NotingIn()(ws[w]) == Count(ws, NotingIn()) + NotingIn()(x)
  {
    CountUpdate(ws, w, x, HeldBy(weight));
    CountUpdate(ws, w, x, PendingOf(true));
    CountUpdate(ws, w, x, PendingOf(false));
    CountUpdate(ws, w, x, NotingIn());
  }

  lemma HandKeeps(total: nat, chunk: nat, s: State, w: nat, weight: Job -> nat)
    requires chunk >= 1 && Inv(total, chunk, s, weight) && Enabled(total, s, Hand(w))
    ensures Inv(total, chunk, Effect(total, chunk, s, Hand(w)), weight)
  {
    var j := Next(s.lo, total, chunk);
    Moves(s.workers, w, Holding(j), weight);
    SumPush(s.given, j, weight);
    assert Jobs(s.lo, total, chunk)[1..] == Jobs(s.lo + chunk, total, chunk);
  }

  lemma PostKeeps(total: nat, chunk: nat, s: State, w: nat, ok: bool, weight: Job -> nat)
    requires chunk >= 1 && Inv(total, chunk, s, weight) && Enabled(total, s, Post(w, ok))
    ensures Inv(total, chunk, Effect(total, chunk, s, Post(w, ok)), weight)
  {
    var j := s.workers[w].job;
    Moves(s.workers, w, Posted(j, ok), weight);
    SumPush(if ok then s.good else s.bad, j, weight);
    SumPush(if ok then s.good else s.bad, j, Size());
  }

  lemma AddKeeps(total: nat, chunk: nat, s: State, w: nat, weight: Job -> nat)
    requires chunk >= 1 && Inv(total, chunk, s, weight) && Enabled(total, s, Add(w))
    ensures Inv(total, chunk, Effect(total, chunk, s, Add(w)), weight)
  {
    Moves(s.workers, w, if s.workers[w].ok then Waiting else Noting, weight);
  }

  lemma InvKept(total: nat, chunk: nat, s: State, step: Step, weight: Job -> nat)
    requires chunk >= 1 && Inv(total, chunk, s, weight) && Enabled(total, s, step)
    ensures Inv(total, chunk, Effect(total, chunk, s, step), weight)
  {
    match step
    case Hand(w) => HandKeeps(total, chunk, s, w, weight);
    case Close =>
    case Post(w, ok) => PostKeeps(total, chunk, s, w, ok, weight);
    case Add(w) => AddKeeps(total, chunk, s, w, weight);
    case Note(w) =>
      Moves(s.workers, w, Waiting, weight);
      CountAtLeast(s.workers, w, NotingIn());
    case Leave(w) =>
      Moves(s.workers, w, Gone, weight);
    case Join =>
  }

  lemma {:induction false} InvAlong(total: nat, chunk: nat, s: State, run: seq<Step>, t: State, weight: Job -> nat)
    requires chunk >= 1 && Inv(total, chunk, s, weight) && Follows(total, chunk, s, run, t)
    ensures Inv(total, chunk, t, weight)
    decreases |run|
  {
    if run != [] {
      InvKept(total, chunk, s, run[0], weight);
      InvAlong(total, chunk, Effect(total, chunk, s, run[0]), run[1..], t, weight);
    }
  }

  lemma HandsOne(total: nat, chunk: nat, s: State, step: Step)
    requires chunk >= 1 && Enabled(total, s, step)
    ensures var t := Effect(total, chunk, s, step);
            s.given + Jobs(s.lo, total, chunk) == t.given + Jobs(t.lo, total, chunk)
  {
    if step.Hand? {
      Regroup(s.given, [Next(s.lo, total, chunk)], Jobs(s.lo + chunk, total, chunk));
    }
  }

  lemma Regroup(a: seq<Job>, b: seq<Job>, c: seq<Job>)
    ensures a + (b + c) == a + b + c
  {
  }

  /** The channel carries the producer's list, in order. */
  lemma {:induction false} HandsOutJobs(total: nat, chunk: nat, s: State, run: seq<Step>, t: State)
    requires chunk >= 1 && Follows(total, chunk, s, run, t)
    ensures s.given + Jobs(s.lo, total, chunk) == t.given + Jobs(t.lo, total, chunk)
    decreases |run|
  {
    if run != [] {
      HandsOne(total, chunk, s, run[0]);
      HandsOutJobs(total, chunk, Effect(total, chunk, s, run[0]), run[1..], t);
    }
  }

  /** The jobs whose post has the given outcome, as the steps of a run have it. */
  function PostsIn(total: nat, chunk: nat, s: State, run: seq<Step>, ok: bool): seq<Job>
    decreases |run|
  {
    if run == [] || !Enabled(total, s, run[0]) then []
    else
      (if run[0].Post? && run[0].ok == ok then [s.workers[run[0].w].job] else [])
      + PostsIn(total, chunk, Effect(total, chunk, s, run[0]), run[1..], ok)
  }

  lemma PostRecorded(total: nat, chunk: nat, s: State, step: Step, ok: bool)
    requires Enabled(total, s, step)
    ensures var t := Effect(total, chunk, s, step);
            (if ok then t.good else t.bad) ==
              (if ok then s.good else s.bad) + (if step.Post? && step.ok == ok then [s.workers[step.w].job] else [])
  {
  }

  lemma Append(a: seq<Job>, b: seq<Job>, c: seq<Job>)
    ensures (a + b) + c == a + (b + c) && a + [] == a
  {
  }

  /** good and bad are just that: the jobs whose posts succeeded, and those whose posts failed. */
  lemma {:induction false} PostsRecorded(total: nat, chunk: nat, s: State, run: seq<Step>, t: State, ok: bool)
    requires Follows(total, chunk, s, run, t)
    ensures (if ok then t.good else t.bad) == (if ok then s.good else s.bad) + PostsIn(total, chunk, s, run, ok)
    decreases |run|
  {
    var before := if ok then s.good else s.bad;
    if run == [] {
      Append(before, [], []);
    } else {
      var u := Effect(total, chunk, s, run[0]);
      var one := if run[0].Post? && run[0].ok == ok then [s.workers[run[0].w].job] else [];
      PostRecorded(total, chunk, s, run[0], ok);
      PostsRecorded(total, chunk, u, run[1..], t, ok);
      Append(before, one, PostsIn(total, chunk, u, run[1..], ok));
    }
  }

  // ---------- after the wait ----------

  lemma Settled(total: nat, chunk: nat, t: State, weight: Job -> nat)
    requires chunk >= 1 && Inv(total, chunk, t, weight) && t.main.Joined?
    ensures Sum(t.good, weight) + Sum(t.bad, weight) == Sum(Jobs(0, total, chunk), weight)
    ensures t.staged == Sum(t.good, Size()) && t.failed == Sum(t.bad, Size())
    ensures t.firstErr <==> t.failed > 0
  {
    CountAll(t.workers, Gone, HeldBy(weight));
    CountAll(t.workers, Gone, PendingOf(true));
    CountAll(t.workers, Gone, PendingOf(false));
    CountAll(t.workers, Gone, NotingIn());
  }

  /** However the workers interleave and whichever posts fail: after the wait every id has been
      posted once, the counters split the total between success and failure, and an error is
      reported exactly when something failed. */
  lemma Conservation(total: nat, chunk: nat, conns: nat, run: seq<Step>, t: State, id: nat)
    requires chunk >= 1 && Follows(total, chunk, Init(conns), run, t) && t.main.Joined?
    ensures t.staged + t.failed == total
    ensures Sum(t.good, Once(id)) + Sum(t.bad, Once(id)) == if id < total then 1 else 0
    ensures t.staged == Sum(t.good, Size()) && t.failed == Sum(t.bad, Size())
    ensures t.firstErr <==> t.failed > 0
  {
    InvInit(total, chunk, conns, Once(id));
    InvAlong(total, chunk, Init(conns), run, t, Once(id));
    Settled(total, chunk, t, Once(id));
    InvInit(total, chunk, conns, Size());
    InvAlong(total, chunk, Init(conns), run, t, Size());
    Settled(total, chunk, t, Size());
    JobsPartition(0, total, chunk, id);
  }

  lemma {:induction false} WithinSize(js: seq<Job>, id: nat)
    ensures Sum(js, Once(id)) <= Sum(js, Size())
  {
    if js != [] {
      WithinSize(js[1..], id);
    }
  }

  /** The counters against the posts themselves: staged is what successful posts sent, failed what the
      others did. */
  lemma CountersMean(total: nat, chunk: nat, conns: nat, run: seq<Step>, t: State)
    requires chunk >= 1 && Follows(total, chunk, Init(conns), run, t) && t.main.Joined?
    ensures t.staged == Sum(PostsIn(total, chunk, Init(conns), run, true), Size())
    ensures t.failed == Sum(PostsIn(total, chunk, Init(conns), run, false), Size())
  {
    Conservation(total, chunk, conns, run, t, 0);
    PostsRecorded(total, chunk, Init(conns), run, t, true);
    PostsRecorded(total, chunk, Init(conns), run, t, false);
    assert [] + PostsIn(total, chunk, Init(conns), run, true) == PostsIn(total, chunk, Init(conns), run, true);
    assert [] + PostsIn(total, chunk, Init(conns), run, false) == PostsIn(total, chunk, Init(conns), run, false);
  }

  /** No failure counted means every id was staged by a successful post exactly once. */
  lemma AllStagedOnce(total: nat, chunk: nat, conns: nat, run: seq<Step>, t: State, id: nat)
    requires chunk >= 1 && Follows(total, chunk, Init(conns), run, t) && t.main.Joined?
    requires t.failed == 0
    ensures Sum(t.good, Once(id)) == if id < total then 1 else 0
  {
    Conservation(total, chunk, conns, run, t, id);
    WithinSize(t.bad, id);
  }

  // ---------- progress ----------

  function Rank(): Worker -> nat {
    (x: Worker) =>
      match x
      case Waiting => 1
      case Holding(_) => 5
      case Posted(_, _) => 4
      case Noting => 3
      case Gone => 0
  }

  function Measure(total: nat, chunk: nat, s: State): nat
    requires chunk >= 1
  {
    5 * |Jobs(s.lo, total, chunk)| + Count(s.workers, Rank())
    + (if s.main.Producing? then 2 else if s.main.Joining? then 1 else 0)
  }

  lemma StepDescends(total: nat, chunk: nat, s: State, step: Step)
    requires chunk >= 1 && Enabled(total, s, step)
    ensures Measure(total, chunk, Effect(total, chunk, s, step)) < Measure(total, chunk, s)
  {
    var t := Effect(total, chunk, s, step);
    if !step.Close? && !step.Join? {
      CountUpdate(s.workers, step.w, t.workers[step.w], Rank());
    }
  }

  lemma {:induction false} RunDescends(total: nat, chunk: nat, s: State, run: seq<Step>, t: State)
    requires chunk >= 1 && Follows(total, chunk, s, run, t)
    ensures |run| + Measure(total, chunk, t) <= Measure(total, chunk, s)
    decreases |run|
  {
    if run != [] {
      StepDescends(total, chunk, s, run[0]);
      RunDescends(total, chunk, Effect(total, chunk, s, run[0]), run[1..], t);
    }
  }

  /** Every run ends, if a chunk is something. */
  lemma RunsEnd(total: nat, chunk: nat, conns: nat, run: seq<Step>, t: State)
    requires chunk >= 1 && Follows(total, chunk, Init(conns), run, t)
    ensures |run| <= 5 * |Jobs(0, total, chunk)| + conns + 2
  {
    RunDescends(total, chunk, Init(conns), run, t);
    CountAll(Init(conns).workers, Waiting, Rank());
  }

  // ---------- a chunk of nothing ----------

  /** Where no job can be handed out, the chunk does not matter. */
  lemma {:induction false} AnyChunk(total: nat, c: nat, d: nat, s: State, run: seq<Step>, t: State)
    requires Follows(total, c, s, run, t) && (s.lo >= total || s.workers == [])
    ensures Follows(total, d, s, run, t)
    decreases |run|
  {
    if run != [] {
      AnyChunk(total, c, d, Effect(total, c, s, run[0]), run[1..], t);
    }
  }

  lemma Then(total: nat, chunk: nat, s: State, step: Step, rest: seq<Step>, t: State)
    requires Enabled(total, s, step) && Follows(total, chunk, Effect(total, chunk, s, step), rest, t)
    ensures Follows(total, chunk, s, [step] + rest, t)
  {
    assert ([step] + rest)[1..] == rest;
  }

  /** With a chunk of 0 the producer hands out the same empty job for ever. */
  lemma {:induction false} Spin(total: nat, s: State, n: nat) returns (run: seq<Step>, t: State)
    requires s.main.Producing? && s.lo < total && |s.workers| > 0 && s.workers[0].Waiting?
    ensures Follows(total, 0, s, run, t) && |run| == 3 * n
    decreases n
  {
    if n == 0 {
      return [], s;
    }
    var s1 := Effect(total, 0, s, Hand(0));
    var s2 := Effect(total, 0, s1, Post(0, true));
    var s3 := Effect(total, 0, s2, Add(0));
    run, t := Spin(total, s3, n - 1);
    Then(total, 0, s2, Add(0), run, t);
    Then(total, 0, s1, Post(0, true), [Add(0)] + run, t);
    Then(total, 0, s, Hand(0), [Post(0, true)] + ([Add(0)] + run), t);
    run := [Hand(0)] + ([Post(0, true)] + ([Add(0)] + run));
  }

  ghost predicate RunsWithin(total: nat, chunk: nat, conns: nat, n: nat) {
    forall run, t :: Follows(total, chunk, Init(conns), run, t) ==> |run| <= n
  }

  ghost predicate RunsBounded(total: nat, chunk: nat, conns: nat) {
    exists n: nat :: RunsWithin(total, chunk, conns, n)
  }

  /** Whatever the chunk, runs are bounded exactly when it is positive, or nothing is to be staged,
      or nobody is there to stage it. */
  lemma RunsBoundedIff(total: nat, chunk: nat, conns: nat)
    ensures RunsBounded(total, chunk, conns) <==> chunk >= 1 || total == 0 || conns == 0
  {
    if chunk >= 1 || total == 0 || conns == 0 {
      var c := if chunk >= 1 then chunk else 1;
      var n := 5 * |Jobs(0, total, c)| + conns + 2;
      forall run, t | Follows(total, chunk, Init(conns), run, t)
        ensures |run| <= n
      {
        if chunk == 0 {
          AnyChunk(total, 0, 1, Init(conns), run, t);
        }
        RunsEnd(total, c, conns, run, t);
      }
      assert RunsWithin(total, chunk, conns, n);
    } else {
      forall n: nat ensures !RunsWithin(total, chunk, conns, n) {
        var run, t := Spin(total, Init(conns), n + 1);
      }
    }
  }

  // ---------- deadlock freedom ----------

  /** The number of workers never changes, and none returns before the channel is closed. */
  lemma {:induction false} WorkersStay(total: nat, chunk: nat, s: State, run: seq<Step>, t: State)
    requires Follows(total, chunk, s, run, t)
    requires s.main.Producing? ==> forall w :: 0 <= w < |s.workers| ==> !s.workers[w].Gone?
    ensures |t.workers| == |s.workers|
    ensures t.main.Producing? ==> forall w :: 0 <= w < |t.workers| ==> !t.workers[w].Gone?
    decreases |run|
  {
    if run != [] {
      WorkersStay(total, chunk, Effect(total, chunk, s, run[0]), run[1..], t);
    }
  }

  /** The step that some worker, or the producer, can take. */
  function Ready(total: nat, s: State, w: nat): Step
    requires w < |s.workers|
  {
    match s.workers[w]
    case Waiting => if s.main.Producing? then (if s.lo < total then Hand(w) else Close) else Leave(w)
    case Holding(_) => Post(w, true)
    case Posted(_, _) => Add(w)
    case Noting => Note(w)
    case Gone => Join
  }

  ghost predicate Movable(total: nat, s: State) {
    exists step :: Enabled(total, s, step)
  }

  ghost predicate NeverStuck(total: nat, chunk: nat, conns: nat) {
    forall run, t :: Follows(total, chunk, Init(conns), run, t) && !t.main.Joined? ==> Movable(total, t)
  }

  /** A reachable state that is not the end can always move, exactly when there is a worker or
      there is nothing to do. */
  lemma NoDeadlock(total: nat, chunk: nat, conns: nat)
    ensures NeverStuck(total, chunk, conns) <==> conns >= 1 || total == 0
  {
    if conns >= 1 || total == 0 {
      forall run, t | Follows(total, chunk, Init(conns), run, t) && !t.main.Joined?
        ensures Movable(total, t)
      {
        var step := CanMove(total, chunk, conns, run, t);
      }
    } else {
      assert Follows(total, chunk, Init(conns), [], Init(conns));
      assert !Movable(total, Init(conns));
    }
  }

  lemma CanMove(total: nat, chunk: nat, conns: nat, run: seq<Step>, t: State) returns (step: Step)
    requires Follows(total, chunk, Init(conns), run, t) && !t.main.Joined?
    requires conns >= 1 || total == 0
    ensures Enabled(total, t, step)
  {
    WorkersStay(total, chunk, Init(conns), run, t);
    if t.main.Producing? && t.lo >= total {
      step := Close;
    } else if t.main.Producing? {
      step := Ready(total, t, 0);
    } else if w :| 0 <= w < |t.workers| && !t.workers[w].Gone? {
      step := Ready(total, t, w);
    } else {
      step := Join;
    }
  }
}
