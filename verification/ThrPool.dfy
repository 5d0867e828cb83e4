/** The worker pool and its poison-pill shutdown (rpc/thr_pool.cc). */
module ThrPool {
  import opened Basics
  import opened Fifo

  // A job whose function pointer is NULL is the pill that tells a worker to exit.
  datatype Job = Work(id: nat) | Pill

  class ThreadPool {
    const jobq: FifoQueue<Job>
    const blockAdd: bool

    constructor (sz: nat, blocking: bool)
      ensures fresh(jobq) && jobq.q == [] && jobq.max == 100 * sz && blockAdd == blocking
    {
      jobq := new FifoQueue<Job>(100 * sz);
      blockAdd := blocking;
    }

    // addJob, up to the point where a blocking add would wait.
    method AddJob(id: nat) returns (r: Turn)
      modifies jobq
      ensures r == EnqTurn(old(jobq.q), jobq.max, blockAdd)
      ensures jobq.q == if r == Added then old(jobq.q) + [Work(id)] else old(jobq.q)
    {
      var signal;
      r, signal := jobq.Enq(Work(id), blockAdd);
    }

    // takeJob on a queue that is not empty; false tells the worker to exit.
    method TakeJob() returns (j: Job, go: bool)
      requires jobq.q != []
      modifies jobq
      ensures j == old(jobq.q)[0] && jobq.q == old(jobq.q)[1..] && go == j.Work?
    {
      var r, signal := jobq.Deq();
      j := r.value;
      go := j != Pill;
    }
  }

  // ---- The pool with its workers and its destructor ----

  datatype Worker = Idle | Running(id: nat) | Exited
  datatype Taken = Taken(worker: nat, job: Job)

  datatype Pool = Pool(
    q: seq<Job>,
    workers: seq<Worker>,
    accepted: seq<nat>,      // jobs that addJob took in, in order
    taken: seq<Taken>,       // every job that left the queue, with the worker that took it
    closing: bool,           // the destructor runs; nobody else uses the pool
    pills: nat,              // pills it has queued
    joined: nat)             // workers it has joined

  function Size(s: Pool): nat {
    |s.workers|
  }

  function Created(n: nat): Pool {
    Pool([], seq(n, _ => Idle), [], [], false, 0, 0)
  }

  datatype Event = Add(id: nat) | Close | PushPill | Take(w: nat) | Finish(w: nat) | Join

  predicate Enabled(s: Pool, ev: Event) {
    match ev
    case Add(_) => !s.closing && Room(s.q, 100 * Size(s))
    case Close => !s.closing
    case PushPill => s.closing && s.pills < Size(s) && Room(s.q, 100 * Size(s))
    case Take(w) => w < Size(s) && s.workers[w] == Idle && s.q != []
    case Finish(w) => w < Size(s) && s.workers[w].Running?
    case Join => s.closing && s.pills == Size(s) && s.joined < Size(s) && s.workers[s.joined] == Exited
  }

  function After1(j: Job): Worker {
    if j == Pill then Exited else Running(j.id)
  }

  function Next(s: Pool, ev: Event): Pool
    requires Enabled(s, ev)
  {
    match ev
    case Add(id) => s.(q := s.q + [Work(id)], accepted := s.accepted + [id])
    case Close => s.(closing := true)
    case PushPill => s.(q := s.q + [Pill], pills := s.pills + 1)
    case Take(w) =>
      s.(q := s.q[1..], workers := s.workers[w := After1(s.q[0])], taken := s.taken + [Taken(w, s.q[0])])
    case Finish(w) => s.(workers := s.workers[w := Idle])
    case Join => s.(joined := s.joined + 1)
  }

  // The destructor has returned.
  predicate Destroyed(s: Pool) {
    s.closing && s.pills == Size(s) && s.joined == Size(s)
  }

  // ---- What every run keeps ----

  // The order in which jobs entered: all accepted work, then the pills.
  function Entered(s: Pool): seq<Job> {
    var n := |s.accepted| + s.pills;
    seq(n, i requires 0 <= i < n => if i < |s.accepted| then Work(s.accepted[i]) else Pill)
  }

  function Count(ws: seq<Worker>, w: Worker -> bool): nat {
    if ws == [] then 0 else (if w(ws[0]) then 1 else 0) + Count(ws[1..], w)
  }

  predicate HasExited(w: Worker) {
    w == Exited
  }

  predicate IsRunning(w: Worker) {
    w.Running?
  }

  lemma {:induction false} CountUpdate(ws: seq<Worker>, p: Worker -> bool, i: nat, w: Worker)
    requires i < |ws|
    ensures Count(ws[i := w], p) + (if p(ws[i]) then 1 else 0) == Count(ws, p) + (if p(w) then 1 else 0)
    decreases |ws|
  {
    if i > 0 {
      CountUpdate(ws[1..], p, i - 1, w);
      assert ws[i := w][1..] == ws[1..][i - 1 := w];
    } else {
      assert ws[i := w][1..] == ws[1..];
    }
  }

  lemma {:induction false} CountAll(ws: seq<Worker>, p: Worker -> bool)
    ensures Count(ws, p) <= |ws|
    ensures Count(ws, p) == |ws| <==> forall i :: 0 <= i < |ws| ==> p(ws[i])
    decreases |ws|
  {
    if ws != [] {
      CountAll(ws[1..], p);
      assert ws == [ws[0]] + ws[1..];
    }
  }

  lemma {:induction false} CountZero(ws: seq<Worker>, p: Worker -> bool)
    requires forall i :: 0 <= i < |ws| ==> !p(ws[i])
    ensures Count(ws, p) == 0
    decreases |ws|
  {
    if ws != [] {
      CountZero(ws[1..], p);
    }
  }

  // Pills that worker w has taken.
  function PillsOf(taken: seq<Taken>, w: nat): nat {
    if taken == [] then 0
    else PillsOf(taken[..|taken| - 1], w) + if taken[|taken| - 1] == Taken(w, Pill) then 1 else 0
  }

  // What has left and what is queued make up what entered.
  ghost predicate OrderOk(s: Pool) {
    && |s.taken| + |s.q| == |s.accepted| + s.pills
    && (forall i :: 0 <= i < |s.taken| ==> s.taken[i].job == Entered(s)[i])
    && (forall i :: 0 <= i < |s.q| ==> s.q[i] == Entered(s)[|s.taken| + i])
  }

  // One worker has exited for each pill taken, and it took that pill itself.
  ghost predicate PillsOk(s: Pool) {
    && Count(s.workers, HasExited) == (if |s.taken| > |s.accepted| then |s.taken| - |s.accepted| else 0)
    && (forall w :: 0 <= w < Size(s) ==> PillsOf(s.taken, w) == if s.workers[w] == Exited then 1 else 0)
  }

  ghost predicate CloserOk(s: Pool) {
    && (!s.closing ==> s.pills == 0 && s.joined == 0)
    && s.pills <= Size(s) && s.joined <= Size(s)
    && (Size(s) == 0 ==> s.taken == [])
    && (forall i :: 0 <= i < s.joined ==> s.workers[i] == Exited)
  }

  ghost predicate Inv(s: Pool) {
    OrderOk(s) && PillsOk(s) && CloserOk(s)
  }

  lemma CreatedHolds(n: nat)
    ensures Inv(Created(n))
  {
    CountZero(Created(n).workers, HasExited);
  }

  lemma TakeOrder(s: Pool, w: nat)
    requires OrderOk(s) && Enabled(s, Take(w))
    ensures OrderOk(Next(s, Take(w)))
    ensures s.q[0] == if |s.taken| < |s.accepted| then Work(s.accepted[|s.taken|]) else Pill
  {
    assert Entered(Next(s, Take(w))) == Entered(s);
    assert s.q[0] == Entered(s)[|s.taken| + 0];
  }

  lemma PillsOfMore(taken: seq<Taken>, x: Taken, w: nat)
    ensures PillsOf(taken + [x], w) == PillsOf(taken, w) + if x == Taken(w, Pill) then 1 else 0
  {
    assert (taken + [x])[..|taken|] == taken;
  }

  // The number of exited workers grows by one exactly with a pill.
  lemma TakeExits(s: Pool, w: nat)
    requires Enabled(s, Take(w))
    ensures Count(Next(s, Take(w)).workers, HasExited) == Count(s.workers, HasExited) + if s.q[0] == Pill then 1 else 0
  {
    CountUpdate(s.workers, HasExited, w, After1(s.q[0]));
  }

  lemma TakePillsOf(s: Pool, w: nat, v: nat)
    requires Enabled(s, Take(w)) && v < Size(s)
    requires PillsOf(s.taken, v) == if s.workers[v] == Exited then 1 else 0
    ensures var s' := Next(s, Take(w)); PillsOf(s'.taken, v) == if s'.workers[v] == Exited then 1 else 0
  {
    PillsOfMore(s.taken, Taken(w, s.q[0]), v);
  }

  lemma TakePills(s: Pool, w: nat)
    requires Inv(s) && Enabled(s, Take(w))
    ensures PillsOk(Next(s, Take(w)))
  {
    var s' := Next(s, Take(w));
    TakeOrder(s, w);
    TakeExits(s, w);
    forall v | 0 <= v < Size(s) ensures PillsOf(s'.taken, v) == if s'.workers[v] == Exited then 1 else 0 {
      TakePillsOf(s, w, v);
    }
  }

  lemma TakeKeeps(s: Pool, w: nat)
    requires Inv(s) && Enabled(s, Take(w))
    ensures Inv(Next(s, Take(w)))
  {
    TakeOrder(s, w);
    TakePills(s, w);
  }

  lemma FinishKeeps(s: Pool, w: nat)
    requires Inv(s) && Enabled(s, Finish(w))
    ensures Inv(Next(s, Finish(w)))
  {
    CountUpdate(s.workers, HasExited, w, Idle);
    assert Entered(Next(s, Finish(w))) == Entered(s);
  }

  lemma PushKeeps(s: Pool, ev: Event)
    requires Inv(s) && Enabled(s, ev) && (ev.Add? || ev.PushPill?)
    ensures Inv(Next(s, ev))
  {
    var s' := Next(s, ev);
    assert Entered(s') == Entered(s) + [s'.q[|s.q|]];
    assert OrderOk(s');
  }

  lemma EventKeeps(s: Pool, ev: Event)
    requires Inv(s) && Enabled(s, ev)
    ensures Inv(Next(s, ev))
  {
    match ev
    case Take(w) => TakeKeeps(s, w);
    case Finish(w) => FinishKeeps(s, w);
    case Add(_) => PushKeeps(s, ev);
    case PushPill => PushKeeps(s, ev);
    case _ => assert Entered(Next(s, ev)) == Entered(s);
  }

  predicate Run(s: Pool, evs: seq<Event>)
    decreases |evs|
  {
    evs == [] || (Enabled(s, evs[0]) && Run(Next(s, evs[0]), evs[1..]))
  }

  function After(s: Pool, evs: seq<Event>): Pool
    requires Run(s, evs)
    decreases |evs|
  {
    if evs == [] then s else After(Next(s, evs[0]), evs[1..])
  }

  lemma {:induction false} RunKeeps(s: Pool, evs: seq<Event>)
    requires Inv(s) && Run(s, evs)
    ensures Inv(After(s, evs)) && Size(After(s, evs)) == Size(s)
    decreases |evs|
  {
    if evs != [] {
      EventKeeps(s, evs[0]);
      RunKeeps(Next(s, evs[0]), evs[1..]);
    }
  }

  // ---- Shutdown drains the pool ----

  // In every run the jobs leave in the order accepted, one worker each, and all of them before any pill.
  lemma WorkBeforePills(n: nat, evs: seq<Event>, i: nat)
    requires Run(Created(n), evs) && i < |After(Created(n), evs).taken|
    ensures var s := After(Created(n), evs);
            s.taken[i].job == if i < |s.accepted| then Work(s.accepted[i]) else Pill
  {
    CreatedHolds(n);
    RunKeeps(Created(n), evs);
  }

  // When the destructor has returned, every worker has exited on exactly one pill of its own, and
  // the queue is empty with all work done exactly unless the pool had no workers and some work.
  lemma ShutdownDrains(n: nat, evs: seq<Event>)
    requires Run(Created(n), evs) && Destroyed(After(Created(n), evs))
    ensures var s := After(Created(n), evs);
            && |s.workers| == n
            && (forall w :: 0 <= w < n ==> s.workers[w] == Exited && PillsOf(s.taken, w) == 1)
            && (s.q == [] && |s.taken| == |s.accepted| + n <==> n > 0 || s.accepted == [])
  {
    var s := After(Created(n), evs);
    CreatedHolds(n);
    RunKeeps(Created(n), evs);
    CountAll(s.workers, HasExited);
  }

  // A worker runs the job it took, and takes none while it runs; a pill ends it.
  lemma TakeOutcome(s: Pool, w: nat)
    requires Enabled(s, Take(w))
    ensures var s' := Next(s, Take(w));
            && s'.workers[w] == (match s.q[0] case Work(id) => Running(id) case Pill => Exited)
            && s'.taken == s.taken + [Taken(w, s.q[0])] && s'.q == s.q[1..]
            && !Enabled(s', Take(w))
            && (forall v :: 0 <= v < Size(s) && v != w ==> s'.workers[v] == s.workers[v])
  {
  }

  lemma {:induction false} QueueStays(s: Pool, evs: seq<Event>)
    requires Run(s, evs) && (Size(s) > 0 ==> |s.q| <= 100 * Size(s))
    ensures Size(After(s, evs)) == Size(s) && (Size(s) > 0 ==> |After(s, evs).q| <= 100 * Size(s))
    decreases |evs|
  {
    if evs != [] {
      QueueStays(Next(s, evs[0]), evs[1..]);
    }
  }

  // At most 100 jobs wait for each worker.
  lemma QueueBounded(n: nat, evs: seq<Event>)
    requires n > 0 && Run(Created(n), evs)
    ensures |After(Created(n), evs).q| <= 100 * n
  {
    QueueStays(Created(n), evs);
  }

  // A pool without workers takes a job in and is destroyed with it.
  lemma NoWorkersNoWork(id: nat)
    ensures Run(Created(0), [Add(id), Close])
    ensures var s := After(Created(0), [Add(id), Close]); Destroyed(s) && s.accepted == [id] && s.q == [Work(id)]
  {
    var s0 := Created(0);
    assert s0.workers == [];
    var s1 := Next(s0, Add(id));
    assert [Add(id), Close][1..] == [Close] && [Close][1..] == [];
    assert Run(Next(s1, Close), []);
    assert Run(s1, [Close]);
  }

  // ---- Shutdown always gets there ----

  // A closing pool that is not destroyed can always take a step.
  lemma ShutdownCanStep(s: Pool) returns (ev: Event)
    requires Inv(s) && s.closing && !Destroyed(s)
    ensures Enabled(s, ev)
  {
    var n := Size(s);
    CountAll(s.workers, HasExited);
    if s.pills < n && Room(s.q, 100 * n) {
      ev := PushPill;
    } else if s.pills == n && s.joined < n && s.workers[s.joined] == Exited {
      ev := Join;
    } else {
      assert Count(s.workers, HasExited) < n;
      var w :| 0 <= w < n && s.workers[w] != Exited;
      ev := if s.workers[w] == Idle then Take(w) else Finish(w);
    }
  }

  function Remaining(s: Pool): int {
    3 * (Size(s) - s.pills) + 2 * |s.q| + Count(s.workers, IsRunning) + (Size(s) - s.joined)
  }

  lemma ShutdownStepCounts(s: Pool, ev: Event)
    requires Inv(s) && s.closing && Enabled(s, ev)
    ensures Next(s, ev).closing && Remaining(Next(s, ev)) < Remaining(s)
  {
    if ev.Take? {
      CountUpdate(s.workers, IsRunning, ev.w, After1(s.q[0]));
    } else if ev.Finish? {
      CountUpdate(s.workers, IsRunning, ev.w, Idle);
    }
  }

  // So once it runs, the destructor returns after at most Remaining further steps, whatever the
  // order of the threads, provided running jobs finish.
  lemma {:induction false} ShutdownBounded(s: Pool, evs: seq<Event>)
    requires Inv(s) && s.closing && Run(s, evs)
    ensures |evs| <= Remaining(s)
    decreases |evs|
  {
    if evs != [] {
      EventKeeps(s, evs[0]);
      ShutdownStepCounts(s, evs[0]);
      ShutdownBounded(Next(s, evs[0]), evs[1..]);
    }
  }
}
