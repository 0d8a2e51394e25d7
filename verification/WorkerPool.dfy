/**
 DownloadWorkerPool of cmd/hyperexport/parallel_download.go as a step machine.

 Each step is one atomic action of some goroutine: a channel operation of a worker, of
 Submit, of Close or of a DownloadBatch collector, a receive from Results(), or a
 cancellation of the context.  A run is any interleaving.
 */
module WorkerPool {
  import opened Wrappers

  datatype Task = Task(url: string, destination: string, size: int, name: string)
  datatype Result = Result(task: Task, success: bool)

  /** Where a worker goroutine stands. */
  datatype Worker = Ready | Downloading(task: Task) | Sending(result: Result) | Stopped

  /** How far Close got: not called, tasks closed and waiting, results closed, returned. */
  datatype Closer = Open | Waiting | Drained | Closed

  /** How far a DownloadBatch got. */
  datatype Stage = Submitting | Collecting | ReturnedOk | ReturnedErr

  // submitted: tasks accepted so far; checked: the context was looked at for the next one;
  // got: what the collector received, None being the zero value of a closed, empty channel.
  datatype Batch = Batch(tasks: seq<Task>, submitted: nat, checked: bool, got: seq<Option<Result>>, stage: Stage)

  // accepted, received, abandoned: logs of tasks queued, taken off the results channel, and
  // dropped with a stopping worker.  approved: outside Submit calls past the context check.
  datatype Pool = Pool(n: nat, queue: seq<Task>, results: seq<Result>, workers: seq<Worker>,
                       cancelled: bool, closer: Closer, batch: Batch,
                       accepted: seq<Task>, received: seq<Task>, abandoned: seq<Task>,
                       approved: multiset<Task>, submitPanicked: bool, workerPanicked: bool)

  datatype WorkerAct = Take | ExitClosed | ExitCancelled | FinishDownload(success: bool) | Send | Drop
  datatype ClientAct = SubmitCheck(task: Task) | SubmitSend(task: Task) | Receive | Cancel
  datatype BatchAct = Check | Submit | StartCollecting | Collect | GiveUp | Return | Begin(tasks: seq<Task>)
  datatype CloseAct = CloseTasks | CloseResults | CloseCancel

  datatype Step =
    | ByWorker(w: nat, wact: WorkerAct)
    | ByClient(cact: ClientAct)
    | ByBatch(bact: BatchAct)
    | ByClose(xact: CloseAct)

  function Capacity(s: Pool): nat { 2 * s.n }

  predicate TasksClosed(s: Pool) { s.closer != Open }

  predicate ResultsClosed(s: Pool) { s.closer == Drained || s.closer == Closed }

  predicate AllStopped(s: Pool) { forall w :: 0 <= w < |s.workers| ==> s.workers[w] == Stopped }

  /** A select case or blocking operation of worker w that could fire now. */
  predicate WorkerEnabled(s: Pool, w: nat, a: WorkerAct) {
    && w < |s.workers|
    && match a
       case Take => s.workers[w].Ready? && s.queue != []
       case ExitClosed => s.workers[w].Ready? && s.queue == [] && TasksClosed(s)
       case ExitCancelled => s.workers[w].Ready? && s.cancelled
       case FinishDownload(_) => s.workers[w].Downloading?
       case Send => s.workers[w].Sending? && (ResultsClosed(s) || |s.results| < Capacity(s))
       case Drop => s.workers[w].Sending? && s.cancelled
  }

  predicate ClientEnabled(s: Pool, a: ClientAct) {
    match a
    case SubmitCheck(_) => !s.cancelled
    case SubmitSend(t) => t in s.approved
    case Receive => s.results != []
    case Cancel => true
  }

  predicate BatchEnabled(s: Pool, a: BatchAct) {
    var b := s.batch;
    match a
    case Check => b.stage == Submitting && b.submitted < |b.tasks| && !b.checked
    case Submit => b.stage == Submitting && b.submitted < |b.tasks| && b.checked
    case StartCollecting => b.stage == Submitting && b.submitted == |b.tasks|
    case Collect => b.stage == Collecting && |b.got| < |b.tasks| && (s.results != [] || ResultsClosed(s))
    case GiveUp => b.stage == Collecting && |b.got| < |b.tasks| && s.cancelled
    case Return => b.stage == Collecting && |b.got| == |b.tasks|
    case Begin(_) => b.stage == ReturnedOk || b.stage == ReturnedErr
  }

  predicate CloseEnabled(s: Pool, a: CloseAct) {
    match a
    case CloseTasks => s.closer == Open
    case CloseResults => s.closer == Waiting && AllStopped(s)
    case CloseCancel => s.closer == Drained
  }

  predicate Enabled(s: Pool, a: Step) {
    match a
    case ByWorker(w, x) => WorkerEnabled(s, w, x)
    case ByClient(x) => ClientEnabled(s, x)
    case ByBatch(x) => BatchEnabled(s, x)
    case ByClose(x) => CloseEnabled(s, x)
  }

  function SetWorker(s: Pool, w: nat, x: Worker): Pool
    requires w < |s.workers|
  {
    s.(workers := s.workers[w := x])
  }

  function NextWorker(s: Pool, w: nat, a: WorkerAct): Pool
    requires WorkerEnabled(s, w, a)
  {
    match a
    case Take => SetWorker(s, w, Downloading(s.queue[0])).(queue := s.queue[1..])
    case ExitClosed => SetWorker(s, w, Stopped)
    case ExitCancelled => SetWorker(s, w, Stopped)
    case FinishDownload(ok) => SetWorker(s, w, Sending(Result(s.workers[w].task, ok)))
    case Send =>
      if ResultsClosed(s) then s.(workerPanicked := true)
      else SetWorker(s, w, Ready).(results := s.results + [s.workers[w].result])
    case Drop => SetWorker(s, w, Stopped).(abandoned := s.abandoned + [s.workers[w].result.task])
  }

  function Accept(s: Pool, t: Task): Pool {
    s.(queue := s.queue + [t], accepted := s.accepted + [t])
  }

  function TakeResult(s: Pool): Pool
    requires s.results != []
  {
    s.(results := s.results[1..], received := s.received + [s.results[0].task])
  }

  function NextClient(s: Pool, a: ClientAct): Pool
    requires ClientEnabled(s, a)
  {
    match a
    case SubmitCheck(t) => s.(approved := s.approved + multiset{t})
    case SubmitSend(t) =>
      var u := s.(approved := s.approved - multiset{t});
      if TasksClosed(s) then u.(submitPanicked := true)
      else if |s.queue| < Capacity(s) then Accept(u, t)
      else u
    case Receive => TakeResult(s)
    case Cancel => s.(cancelled := true)
  }

  function NewBatch(tasks: seq<Task>): Batch { Batch(tasks, 0, false, [], Submitting) }

  function NextBatch(s: Pool, a: BatchAct): Pool
    requires BatchEnabled(s, a)
  {
    var b := s.batch;
    match a
    case Check => if s.cancelled then s.(batch := b.(stage := ReturnedErr)) else s.(batch := b.(checked := true))
    case Submit =>
      if TasksClosed(s) then s.(submitPanicked := true)
      else if |s.queue| < Capacity(s) then
        Accept(s, b.tasks[b.submitted]).(batch := b.(submitted := b.submitted + 1, checked := false))
      else s.(batch := b.(stage := ReturnedErr))
    case StartCollecting => s.(batch := b.(stage := Collecting))
    case Collect =>
      if s.results != [] then TakeResult(s).(batch := b.(got := b.got + [Some(s.results[0])]))
      else s.(batch := b.(got := b.got + [None]))
    case GiveUp => s.(batch := b.(stage := ReturnedOk))
    case Return => s.(batch := b.(stage := ReturnedOk))
    case Begin(tasks) => s.(batch := NewBatch(tasks))
  }

  function NextClose(s: Pool, a: CloseAct): Pool
    requires CloseEnabled(s, a)
  {
    match a
    case CloseTasks => s.(closer := Waiting)
    case CloseResults => s.(closer := Drained)
    case CloseCancel => s.(closer := Closed, cancelled := true)
  }

  function Next(s: Pool, a: Step): Pool
    requires Enabled(s, a)
  {
    match a
    case ByWorker(w, x) => NextWorker(s, w, x)
    case ByClient(x) => NextClient(s, x)
    case ByBatch(x) => NextBatch(s, x)
    case ByClose(x) => NextClose(s, x)
  }

  /** A started pool of n workers, nothing queued, about to run one batch. */
  function Started(n: nat, tasks: seq<Task>): Pool {
    Pool(n, [], [], seq(n, _ => Ready), false, Open, NewBatch(tasks),
         [], [], [], multiset{}, false, false)
  }

  ghost predicate Leads(s: Pool, steps: seq<Step>, t: Pool)
    decreases |steps|
  {
    if steps == [] then s == t
    else Enabled(s, steps[0]) && Leads(Next(s, steps[0]), steps[1..], t)
  }

  // ---------------------------------------------------------------- conservation of tasks

  /** What is counted: one particular task (Some), or any task (None). */
  type Key = Option<Task>

  function One(t: Task, k: Key): nat { if k == None || k == Some(t) then 1 else 0 }

  function Count(ts: seq<Task>, k: Key): nat {
    if ts == [] then 0 else One(ts[0], k) + Count(ts[1..], k)
  }

  function TasksOf(rs: seq<Result>): seq<Task> { seq(|rs|, i requires 0 <= i < |rs| => rs[i].task) }

  function HeldBy(w: Worker, k: Key): nat {
    match w
    case Downloading(t) => One(t, k)
    case Sending(r) => One(r.task, k)
    case _ => 0
  }

  function Held(ws: seq<Worker>, k: Key): nat {
    if ws == [] then 0 else HeldBy(ws[0], k) + Held(ws[1..], k)
  }

  lemma {:induction false} HeldUpdate(ws: seq<Worker>, w: nat, x: Worker, k: Key)
    requires w < |ws|
    ensures Held(ws[w := x], k) + HeldBy(ws[w], k) == Held(ws, k) + HeldBy(x, k)
    decreases w
  {
    if w > 0 {
      HeldUpdate(ws[1..], w - 1, x, k);
      assert ws[w := x][1..] == ws[1..][w - 1 := x];
    } else {
      assert ws[w := x][1..] == ws[1..];
    }
  }

  lemma {:induction false} CountAppend(ts: seq<Task>, t: Task, k: Key)
    ensures Count(ts + [t], k) == Count(ts, k) + One(t, k)
  {
    if ts != [] {
      CountAppend(ts[1..], t, k);
      assert (ts + [t])[1..] == ts[1..] + [t];
    }
  }

  lemma {:induction false} CountAll(ts: seq<Task>)
    ensures Count(ts, None) == |ts|
  {
    if ts != [] {
      CountAll(ts[1..]);
    }
  }

  lemma {:induction false} CountIsMultiplicity(ts: seq<Task>, x: Task)
    ensures Count(ts, Some(x)) == multiset(ts)[x]
  {
    if ts != [] {
      CountIsMultiplicity(ts[1..], x);
      assert ts == [ts[0]] + ts[1..];
    }
  }

  lemma {:induction false} IdleHoldNothing(ws: seq<Worker>, k: Key)
    requires forall w :: 0 <= w < |ws| ==> ws[w] == Stopped || ws[w] == Ready
    ensures Held(ws, k) == 0
  {
    if ws != [] {
      IdleHoldNothing(ws[1..], k);
    }
  }

  /** Accepted tasks matching k are queued, held, buffered, received or abandoned, each once. */
  ghost predicate Balanced(s: Pool, k: Key) {
    Count(s.accepted, k) ==
      Count(s.queue, k) + Held(s.workers, k) + Count(TasksOf(s.results), k)
      + Count(s.received, k) + Count(s.abandoned, k)
  }

  ghost predicate Conserved(s: Pool) { forall k :: Balanced(s, k) }

  /** Bounds of both channels, the worker count, and who may have stopped. */
  ghost predicate Shape(s: Pool) {
    && |s.workers| == s.n
    && |s.queue| <= Capacity(s) && |s.results| <= Capacity(s)
    && (!s.cancelled ==> s.abandoned == [])
    && (!s.cancelled ==>
          forall w :: 0 <= w < |s.workers| && s.workers[w] == Stopped ==> s.queue == [] && TasksClosed(s))
    && (s.n == 0 ==> s.queue == [])
    && (ResultsClosed(s) ==> AllStopped(s))
    && !s.workerPanicked
  }

  ghost predicate Inv(s: Pool) { Shape(s) && Conserved(s) }

  lemma StartedInv(n: nat, tasks: seq<Task>)
    ensures Inv(Started(n, tasks))
  {
    var s := Started(n, tasks);
    forall k ensures Balanced(s, k) {
      IdleHoldNothing(s.workers, k);
    }
  }

  lemma BalancedSend(s: Pool, w: nat, k: Key)
    requires Balanced(s, k) && WorkerEnabled(s, w, Send)
    ensures Balanced(NextWorker(s, w, Send), k)
  {
    hide Held, Count, TasksOf;
    var r := s.workers[w].result;
    HeldUpdate(s.workers, w, Ready, k);
    TasksOfAppend(s.results, r, k);
  }

  lemma TasksOfAppend(rs: seq<Result>, r: Result, k: Key)
    ensures Count(TasksOf(rs + [r]), k) == Count(TasksOf(rs), k) + One(r.task, k)
  {
    CountAppend(TasksOf(rs), r.task, k);
    assert TasksOf(rs + [r]) == TasksOf(rs) + [r.task];
  }

  lemma BalancedWorker(s: Pool, w: nat, a: WorkerAct, k: Key)
    requires Balanced(s, k) && WorkerEnabled(s, w, a)
    ensures Balanced(NextWorker(s, w, a), k)
  {
    hide TasksOf, Held;
    if a == Send {
      BalancedSend(s, w, k);
    } else {
      HeldUpdate(s.workers, w, NextWorker(s, w, a).workers[w], k);
      if a == Drop {
        CountAppend(s.abandoned, s.workers[w].result.task, k);
      }
    }
  }

  lemma BalancedAccept(s: Pool, t: Task, k: Key)
    requires Balanced(s, k)
    ensures Balanced(Accept(s, t), k)
  {
    CountAppend(s.queue, t, k);
    CountAppend(s.accepted, t, k);
  }

  lemma BalancedTakeResult(s: Pool, k: Key)
    requires Balanced(s, k) && s.results != []
    ensures Balanced(TakeResult(s), k)
  {
    assert TasksOf(s.results)[1..] == TasksOf(s.results[1..]);
    CountAppend(s.received, s.results[0].task, k);
  }

  lemma BalancedClient(s: Pool, a: ClientAct, k: Key)
    requires Balanced(s, k) && ClientEnabled(s, a)
    ensures Balanced(NextClient(s, a), k)
  {
    hide Count, Held, TasksOf, Accept, TakeResult;
    match a {
      case SubmitSend(t) => BalancedAccept(s.(approved := s.approved - multiset{t}), t, k);
      case Receive => BalancedTakeResult(s, k);
      case _ =>
    }
  }

  lemma BalancedSubmit(s: Pool, k: Key)
    requires Balanced(s, k) && BatchEnabled(s, Submit)
    ensures Balanced(NextBatch(s, Submit), k)
  {
    hide Count, Held, TasksOf;
    BalancedAccept(s, s.batch.tasks[s.batch.submitted], k);
  }

  lemma BalancedBatch(s: Pool, a: BatchAct, k: Key)
    requires Balanced(s, k) && BatchEnabled(s, a)
    ensures Balanced(NextBatch(s, a), k)
  {
    hide Count, Held, TasksOf;
    if a == Submit {
      BalancedSubmit(s, k);
    } else if a == Collect {
      if s.results != [] {
        BalancedTakeResult(s, k);
      }
    } else {
      hide Accept, TakeResult;
    }
  }

  lemma BalancedClose(s: Pool, a: CloseAct, k: Key)
    requires Balanced(s, k) && CloseEnabled(s, a)
    ensures Balanced(NextClose(s, a), k)
  {
    hide Count, Held, TasksOf;
  }

  lemma BalancedStep(s: Pool, a: Step, k: Key)
    requires Balanced(s, k) && Enabled(s, a)
    ensures Balanced(Next(s, a), k)
  {
    hide Balanced, NextWorker, NextClient, NextBatch, NextClose;
    match a {
      case ByWorker(w, x) => BalancedWorker(s, w, x, k);
      case ByClient(x) => BalancedClient(s, x, k);
      case ByBatch(x) => BalancedBatch(s, x, k);
      case ByClose(x) => BalancedClose(s, x, k);
    }
  }

  lemma ShapeWorker(s: Pool, w: nat, a: WorkerAct)
    requires Shape(s) && WorkerEnabled(s, w, a)
    ensures Shape(NextWorker(s, w, a))
  {
  }

  lemma ShapeClient(s: Pool, a: ClientAct)
    requires Shape(s) && ClientEnabled(s, a)
    ensures Shape(NextClient(s, a))
  {
  }

  lemma ShapeSubmit(s: Pool)
    requires Shape(s) && BatchEnabled(s, Submit)
    ensures Shape(NextBatch(s, Submit))
  {
  }

  lemma ShapeCollect(s: Pool)
    requires Shape(s) && BatchEnabled(s, Collect)
    ensures Shape(NextBatch(s, Collect))
  {
  }

  lemma ShapeBatch(s: Pool, a: BatchAct)
    requires Shape(s) && BatchEnabled(s, a)
    ensures Shape(NextBatch(s, a))
  {
    if a == Submit {
      hide Shape, NextBatch;
      ShapeSubmit(s);
    } else if a == Collect {
      hide Shape, NextBatch;
      ShapeCollect(s);
    }
  }

  lemma ShapeClose(s: Pool, a: CloseAct)
    requires Shape(s) && CloseEnabled(s, a)
    ensures Shape(NextClose(s, a))
  {
  }

  lemma ShapeStep(s: Pool, a: Step)
    requires Shape(s) && Enabled(s, a)
    ensures Shape(Next(s, a))
  {
    hide Shape, NextWorker, NextClient, NextBatch, NextClose;
    match a {
      case ByWorker(w, x) => ShapeWorker(s, w, x);
      case ByClient(x) => ShapeClient(s, x);
      case ByBatch(x) => ShapeBatch(s, x);
      case ByClose(x) => ShapeClose(s, x);
    }
  }

  lemma InvStep(s: Pool, a: Step)
    requires Inv(s) && Enabled(s, a)
    ensures Inv(Next(s, a))
  {
    hide Shape, Balanced, Next, Enabled;
    ShapeStep(s, a);
    forall k ensures Balanced(Next(s, a), k) {
      BalancedStep(s, a, k);
    }
  }

  lemma {:induction false} InvRun(s: Pool, steps: seq<Step>, t: Pool)
    requires Inv(s) && Leads(s, steps, t)
    ensures Inv(t)
    decreases |steps|
  {
    hide Inv, Enabled, Next;
    if steps != [] {
      InvStep(s, steps[0]);
      InvRun(Next(s, steps[0]), steps[1..], t);
    }
  }

  function HeldTask(w: Worker): seq<Task> {
    match w
    case Downloading(t) => [t]
    case Sending(r) => [r.task]
    case _ => []
  }

  /** Tasks held by workers, in worker order. */
  function HeldTasks(ws: seq<Worker>): seq<Task> {
    if ws == [] then [] else HeldTask(ws[0]) + HeldTasks(ws[1..])
  }

  lemma HeldTaskCount(w: Worker, x: Task)
    ensures multiset(HeldTask(w))[x] == HeldBy(w, Some(x))
  {
  }

  lemma {:induction false} HeldTasksCount(ws: seq<Worker>, x: Task)
    ensures multiset(HeldTasks(ws))[x] == Held(ws, Some(x))
  {
    hide HeldTask, HeldBy;
    if ws != [] {
      HeldTaskCount(ws[0], x);
      HeldTasksCount(ws[1..], x);
      assert multiset(HeldTasks(ws)) == multiset(HeldTask(ws[0])) + multiset(HeldTasks(ws[1..]));
    }
  }

  /**
   In every interleaving of submitters, workers, collector, Close and cancellation: the
   multiset of accepted tasks is the sum of those queued, held, buffered as results, received
   and abandoned; none is abandoned without a cancellation; both channels stay within
   2 * workerCount; and no worker ever sends on the closed results channel.
   */
  lemma TasksConserved(n: nat, tasks: seq<Task>, steps: seq<Step>, t: Pool)
    requires Leads(Started(n, tasks), steps, t)
    ensures multiset(t.accepted) == multiset(t.queue) + multiset(HeldTasks(t.workers)) + multiset(TasksOf(t.results))
      + multiset(t.received) + multiset(t.abandoned)
    ensures !t.cancelled ==> t.abandoned == []
    ensures |t.queue| <= 2 * t.n && |t.results| <= 2 * t.n
    ensures !t.workerPanicked
  {
    StartedInv(n, tasks);
    InvRun(Started(n, tasks), steps, t);
    hide Leads;
    var sum := multiset(t.queue) + multiset(HeldTasks(t.workers)) + multiset(TasksOf(t.results))
      + multiset(t.received) + multiset(t.abandoned);
    forall x: Task ensures multiset(t.accepted)[x] == sum[x] {
      hide Shape, HeldTasks, TasksOf;
      BalancedMultiplicity(t, x);
    }
  }

  lemma BalancedMultiplicity(s: Pool, x: Task)
    requires Balanced(s, Some(x))
    ensures multiset(s.accepted)[x] == multiset(s.queue)[x] + multiset(HeldTasks(s.workers))[x]
      + multiset(TasksOf(s.results))[x] + multiset(s.received)[x] + multiset(s.abandoned)[x]
  {
    hide Count, Held, TasksOf, HeldTasks;
    CountIsMultiplicity(s.accepted, x);
    CountIsMultiplicity(s.queue, x);
    HeldTasksCount(s.workers, x);
    CountIsMultiplicity(TasksOf(s.results), x);
    CountIsMultiplicity(s.received, x);
    CountIsMultiplicity(s.abandoned, x);
  }

  // ---------------------------------------------------------------- DownloadBatch

  /** A step of a pool that only one batch submits to and receives from. */
  predicate BatchOnly(a: Step) { (a.ByClient? ==> a.cact == Cancel) && (a.ByBatch? ==> !a.bact.Begin?) }

  function TaskOf(x: Option<Result>): seq<Task> { if x.Some? then [x.value.task] else [] }

  /** The tasks of the results the collector received. */
  function Delivered(got: seq<Option<Result>>): seq<Task> {
    if got == [] then []
    else Delivered(got[..|got| - 1]) + TaskOf(got[|got| - 1])
  }

  predicate AllReal(got: seq<Option<Result>>) { forall i :: 0 <= i < |got| ==> got[i].Some? }

  lemma {:induction false} DeliveredSize(got: seq<Option<Result>>)
    requires AllReal(got)
    ensures |Delivered(got)| == |got|
  {
    if got != [] {
      DeliveredSize(got[..|got| - 1]);
    }
  }

  /** Tasks queued, held by workers, or finished and not yet received. */
  function Load(s: Pool): nat { |s.queue| + Held(s.workers, None) + |s.results| }

  /** A pool, whatever it did before, that is about to run a batch. */
  ghost predicate Fresh(o: Pool) { Inv(o) && !o.cancelled && o.batch == NewBatch(o.batch.tasks) }

  /** What is true of a pool in the batch that began at o. */
  ghost predicate BatchLog(o: Pool, s: Pool) {
    var b := s.batch;
    && s.n == o.n && b.tasks == o.batch.tasks
    && b.submitted <= |b.tasks| && |b.got| <= |b.tasks|
    && s.accepted == o.accepted + b.tasks[..b.submitted]
    && s.received == o.received + Delivered(b.got)
    && (b.stage == Collecting || b.stage == ReturnedOk ==> b.submitted == |b.tasks|)
    && (!s.cancelled ==> AllReal(b.got))
    && (!s.cancelled && b.stage == ReturnedOk ==> |b.got| == |b.tasks|)
    && (!s.cancelled && b.stage == ReturnedErr ==> |b.tasks| + Load(o) > Capacity(o))
  }

  lemma FreshLog(o: Pool)
    requires Fresh(o)
    ensures BatchLog(o, o)
  {
    assert o.accepted + o.batch.tasks[..0] == o.accepted && o.received + [] == o.received;
  }

  /** Without cancellation, what was accepted and not received is the load. */
  lemma LoadIsBacklog(s: Pool)
    requires Inv(s) && !s.cancelled
    ensures |s.accepted| == Load(s) + |s.received|
  {
    assert Balanced(s, None);
    CountAll(s.accepted);
    CountAll(s.queue);
    CountAll(TasksOf(s.results));
    CountAll(s.received);
    CountAll(s.abandoned);
  }

  /** So within a batch the load is that of the start, plus what was submitted and not yet got. */
  lemma BatchLoad(o: Pool, s: Pool)
    requires Fresh(o) && BatchLog(o, s) && Inv(s) && !s.cancelled
    ensures Load(s) + |s.batch.got| == Load(o) + s.batch.submitted
  {
    hide Inv, Load;
    LoadIsBacklog(o);
    LoadIsBacklog(s);
    DeliveredSize(s.batch.got);
  }

  /** Without cancellation, a closed and empty results channel has delivered the whole batch. */
  lemma NoZeroReceive(o: Pool, s: Pool)
    requires Fresh(o) && BatchLog(o, s) && Inv(s) && !s.cancelled && ResultsClosed(s) && s.results == []
    requires s.batch.stage == Collecting
    ensures |s.batch.got| == |s.batch.tasks|
  {
    BatchLoad(o, s);
    assert s.n > 0 ==> s.workers[0] == Stopped;
    assert s.queue == [];
    IdleHoldNothing(s.workers, None);
  }

  lemma BatchLogSubmit(o: Pool, s: Pool)
    requires Fresh(o) && BatchLog(o, s) && Inv(s) && BatchEnabled(s, Submit)
    ensures BatchLog(o, NextBatch(s, Submit))
  {
    if !s.cancelled {
      BatchLoad(o, s);
    }
    hide Inv, Delivered, Fresh, Load, AllReal;
    var b := s.batch;
    assert b.tasks[..b.submitted + 1] == b.tasks[..b.submitted] + [b.tasks[b.submitted]];
    assert o.accepted + b.tasks[..b.submitted + 1] == s.accepted + [b.tasks[b.submitted]];
  }

  /** Collecting x extends the log by x, a zero value only after a cancellation. */
  lemma LogGrows(o: Pool, s: Pool, t: Pool, x: Option<Result>)
    requires BatchLog(o, s) && s.batch.stage == Collecting && |s.batch.got| < |s.batch.tasks|
    requires t.n == s.n && t.accepted == s.accepted && t.cancelled == s.cancelled
    requires t.received == s.received + TaskOf(x) && t.batch == s.batch.(got := s.batch.got + [x])
    requires !s.cancelled ==> x.Some?
    ensures BatchLog(o, t)
  {
    hide Load, Delivered, TaskOf;
    DeliveredAppend(s.batch.got, x);
    Joined(o.received, Delivered(s.batch.got), TaskOf(x));
  }

  lemma BatchLogCollect(o: Pool, s: Pool)
    requires Fresh(o) && BatchLog(o, s) && Inv(s) && BatchEnabled(s, Collect)
    ensures BatchLog(o, NextBatch(s, Collect))
  {
    if s.results == [] && !s.cancelled {
      NoZeroReceive(o, s);
    }
    hide Inv, Fresh, BatchLog;
    var x := if s.results != [] then Some(s.results[0]) else None;
    assert s.received + [] == s.received;
    LogGrows(o, s, NextBatch(s, Collect), x);
  }

  lemma DeliveredAppend(got: seq<Option<Result>>, x: Option<Result>)
    ensures Delivered(got + [x]) == Delivered(got) + TaskOf(x)
  {
    assert (got + [x])[..|got|] == got;
  }

  lemma Joined(a: seq<Task>, b: seq<Task>, c: seq<Task>)
    ensures a + (b + c) == (a + b) + c
  {
  }

  /** What a step of others leaves alone; a cancellation only weakens the claims. */
  ghost predicate SameBatch(s: Pool, t: Pool) {
    && t.n == s.n && t.batch == s.batch && t.accepted == s.accepted && t.received == s.received
    && (s.cancelled ==> t.cancelled)
  }

  lemma WorkerKeepsBatch(s: Pool, w: nat, a: WorkerAct)
    requires WorkerEnabled(s, w, a)
    ensures SameBatch(s, NextWorker(s, w, a))
  {
  }

  lemma BatchLogFrame(s: Pool, a: Step)
    requires Enabled(s, a) && BatchOnly(a) && !a.ByBatch?
    ensures SameBatch(s, Next(s, a))
  {
    hide NextWorker, NextBatch;
    if a.ByWorker? {
      WorkerKeepsBatch(s, a.w, a.wact);
    }
  }

  lemma BatchLogOwn(o: Pool, s: Pool, a: BatchAct)
    requires Fresh(o) && BatchLog(o, s) && Inv(s) && BatchEnabled(s, a) && !a.Begin?
    ensures BatchLog(o, NextBatch(s, a))
  {
    if a == Submit {
      BatchLogSubmit(o, s);
    } else if a == Collect {
      BatchLogCollect(o, s);
    } else {
      hide Inv, Delivered, Fresh, Load;
    }
  }

  lemma BatchLogStep(o: Pool, s: Pool, a: Step)
    requires Fresh(o) && BatchLog(o, s) && Inv(s) && Enabled(s, a) && BatchOnly(a)
    ensures BatchLog(o, Next(s, a))
  {
    hide Inv, Delivered, NextBatch, Fresh, Load;
    if a.ByBatch? {
      hide BatchLog;
      BatchLogOwn(o, s, a.bact);
    } else {
      BatchLogFrame(s, a);
      hide Next;
    }
  }

  lemma {:induction false} BatchRun(o: Pool, s: Pool, steps: seq<Step>, t: Pool)
    requires Fresh(o) && BatchLog(o, s) && Inv(s) && Leads(s, steps, t)
    requires forall i :: 0 <= i < |steps| ==> BatchOnly(steps[i])
    ensures BatchLog(o, t) && Inv(t)
    decreases |steps|
  {
    hide BatchLog, Inv, Enabled, Next, BatchOnly, Fresh;
    if steps != [] {
      InvStep(s, steps[0]);
      BatchLogStep(o, s, steps[0]);
      BatchRun(o, Next(s, steps[0]), steps[1..], t);
    }
  }

  /**
   DownloadBatch on a pool o with any history, in every interleaving of workers, collector,
   Close and cancellation.  An uncancelled nil error means one result per task.  If o had no
   load, those results are of exactly these tasks and leave no load behind, and even a
   cancelled batch returns no others.  A batch that fits into the queue beside the load is
   never refused.
   */
  lemma BatchTheorem(o: Pool, steps: seq<Step>, t: Pool)
    requires Fresh(o) && Leads(o, steps, t)
    requires forall i :: 0 <= i < |steps| ==> BatchOnly(steps[i])
    ensures !t.cancelled && t.batch.stage == ReturnedOk ==>
      AllReal(t.batch.got) && |t.batch.got| == |o.batch.tasks|
    ensures Load(o) == 0 && !t.cancelled && t.batch.stage == ReturnedOk ==>
      multiset(Delivered(t.batch.got)) == multiset(o.batch.tasks) && Load(t) == 0
    ensures Load(o) == 0 ==> multiset(Delivered(t.batch.got)) <= multiset(o.batch.tasks)
    ensures !t.cancelled && |o.batch.tasks| + Load(o) <= 2 * o.n ==> t.batch.stage != ReturnedErr
  {
    FreshLog(o);
    BatchRun(o, o, steps, t);
    hide Leads, Inv;
    if Load(o) == 0 {
      DeliveredWithinTasks(o, t);
    }
    if !t.cancelled && t.batch.stage == ReturnedOk {
      DeliveredSize(t.batch.got);
      BatchLoad(o, t);
      if Load(o) == 0 {
        SameSizeSameMultiset(multiset(Delivered(t.batch.got)), multiset(o.batch.tasks));
      }
    }
  }

  lemma {:induction false} CountJoin(a: seq<Task>, b: seq<Task>, k: Key)
    ensures Count(a + b, k) == Count(a, k) + Count(b, k)
  {
    if a == [] {
      assert a + b == b;
    } else {
      CountJoin(a[1..], b, k);
      assert (a + b)[1..] == a[1..] + b;
    }
  }

  lemma {:induction false} HeldAtMostAll(ws: seq<Worker>, k: Key)
    ensures Held(ws, k) <= Held(ws, None)
  {
    if ws != [] {
      HeldAtMostAll(ws[1..], k);
    }
  }

  /** Without load, everything accepted was received. */
  lemma UnloadedCounts(o: Pool, k: Key)
    requires Inv(o) && !o.cancelled && Load(o) == 0
    ensures Count(o.accepted, k) == Count(o.received, k)
  {
    HeldAtMostAll(o.workers, k);
    assert Balanced(o, k);
    assert TasksOf(o.results) == [];
  }

  lemma DeliveredCount(o: Pool, t: Pool, k: Key)
    requires Fresh(o) && Load(o) == 0 && BatchLog(o, t) && Inv(t)
    ensures Count(Delivered(t.batch.got), k) <= Count(t.batch.tasks, k)
  {
    UnloadedCounts(o, k);
    assert Balanced(t, k);
    hide Fresh, Inv, Load, Delivered, Count, Held, TasksOf;
    var b := t.batch;
    CountJoin(o.accepted, b.tasks[..b.submitted], k);
    CountJoin(o.received, Delivered(b.got), k);
    CountJoin(b.tasks[..b.submitted], b.tasks[b.submitted..], k);
    assert b.tasks == b.tasks[..b.submitted] + b.tasks[b.submitted..];
  }

  lemma DeliveredWithinTasks(o: Pool, t: Pool)
    requires Fresh(o) && Load(o) == 0 && BatchLog(o, t) && Inv(t)
    ensures multiset(Delivered(t.batch.got)) <= multiset(t.batch.tasks)
  {
    var got, tasks := Delivered(t.batch.got), t.batch.tasks;
    forall x: Task ensures multiset(got)[x] <= multiset(tasks)[x] {
      hide Fresh, BatchLog, Inv, Load, Delivered, Count;
      DeliveredCount(o, t, Some(x));
      CountIsMultiplicity(got, x);
      CountIsMultiplicity(tasks, x);
    }
  }

  lemma SameSizeSameMultiset(a: multiset<Task>, b: multiset<Task>)
    requires a <= b && |a| == |b|
    ensures a == b
  {
    assert b == a + (b - a);
    assert |b - a| == 0;
  }

  // ---------------------------------------------------------------- every batch returns

  /** Steps of the workers and of the batch, which nobody disturbs. */
  predicate ServingStep(a: Step) { a.ByWorker? || (a.ByBatch? && !a.bact.Begin?) }

  ghost predicate Stalled(s: Pool) { forall a :: ServingStep(a) ==> !Enabled(s, a) }

  ghost predicate Serving(o: Pool, s: Pool) { BatchLog(o, s) && Inv(s) && s.closer == Open && !s.cancelled }

  function BatchLeft(b: Batch): int {
    6 * (|b.tasks| - b.submitted) + (|b.tasks| - |b.got|) + (if b.checked then 0 else 1)
    + match b.stage { case Submitting => 2 case Collecting => 1 case _ => 0 }
  }

  /** Bounds the number of steps a batch still takes. */
  function ServingWork(s: Pool): int { 4 * |s.queue| + WorkersWork(s.workers) + BatchLeft(s.batch) }

  lemma BatchStepWork(s: Pool, a: BatchAct)
    requires BatchEnabled(s, a) && !a.Begin? && s.closer == Open
    ensures var t := NextBatch(s, a);
      && t.closer == Open && t.cancelled == s.cancelled && t.workers == s.workers
      && 4 * |t.queue| + BatchLeft(t.batch) < 4 * |s.queue| + BatchLeft(s.batch)
  {
  }

  lemma ServingStepWork(s: Pool, a: Step)
    requires Enabled(s, a) && ServingStep(a) && s.closer == Open
    ensures Next(s, a).closer == Open && Next(s, a).cancelled == s.cancelled
    ensures ServingWork(Next(s, a)) < ServingWork(s)
  {
    hide BatchLeft, WorkersWork;
    if a.ByWorker? {
      WorkerKeepsBatch(s, a.w, a.wact);
      WorkerStepWork(s, a.w, a.wact);
    } else {
      hide NextBatch;
      BatchStepWork(s, a.bact);
    }
  }

  lemma {:induction false} ServingRun(o: Pool, s: Pool, steps: seq<Step>, t: Pool)
    requires Fresh(o) && Serving(o, s) && Leads(s, steps, t)
    requires forall i :: 0 <= i < |steps| ==> ServingStep(steps[i])
    ensures Serving(o, t) && |steps| + ServingWork(t) <= ServingWork(s)
    decreases |steps|
  {
    hide BatchLog, Inv, Enabled, Next, Fresh, ServingWork;
    if steps != [] {
      assert ServingStep(steps[0]) && BatchOnly(steps[0]);
      InvStep(s, steps[0]);
      BatchLogStep(o, s, steps[0]);
      ServingStepWork(s, steps[0]);
      ServingRun(o, Next(s, steps[0]), steps[1..], t);
    }
  }

  /** When no worker can step, there is nothing for them to do or no room for their results. */
  lemma WorkersRested(s: Pool)
    requires Shape(s) && s.closer == Open && !s.cancelled
    requires forall w, a :: !WorkerEnabled(s, w, a)
    ensures Load(s) == 0 || s.results != [] || s.n == 0
  {
    if s.results == [] && s.n > 0 {
      forall w | 0 <= w < |s.workers|
        ensures s.workers[w] == Ready
      {
        assert !WorkerEnabled(s, w, FinishDownload(true)) && !WorkerEnabled(s, w, Send);
      }
      assert !WorkerEnabled(s, 0, Take);
      IdleHoldNothing(s.workers, None);
    }
  }

  lemma StalledHasReturned(o: Pool, s: Pool)
    requires Fresh(o) && Serving(o, s) && s.n > 0 && Stalled(s)
    ensures s.batch.stage == ReturnedOk || s.batch.stage == ReturnedErr
  {
    BatchLoad(o, s);
    forall w, a
      ensures !WorkerEnabled(s, w, a)
    {
      assert !Enabled(s, ByWorker(w, a));
    }
    WorkersRested(s);
    hide Fresh, Load, Inv;
    assert !Enabled(s, ByBatch(Check)) && !Enabled(s, ByBatch(Submit)) && !Enabled(s, ByBatch(StartCollecting));
    assert !Enabled(s, ByBatch(Collect)) && !Enabled(s, ByBatch(Return));
  }

  /**
   Left to the workers and itself, DownloadBatch on an open pool with workers returns: every
   schedule ends within ServingWork(o) steps, and when nothing can step it has returned, with
   nil if the batch fits into the queue beside the load.
   */
  lemma BatchReturns(o: Pool, steps: seq<Step>, t: Pool)
    requires Fresh(o) && o.n > 0 && o.closer == Open
    requires Leads(o, steps, t) && forall i :: 0 <= i < |steps| ==> ServingStep(steps[i])
    ensures |steps| <= ServingWork(o)
    ensures Stalled(t) ==> t.batch.stage == ReturnedOk || t.batch.stage == ReturnedErr
    ensures Stalled(t) && |o.batch.tasks| + Load(o) <= 2 * o.n ==> t.batch.stage == ReturnedOk
  {
    FreshLog(o);
    ServingRun(o, o, steps, t);
    assert ServingWork(t) >= 0;
    if Stalled(t) {
      hide Fresh, Inv, Leads;
      StalledHasReturned(o, t);
    }
  }

  // ---------------------------------------------------------------- what a cancellation stops

  lemma {:induction false} CancelledRun(s: Pool, steps: seq<Step>, t: Pool)
    requires s.closer == Open && s.cancelled && Leads(s, steps, t)
    requires forall i :: 0 <= i < |steps| ==> ServingStep(steps[i])
    ensures t.closer == Open && t.cancelled && |steps| + ServingWork(t) <= ServingWork(s)
    decreases |steps|
  {
    hide Enabled, Next, ServingWork;
    if steps != [] {
      assert ServingStep(steps[0]);
      ServingStepWork(s, steps[0]);
      CancelledRun(Next(s, steps[0]), steps[1..], t);
    }
  }

  lemma StalledHasStopped(s: Pool)
    requires s.cancelled && Stalled(s) && (s.batch.stage == Submitting ==> s.batch.submitted <= |s.batch.tasks|)
    requires s.batch.stage == Collecting ==> |s.batch.got| <= |s.batch.tasks|
    ensures AllStopped(s) && (s.batch.stage == ReturnedOk || s.batch.stage == ReturnedErr)
  {
    forall w | 0 <= w < |s.workers|
      ensures s.workers[w] == Stopped
    {
      assert !Enabled(s, ByWorker(w, ExitCancelled)) && !Enabled(s, ByWorker(w, Drop));
      assert !Enabled(s, ByWorker(w, FinishDownload(true)));
    }
    assert !Enabled(s, ByBatch(Check)) && !Enabled(s, ByBatch(Submit)) && !Enabled(s, ByBatch(StartCollecting));
    assert !Enabled(s, ByBatch(GiveUp)) && !Enabled(s, ByBatch(Return));
  }

  /**
   After a cancellation everything comes to an end by itself: every schedule of an open pool is
   finite, and when it is over all workers have stopped and the batch that o began has returned.
   */
  lemma CancelledStops(o: Pool, before: seq<Step>, s: Pool, steps: seq<Step>, t: Pool)
    requires Fresh(o) && Leads(o, before, s) && forall i :: 0 <= i < |before| ==> BatchOnly(before[i])
    requires s.closer == Open && s.cancelled
    requires Leads(s, steps, t) && forall i :: 0 <= i < |steps| ==> ServingStep(steps[i])
    ensures |steps| + ServingWork(t) <= ServingWork(s)
    ensures Stalled(t) ==> AllStopped(t) && (t.batch.stage == ReturnedOk || t.batch.stage == ReturnedErr)
  {
    hide Leads, Inv, BatchLog, ServingWork, Stalled, AllStopped;
    FreshLog(o);
    hide Fresh;
    CancelledRun(s, steps, t);
    BatchRun(o, o, before, s);
    forall i | 0 <= i < |steps|
      ensures BatchOnly(steps[i])
    {
      assert ServingStep(steps[i]);
    }
    BatchRun(o, s, steps, t);
    BatchSizes(o, t);
    if Stalled(t) {
      StalledHasStopped(t);
    }
  }

  lemma BatchSizes(o: Pool, s: Pool)
    requires BatchLog(o, s)
    ensures s.batch.submitted <= |s.batch.tasks| && |s.batch.got| <= |s.batch.tasks|
  {
  }

  /** A collector that is cancelled may return at once with what it has, even if results are there. */
  lemma CancelledReturnsAtOnce(s: Pool)
    requires s.cancelled && s.batch.stage == Collecting && |s.batch.got| < |s.batch.tasks|
    ensures exists t :: Leads(s, [ByBatch(GiveUp)], t) && t == s.(batch := s.batch.(stage := ReturnedOk))
  {
    LeadsOne(s, ByBatch(GiveUp));
  }

  /**
   A cancelled pool chooses freely: a worker may stop with tasks still queued, or drop a
   finished result, and a collector may still take one.
   */
  lemma CancelledChoices(s: Pool, w: nat)
    requires s.cancelled && w < |s.workers|
    ensures s.workers[w].Ready? ==>
      Leads(s, [ByWorker(w, ExitCancelled)], s.(workers := s.workers[w := Stopped]))
    ensures s.workers[w].Sending? ==>
      Leads(s, [ByWorker(w, Drop)],
            s.(workers := s.workers[w := Stopped], abandoned := s.abandoned + [s.workers[w].result.task]))
  {
    if s.workers[w].Ready? {
      LeadsOne(s, ByWorker(w, ExitCancelled));
    } else if s.workers[w].Sending? {
      LeadsOne(s, ByWorker(w, Drop));
    }
  }

  /** Whoever receives gets the oldest result, whether cancelled or closed by now or not. */
  lemma OldestFirst(s: Pool)
    requires s.results != []
    ensures var left := s.(results := s.results[1..], received := s.received + [s.results[0].task]);
      && Leads(s, [ByClient(Receive)], left)
      && (s.batch.stage == Collecting && |s.batch.got| < |s.batch.tasks| ==>
            Leads(s, [ByBatch(Collect)], left.(batch := s.batch.(got := s.batch.got + [Some(s.results[0])]))))
  {
    LeadsOne(s, ByClient(Receive));
    if s.batch.stage == Collecting && |s.batch.got| < |s.batch.tasks| {
      LeadsOne(s, ByBatch(Collect));
    }
  }

  // ---------------------------------------------------------------- from a queue to a result

  /**
   A worker, cancelled or not, can take the oldest task, and its result, with the outcome of
   the download, comes behind the others while there is room.
   */
  lemma WorkerServes(s: Pool, w: nat, ok: bool)
    requires w < |s.workers| && s.workers[w].Ready? && s.queue != [] && !ResultsClosed(s)
    requires |s.results| < 2 * s.n
    ensures Leads(s, [ByWorker(w, Take), ByWorker(w, FinishDownload(ok)), ByWorker(w, Send)],
                  s.(queue := s.queue[1..], results := s.results + [Result(s.queue[0], ok)]))
  {
    var a, b, c := ByWorker(w, Take), ByWorker(w, FinishDownload(ok)), ByWorker(w, Send);
    var t := Next(Next(s, a), b);
    assert t.workers[w := Ready] == s.workers;
    LeadsOne(t, c);
    LeadsTwo(s, a, b, [c], Next(t, c));
    assert [a, b] + [c] == [a, b, c];
  }

  /** A task submitted from outside to an open pool with nothing queued, room and a free worker can come back. */
  lemma SubmitServed(s: Pool, x: Task, w: nat, ok: bool)
    requires s.closer == Open && !s.cancelled && s.queue == [] && s.results == []
    requires w < |s.workers| && s.workers[w].Ready? && s.n > 0
    ensures exists steps, t ::
      && Leads(s, steps, t) && t.results == [Result(x, ok)] && t.queue == [] && t.workers == s.workers
      && t.accepted == s.accepted + [x] && t.received == s.received && t.approved == s.approved
  {
    hide Leads, Enabled, Next, NextClient;
    var a, b := ByClient(SubmitCheck(x)), ByClient(SubmitSend(x));
    var serve := [ByWorker(w, Take), ByWorker(w, FinishDownload(ok)), ByWorker(w, Send)];
    SubmitQueues(s, x);
    var u := s.(queue := [x], accepted := s.accepted + [x]);
    WorkerServes(u, w, ok);
    var t := u.(queue := u.queue[1..], results := u.results + [Result(x, ok)]);
    LeadsTwo(s, a, b, serve, t);
  }

  /** With room in the queue, a Submit that nobody interrupts puts its task there. */
  lemma SubmitQueues(s: Pool, x: Task)
    requires s.closer == Open && !s.cancelled && s.queue == [] && s.n > 0
    ensures var a, b := ByClient(SubmitCheck(x)), ByClient(SubmitSend(x));
      && Enabled(s, a) && Enabled(Next(s, a), b)
      && Next(Next(s, a), b) == s.(queue := [x], accepted := s.accepted + [x])
  {
    assert s.approved + multiset{x} - multiset{x} == s.approved;
  }

  // ---------------------------------------------------------------- when the next batch is served

  /** An uncancelled run from the next call of DownloadBatch, with a batch of at most 2 * workerCount tasks. */
  ghost predicate NextRun(o: Pool, tasks: seq<Task>, steps: seq<Step>, t: Pool)
    requires BatchEnabled(o, Begin(tasks))
  {
    && |tasks| <= 2 * o.n && Leads(NextBatch(o, Begin(tasks)), steps, t) && !t.cancelled
    && forall i :: 0 <= i < |steps| ==> BatchOnly(steps[i])
  }

  /** The batch was not refused, and if it returned, then with the results of its own tasks. */
  ghost predicate Served(tasks: seq<Task>, t: Pool) {
    && t.batch.stage != ReturnedErr
    && (t.batch.stage == ReturnedOk ==> multiset(Delivered(t.batch.got)) == multiset(tasks))
  }

  ghost predicate NextServed(o: Pool)
    requires BatchEnabled(o, Begin([]))
  {
    forall tasks: seq<Task>, steps: seq<Step>, t: Pool :: NextRun(o, tasks, steps, t) ==> Served(tasks, t)
  }

  lemma BeginsFresh(o: Pool, tasks: seq<Task>)
    requires Inv(o) && !o.cancelled && BatchEnabled(o, Begin(tasks))
    ensures Fresh(NextBatch(o, Begin(tasks))) && Load(NextBatch(o, Begin(tasks))) == Load(o)
  {
    InvStep(o, ByBatch(Begin(tasks)));
  }

  lemma WorkerIgnoresBatch(s: Pool, w: nat, a: WorkerAct, b: Batch)
    requires WorkerEnabled(s, w, a)
    ensures WorkerEnabled(s.(batch := b), w, a)
    ensures NextWorker(s.(batch := b), w, a) == NextWorker(s, w, a).(batch := b)
  {
  }

  lemma DrainStep(s: Pool, w: nat, a: WorkerAct)
    requires Inv(s) && s.closer == Open && !s.cancelled && WorkerEnabled(s, w, a)
    ensures var t := NextWorker(s, w, a);
      && Inv(t) && t.closer == Open && !t.cancelled && t.n == s.n && Load(t) == Load(s) && Work(t) < Work(s)
  {
    assert Enabled(s, ByWorker(w, a));
    InvStep(s, ByWorker(w, a));
    hide Inv, Load;
    WorkerStepWork(s, w, a);
    LoadWorker(s, w, a);
  }

  /** The workers can run on until none can step; with any batch in progress the run is the same. */
  lemma {:induction false} DrainRun(s: Pool) returns (steps: seq<Step>, t: Pool)
    requires Inv(s) && s.closer == Open && !s.cancelled
    ensures Inv(t) && t.closer == Open && !t.cancelled && t.n == s.n && Load(t) == Load(s)
    ensures forall w, a :: !WorkerEnabled(t, w, a)
    ensures forall i :: 0 <= i < |steps| ==> steps[i].ByWorker?
    ensures forall b :: Leads(s.(batch := b), steps, t.(batch := b))
    decreases Work(s)
  {
    hide Inv, WorkerEnabled, NextWorker, Load, Work;
    if w, a :| WorkerEnabled(s, w, a) {
      var e := ByWorker(w, a);
      var u := NextWorker(s, w, a);
      DrainStep(s, w, a);
      var more;
      more, t := DrainRun(u);
      steps := [e] + more;
      forall b
        ensures Leads(s.(batch := b), steps, t.(batch := b))
      {
        WorkerIgnoresBatch(s, w, a, b);
        assert steps[1..] == more;
        assert Leads(u.(batch := b), more, t.(batch := b));
      }
    } else {
      steps, t := [], s;
    }
  }

  /** A collector that has submitted its one task takes the oldest result and returns. */
  lemma CollectOne(s: Pool, x: Task) returns (t: Pool)
    requires s.results != [] && s.batch == Batch([x], 1, false, [], Submitting)
    ensures Leads(s, [ByBatch(StartCollecting), ByBatch(Collect)] + [ByBatch(Return)], t) && t.cancelled == s.cancelled
    ensures t.batch.stage == ReturnedOk && Delivered(t.batch.got) == [s.results[0].task]
  {
    hide Leads, Delivered;
    var c, d, e := ByBatch(StartCollecting), ByBatch(Collect), ByBatch(Return);
    var u := Next(s, c);
    var v := Next(u, d);
    t := Next(v, e);
    DeliveredOne(s.results[0]);
    assert [] + [Some(s.results[0])] == [Some(s.results[0])];
    LeadsOne(v, e);
    LeadsTwo(s, c, d, [e], t);
  }

  lemma DeliveredOne(r: Result)
    ensures Delivered([Some(r)]) == [r.task]
  {
    assert [Some(r)][..0] == [];
  }

  lemma LeadsOne(s: Pool, a: Step)
    requires Enabled(s, a)
    ensures Leads(s, [a], Next(s, a))
  {
    assert [a][1..] == [];
  }

  /** A left-over result goes to the next batch, or that batch is refused. */
  lemma StealRun(q: Pool, x: Task) returns (steps: seq<Step>, t: Pool)
    requires q.closer == Open && !q.cancelled && q.results != [] && q.batch == NewBatch([x])
    ensures Leads(q, steps, t) && !t.cancelled && forall i :: 0 <= i < |steps| ==> BatchOnly(steps[i])
    ensures t.batch.stage == ReturnedErr ||
      (t.batch.stage == ReturnedOk && Delivered(t.batch.got) == [q.results[0].task])
  {
    var a, b := ByBatch(Check), ByBatch(Submit);
    var u := Next(q, a);
    var v := Next(u, b);
    var more := [];
    t := v;
    assert Leads(v, [], v);
    if |q.queue| < Capacity(q) {
      more := [ByBatch(StartCollecting), ByBatch(Collect)] + [ByBatch(Return)];
      t := CollectOne(v, x);
    }
    hide Leads, Enabled, Next;
    LeadsTwo(q, a, b, more, t);
    steps := [a, b] + more;
  }

  lemma {:induction false} LeadsJoin(s: Pool, steps: seq<Step>, t: Pool, more: seq<Step>, u: Pool)
    requires Leads(s, steps, t) && Leads(t, more, u)
    ensures Leads(s, steps + more, u)
    decreases |steps|
  {
    hide Enabled, Next;
    if steps == [] {
      assert steps + more == more;
    } else {
      LeadsJoin(Next(s, steps[0]), steps[1..], t, more, u);
      assert (steps + more)[1..] == steps[1..] + more;
    }
  }

  lemma LoadedIsNotServed(o: Pool)
    requires Inv(o) && o.n > 0 && o.closer == Open && !o.cancelled && BatchEnabled(o, Begin([])) && Load(o) > 0
    ensures !NextServed(o)
  {
    hide Leads;
    var drain, q := DrainRun(o);
    WorkersRested(q);
    hide Inv, Load, WorkerEnabled, Enabled, Next;
    var y := q.results[0].task;
    var x := y.(size := y.size + 1);
    var q' := q.(batch := NewBatch([x]));
    var steal, t := StealRun(q', x);
    var o' := NextBatch(o, Begin([x]));
    assert o' == o.(batch := NewBatch([x]));
    LeadsJoin(o', drain, q', steal, t);
    assert multiset([y])[x] == 0 && multiset([x])[x] == 1;
    assert NextRun(o, [x], drain + steal, t) && !Served([x], t);
  }

  lemma UnloadedIsServed(o: Pool, tasks: seq<Task>, steps: seq<Step>, t: Pool)
    requires Inv(o) && !o.cancelled && BatchEnabled(o, Begin(tasks)) && Load(o) == 0
    requires NextRun(o, tasks, steps, t)
    ensures Served(tasks, t)
  {
    BeginsFresh(o, tasks);
    var o' := NextBatch(o, Begin(tasks));
    assert o'.n == o.n && o'.batch.tasks == tasks;
    hide Inv, Leads, BatchOnly, Fresh, Load, NextBatch, Delivered;
    BatchTheorem(o', steps, t);
  }

  /**
   The next DownloadBatch is never refused and returns the results of its own tasks, for
   every batch of up to 2 * workerCount tasks and in every uncancelled run, exactly when the
   pool has nothing left over from before.  A refused or cancelled batch, or a bare Submit,
   leaves something over.
   */
  lemma NextServedIff(o: Pool)
    requires Inv(o) && o.n > 0 && o.closer == Open && !o.cancelled && BatchEnabled(o, Begin([]))
    ensures NextServed(o) <==> Load(o) == 0
  {
    hide Inv, NextRun, Served, Load;
    if Load(o) == 0 {
      forall tasks: seq<Task>, steps: seq<Step>, t: Pool | NextRun(o, tasks, steps, t)
        ensures Served(tasks, t)
      {
        UnloadedIsServed(o, tasks, steps, t);
      }
    } else {
      LoadedIsNotServed(o);
    }
  }

  // ---------------------------------------------------------------- a batch larger than the queue

  /** The state after i accepted submits and no worker step. */
  function Filled(n: nat, tasks: seq<Task>, i: nat): Pool
    requires i <= |tasks|
  {
    var s := Started(n, tasks);
    s.(queue := tasks[..i], accepted := tasks[..i], batch := s.batch.(submitted := i))
  }

  lemma LeadsTwo(s: Pool, a: Step, b: Step, rest: seq<Step>, t: Pool)
    requires Enabled(s, a) && Enabled(Next(s, a), b) && Leads(Next(Next(s, a), b), rest, t)
    ensures Leads(s, [a, b] + rest, t)
  {
    hide Enabled, Next;
    var steps := [a, b] + rest;
    assert steps[1..] == [b] + rest && steps[1..][1..] == rest;
    assert Leads(Next(s, a), steps[1..], t);
  }

  lemma FillStep(n: nat, tasks: seq<Task>, i: nat)
    requires i < 2 * n && i < |tasks|
    ensures var s := Filled(n, tasks, i);
      && Enabled(s, ByBatch(Check)) && Enabled(Next(s, ByBatch(Check)), ByBatch(Submit))
      && Next(Next(s, ByBatch(Check)), ByBatch(Submit)) == Filled(n, tasks, i + 1)
  {
    assert tasks[..i + 1] == tasks[..i] + [tasks[i]];
  }

  /** From i accepted submits to m of them. */
  lemma {:induction false} FillRun(n: nat, tasks: seq<Task>, i: nat, m: nat) returns (steps: seq<Step>)
    requires i <= m <= 2 * n && m <= |tasks|
    ensures Leads(Filled(n, tasks, i), steps, Filled(n, tasks, m))
    ensures forall j :: 0 <= j < |steps| ==> BatchOnly(steps[j])
    decreases m - i
  {
    hide Enabled, Next;
    steps := [];
    if i < m {
      FillStep(n, tasks, i);
      var more := FillRun(n, tasks, i + 1, m);
      LeadsTwo(Filled(n, tasks, i), ByBatch(Check), ByBatch(Submit), more, Filled(n, tasks, m));
      steps := [ByBatch(Check), ByBatch(Submit)] + more;
    }
  }

  lemma FilledNone(n: nat, tasks: seq<Task>)
    ensures Filled(n, tasks, 0) == Started(n, tasks)
  {
    assert tasks[..0] == [];
  }

  /** A larger batch is refused in some uncancelled run, and leaves 2 * workerCount tasks in the pool. */
  lemma LargerBatchCanBeRefused(n: nat, tasks: seq<Task>)
    requires |tasks| > 2 * n
    ensures exists steps, t ::
      && Leads(Started(n, tasks), steps, t) && (forall i :: 0 <= i < |steps| ==> BatchOnly(steps[i]))
      && !t.cancelled && t.batch.stage == ReturnedErr && t.queue == tasks[..2 * n]
  {
    FilledNone(n, tasks);
    var steps := FillRun(n, tasks, 0, 2 * n);
    var s := Filled(n, tasks, 2 * n);
    var a, b := ByBatch(Check), ByBatch(Submit);
    var t := Next(Next(s, a), b);
    assert Leads(t, [], t);
    LeadsTwo(s, a, b, [], t);
    hide Leads, Enabled, Next;
    LeadsJoin(Started(n, tasks), steps, s, [a, b] + [], t);
  }

  /** "Uncancelled" matters: a cancelled batch can return nil with no result at all. */
  lemma CancelledCanReturnNil(n: nat, tasks: seq<Task>)
    requires |tasks| <= 2 * n && tasks != []
    ensures exists steps, t ::
      && Leads(Started(n, tasks), steps, t) && (forall i :: 0 <= i < |steps| ==> BatchOnly(steps[i]))
      && t.batch.stage == ReturnedOk && t.batch.got == []
  {
    FilledNone(n, tasks);
    var steps := FillRun(n, tasks, 0, |tasks|);
    var s := Filled(n, tasks, |tasks|);
    var a, b, c := ByBatch(StartCollecting), ByClient(Cancel), ByBatch(GiveUp);
    var u := Next(Next(s, a), b);
    LeadsOne(u, c);
    LeadsTwo(s, a, b, [c], Next(u, c));
    hide Leads, Enabled, Next;
    LeadsJoin(Started(n, tasks), steps, s, [a, b] + [c], Next(u, c));
  }

  /** No uncancelled run of a batch on a new pool is refused. */
  ghost predicate NeverRefused(n: nat, tasks: seq<Task>) {
    forall steps: seq<Step>, t: Pool ::
      Leads(Started(n, tasks), steps, t) && (forall i :: 0 <= i < |steps| ==> BatchOnly(steps[i])) ==>
        t.cancelled || t.batch.stage != ReturnedErr
  }

  lemma StartedFresh(n: nat, tasks: seq<Task>)
    ensures Fresh(Started(n, tasks)) && Load(Started(n, tasks)) == 0
  {
    StartedInv(n, tasks);
    IdleHoldNothing(Started(n, tasks).workers, None);
  }

  lemma NeverRefusedIff(n: nat, tasks: seq<Task>)
    ensures NeverRefused(n, tasks) <==> |tasks| <= 2 * n
  {
    StartedFresh(n, tasks);
    hide Leads, BatchOnly, Fresh, Load;
    if |tasks| <= 2 * n {
      forall steps: seq<Step>, t: Pool |
        Leads(Started(n, tasks), steps, t) && (forall i :: 0 <= i < |steps| ==> BatchOnly(steps[i]))
        ensures t.cancelled || t.batch.stage != ReturnedErr
      {
        BatchTheorem(Started(n, tasks), steps, t);
      }
    } else {
      LargerBatchCanBeRefused(n, tasks);
    }
  }

  // ---------------------------------------------------------------- Submit against Close

  /** The send of some Submit on the tasks channel. */
  predicate IsSubmit(a: Step) {
    match a
    case ByBatch(x) => x.Submit?
    case ByClient(x) => x.SubmitSend?
    case _ => false
  }

  /** Submit looks at the context only, so it panics exactly when it sends after Close has closed the channel. */
  lemma SubmitPanicsIff(s: Pool, a: Step)
    requires Enabled(s, a) && !s.submitPanicked
    ensures Next(s, a).submitPanicked <==> TasksClosed(s) && IsSubmit(a)
  {
    hide WorkerEnabled;
    match a {
      case ByWorker(w, x) => hide NextClient, NextBatch, NextClose, Accept, TakeResult;
      case ByClient(x) => hide NextWorker, NextBatch, NextClose;
      case ByBatch(x) => hide NextWorker, NextClient, NextClose;
      case ByClose(x) => hide NextWorker, NextClient, NextBatch;
    }
  }

  /** Close cancels the context last, and a panic needs its first step. */
  ghost predicate CloseOrder(s: Pool) {
    (s.submitPanicked ==> TasksClosed(s)) && (s.closer == Closed ==> s.cancelled)
  }

  lemma CloseOrderOthers(s: Pool, a: Step)
    requires CloseOrder(s) && Enabled(s, a) && !a.ByClose?
    ensures Next(s, a).closer == s.closer && (s.cancelled ==> Next(s, a).cancelled)
  {
    hide WorkerEnabled;
  }

  lemma CloseOrderStep(s: Pool, a: Step)
    requires CloseOrder(s) && Enabled(s, a)
    ensures CloseOrder(Next(s, a))
  {
    if a.ByClose? {
      hide NextWorker, NextClient, NextBatch;
    } else {
      CloseOrderOthers(s, a);
      if !s.submitPanicked {
        SubmitPanicsIff(s, a);
      }
      hide Next;
    }
  }

  lemma {:induction false} CloseOrderRun(s: Pool, steps: seq<Step>, t: Pool)
    requires CloseOrder(s) && Leads(s, steps, t)
    ensures CloseOrder(t)
    decreases |steps|
  {
    hide CloseOrder, Enabled, Next;
    if steps != [] {
      CloseOrderStep(s, steps[0]);
      CloseOrderRun(Next(s, steps[0]), steps[1..], t);
    }
  }

  /** In every run no Submit panics before Close is called, and none passes its check after Close returned. */
  lemma PanicOnlyWhileClosing(n: nat, tasks: seq<Task>, steps: seq<Step>, t: Pool)
    requires Leads(Started(n, tasks), steps, t)
    ensures t.submitPanicked ==> TasksClosed(t)
    ensures t.closer == Closed ==> forall x :: !ClientEnabled(t, SubmitCheck(x))
    ensures t.closer == Closed && BatchEnabled(t, Check) ==> NextBatch(t, Check).batch.stage == ReturnedErr
  {
    CloseOrderRun(Started(n, tasks), steps, t);
    hide Leads;
  }

  /** Some continuation of s makes a Submit panic. */
  ghost predicate CanPanic(s: Pool) { exists steps, t :: Leads(s, steps, t) && t.submitPanicked }

  /** The batch has looked at the context for its next task, and not yet sent it. */
  predicate AboutToSend(s: Pool) {
    s.batch.stage == Submitting && s.batch.submitted < |s.batch.tasks| && s.batch.checked
  }

  ghost predicate NoSubmit(s: Pool) {
    s.cancelled && s.approved == multiset{} && !AboutToSend(s) && !s.submitPanicked
  }

  lemma NoSubmitStep(s: Pool, a: Step)
    requires NoSubmit(s) && Enabled(s, a)
    ensures NoSubmit(Next(s, a))
  {
    hide WorkerEnabled;
    match a {
      case ByWorker(w, x) => hide NextClient, NextBatch, NextClose, Accept, TakeResult;
      case ByClient(x) => hide NextWorker, NextBatch, NextClose;
      case ByBatch(x) => hide NextWorker, NextClient, NextClose;
      case ByClose(x) => hide NextWorker, NextClient, NextBatch;
    }
  }

  lemma {:induction false} NoSubmitRun(s: Pool, steps: seq<Step>, t: Pool)
    requires NoSubmit(s) && Leads(s, steps, t)
    ensures NoSubmit(t)
    decreases |steps|
  {
    hide NoSubmit, Enabled, Next;
    if steps != [] {
      NoSubmitStep(s, steps[0]);
      NoSubmitRun(Next(s, steps[0]), steps[1..], t);
    }
  }

  /** A send that is enabled now panics once Close has been called. */
  lemma SendPanics(s: Pool, a: Step) returns (steps: seq<Step>, t: Pool)
    requires IsSubmit(a) && Enabled(s, a)
    ensures Leads(s, steps, t) && t.submitPanicked
  {
    var c := ByClose(CloseTasks);
    if s.closer == Open {
      t := Next(Next(s, c), a);
      assert Leads(t, [], t);
      LeadsTwo(s, c, a, [], t);
      steps := [c, a] + [];
    } else {
      LeadsOne(s, a);
      steps, t := [a], Next(s, a);
    }
  }

  /**
   Some continuation panics exactly when some Submit can pass its check of the context, or
   has passed it and not yet sent: Close cancels too late to prevent it.
   */
  lemma CanPanicIff(s: Pool)
    requires !s.submitPanicked
    ensures CanPanic(s) <==> !s.cancelled || s.approved != multiset{} || AboutToSend(s)
  {
    if AboutToSend(s) {
      var steps, t := SendPanics(s, ByBatch(Submit));
    } else if x :| x in s.approved {
      var steps, t := SendPanics(s, ByClient(SubmitSend(x)));
    } else if !s.cancelled {
      var x := Task("", "", 0, "");
      var a := ByClient(SubmitCheck(x));
      var steps, t := SendPanics(Next(s, a), ByClient(SubmitSend(x)));
      hide Enabled, Next;
      assert ([a] + steps)[1..] == steps;
      assert Leads(s, [a] + steps, t);
    } else {
      assert NoSubmit(s);
      forall steps, t | Leads(s, steps, t)
        ensures !t.submitPanicked
      {
        NoSubmitRun(s, steps, t);
      }
    }
  }

  /** The panic happens: Close comes between the check of the context and the send. */
  lemma SubmitCanPanic(n: nat, tasks: seq<Task>)
    requires tasks != []
    ensures exists steps, t :: Leads(Started(n, tasks), steps, t) && !t.cancelled && t.submitPanicked
  {
    var s := Started(n, tasks);
    var a, b, c := ByBatch(Check), ByClose(CloseTasks), ByBatch(Submit);
    var u := Next(Next(s, a), b);
    LeadsOne(u, c);
    LeadsTwo(s, a, b, [c], Next(u, c));
  }

  // ---------------------------------------------------------------- Close

  /** The steps left when nobody submits, receives or cancels while Close waits. */
  predicate ClosingStep(a: Step) {
    match a
    case ByWorker(_, x) => !x.ExitCancelled? && !x.Drop?
    case ByClose(x) => !x.CloseTasks?
    case _ => false
  }

  ghost predicate Stuck(s: Pool) { forall a :: ClosingStep(a) ==> !Enabled(s, a) }

  ghost predicate ClosingInv(s: Pool) {
    && Shape(s) && s.closer != Open
    && (s.closer != Closed ==> !s.cancelled)
    && (ResultsClosed(s) ==> s.queue == [])
  }

  lemma LoadWorker(s: Pool, w: nat, a: WorkerAct)
    requires WorkerEnabled(s, w, a) && !ResultsClosed(s) && a != Drop
    ensures Load(NextWorker(s, w, a)) == Load(s) && NextWorker(s, w, a).n == s.n
  {
    hide Held;
    var x := NextWorker(s, w, a).workers[w];
    HeldUpdate(s.workers, w, x, None);
    assert NextWorker(s, w, a).workers == s.workers[w := x];
  }

  lemma LoadStep(s: Pool, a: Step)
    requires ClosingInv(s) && Enabled(s, a) && ClosingStep(a)
    ensures Load(Next(s, a)) == Load(s) && Next(s, a).n == s.n
  {
    hide Held;
    if a.ByWorker? {
      assert !ResultsClosed(s);
      hide Load, NextWorker, ClosingInv;
      LoadWorker(s, a.w, a.wact);
    }
  }

  lemma ClosingInvStep(s: Pool, a: Step)
    requires ClosingInv(s) && Enabled(s, a) && ClosingStep(a)
    ensures ClosingInv(Next(s, a))
  {
    ShapeStep(s, a);
    if a == ByClose(CloseResults) && s.n > 0 {
      assert s.workers[0] == Stopped;
    }
  }

  function WorkerWork(w: Worker): nat {
    match w
    case Ready => 1
    case Downloading(_) => 3
    case Sending(_) => 2
    case Stopped => 0
  }

  function WorkersWork(ws: seq<Worker>): nat {
    if ws == [] then 0 else WorkerWork(ws[0]) + WorkersWork(ws[1..])
  }

  function Work(s: Pool): nat {
    4 * |s.queue| + WorkersWork(s.workers)
    + match s.closer { case Open => 3 case Waiting => 2 case Drained => 1 case Closed => 0 }
  }

  lemma {:induction false} WorkUpdate(ws: seq<Worker>, w: nat, x: Worker)
    requires w < |ws|
    ensures WorkersWork(ws[w := x]) + WorkerWork(ws[w]) == WorkersWork(ws) + WorkerWork(x)
    decreases w
  {
    if w > 0 {
      WorkUpdate(ws[1..], w - 1, x);
      assert ws[w := x][1..] == ws[1..][w - 1 := x];
    } else {
      assert ws[w := x][1..] == ws[1..];
    }
  }

  lemma WorkerStepWork(s: Pool, w: nat, a: WorkerAct)
    requires WorkerEnabled(s, w, a) && !ResultsClosed(s)
    ensures var t := NextWorker(s, w, a);
      && 4 * |t.queue| + WorkersWork(t.workers) < 4 * |s.queue| + WorkersWork(s.workers)
      && t.closer == s.closer && t.cancelled == s.cancelled
  {
    WorkUpdate(s.workers, w, NextWorker(s, w, a).workers[w]);
  }

  lemma WorkStep(s: Pool, a: Step)
    requires ClosingInv(s) && Enabled(s, a) && ClosingStep(a)
    ensures Work(Next(s, a)) < Work(s)
  {
    if a.ByWorker? {
      assert !ResultsClosed(s);
      hide ClosingInv;
      WorkerStepWork(s, a.w, a.wact);
    }
  }

  /** Every schedule of a closing pool is finite: at most Work(s) more steps. */
  lemma {:induction false} ClosingRun(s: Pool, steps: seq<Step>, t: Pool)
    requires ClosingInv(s) && Leads(s, steps, t)
    requires forall i :: 0 <= i < |steps| ==> ClosingStep(steps[i])
    ensures ClosingInv(t) && Load(t) == Load(s) && t.n == s.n && |steps| + Work(t) <= Work(s)
    decreases |steps|
  {
    hide ClosingInv, Enabled, Next, ClosingStep, Load, Work;
    if steps != [] {
      var u := Next(s, steps[0]);
      ClosingInvStep(s, steps[0]);
      LoadStep(s, steps[0]);
      WorkStep(s, steps[0]);
      ClosingRun(u, steps[1..], t);
    }
  }

  /** A closing pool with no step left has either returned or is blocked on a full results channel. */
  lemma StuckMeansClosedOrFull(s: Pool)
    requires ClosingInv(s) && Stuck(s)
    ensures s.closer == Closed || Load(s) > Capacity(s)
  {
    if s.closer != Closed {
      assert !Enabled(s, ByClose(CloseCancel)) && !Enabled(s, ByClose(CloseResults));
      var w: nat :| w < |s.workers| && s.workers[w] != Stopped;
      assert !Enabled(s, ByWorker(w, Take)) && !Enabled(s, ByWorker(w, ExitClosed));
      assert !Enabled(s, ByWorker(w, FinishDownload(true))) && !Enabled(s, ByWorker(w, Send));
      HeldUpdate(s.workers, w, Stopped, None);
    }
  }

  /**
   Close, with nobody else submitting, receiving or cancelling: every schedule ends within
   Work(s) steps, and when it has ended Close has returned exactly when the tasks still
   queued, held or undrained at the call fit into the results channel.
   */
  lemma CloseReturnsIffFits(s: Pool, steps: seq<Step>, t: Pool)
    requires Inv(s) && s.closer == Waiting && !s.cancelled
    requires Leads(s, steps, t) && forall i :: 0 <= i < |steps| ==> ClosingStep(steps[i])
    ensures |steps| <= Work(s)
    ensures Stuck(t) ==> (t.closer == Closed <==> Load(s) <= 2 * s.n)
  {
    ClosingRun(s, steps, t);
    hide Leads;
    if t.closer == Closed {
      IdleHoldNothing(t.workers, None);
    } else if Stuck(t) {
      StuckMeansClosedOrFull(t);
    }
  }

  /** The blocked case happens: any batch of more than 2 * workerCount tasks can lead to it. */
  lemma CloseCanBlock(n: nat, tasks: seq<Task>)
    requires n > 0 && |tasks| > 2 * n
    ensures exists steps, s ::
      && Leads(Started(n, tasks), steps, s) && s.closer == Waiting && !s.cancelled && Load(s) > 2 * s.n
  {
    var m := 2 * n;
    FilledNone(n, tasks);
    var steps := FillRun(n, tasks, 0, 2 * n);
    var s := Filled(n, tasks, m);
    var a, b, c, d := ByWorker(0, Take), ByBatch(Check), ByBatch(Submit), ByClose(CloseTasks);
    var s1 := Next(s, a);
    var s2 := Next(s1, b);
    var s3 := Next(s2, c);
    var t := Next(s3, d);
    HeldUpdate(s.workers, 0, Downloading(tasks[0]), None);
    assert |t.queue| == m && Held(t.workers, None) >= 1;
    assert Leads(t, [], t);
    LeadsTwo(s2, c, d, [], t);
    LeadsTwo(s, a, b, [c, d] + [], t);
    hide Leads, Enabled, Next;
    LeadsJoin(Started(n, tasks), steps, s, [a, b] + ([c, d] + []), t);
  }
}
