/** The server's log pipeline as interleaved steps: submitters, a bounded queue, workers that batch
    and retry, cancellation and shutdown (internal/ingest/ingester.go). A failed BulkInsert stores nothing. */
module Ingestion {
  // A flush inserts, and waits after a failure; exit marks the flush before a worker returns. doomed says
  // that ctx was done when the wait began, so that the wait ends at once and the batch is given up.
  datatype Stage = Selecting | Inserting(exit: bool) | Waiting(exit: bool, doomed: bool) | Exited

  datatype Worker<T> = Worker(batch: seq<T>, stage: Stage)

  datatype Server<T> = Server(
    queue: seq<T>,
    closed: bool,
    cancelled: bool,
    workers: seq<Worker<T>>,
    // history: accepted by Submit in order; inserted batches; given up; accepted before the cancellation
    accepted: seq<T>,
    stored: seq<seq<T>>,
    givenUp: seq<T>,
    acceptedAtCancel: nat)

  datatype Limits = Limits(workers: nat, batchSize: nat, bufferSize: nat)

  datatype Act<T> =
    | Submit(e: T)
    | Close
    | Cancel
    | Receive(w: nat)
    | Tick(w: nat)
    | SeeClosed(w: nat)
    | SeeCancel(w: nat)
    | InsertOk(w: nat)
    | InsertFailed(w: nat)
    | Retry(w: nat)
    | GiveUp(w: nat)

  // New's defensive defaults.
  function WithDefaults(workers: int, batchSize: int, bufferSize: int): (l: Limits)
    ensures l.workers > 0 && l.batchSize > 0 && l.bufferSize > 0
    ensures (workers > 0 ==> l.workers == workers) && (workers <= 0 ==> l.workers == 4)
    ensures (batchSize > 0 ==> l.batchSize == batchSize) && (batchSize <= 0 ==> l.batchSize == 500)
    ensures (bufferSize > 0 ==> l.bufferSize == bufferSize) && (bufferSize <= 0 ==> l.bufferSize == 10000)
  {
    Limits(if workers <= 0 then 4 else workers,
           if batchSize <= 0 then 500 else batchSize,
           if bufferSize <= 0 then 10000 else bufferSize)
  }

  function Started<T>(limits: Limits): Server<T> {
    Server([], false, false, seq(limits.workers, _ => Worker([], Selecting)), [], [], [], 0)
  }

  predicate At<T>(s: Server<T>, w: nat, stage: Stage) {
    w < |s.workers| && s.workers[w].stage == stage
  }

  predicate InInsert<T>(s: Server<T>, w: nat) {
    w < |s.workers| && s.workers[w].stage.Inserting?
  }

  predicate InWait<T>(s: Server<T>, w: nat) {
    w < |s.workers| && s.workers[w].stage.Waiting?
  }

  predicate Enabled<T>(limits: Limits, a: Act<T>, s: Server<T>) {
    match a
    case Submit(_) => !s.closed && |s.queue| < limits.bufferSize
    case Close | Cancel => true
    case Receive(w) => At(s, w, Selecting) && s.queue != []
    case Tick(w) => At(s, w, Selecting)
    case SeeClosed(w) => At(s, w, Selecting) && s.queue == [] && s.closed
    case SeeCancel(w) => At(s, w, Selecting) && s.cancelled
    case InsertOk(w) => InInsert(s, w)
    case InsertFailed(w) => InInsert(s, w)
    case Retry(w) => InWait(s, w) && !s.workers[w].stage.doomed
    case GiveUp(w) => InWait(s, w) && s.cancelled
  }

  predicate WorkerAct<T>(a: Act<T>) {
    !a.Submit? && !a.Close? && !a.Cancel?
  }

  // flush returns at once on an empty batch.
  function IntoFlush<T>(batch: seq<T>, exit: bool): Worker<T> {
    if batch == [] then Worker([], if exit then Exited else Selecting) else Worker(batch, Inserting(exit))
  }

  function AfterFlush<T>(stage: Stage): Worker<T> {
    Worker([], if (stage.Inserting? || stage.Waiting?) && stage.exit then Exited else Selecting)
  }

  function With<T>(s: Server<T>, w: nat, worker: Worker<T>): Server<T>
    requires w < |s.workers|
  {
    s.(workers := s.workers[w := worker])
  }

  function Apply<T>(limits: Limits, a: Act<T>, s: Server<T>): Server<T>
    requires Enabled(limits, a, s)
  {
    match a
    case Submit(e) => s.(queue := s.queue + [e], accepted := s.accepted + [e])
    case Close => s.(closed := true)
    case Cancel => if s.cancelled then s else s.(cancelled := true, acceptedAtCancel := |s.accepted|)
    case Receive(w) =>
      var batch := s.workers[w].batch + [s.queue[0]];
      var worker := if |batch| >= limits.batchSize then IntoFlush(batch, false) else Worker(batch, Selecting);
      With(s, w, worker).(queue := s.queue[1..])
    case Tick(w) => With(s, w, IntoFlush(s.workers[w].batch, false))
    case SeeClosed(w) => With(s, w, IntoFlush(s.workers[w].batch, true))
    case SeeCancel(w) => With(s, w, IntoFlush(s.workers[w].batch, true))
    case InsertOk(w) => With(s, w, AfterFlush(s.workers[w].stage)).(stored := s.stored + [s.workers[w].batch])
    case InsertFailed(w) =>
      var worker := s.workers[w];
      With(s, w, worker.(stage := Waiting(worker.stage.exit, s.cancelled)))
    case Retry(w) =>
      var worker := s.workers[w];
      With(s, w, worker.(stage := Inserting(worker.stage.exit)))
    case GiveUp(w) => With(s, w, AfterFlush(s.workers[w].stage)).(givenUp := s.givenUp + s.workers[w].batch)
  }

  // A step that is not possible does not happen.
  function Stepped<T>(limits: Limits, a: Act<T>, s: Server<T>): Server<T> {
    if Enabled(limits, a, s) then Apply(limits, a, s) else s
  }

  ghost predicate Run<T>(limits: Limits, states: seq<Server<T>>, acts: seq<Act<T>>) {
    && |states| == |acts| + 1 && states[0] == Started(limits)
    && forall i :: 0 <= i < |acts| ==>
         Enabled(limits, acts[i], states[i]) && states[i + 1] == Apply(limits, acts[i], states[i])
  }

  function Flatten<T>(batches: seq<seq<T>>): seq<T> {
    if batches == [] then [] else Flatten(batches[..|batches| - 1]) + batches[|batches| - 1]
  }

  // All that workers hold.
  function Batches<T>(ws: seq<Worker<T>>): multiset<T> {
    if ws == [] then multiset{} else Batches(ws[..|ws| - 1]) + multiset(ws[|ws| - 1].batch)
  }

  lemma {:induction false} BatchesUpdate<T>(ws: seq<Worker<T>>, w: nat, worker: Worker<T>)
    requires w < |ws|
    ensures Batches(ws[w := worker]) + multiset(ws[w].batch) == Batches(ws) + multiset(worker.batch)
  {
    var n := |ws| - 1;
    if w < n {
      BatchesUpdate(ws[..n], w, worker);
      assert ws[w := worker][..n] == ws[..n][w := worker];
      var x, y, last := Batches(ws[..n][w := worker]), Batches(ws[..n]), multiset(ws[n].batch);
      assert (x + last) + multiset(ws[w].batch) == (x + multiset(ws[w].batch)) + last;
      assert (y + last) + multiset(worker.batch) == (y + multiset(worker.batch)) + last;
    } else {
      assert ws[w := worker][..n] == ws[..n];
    }
  }

  lemma OneMoreRow(n: nat, size: nat)
    ensures (n + 1) * size == n * size + size
  {
  }

  lemma {:induction false} BatchesBound<T>(ws: seq<Worker<T>>, size: nat)
    requires forall i :: 0 <= i < |ws| ==> |ws[i].batch| <= size
    ensures |Batches(ws)| <= |ws| * size
  {
    if ws != [] {
      var n := |ws| - 1;
      BatchesBound(ws[..n], size);
      OneMoreRow(n, size);
    }
  }

  lemma {:induction false} BatchesEmpty<T>(ws: seq<Worker<T>>)
    requires forall i :: 0 <= i < |ws| ==> ws[i].batch == []
    ensures Batches(ws) == multiset{}
  {
    if ws != [] {
      BatchesEmpty(ws[..|ws| - 1]);
    }
  }

  lemma FlattenOne<T>(batches: seq<seq<T>>, batch: seq<T>)
    ensures Flatten(batches + [batch]) == Flatten(batches) + batch
  {
    assert (batches + [batch])[..|batches|] == batches;
  }

  // ---- Invariants ----

  ghost predicate Conserved<T>(s: Server<T>) {
    multiset(s.accepted) == multiset(s.queue) + Batches(s.workers) + multiset(Flatten(s.stored)) + multiset(s.givenUp)
  }

  // A worker returns only on a cancellation or once the closed queue is empty.
  ghost predicate MayExit<T>(s: Server<T>) {
    s.cancelled || (s.closed && s.queue == [])
  }

  ghost predicate WorkerOk<T>(limits: Limits, s: Server<T>, worker: Worker<T>) {
    && |worker.batch| <= limits.batchSize
    && match worker.stage
       case Selecting => |worker.batch| < limits.batchSize
       case Inserting(exit) => worker.batch != [] && (exit ==> MayExit(s))
       case Waiting(exit, doomed) => worker.batch != [] && (exit ==> MayExit(s)) && (doomed ==> s.cancelled)
       case Exited => worker.batch == [] && MayExit(s)
  }

  ghost predicate Bounded<T>(limits: Limits, s: Server<T>) {
    && |s.queue| <= limits.bufferSize
    && |s.workers| == limits.workers
    && (forall i :: 0 <= i < |s.workers| ==> WorkerOk(limits, s, s.workers[i]))
    && (forall i :: 0 <= i < |s.stored| ==> 1 <= |s.stored[i]| <= limits.batchSize)
  }

  // Entries not stored at the cancellation, and those accepted after it, bound what can be lost.
  ghost predicate LossBounded<T>(limits: Limits, s: Server<T>) {
    && (s.givenUp != [] ==> s.cancelled)
    && (s.cancelled ==>
          && s.acceptedAtCancel <= |s.accepted|
          && |s.queue| + |Batches(s.workers)| + |s.givenUp| <=
             limits.bufferSize + limits.workers * limits.batchSize + (|s.accepted| - s.acceptedAtCancel))
  }

  // With one worker and nothing given up, order is kept end to end.
  ghost predicate InOrder<T>(s: Server<T>) {
    |s.workers| == 1 && s.givenUp == [] ==> Flatten(s.stored) + s.workers[0].batch + s.queue == s.accepted
  }

  ghost predicate Inv<T>(limits: Limits, s: Server<T>) {
    limits.batchSize > 0 && Conserved(s) && Bounded(limits, s) && LossBounded(limits, s) && InOrder(s)
  }

  lemma StartedInv<T>(limits: Limits)
    requires limits.batchSize > 0
    ensures Inv(limits, Started<T>(limits))
  {
    var s := Started<T>(limits);
    BatchesEmpty(s.workers);
  }

  // One worker changed its batch; nothing else did.
  lemma HandOver<T>(s: Server<T>, w: nat, worker: Worker<T>)
    requires w < |s.workers|
    ensures Batches(With(s, w, worker).workers) + multiset(s.workers[w].batch) ==
            Batches(s.workers) + multiset(worker.batch)
    ensures |Batches(With(s, w, worker).workers)| + |s.workers[w].batch| == |Batches(s.workers)| + |worker.batch|
  {
    BatchesUpdate(s.workers, w, worker);
    var a, b := Batches(s.workers[w := worker]), Batches(s.workers);
    assert |a + multiset(s.workers[w].batch)| == |a| + |s.workers[w].batch|;
    assert |b + multiset(worker.batch)| == |b| + |worker.batch|;
  }

  lemma AddBack<T>(b': multiset<T>, x: multiset<T>, b: multiset<T>, q: multiset<T>)
    requires b' + x == b + (x + q)
    ensures b' == b + q
  {
    forall e ensures b'[e] == (b + q)[e] {
      assert (b' + x)[e] == (b + (x + q))[e];
    }
  }

  lemma SameBatch<T>(s: Server<T>, w: nat, worker: Worker<T>)
    requires w < |s.workers| && worker.batch == s.workers[w].batch
    ensures Batches(With(s, w, worker).workers) == Batches(s.workers)
  {
    HandOver(s, w, worker);
    var x := multiset(worker.batch);
    assert x + multiset{} == x;
    AddBack(Batches(With(s, w, worker).workers), x, Batches(s.workers), multiset{});
  }

  lemma TakeConserves<T>(limits: Limits, s: Server<T>, w: nat)
    requires Conserved(s) && Enabled(limits, Receive(w), s)
    ensures Conserved(Apply(limits, Receive(w), s))
  {
    hide Batches, Flatten;
    var s' := Apply(limits, Receive(w), s);
    HandOver(s, w, s'.workers[w]);
    assert s.queue == [s.queue[0]] + s.queue[1..];
    assert multiset(s.queue) == multiset([s.queue[0]]) + multiset(s.queue[1..]);
    assert s'.workers[w].batch == s.workers[w].batch + [s.queue[0]];
    var b, b', x, q := Batches(s.workers), Batches(s'.workers), multiset(s.workers[w].batch), multiset([s.queue[0]]);
    assert b' + x == b + (x + q);
    AddBack(b', x, b, q);
  }

  // A finished flush moves its batch to the table, or to what was given up.
  lemma FlushConserves<T>(limits: Limits, a: Act<T>, s: Server<T>)
    requires Conserved(s) && Enabled(limits, a, s) && (a.InsertOk? || a.GiveUp?)
    ensures Conserved(Apply(limits, a, s))
  {
    hide Batches, Flatten;
    var s', w := Apply(limits, a, s), a.w;
    HandOver(s, w, s'.workers[w]);
    FlattenOne(s.stored, s.workers[w].batch);
    var q, b', x := multiset(s.queue), Batches(s'.workers), multiset(s.workers[w].batch);
    var f, g := multiset(Flatten(s.stored)), multiset(s.givenUp);
    assert b' + x == Batches(s.workers);
    if a.InsertOk? {
      assert q + b' + (f + x) + g == q + (b' + x) + f + g;
    } else {
      assert q + b' + f + (g + x) == q + (b' + x) + f + g;
    }
  }

  lemma StepConserves<T>(limits: Limits, a: Act<T>, s: Server<T>)
    requires Conserved(s) && Enabled(limits, a, s)
    ensures Conserved(Apply(limits, a, s))
  {
    hide Batches, Flatten;
    var s' := Apply(limits, a, s);
    match a
    case Receive(w) => TakeConserves(limits, s, w);
    case InsertOk(_) => FlushConserves(limits, a, s);
    case GiveUp(_) => FlushConserves(limits, a, s);
    case Tick(w) => SameBatch(s, w, s'.workers[w]);
    case SeeClosed(w) => SameBatch(s, w, s'.workers[w]);
    case SeeCancel(w) => SameBatch(s, w, s'.workers[w]);
    case InsertFailed(w) => SameBatch(s, w, s'.workers[w]);
    case Retry(w) => SameBatch(s, w, s'.workers[w]);
    case _ =>
  }

  lemma StepBounded<T>(limits: Limits, a: Act<T>, s: Server<T>)
    requires Inv(limits, s) && Enabled(limits, a, s)
    ensures Bounded(limits, Apply(limits, a, s))
  {
    hide Conserved, LossBounded, InOrder, WorkerOk;
    var s' := Apply(limits, a, s);
    forall i | 0 <= i < |s'.workers| ensures WorkerOk(limits, s', s'.workers[i]) {
      assert WorkerOk(limits, s, s.workers[i]);
      StepWorkerOk(limits, a, s, i);
    }
    if a.InsertOk? {
      assert WorkerOk(limits, s, s.workers[a.w]);
      FlushedBatch(limits, s, s.workers[a.w]);
    }
  }

  lemma FlushedBatch<T>(limits: Limits, s: Server<T>, worker: Worker<T>)
    requires WorkerOk(limits, s, worker) && worker.stage.Inserting?
    ensures 1 <= |worker.batch| <= limits.batchSize
  {
  }

  // A worker's right to have returned lasts.
  lemma MayExitStays<T>(limits: Limits, a: Act<T>, s: Server<T>)
    requires Enabled(limits, a, s) && MayExit(s)
    ensures MayExit(Apply(limits, a, s))
  {
  }

  lemma OtherWorkers<T>(limits: Limits, a: Act<T>, s: Server<T>, i: nat)
    requires Enabled(limits, a, s) && i < |s.workers| && (!WorkerAct(a) || a.w != i)
    ensures var s' := Apply(limits, a, s);
            |s'.workers| == |s.workers| && s'.workers[i] == s.workers[i] && (s.cancelled ==> s'.cancelled)
  {
  }

  lemma OwnWorker<T>(limits: Limits, a: Act<T>, s: Server<T>)
    requires limits.batchSize > 0 && Enabled(limits, a, s) && WorkerAct(a) && WorkerOk(limits, s, s.workers[a.w])
    ensures WorkerOk(limits, Apply(limits, a, s), Apply(limits, a, s).workers[a.w])
  {
  }

  lemma StepWorkerOk<T>(limits: Limits, a: Act<T>, s: Server<T>, i: nat)
    requires limits.batchSize > 0 && Enabled(limits, a, s) && i < |s.workers| && WorkerOk(limits, s, s.workers[i])
    ensures WorkerOk(limits, Apply(limits, a, s), Apply(limits, a, s).workers[i])
  {
    hide Enabled, Apply, MayExit;
    if WorkerAct(a) && a.w == i {
      OwnWorker(limits, a, s);
    } else {
      OtherWorkers(limits, a, s, i);
      if MayExit(s) {
        MayExitStays(limits, a, s);
      }
    }
  }

  lemma StepLossBounded<T>(limits: Limits, a: Act<T>, s: Server<T>)
    requires Inv(limits, s) && Enabled(limits, a, s)
    ensures LossBounded(limits, Apply(limits, a, s))
  {
    hide Conserved, InOrder, Batches;
    var s' := Apply(limits, a, s);
    match a
    case Cancel => BatchesBound(s.workers, limits.batchSize);
    case Receive(w) => HandOver(s, w, s'.workers[w]);
    case Tick(w) => HandOver(s, w, s'.workers[w]);
    case SeeClosed(w) => HandOver(s, w, s'.workers[w]);
    case SeeCancel(w) => HandOver(s, w, s'.workers[w]);
    case InsertOk(w) => HandOver(s, w, s'.workers[w]);
    case InsertFailed(w) => HandOver(s, w, s'.workers[w]);
    case Retry(w) => HandOver(s, w, s'.workers[w]);
    case GiveUp(w) => HandOver(s, w, s'.workers[w]);
    case _ =>
  }

  lemma Regroup<T>(a: seq<T>, b: seq<T>, x: T, c: seq<T>)
    ensures a + (b + [x]) + c == a + b + ([x] + c)
  {
  }

  lemma TakeInOrder<T>(limits: Limits, s: Server<T>, w: nat)
    requires InOrder(s) && Enabled(limits, Receive(w), s)
    ensures InOrder(Apply(limits, Receive(w), s))
  {
    hide Flatten;
    if |s.workers| == 1 {
      assert s.queue == [s.queue[0]] + s.queue[1..];
      Regroup(Flatten(s.stored), s.workers[0].batch, s.queue[0], s.queue[1..]);
    }
  }

  lemma StepInOrder<T>(limits: Limits, a: Act<T>, s: Server<T>)
    requires InOrder(s) && Enabled(limits, a, s)
    ensures InOrder(Apply(limits, a, s))
  {
    hide Flatten;
    if a.Receive? {
      TakeInOrder(limits, s, a.w);
    } else if |s.workers| == 1 && s.givenUp == [] {
      var before, batch := Flatten(s.stored), s.workers[0].batch;
      if a.Submit? {
        assert before + batch + (s.queue + [a.e]) == (before + batch + s.queue) + [a.e];
      } else if a.InsertOk? {
        FlattenOne(s.stored, batch);
        assert before + batch + [] == before + batch;
      }
    }
  }

  lemma StepInv<T>(limits: Limits, a: Act<T>, s: Server<T>)
    requires Inv(limits, s) && Enabled(limits, a, s)
    ensures Inv(limits, Apply(limits, a, s))
  {
    StepConserves(limits, a, s);
    StepBounded(limits, a, s);
    StepLossBounded(limits, a, s);
    StepInOrder(limits, a, s);
    hide Conserved, Bounded, LossBounded, InOrder, Apply;
  }

  /** Conservation, order and bounded memory in every reachable state: what Submit accepted is in the queue,
      in a worker's batch, stored, or given up after a cancellation; nothing is stored twice. */
  lemma {:induction false} RunInv<T>(limits: Limits, states: seq<Server<T>>, acts: seq<Act<T>>, n: nat)
    requires Run(limits, states, acts) && limits.batchSize > 0 && n <= |acts|
    ensures Inv(limits, states[n])
  {
    hide Inv, Enabled, Apply, Started;
    if n == 0 {
      StartedInv<T>(limits);
    } else {
      RunInv(limits, states, acts, n - 1);
      StepInv(limits, acts[n - 1], states[n - 1]);
    }
  }

  ghost predicate AllExited<T>(s: Server<T>) {
    forall w :: 0 <= w < |s.workers| ==> s.workers[w].stage == Exited
  }

  /** Drain: when every worker has returned and ctx was never cancelled, the queue and the batches are
      empty and exactly what was accepted is stored, in order if there is one worker. */
  lemma Drained<T>(limits: Limits, s: Server<T>)
    requires Inv(limits, s) && AllExited(s) && !s.cancelled && limits.workers > 0
    ensures s.queue == [] && s.givenUp == [] && Batches(s.workers) == multiset{}
    ensures multiset(Flatten(s.stored)) == multiset(s.accepted)
    ensures limits.workers == 1 ==> Flatten(s.stored) == s.accepted
  {
    hide Flatten, Batches;
    assert WorkerOk(limits, s, s.workers[0]);
    assert forall w :: 0 <= w < |s.workers| ==> WorkerOk(limits, s, s.workers[w]);
    BatchesEmpty(s.workers);
    if limits.workers == 1 {
      assert Flatten(s.stored) + [] + [] == Flatten(s.stored);
    }
  }

  /** Loss is bounded: once every worker has returned after a cancellation, at most a full queue and a full
      batch per worker, plus what was accepted after the cancellation, is not stored. */
  lemma CancellationLoss<T>(limits: Limits, s: Server<T>)
    requires Inv(limits, s) && AllExited(s) && s.cancelled
    ensures |s.accepted| - |Flatten(s.stored)| <=
            limits.bufferSize + limits.workers * limits.batchSize + (|s.accepted| - s.acceptedAtCancel)
    ensures |s.accepted| - |Flatten(s.stored)| == |s.queue| + |s.givenUp|
  {
    hide Flatten, Batches, InOrder;
    assert forall w :: 0 <= w < |s.workers| ==> WorkerOk(limits, s, s.workers[w]);
    BatchesEmpty(s.workers);
    assert |multiset(s.accepted)| == |multiset(s.queue)| + |multiset(Flatten(s.stored))| + |multiset(s.givenUp)|;
  }

  /** What the loss is measured against: in every run, acceptedAtCancel is the number of entries that had been accepted
      when ctx was first cancelled. */
  lemma {:induction false} CountedAtCancel<T>(limits: Limits, states: seq<Server<T>>, acts: seq<Act<T>>, i: nat, n: nat)
    requires Run(limits, states, acts) && i < n <= |acts| && acts[i] == Cancel
    requires forall j :: 0 <= j < i ==> acts[j] != Cancel
    ensures states[n].cancelled && states[n].acceptedAtCancel == |states[i].accepted|
    ensures |states[i].accepted| <= |states[n].accepted|
  {
    assert Enabled(limits, acts[n - 1], states[n - 1]) && states[n] == Apply(limits, acts[n - 1], states[n - 1]);
    if n == i + 1 {
      NotCancelledYet(limits, states, acts, i);
    } else {
      CountedAtCancel(limits, states, acts, i, n - 1);
    }
  }

  lemma {:induction false} NotCancelledYet<T>(limits: Limits, states: seq<Server<T>>, acts: seq<Act<T>>, n: nat)
    requires Run(limits, states, acts) && n <= |acts| && forall j :: 0 <= j < n ==> acts[j] != Cancel
    ensures !states[n].cancelled
  {
    if n > 0 {
      NotCancelledYet(limits, states, acts, n - 1);
      assert Enabled(limits, acts[n - 1], states[n - 1]) && states[n] == Apply(limits, acts[n - 1], states[n - 1]);
    }
  }

  // ---- Batching ----

  // Without ticks, shutdown and cancellation seen by a worker, only full batches are ever inserted.
  ghost predicate FullOnly<T>(limits: Limits, s: Server<T>) {
    && (forall i :: 0 <= i < |s.stored| ==> |s.stored[i]| == limits.batchSize)
    && (forall w :: 0 <= w < |s.workers| ==>
          if s.workers[w].stage == Selecting then |s.workers[w].batch| < limits.batchSize
          else |s.workers[w].batch| == limits.batchSize)
  }

  lemma FullOnlyStep<T>(limits: Limits, a: Act<T>, s: Server<T>)
    requires limits.batchSize > 0 && FullOnly(limits, s) && Enabled(limits, a, s)
    requires !a.Tick? && !a.SeeClosed? && !a.SeeCancel?
    requires forall w :: 0 <= w < |s.workers| ==> s.workers[w].stage != Exited && !LastFlush(s.workers[w].stage)
    ensures var s' := Apply(limits, a, s);
            && FullOnly(limits, s')
            && forall w :: 0 <= w < |s'.workers| ==> s'.workers[w].stage != Exited && !LastFlush(s'.workers[w].stage)
  {
  }

  predicate LastFlush(stage: Stage) {
    (stage.Inserting? || stage.Waiting?) && stage.exit
  }

  /** A worker batches: in a run in which none of them sees a tick, the closed queue or the end of ctx, every batch
      stored or being inserted has exactly BatchSize entries, and what is short of that is held. */
  lemma {:induction false} OnlyFullBatches<T>(limits: Limits, states: seq<Server<T>>, acts: seq<Act<T>>, n: nat)
    requires Run(limits, states, acts) && limits.batchSize > 0 && n <= |acts|
    requires forall i :: 0 <= i < n ==> !acts[i].Tick? && !acts[i].SeeClosed? && !acts[i].SeeCancel?
    ensures FullOnly(limits, states[n])
    ensures forall w :: 0 <= w < |states[n].workers| ==>
              states[n].workers[w].stage != Exited && !LastFlush(states[n].workers[w].stage)
  {
    hide Enabled, Apply, FullOnly, LastFlush;
    if n == 0 {
      StartedFull<T>(limits);
    } else {
      OnlyFullBatches(limits, states, acts, n - 1);
      assert Enabled(limits, acts[n - 1], states[n - 1]) && states[n] == Apply(limits, acts[n - 1], states[n - 1]);
      FullOnlyStep(limits, acts[n - 1], states[n - 1]);
    }
  }

  lemma StartedFull<T>(limits: Limits)
    requires limits.batchSize > 0
    ensures var s := Started<T>(limits);
            && FullOnly(limits, s)
            && forall w :: 0 <= w < |s.workers| ==> s.workers[w].stage != Exited && !LastFlush(s.workers[w].stage)
  {
  }

  // ---- Termination ----

  function Rank<T>(worker: Worker<T>): nat {
    match worker.stage
    case Exited => 0
    case Inserting(exit) => if exit then 1 else 2
    case Waiting(exit, _) => if exit then 1 else 2
    case Selecting => if worker.batch == [] then 1 else 3
  }

  function RankSum<T>(ws: seq<Worker<T>>): nat {
    if ws == [] then 0 else RankSum(ws[..|ws| - 1]) + Rank(ws[|ws| - 1])
  }

  // Work left once nothing more is submitted.
  function Work<T>(s: Server<T>): nat {
    4 * |s.queue| + RankSum(s.workers)
  }

  // How many more failures and waits a flush can go through under a cancelled ctx.
  function Tries<T>(worker: Worker<T>): (n: nat)
    ensures n <= 2
  {
    match worker.stage
    case Inserting(_) => 1
    case Waiting(_, doomed) => if doomed then 0 else 2
    case _ => 0
  }

  function Patience<T>(ws: seq<Worker<T>>): (n: nat)
    ensures n <= 2 * |ws|
  {
    if ws == [] then 0 else Patience(ws[..|ws| - 1]) + Tries(ws[|ws| - 1])
  }

  lemma {:induction false} RankUpdate<T>(ws: seq<Worker<T>>, w: nat, worker: Worker<T>)
    requires w < |ws|
    ensures RankSum(ws[w := worker]) + Rank(ws[w]) == RankSum(ws) + Rank(worker)
    ensures Patience(ws[w := worker]) + Tries(ws[w]) == Patience(ws) + Tries(worker)
  {
    hide Rank, Tries;
    var n := |ws| - 1;
    if w < n {
      RankUpdate(ws[..n], w, worker);
      assert ws[w := worker][..n] == ws[..n][w := worker];
    } else {
      assert ws[w := worker][..n] == ws[..n];
    }
  }

  // A tick on an empty batch does nothing.
  predicate Idle<T>(a: Act<T>, s: Server<T>) {
    a.Tick? && a.w < |s.workers| && s.workers[a.w].batch == []
  }

  /** The measure: every worker step reduces the work, except an idle tick, a failed insert and a retry. A retry
      reduces the patience; so does a failed insert, once ctx is cancelled. */
  lemma StepReducesWork<T>(limits: Limits, a: Act<T>, s: Server<T>)
    requires Inv(limits, s) && Enabled(limits, a, s) && WorkerAct(a) && !Idle(a, s)
    ensures var s' := Apply(limits, a, s);
            if a.InsertFailed? || a.Retry? then
              Work(s') == Work(s) &&
              Patience(s'.workers) == Patience(s.workers) + if a.Retry? || s.cancelled then -1 else 1
            else Work(s') < Work(s)
  {
    hide Conserved, LossBounded, InOrder, RankSum, Patience;
    var s' := Apply(limits, a, s);
    RankUpdate(s.workers, a.w, s'.workers[a.w]);
    assert WorkerOk(limits, s, s.workers[a.w]);
  }

  // Work, then patience.
  predicate Shrinks<T>(s: Server<T>, s': Server<T>) {
    Work(s') < Work(s) || (Work(s') == Work(s) && Patience(s'.workers) < Patience(s.workers))
  }

  /** No worker is ever stuck: after the queue is closed or ctx is cancelled, a worker that has not returned can take
      a step that shrinks the measure. Once ctx is cancelled that step needs no database: it
      is neither a successful insert nor waits for one. */
  lemma NeverStuck<T>(limits: Limits, s: Server<T>, w: nat) returns (a: Act<T>)
    requires Inv(limits, s) && w < |s.workers| && s.workers[w].stage != Exited && (s.closed || s.cancelled)
    ensures Enabled(limits, a, s) && WorkerAct(a) && !Idle(a, s) && a.w == w
    ensures Shrinks(s, Apply(limits, a, s))
    ensures s.cancelled ==> a.SeeCancel? || a.InsertFailed? || a.GiveUp?
    ensures !s.cancelled ==> !a.InsertFailed? && !a.GiveUp?
  {
    hide Work, Patience, Conserved, LossBounded, InOrder;
    assert WorkerOk(limits, s, s.workers[w]);
    match s.workers[w].stage {
      case Inserting(_) => a := if s.cancelled then InsertFailed(w) else InsertOk(w);
      case Waiting(_, _) => a := if s.cancelled then GiveUp(w) else Retry(w);
      case Selecting =>
        a := if s.cancelled then SeeCancel(w) else if s.queue != [] then Receive(w) else SeeClosed(w);
    }
    StepReducesWork(limits, a, s);
  }

  // ---- Exit after a cancellation ----

  // How many steps the workers can still take once ctx is cancelled.
  function Budget<T>(s: Server<T>): nat {
    Work(s) * (2 * |s.workers| + 1) + Patience(s.workers)
  }

  lemma BudgetShrinks(work: nat, work': nat, patience: nat, patience': nat, n: nat)
    requires patience' <= 2 * n
    requires work' < work || (work' == work && patience' < patience)
    ensures work' * (2 * n + 1) + patience' < work * (2 * n + 1) + patience
  {
    if work' < work {
      assert (work' + 1) * (2 * n + 1) <= work * (2 * n + 1);
      assert (work' + 1) * (2 * n + 1) == work' * (2 * n + 1) + (2 * n + 1);
    }
  }

  // Steps from s on, of workers and of submitters. Ticks on empty batches, which change nothing, are left out.
  ghost predicate Segment<T>(limits: Limits, states: seq<Server<T>>, acts: seq<Act<T>>) {
    && |states| == |acts| + 1
    && forall i :: 0 <= i < |acts| ==>
         && Enabled(limits, acts[i], states[i]) && !Idle(acts[i], states[i])
         && states[i + 1] == Apply(limits, acts[i], states[i])
  }

  function WorkerSteps<T>(acts: seq<Act<T>>): (n: nat)
    ensures n <= |acts|
  {
    if acts == [] then 0
    else WorkerSteps(acts[..|acts| - 1]) + if WorkerAct(acts[|acts| - 1]) then 1 else 0
  }

  function Submits<T>(acts: seq<Act<T>>): nat {
    if acts == [] then 0 else Submits(acts[..|acts| - 1]) + if acts[|acts| - 1].Submit? then 1 else 0
  }

  lemma BudgetStep<T>(limits: Limits, a: Act<T>, s: Server<T>)
    requires Inv(limits, s) && s.cancelled && Enabled(limits, a, s) && !Idle(a, s)
    ensures var s' := Apply(limits, a, s);
            && s'.cancelled && |s'.workers| == |s.workers|
            && (WorkerAct(a) ==> Budget(s') < Budget(s))
            && (!WorkerAct(a) ==>
                  Budget(s') == Budget(s) + if a.Submit? then 4 * (2 * |s.workers| + 1) else 0)
  {
    hide Inv, RankSum, Patience;
    var s' := Apply(limits, a, s);
    if WorkerAct(a) {
      StepReducesWork(limits, a, s);
      BudgetShrinks(Work(s), Work(s'), Patience(s.workers), Patience(s'.workers), |s.workers|);
    } else if a.Submit? {
      var n := 2 * |s.workers| + 1;
      assert Work(s') == Work(s) + 4;
      assert (Work(s) + 4) * n == Work(s) * n + 4 * n;
    }
  }

  /** A cancelled ingester winds down whatever the database does. From any reachable cancelled state, in every
      interleaving, with every insert failing or not, the workers take at most Budget steps, and a
      bounded number more for each entry still submitted. */
  lemma {:induction false} CancelledStepsBounded<T>(limits: Limits, states: seq<Server<T>>, acts: seq<Act<T>>)
    requires Segment(limits, states, acts) && Inv(limits, states[0]) && states[0].cancelled
    ensures var s, s' := states[0], states[|acts|];
            && Inv(limits, s') && s'.cancelled && |s'.workers| == |s.workers|
            && WorkerSteps(acts) + Budget(s') <= Budget(s) + Submits(acts) * (4 * (2 * |s.workers| + 1))
    decreases |acts|
  {
    hide Inv, Budget, Enabled, Apply;
    if acts != [] {
      var n := |acts| - 1;
      CancelledStepsBounded(limits, states[..n + 1], acts[..n]);
      BudgetStep(limits, acts[n], states[n]);
      StepInv(limits, acts[n], states[n]);
      var x, m := 4 * (2 * |states[0].workers| + 1), Submits(acts[..n]);
      assert (m + 1) * x == m * x + x;
    }
  }

  /** After a cancellation every worker returns, without the database: a run in which no insert succeeds, and
      which no worker can continue but by a successful insert, has them all exited. */
  lemma CancelledWorkersExit<T>(limits: Limits, states: seq<Server<T>>, acts: seq<Act<T>>)
    requires Segment(limits, states, acts) && Inv(limits, states[0]) && states[0].cancelled
    requires forall i :: 0 <= i < |acts| ==> !acts[i].InsertOk?
    requires forall a: Act<T> ::
               Enabled(limits, a, states[|acts|]) && WorkerAct(a) ==> a.InsertOk? || Idle(a, states[|acts|])
    ensures AllExited(states[|acts|])
    ensures states[|acts|].stored == states[0].stored
  {
    hide Inv, Enabled, Apply, Idle;
    CancelledStepsBounded(limits, states, acts);
    var s := states[|acts|];
    forall w | 0 <= w < |s.workers| ensures s.workers[w].stage == Exited {
      if s.workers[w].stage != Exited {
        var a := NeverStuck(limits, s, w);
        assert false;
      }
    }
    StoredKept(limits, states, acts);
  }

  lemma {:induction false} StoredKept<T>(limits: Limits, states: seq<Server<T>>, acts: seq<Act<T>>)
    requires Segment(limits, states, acts) && forall i :: 0 <= i < |acts| ==> !acts[i].InsertOk?
    ensures states[|acts|].stored == states[0].stored
    decreases |acts|
  {
    if acts != [] {
      var n := |acts| - 1;
      StoredKept(limits, states[..n + 1], acts[..n]);
      assert Enabled(limits, acts[n], states[n]) && states[n + 1] == Apply(limits, acts[n], states[n]);
    }
  }
}
