/** The ingester as an object (internal/ingest/ingester.go). Each method is one of the steps of module
    Ingestion, or a loop of them; what the database answers and when ctx ends are parameters. */
module Ingesting {
  import opened Backoff
  import opened Ingestion

  datatype Submitted = Accepted | BufferFull | ContextDone

  // One insert attempt; cancelled says that ctx ends during the wait after a failure, if it has not before.
  datatype Try = Inserted | Failed(cancelled: bool)

  datatype Event = Received(tries: seq<Try>) | Ticked(tries: seq<Try>) | Done(tries: seq<Try>)

  // The steps of one flush of worker w.
  function FlushSpec<T>(limits: Limits, s: Server<T>, w: nat, tries: seq<Try>): Server<T>
    requires InInsert(s, w)
    decreases |tries|
  {
    if tries == [] then s
    else if tries[0] == Inserted then Apply(limits, InsertOk(w), s)
    else
      var failed := Apply(limits, InsertFailed(w), s);
      if s.cancelled || tries[0].cancelled then Apply(limits, GiveUp(w), Apply(limits, Cancel, failed))
      else FlushSpec(limits, Apply(limits, Retry(w), failed), w, tries[1..])
  }

  lemma {:induction false} FlushKeepsInv<T>(limits: Limits, s: Server<T>, w: nat, tries: seq<Try>)
    requires Inv(limits, s) && InInsert(s, w)
    ensures Inv(limits, FlushSpec(limits, s, w, tries))
    decreases |tries|
  {
    hide Inv;
    if tries != [] {
      if tries[0] == Inserted {
        StepInv(limits, InsertOk(w), s);
      } else {
        StepInv(limits, InsertFailed(w), s);
        var failed := Apply(limits, InsertFailed(w), s);
        if s.cancelled || tries[0].cancelled {
          StepInv(limits, Cancel, failed);
          StepInv(limits, GiveUp(w), Apply(limits, Cancel, failed));
        } else {
          StepInv(limits, Retry(w), failed);
          FlushKeepsInv(limits, Apply(limits, Retry(w), failed), w, tries[1..]);
        }
      }
    }
  }

  // The waits that end in a retry; none once ctx is done.
  function Failures(done: bool, tries: seq<Try>): (n: nat)
    ensures n <= |tries|
  {
    if tries == [] || tries[0] == Inserted then 0
    else if done || tries[0].cancelled then 0
    else 1 + Failures(done, tries[1..])
  }

  // A failed attempt under a live ctx changes nothing.
  lemma FailThenRetry<T>(limits: Limits, s: Server<T>, w: nat)
    requires InInsert(s, w) && !s.cancelled
    ensures Apply(limits, Retry(w), Apply(limits, InsertFailed(w), s)) == s
  {
    var failed := Apply(limits, InsertFailed(w), s);
    assert Apply(limits, Retry(w), failed).workers == s.workers;
  }

  lemma FlushLater<T>(limits: Limits, s: Server<T>, w: nat, tries: seq<Try>)
    requires InInsert(s, w) && !s.cancelled && tries != [] && tries[0] == Failed(false)
    ensures FlushSpec(limits, s, w, tries) == FlushSpec(limits, s, w, tries[1..])
  {
    hide Apply;
    FailThenRetry(limits, s, w);
  }

  // What a flush does to the batch: stored whole, given up whole, or still held. Under a finished ctx one
  // attempt decides which of the first two.
  lemma {:induction false} FlushIsAtomic<T>(limits: Limits, s: Server<T>, w: nat, tries: seq<Try>)
    requires InInsert(s, w)
    ensures var n := Failures(s.cancelled, tries);
            var r := FlushSpec(limits, s, w, tries);
            var batch := s.workers[w].batch;
            && r.queue == s.queue && r.closed == s.closed && r.accepted == s.accepted && |r.workers| == |s.workers|
            && (forall i :: 0 <= i < |s.workers| && i != w ==> r.workers[i] == s.workers[i])
            && (n == |tries| ==> r == s)
            && (n < |tries| ==> r.workers[w] == AfterFlush(s.workers[w].stage))
            && (n < |tries| && tries[n] == Inserted ==> r.stored == s.stored + [batch] && r.givenUp == s.givenUp)
            && (n < |tries| && tries[n] != Inserted ==>
                  r.stored == s.stored && r.givenUp == s.givenUp + batch && r.cancelled)
            && (s.cancelled ==> n == 0)
    decreases |tries|
  {
    if tries != [] && tries[0] == Failed(false) && !s.cancelled {
      hide FlushSpec;
      FlushLater(limits, s, w, tries);
      FlushIsAtomic(limits, s, w, tries[1..]);
    }
  }

  // What select picks: an entry, the closed queue, a tick or a finished ctx.
  function Selected<T>(limits: Limits, s: Server<T>, w: nat, ev: Event): Server<T>
    requires At(s, w, Selecting)
  {
    match ev
    case Received(_) =>
      if s.queue != [] then Apply(limits, Receive(w), s)
      else if s.closed then Apply(limits, SeeClosed(w), s)
      else s
    case Ticked(_) => Apply(limits, Tick(w), s)
    case Done(_) => if s.cancelled then Apply(limits, SeeCancel(w), s) else s
  }

  // One turn of a worker's loop, and the loop until the worker returns.
  function TurnSpec<T>(limits: Limits, s: Server<T>, w: nat, ev: Event): Server<T>
    requires At(s, w, Selecting)
  {
    var chosen := Selected(limits, s, w, ev);
    if InInsert(chosen, w) then FlushSpec(limits, chosen, w, ev.tries) else chosen
  }

  function LoopSpec<T>(limits: Limits, s: Server<T>, w: nat, events: seq<Event>): Server<T>
    decreases |events|
  {
    if events == [] || !At(s, w, Selecting) then s
    else LoopSpec(limits, TurnSpec(limits, s, w, events[0]), w, events[1..])
  }

  // The state with that worker and that queue.
  function Holding<T>(s: Server<T>, w: nat, batch: seq<T>, queue: seq<T>): Server<T>
    requires w < |s.workers|
  {
    s.(workers := s.workers[w := Worker(batch, Selecting)], queue := queue)
  }

  // The state after worker w stored batch, taken from its own and from the front of the queue, and returned or not.
  function Storing<T>(s: Server<T>, w: nat, batch: seq<T>, queue: seq<T>, returned: bool): Server<T>
    requires w < |s.workers|
  {
    s.(workers := s.workers[w := Worker([], if returned then Exited else Selecting)], queue := queue,
       stored := if batch == [] then s.stored else s.stored + [batch])
  }

  /** What one select does, with a database that works. An entry joins the batch, which is inserted as soon as it is
      full and not before; a tick inserts what there is; the closed, empty queue and the end of ctx insert what there is
      and end the worker. */
  lemma TurnMeans<T>(limits: Limits, s: Server<T>, w: nat, ev: Event)
    requires At(s, w, Selecting) && limits.batchSize > 0 && ev.tries != [] && ev.tries[0] == Inserted
    ensures var batch := s.workers[w].batch;
            var s' := TurnSpec(limits, s, w, ev);
            match ev
            case Received(_) =>
              if s.queue != [] then
                var more := batch + [s.queue[0]];
                s' == if |more| < limits.batchSize then Holding(s, w, more, s.queue[1..])
                      else Storing(s, w, more, s.queue[1..], false)
              else s' == if s.closed then Storing(s, w, batch, [], true) else s
            case Ticked(_) => s' == Storing(s, w, batch, s.queue, false)
            case Done(_) => s' == if s.cancelled then Storing(s, w, batch, s.queue, true) else s
  {
    var batch := s.workers[w].batch;
    assert s.workers[w] == Worker(batch, Selecting);
    FlushStores(limits, Selected(limits, s, w, ev), w, ev.tries);
  }

  lemma FlushStores<T>(limits: Limits, s: Server<T>, w: nat, tries: seq<Try>)
    requires w < |s.workers| && tries != [] && tries[0] == Inserted
    ensures InInsert(s, w) ==>
              FlushSpec(limits, s, w, tries) ==
              s.(workers := s.workers[w := Worker([], if s.workers[w].stage.exit then Exited else Selecting)],
                 stored := s.stored + [s.workers[w].batch])
  {
  }

  /** A batch that is not full waits: k entries received with room left for more are held by the worker, in order, and
      nothing is stored. */
  lemma {:induction false} CollectsUntilFull<T>(limits: Limits, s: Server<T>, w: nat, events: seq<Event>)
    requires At(s, w, Selecting) && forall i :: 0 <= i < |events| ==> events[i].Received?
    requires |events| <= |s.queue| && |s.workers[w].batch| + |events| < limits.batchSize
    ensures LoopSpec(limits, s, w, events) ==
            Holding(s, w, s.workers[w].batch + s.queue[..|events|], s.queue[|events|..])
    decreases |events|
  {
    if events == [] {
      assert s.workers[w].batch + s.queue[..0] == s.workers[w].batch && s.queue[0..] == s.queue;
      assert s.workers[w := Worker(s.workers[w].batch, Selecting)] == s.workers;
    } else {
      var mid := Holding(s, w, s.workers[w].batch + [s.queue[0]], s.queue[1..]);
      assert TurnSpec(limits, s, w, events[0]) == mid;
      CollectsUntilFull(limits, mid, w, events[1..]);
      var n := |events|;
      assert s.workers[w].batch + [s.queue[0]] + s.queue[1..][..n - 1] == s.workers[w].batch + s.queue[..n];
      assert s.queue[1..][n - 1..] == s.queue[n..];
    }
  }

  class Ingester<T> {
    const limits: Limits
    var queue: seq<T>
    var closed: bool
    var cancelled: bool
    var workers: seq<Worker<T>>
    var stored: seq<seq<T>>
    ghost var accepted: seq<T>
    ghost var givenUp: seq<T>
    ghost var acceptedAtCancel: nat

    ghost function Model(): Server<T>
      reads this
    {
      Server(queue, closed, cancelled, workers, accepted, stored, givenUp, acceptedAtCancel)
    }

    // New and Start.
    constructor (workers: int, batchSize: int, bufferSize: int)
      ensures limits == WithDefaults(workers, batchSize, bufferSize)
      ensures Model() == Started(limits) && Inv(limits, Model())
    {
      var l := WithDefaults(workers, batchSize, bufferSize);
      limits := l;
      queue, closed, cancelled, stored := [], false, false, [];
      this.workers := seq(l.workers, _ => Worker([], Selecting));
      accepted, givenUp, acceptedAtCancel := [], [], 0;
      new;
      StartedInv<T>(limits);
    }

    // Never blocks. With room and a finished ctx, select picks either.
    method Submit(e: T, ctxDone: bool, picksDone: bool) returns (r: Submitted)
      requires !closed
      modifies this
      ensures r == Accepted <==> |old(queue)| < limits.bufferSize && !(ctxDone && picksDone)
      ensures r == BufferFull <==> |old(queue)| >= limits.bufferSize && !ctxDone
      ensures r == Accepted ==> Model() == Apply(limits, Act.Submit(e), old(Model()))
      ensures r != Accepted ==> Model() == old(Model())
    {
      if |queue| < limits.bufferSize && !(ctxDone && picksDone) {
        queue := queue + [e];
        accepted := accepted + [e];
        r := Accepted;
      } else if ctxDone {
        r := ContextDone;
      } else {
        r := BufferFull;
      }
    }

    method Cancel()
      modifies this
      ensures Model() == Apply(limits, Act.Cancel, old(Model()))
      ensures cancelled && workers == old(workers) && stored == old(stored)
      ensures acceptedAtCancel == if old(cancelled) then old(acceptedAtCancel) else |accepted|
    {
      if !cancelled {
        acceptedAtCancel := |accepted|;
      }
      cancelled := true;
    }

    // Inserts the batch of worker w, waiting longer after each failure. The batch is kept
    // until an insert succeeds; only a finished ctx during a wait gives it up.
    method Flush(w: nat, tries: seq<Try>) returns (waited: seq<nat>)
      requires InInsert(Model(), w)
      modifies this
      ensures Model() == FlushSpec(limits, old(Model()), w, tries)
      ensures waited == Waits(Failures(old(cancelled), tries))
    {
      hide Apply;
      var backoff := INITIAL;
      waited := [];
      var n := 0;
      while n < |tries|
        invariant 0 <= n <= |tries| && Model() == old(Model())
        invariant FlushSpec(limits, Model(), w, tries[n..]) == FlushSpec(limits, Model(), w, tries)
        invariant n + Failures(cancelled, tries[n..]) == Failures(cancelled, tries)
        invariant backoff == Looped(n) && waited == Waits(n)
      {
        assert tries[n..][1..] == tries[n + 1..];
        match tries[n] {
          case Inserted =>
            Insert(w);
            return;
          case Failed(stop) =>
            Fail(w);
            if cancelled || stop {
              Cancel();
              Abandon(w);
              return;
            }
        }
        Again(w);
        FailThenRetry(limits, old(Model()), w);
        LoopWaits(n);
        waited := waited + [backoff];
        backoff := Doubled(backoff);
        n := n + 1;
      }
    }

    method Insert(w: nat)
      requires InInsert(Model(), w)
      modifies this
      ensures Model() == Apply(limits, InsertOk(w), old(Model()))
    {
      stored := stored + [workers[w].batch];
      workers := workers[w := AfterFlush(workers[w].stage)];
    }

    method Fail(w: nat)
      requires InInsert(Model(), w)
      modifies this
      ensures Model() == Apply(limits, InsertFailed(w), old(Model()))
      ensures InWait(Model(), w) && workers[w].stage.doomed == cancelled == old(cancelled)
      ensures stored == old(stored)
    {
      workers := workers[w := workers[w].(stage := Waiting(workers[w].stage.exit, cancelled))];
    }

    method Again(w: nat)
      requires InWait(Model(), w) && !workers[w].stage.doomed
      modifies this
      ensures Model() == Apply(limits, Retry(w), old(Model()))
      ensures InInsert(Model(), w) && cancelled == old(cancelled) && stored == old(stored)
    {
      workers := workers[w := workers[w].(stage := Inserting(workers[w].stage.exit))];
    }

    method Abandon(w: nat)
      requires InWait(Model(), w) && cancelled
      modifies this
      ensures Model() == Apply(limits, GiveUp(w), old(Model()))
      ensures stored == old(stored)
    {
      givenUp := givenUp + workers[w].batch;
      workers := workers[w := AfterFlush(workers[w].stage)];
    }

    method Take(w: nat)
      requires At(Model(), w, Selecting) && queue != []
      modifies this
      ensures Model() == Apply(limits, Receive(w), old(Model()))
      ensures stored == old(stored)
    {
      var batch := workers[w].batch + [queue[0]];
      queue := queue[1..];
      var full := |batch| >= limits.batchSize;
      workers := workers[w := if full then IntoFlush(batch, false) else Worker(batch, Selecting)];
    }

    method StartFlush(w: nat, exit: bool)
      requires At(Model(), w, Selecting)
      modifies this
      ensures stored == old(stored)
      ensures Model() == With(old(Model()), w, IntoFlush(old(workers[w].batch), exit))
    {
      workers := workers[w := IntoFlush(workers[w].batch, exit)];
    }

    // Any one step of the server, if it is possible.
    method Perform(a: Act<T>)
      modifies this
      ensures Model() == Stepped(limits, a, old(Model()))
    {
      if a.Submit? {
        if !closed && |queue| < limits.bufferSize {
          queue, accepted := queue + [a.e], accepted + [a.e];
        }
      } else if a.Close? {
        closed := true;
      } else if a.Cancel? {
        Cancel();
      } else if a.w < |workers| {
        match workers[a.w].stage {
          case Selecting =>
            if a.Receive? && queue != [] {
              Take(a.w);
            } else if a.Tick? {
              StartFlush(a.w, false);
            } else if (a.SeeClosed? && queue == [] && closed) || (a.SeeCancel? && cancelled) {
              StartFlush(a.w, true);
            }
          case Inserting(_) =>
            if a.InsertOk? {
              Insert(a.w);
            } else if a.InsertFailed? {
              Fail(a.w);
            }
          case Waiting(_, doomed) =>
            if a.Retry? && !doomed {
              Again(a.w);
            } else if a.GiveUp? && cancelled {
              Abandon(a.w);
            }
          case Exited =>
        }
      }
    }

    /** Stop, under every schedule of the workers. While ctx is live each flush meets finitely many failures, of a
        number not known in advance; ctx may end at any point, and from then on no insert need ever succeed.
        All workers return, whatever the interleaving. If ctx never ends, everything accepted is then
        stored, in order if there is one worker; dbDown says that ctx is done and the database
        never answers, and then nothing more is stored. */
    method Stop(dbDown: bool)
      requires Inv(limits, Model()) && limits.workers > 0 && (dbDown ==> cancelled)
      modifies this
      ensures closed && AllExited(Model()) && Inv(limits, Model())
      ensures accepted == old(accepted)
      ensures !cancelled ==> queue == [] && givenUp == [] && multiset(Flatten(stored)) == multiset(accepted)
      ensures !cancelled && limits.workers == 1 ==> Flatten(stored) == accepted
      ensures cancelled ==> |accepted| - |Flatten(stored)| <=
                            limits.bufferSize + limits.workers * limits.batchSize + (|accepted| - acceptedAtCancel)
      ensures dbDown ==> stored == old(stored)
    {
      hide Inv, Work, Patience, Apply, Flatten;
      StepInv(limits, Act.Close, Model());
      CloseIs(limits, Model());
      closed := true;
      var failuresLeft: nat := *;
      while exists w :: 0 <= w < |workers| && workers[w].stage != Exited
        invariant Inv(limits, Model()) && closed && accepted == old(accepted)
        invariant dbDown ==> cancelled && stored == old(stored)
        decreases Work(Model()), !cancelled, Patience(workers) + if cancelled then 0 else 2 * failuresLeft
      {
        var w :| 0 <= w < |workers| && workers[w].stage != Exited;
        var cancelNow: bool := *;
        if cancelNow && !cancelled {
          StepInv(limits, Act.Cancel, Model());
          CancelWork(limits, Model());
          Cancel();
        } else {
          failuresLeft := Advance(w, dbDown, failuresLeft);
        }
      }
      if cancelled {
        CancellationLoss(limits, Model());
      } else {
        Drained(limits, Model());
      }
    }

    // Any one step of worker w that does something. Once ctx is done, failures need no budget.
    method Advance(w: nat, dbDown: bool, failuresLeft: nat) returns (left: nat)
      requires Inv(limits, Model()) && closed && w < |workers| && workers[w].stage != Exited
      requires dbDown ==> cancelled
      modifies this
      ensures Inv(limits, Model()) && closed && cancelled == old(cancelled) && accepted == old(accepted)
      ensures dbDown ==> stored == old(stored)
      ensures Work(Model()) < old(Work(Model())) ||
              (Work(Model()) == old(Work(Model())) &&
               Patience(workers) + (if cancelled then 0 else 2 * left) <
               old(Patience(workers)) + (if cancelled then 0 else 2 * failuresLeft))
    {
      hide Inv, Work, Patience;
      ghost var was := Model();
      left := *;
      var choice: nat := *;
      match workers[w].stage {
        case Inserting(_) =>
          if dbDown || (choice == 0 && (cancelled || failuresLeft > 0)) {
            Justify(InsertFailed(w), was);
            Fail(w);
            left := if failuresLeft > 0 then failuresLeft - 1 else 0;
          } else {
            Justify(InsertOk(w), was);
            Insert(w);
          }
        case Waiting(_, doomed) =>
          if doomed {
            DoomedIsCancelled(limits, was, w);
          }
          if doomed || (cancelled && choice == 0) {
            Justify(GiveUp(w), was);
            Abandon(w);
          } else {
            Justify(Retry(w), was);
            Again(w);
            left := failuresLeft;
          }
        case Selecting =>
          if cancelled && choice == 0 {
            Justify(SeeCancel(w), was);
            StartFlush(w, true);
          } else if workers[w].batch != [] && choice == 1 {
            Justify(Tick(w), was);
            StartFlush(w, false);
          } else if queue != [] {
            Justify(Receive(w), was);
            Take(w);
          } else {
            Justify(SeeClosed(w), was);
            StartFlush(w, true);
          }
      }
    }

    lemma Justify(a: Act<T>, s: Server<T>)
      requires Inv(limits, s) && Enabled(limits, a, s) && WorkerAct(a) && !Idle(a, s)
      ensures var s' := Apply(limits, a, s);
              && Inv(limits, s')
              && s'.closed == s.closed && s'.cancelled == s.cancelled && s'.accepted == s.accepted
              && if a.InsertFailed? || a.Retry? then
                   Work(s') == Work(s) &&
                   Patience(s'.workers) == Patience(s.workers) + if a.Retry? || s.cancelled then -1 else 1
                 else Work(s') < Work(s)
    {
      hide Inv, Work, Patience;
      StepInv(limits, a, s);
      StepReducesWork(limits, a, s);
    }

    /** One worker alone, over a sequence of select events. It takes from the front of the queue, keeps
        the invariant, and as long as nothing is given up neither loses, repeats nor reorders an entry. */
    method RunWorker(w: nat, events: seq<Event>)
      requires Inv(limits, Model()) && At(Model(), w, Selecting)
      modifies this
      ensures Model() == LoopSpec(limits, old(Model()), w, events)
      ensures Inv(limits, Model()) && accepted == old(accepted) && closed == old(closed)
      ensures |workers| == |old(workers)| && forall i :: 0 <= i < |workers| && i != w ==> workers[i] == old(workers)[i]
      ensures givenUp == old(givenUp) ==>
                Flatten(stored) + workers[w].batch + queue == old(Flatten(stored) + workers[w].batch + queue)
    {
      hide Inv, Flatten, Apply, FlushSpec, TurnSpec;
      var i := 0;
      assert events[0..] == events;
      ghost var all := Flatten(stored) + workers[w].batch + queue;
      while i < |events| && workers[w].stage == Selecting
        invariant 0 <= i <= |events| && Inv(limits, Model())
        invariant w < |workers| &&
                  LoopSpec(limits, Model(), w, events[i..]) == LoopSpec(limits, old(Model()), w, events)
        invariant accepted == old(accepted) && closed == old(closed)
        invariant |workers| == |old(workers)|
        invariant forall i :: 0 <= i < |workers| && i != w ==> workers[i] == old(workers)[i]
        invariant |givenUp| >= |old(givenUp)|
        invariant givenUp == old(givenUp) ==> Flatten(stored) + workers[w].batch + queue == all
      {
        assert events[i..][1..] == events[i + 1..];
        OneEvent(w, events[i]);
        i := i + 1;
      }
    }

    method OneEvent(w: nat, ev: Event)
      requires Inv(limits, Model()) && At(Model(), w, Selecting)
      modifies this
      ensures Model() == TurnSpec(limits, old(Model()), w, ev)
      ensures Inv(limits, Model()) && accepted == old(accepted) && closed == old(closed)
      ensures |workers| == |old(workers)| && forall i :: 0 <= i < |workers| && i != w ==> workers[i] == old(workers)[i]
      ensures |givenUp| >= |old(givenUp)|
      ensures |givenUp| == |old(givenUp)| ==>
                givenUp == old(givenUp) &&
                Flatten(stored) + workers[w].batch + queue == old(Flatten(stored) + workers[w].batch + queue)
    {
      hide Inv, Flatten, FlushSpec, Selected;
      Select(w, ev);
      if workers[w].stage.Inserting? {
        FlushNow(w, ev.tries);
      }
    }

    method Select(w: nat, ev: Event)
      requires Inv(limits, Model()) && At(Model(), w, Selecting)
      modifies this
      ensures Model() == Selected(limits, old(Model()), w, ev)
      ensures Inv(limits, Model()) && accepted == old(accepted) && closed == old(closed) && givenUp == old(givenUp)
      ensures |workers| == |old(workers)| && forall i :: 0 <= i < |workers| && i != w ==> workers[i] == old(workers)[i]
      ensures Flatten(stored) + workers[w].batch + queue == old(Flatten(stored) + workers[w].batch + queue)
    {
      hide Inv, Flatten;
      ghost var was := Model();
      match ev {
        case Received(_) =>
          if queue != [] {
            StepInv(limits, Receive(w), was);
            Take(w);
            assert Flatten(was.stored) + (was.workers[w].batch + [was.queue[0]]) + was.queue[1..] ==
                   Flatten(was.stored) + was.workers[w].batch + was.queue;
          } else if closed {
            StepInv(limits, SeeClosed(w), was);
            StartFlush(w, true);
          }
        case Ticked(_) =>
          StepInv(limits, Tick(w), was);
          StartFlush(w, false);
        case Done(_) =>
          if cancelled {
            StepInv(limits, SeeCancel(w), was);
            StartFlush(w, true);
          }
      }
    }

    method FlushNow(w: nat, tries: seq<Try>)
      requires Inv(limits, Model()) && InInsert(Model(), w)
      modifies this
      ensures Model() == FlushSpec(limits, old(Model()), w, tries)
      ensures Inv(limits, Model()) && accepted == old(accepted) && closed == old(closed)
      ensures |workers| == |old(workers)| && forall i :: 0 <= i < |workers| && i != w ==> workers[i] == old(workers)[i]
      ensures |givenUp| >= |old(givenUp)|
      ensures |givenUp| == |old(givenUp)| ==>
                givenUp == old(givenUp) &&
                Flatten(stored) + workers[w].batch + queue == old(Flatten(stored) + workers[w].batch + queue)
    {
      hide Inv, Flatten, FlushSpec;
      ghost var mid := Model();
      FlushKeepsInv(limits, mid, w, tries);
      FlushIsAtomic(limits, mid, w, tries);
      FlattenOne(mid.stored, mid.workers[w].batch);
      FlushHasBatch(limits, mid, w);
      var _ := Flush(w, tries);
      assert Flatten(mid.stored) + mid.workers[w].batch + [] + mid.queue ==
             Flatten(mid.stored) + mid.workers[w].batch + mid.queue;
    }
  }

  lemma FlushHasBatch<T>(limits: Limits, s: Server<T>, w: nat)
    requires Inv(limits, s) && InInsert(s, w)
    ensures s.workers[w].batch != []
  {
    hide Conserved, LossBounded, InOrder;
    assert WorkerOk(limits, s, s.workers[w]);
  }

  lemma DoomedIsCancelled<T>(limits: Limits, s: Server<T>, w: nat)
    requires Inv(limits, s) && InWait(s, w) && s.workers[w].stage.doomed
    ensures s.cancelled
  {
    hide Conserved, LossBounded, InOrder;
    assert WorkerOk(limits, s, s.workers[w]);
  }

  lemma CloseIs<T>(limits: Limits, s: Server<T>)
    ensures Apply(limits, Act.Close, s) == s.(closed := true)
  {
  }

  lemma CancelWork<T>(limits: Limits, s: Server<T>)
    ensures var s' := Apply(limits, Act.Cancel, s);
            Work(s') == Work(s) && s'.workers == s.workers && s'.cancelled && s'.closed == s.closed &&
            s'.accepted == s.accepted
  {
  }
}
