/** The batching sender (internal/logagent/shipper.go). What the server answers, when ctx is cancelled
    and which select case fires are parameters. */
module Shipping {
  import opened Wrappers
  import opened Entities
  import opened PositionStore
  import opened Backoff

  // How one send ends, whether the save after a receipt reaches the disk, and whether ctx is
  // cancelled during the wait after a failure.
  datatype Attempt = Receipted(accepted: nat, renamed: bool) | Failed(cancelled: bool)

  datatype Outcome = Committed(renamed: bool) | GivenUp | StillRetrying

  // One batch handed to flush or final, and what became of it.
  datatype Shipment = Shipment(batch: seq<Entry>, outcome: Outcome)

  datatype Event =
    | Arrive(e: Entry, attempts: seq<Attempt>)
    | FlushTick(attempts: seq<Attempt>)
    | ReportTick
    | Cancelled
    | InClosed(last: Attempt)

  // Positions after a batch is set entry by entry.
  function SetAll(m: map<string, Position>, batch: seq<Entry>): map<string, Position> {
    if batch == [] then m
    else
      var e := batch[|batch| - 1];
      SetAll(m, batch[..|batch| - 1])[e.file := Position(e.inode, e.offset)]
  }

  // Files without an entry keep their position.
  lemma {:induction false} OthersKept(m: map<string, Position>, batch: seq<Entry>, file: string)
    requires forall i :: 0 <= i < |batch| ==> batch[i].file != file
    ensures file in SetAll(m, batch) <==> file in m
    ensures file in m ==> SetAll(m, batch)[file] == m[file]
  {
    if batch != [] {
      OthersKept(m, batch[..|batch| - 1], file);
    }
  }

  // The last entry of each file wins.
  lemma {:induction false} LastEntryWins(m: map<string, Position>, batch: seq<Entry>, i: nat)
    requires i < |batch| && forall j :: i < j < |batch| ==> batch[j].file != batch[i].file
    ensures var e := batch[i];
            e.file in SetAll(m, batch) && SetAll(m, batch)[e.file] == Position(e.inode, e.offset)
  {
    var n := |batch| - 1;
    if i < n {
      assert batch[..n][i] == batch[i];
      LastEntryWins(m, batch[..n], i);
    }
  }

  lemma {:induction false} SetAllJoin(m: map<string, Position>, a: seq<Entry>, b: seq<Entry>)
    ensures SetAll(m, a + b) == SetAll(SetAll(m, a), b)
    decreases |b|
  {
    if b == [] {
      assert a + b == a;
    } else {
      var n := |b| - 1;
      SetAllJoin(m, a, b[..n]);
      assert (a + b)[..|a| + n] == a + b[..n];
    }
  }

  // Memory and disk after a shipment.
  datatype Books = Books(m: map<string, Position>, disk: OnDisk)

  function Book(b: Books, sh: Shipment): Books {
    match sh.outcome
    case Committed(renamed) =>
      var m := SetAll(b.m, sh.batch);
      Books(m, if renamed then Saved(m) else b.disk)
    case _ => b
  }

  function BookAll(b: Books, shs: seq<Shipment>): Books {
    if shs == [] then b else Book(BookAll(b, shs[..|shs| - 1]), shs[|shs| - 1])
  }

  function Shipped(shs: seq<Shipment>): seq<Entry> {
    if shs == [] then [] else Shipped(shs[..|shs| - 1]) + shs[|shs| - 1].batch
  }

  function Arrivals(events: seq<Event>): seq<Entry> {
    if events == [] then []
    else
      var ev := events[|events| - 1];
      Arrivals(events[..|events| - 1]) + (if ev.Arrive? then [ev.e] else [])
  }

  function FailuresBefore(attempts: seq<Attempt>): (n: nat)
    ensures n <= |attempts|
    ensures forall i :: 0 <= i < n ==> attempts[i] == Failed(false)
    ensures n < |attempts| ==> attempts[n] != Failed(false)
  {
    if attempts == [] || attempts[0] != Failed(false) then 0 else 1 + FailuresBefore(attempts[1..])
  }

  // flush keeps trying until a receipt or a cancellation.
  function FlushOutcome(attempts: seq<Attempt>): Outcome {
    var n := FailuresBefore(attempts);
    if n == |attempts| then StillRetrying
    else if attempts[n].Receipted? then Committed(attempts[n].renamed)
    else GivenUp
  }

  lemma FirstSettled(attempts: seq<Attempt>, n: nat)
    requires n < |attempts| && attempts[n] != Failed(false)
    requires forall i :: 0 <= i < n ==> attempts[i] == Failed(false)
    ensures FailuresBefore(attempts) == n
  {
  }

  // Run's local state. live says that ctx has not been cancelled, as far as the loop and its flushes saw.
  // flushes counts the shipments that flush made; stopped says that the channel closed or that a
  // flush is still retrying.
  datatype Loop = Loop(shs: seq<Shipment>, held: seq<Entry>, live: bool, stopped: bool, flushes: nat, handled: nat)

  function HandOn(l: Loop, attempts: seq<Attempt>): Loop {
    var outcome := FlushOutcome(attempts);
    l.(shs := l.shs + [Shipment(l.held, outcome)], held := [], live := l.live && outcome != GivenUp,
       stopped := outcome == StillRetrying, flushes := l.flushes + 1)
  }

  function FinalOutcome(last: Attempt): Outcome {
    if last.Receipted? then Committed(last.renamed) else GivenUp
  }

  // One turn of the select loop.
  function Turn(size: nat, before: Loop, ev: Event): Loop {
    var l := before.(handled := before.handled + 1);
    match ev
    case Arrive(e, attempts) =>
      var taken := l.(held := l.held + [e]);
      if |taken.held| >= size && l.live then HandOn(taken, attempts) else taken
    case FlushTick(attempts) => if l.held != [] && l.live then HandOn(l, attempts) else l
    case ReportTick => l
    case Cancelled => l.(live := false)
    case InClosed(last) =>
      if l.held == [] then l.(stopped := true)
      else l.(shs := l.shs + [Shipment(l.held, FinalOutcome(last))], held := [], stopped := true)
  }

  function RunSpec(size: nat, events: seq<Event>): Loop {
    if events == [] then Loop([], [], true, false, 0, 0)
    else
      var l := RunSpec(size, events[..|events| - 1]);
      if l.stopped then l else Turn(size, l, events[|events| - 1])
  }

  lemma ShippedOne(shs: seq<Shipment>, sh: Shipment)
    ensures Shipped(shs + [sh]) == Shipped(shs) + sh.batch
  {
    assert (shs + [sh])[..|shs|] == shs;
  }

  lemma TurnKeepsOrder(size: nat, before: Loop, ev: Event)
    ensures var l := Turn(size, before, ev);
            Shipped(l.shs) + l.held == Shipped(before.shs) + before.held + (if ev.Arrive? then [ev.e] else [])
  {
    hide FlushOutcome, FinalOutcome, Shipped;
    var l := Turn(size, before, ev);
    var now := if ev.Arrive? then before.held + [ev.e] else before.held;
    assert Shipped(before.shs) + now == Shipped(before.shs) + before.held + (if ev.Arrive? then [ev.e] else []);
    if |l.shs| > |before.shs| {
      ShippedOne(before.shs, l.shs[|before.shs|]);
      assert Shipped(l.shs) + [] == Shipped(before.shs) + now;
    }
  }

  /** Nothing is lost, repeated or reordered between the channel and the shipments: what arrived is the batches
      handed on, one after another, and then the batch still held. */
  lemma {:induction false} RunKeepsOrder(size: nat, events: seq<Event>)
    ensures var l := RunSpec(size, events);
            && l.handled <= |events| && (!l.stopped ==> l.handled == |events|)
            && Shipped(l.shs) + l.held == Arrivals(events[..l.handled])
  {
    hide FlushOutcome, FinalOutcome, Shipped;
    if events == [] {
      NoShipments();
    } else {
      var n := |events| - 1;
      RunKeepsOrder(size, events[..n]);
      var before := RunSpec(size, events[..n]);
      assert events[..n][..before.handled] == events[..before.handled];
      if !before.stopped {
        TurnKeepsOrder(size, before, events[n]);
        assert events[..n + 1] == events;
      }
    }
  }

  lemma NoShipments()
    ensures Shipped([]) == []
  {
  }

  /** Batches: none is empty, flush is never given more than a full batch, and less than a batch is held while ctx
      is live; without ticks flush is only ever given full batches. After a cancellation the held batch
      grows without bound, until the shutdown send. */
  lemma {:induction false} RunBatches(size: nat, events: seq<Event>)
    requires size > 0
    ensures var l := RunSpec(size, events);
            && l.flushes <= |l.shs| <= l.flushes + 1 && (l.flushes < |l.shs| ==> l.stopped)
            && (forall i :: 0 <= i < |l.shs| ==> l.shs[i].batch != [])
            && (forall i :: 0 <= i < l.flushes ==> |l.shs[i].batch| <= size)
            && (l.live ==> |l.held| < size && forall i :: 0 <= i < |l.shs| ==> |l.shs[i].batch| <= size)
            && ((forall i :: 0 <= i < |events| ==> !events[i].FlushTick?) ==>
                  forall i :: 0 <= i < l.flushes ==> |l.shs[i].batch| == size)
  {
    hide FlushOutcome, FinalOutcome;
    if events != [] {
      RunBatches(size, events[..|events| - 1]);
    }
  }

  /** Nothing stays behind: a tick of a live loop, and the close of the channel, hand on all that has arrived. What a
      flush left unsettled is the one that is still retrying. */
  lemma NothingStaysBehind(size: nat, events: seq<Event>, ev: Event)
    requires !RunSpec(size, events).stopped
    requires ev.InClosed? || (ev.FlushTick? && RunSpec(size, events).live)
    ensures var l := RunSpec(size, events + [ev]);
            && l.held == [] && Shipped(l.shs) == Arrivals(events)
            && (ev.InClosed? ==> l.stopped)
  {
    hide FlushOutcome, FinalOutcome, Shipped, Arrivals;
    var all := events + [ev];
    assert all[..|events|] == events == events[..|events|];
    RunKeepsOrder(size, events);
    TurnKeepsOrder(size, RunSpec(size, events), ev);
    var l := RunSpec(size, all);
    assert Shipped(l.shs) + [] == Shipped(l.shs);
    assert Arrivals(events) + [] == Arrivals(events);
  }

  // What tells a loop that ctx is cancelled: a select that saw it, or a flush that gave up because of it.
  ghost predicate NoCancellation(events: seq<Event>, l: Loop)
    requires l.handled <= |events| && l.flushes <= |l.shs|
  {
    && (forall i :: 0 <= i < l.handled ==> events[i] != Cancelled)
    && (forall i :: 0 <= i < l.flushes ==> l.shs[i].outcome != GivenUp)
  }

  lemma TurnLive(size: nat, events: seq<Event>, before: Loop, ev: Event)
    requires before.handled == |events| && before.flushes == |before.shs|
    requires before.live <==> NoCancellation(events, before)
    ensures var l := Turn(size, before, ev);
            l.handled == |events| + 1 && l.flushes <= |l.shs| && (l.live <==> NoCancellation(events + [ev], l))
  {
    hide FlushOutcome, FinalOutcome;
    var l, all := Turn(size, before, ev), events + [ev];
    assert all[|events|] == ev && forall i :: 0 <= i < |events| ==> all[i] == events[i];
    assert forall i :: 0 <= i < |before.shs| ==> l.shs[i] == before.shs[i];
    if l.flushes > before.flushes {
      assert l.live <==> before.live && l.shs[before.flushes].outcome != GivenUp;
    }
  }

  // Every flush before the last one committed its batch, and so did the last one of a live loop.
  ghost predicate FlushesCommitted(l: Loop)
    requires l.flushes <= |l.shs|
  {
    && (forall i :: 0 <= i < l.flushes - 1 ==> l.shs[i].outcome.Committed?)
    && (!l.stopped && l.live && l.flushes > 0 ==> l.shs[l.flushes - 1].outcome.Committed?)
  }

  lemma TurnCommitted(size: nat, before: Loop, ev: Event)
    requires before.flushes == |before.shs| && FlushesCommitted(before) && !before.stopped
    ensures var l := Turn(size, before, ev);
            l.flushes <= |l.shs| && FlushesCommitted(l) && (!l.stopped ==> l.flushes == |l.shs|)
  {
    hide FlushOutcome, FinalOutcome;
  }

  /** When the loop counts ctx as cancelled: a select saw it, or a flush gave up its batch because of it. Every
      flush before the last one committed its batch. */
  lemma {:induction false} LiveExactly(size: nat, events: seq<Event>)
    ensures var l := RunSpec(size, events);
            && l.handled <= |events| && l.flushes <= |l.shs|
            && (l.live <==> NoCancellation(events, l)) && FlushesCommitted(l)
            && (!l.stopped ==> l.handled == |events| && l.flushes == |l.shs|)
  {
    hide Turn, NoCancellation, FlushesCommitted;
    if events == [] {
      NothingHandled(size);
    } else {
      var n := |events| - 1;
      LiveExactly(size, events[..n]);
      var before := RunSpec(size, events[..n]);
      if before.stopped {
        SameHandled(events, before);
      } else {
        TurnLive(size, events[..n], before, events[n]);
        TurnCommitted(size, before, events[n]);
        assert events[..n] + [events[n]] == events;
      }
    }
  }

  lemma NothingHandled(size: nat)
    ensures NoCancellation([], RunSpec(size, [])) && FlushesCommitted(RunSpec(size, []))
  {
  }

  lemma SameHandled(events: seq<Event>, l: Loop)
    requires events != [] && l.handled < |events| && l.flushes <= |l.shs|
    ensures NoCancellation(events, l) <==> NoCancellation(events[..|events| - 1], l)
  {
  }

  /** Once ctx is cancelled, whether a select saw it or a flush that gave up, flush is not called again: whatever
      arrives later goes out in at most one more shipment, the shutdown send, together with
      what was held. */
  lemma {:induction false} NoFlushAfterCancel(size: nat, before: seq<Event>, after: seq<Event>)
    requires !RunSpec(size, before).stopped && !RunSpec(size, before).live
    ensures var l, l' := RunSpec(size, before), RunSpec(size, before + after);
            && !l'.live && l'.flushes == l.flushes && |l'.shs| <= |l.shs| + 1
            && l.shs <= l'.shs && (!l'.stopped ==> l'.shs == l.shs)
  {
    if after == [] {
      assert before + after == before;
    } else {
      var n := |after| - 1;
      NoFlushAfterCancel(size, before, after[..n]);
      assert (before + after)[..|before| + n] == before + after[..n];
    }
  }

  class Shipper {
    const positions: Positions
    const batchSize: nat
    var shipped: nat

    constructor (positions: Positions, batchSize: nat)
      ensures this.positions == positions && this.batchSize == batchSize && shipped == 0
    {
      this.positions, this.batchSize, shipped := positions, batchSize, 0;
    }

    ghost function Now(): Books
      reads this, positions
    {
      Books(positions.m, positions.disk)
    }

    // The positions of a delivered batch, however many entries the server says it accepted.
    method Commit(batch: seq<Entry>, accepted: nat, renamed: bool)
      modifies this`shipped, positions
      ensures Now() == Book(old(Now()), Shipment(batch, Committed(renamed)))
      ensures shipped == old(shipped) + |batch|
    {
      for i := 0 to |batch|
        invariant positions.m == SetAll(old(positions.m), batch[..i]) && positions.disk == old(positions.disk)
        invariant shipped == old(shipped)
      {
        assert batch[..i + 1][..i] == batch[..i];
        positions.Set(batch[i].file, Position(batch[i].inode, batch[i].offset));
      }
      assert batch[..|batch|] == batch;
      var _ := positions.Save(renamed);
      shipped := shipped + |batch|;
    }

    // Retries with doubling waits; gives up only when ctx is cancelled while waiting.
    method Flush(batch: seq<Entry>, attempts: seq<Attempt>) returns (outcome: Outcome, waited: seq<nat>)
      modifies this`shipped, positions
      ensures outcome == FlushOutcome(attempts)
      ensures waited == Waits(FailuresBefore(attempts))
      ensures Now() == Book(old(Now()), Shipment(batch, outcome))
      ensures shipped == old(shipped) + if outcome.Committed? then |batch| else 0
    {
      var backoff := INITIAL;
      waited := [];
      var n := 0;
      while n < |attempts|
        invariant 0 <= n <= |attempts|
        invariant forall i :: 0 <= i < n ==> attempts[i] == Failed(false)
        invariant backoff == Looped(n) && waited == Waits(n)
        invariant Now() == old(Now()) && shipped == old(shipped)
      {
        if attempts[n] != Failed(false) {
          FirstSettled(attempts, n);
        }
        match attempts[n] {
          case Receipted(accepted, renamed) =>
            Commit(batch, accepted, renamed);
            return Committed(renamed), waited;
          case Failed(cancelled) =>
            if cancelled {
              return GivenUp, waited;
            }
        }
        LoopWaits(n);
        waited := waited + [backoff];
        backoff := Doubled(backoff);
        n := n + 1;
      }
      outcome := StillRetrying;
    }

    // The one shutdown attempt.
    method Final(batch: seq<Entry>, last: Attempt) returns (shs: seq<Shipment>)
      modifies this`shipped, positions
      ensures shs == if batch == [] then [] else [Shipment(batch, FinalOutcome(last))]
      ensures Now() == BookAll(old(Now()), shs)
    {
      shs := [];
      if batch != [] {
        match last {
          case Receipted(accepted, renamed) =>
            Commit(batch, accepted, renamed);
            shs := [Shipment(batch, Committed(renamed))];
          case Failed(_) =>
            shs := [Shipment(batch, GivenUp)];
        }
        assert shs[..0] == [];
      }
    }

    // Over a sequence of select events, up to the close of the channel or a flush that is still retrying.
    // The books end up as those of the committed shipments, one after another.
    method Run(events: seq<Event>) returns (shs: seq<Shipment>, held: seq<Entry>)
      modifies this, positions
      ensures RunSpec(batchSize, events).shs == shs && RunSpec(batchSize, events).held == held
      ensures Now() == BookAll(old(Now()), shs)
    {
      hide BookAll, Book, FlushOutcome, FinalOutcome;
      shs, held := [], [];
      var live, stopped := true, false;
      BookNone(Now());
      var i := 0;
      assert events[..0] == [];
      while i < |events| && !stopped
        invariant 0 <= i <= |events|
        invariant var l := RunSpec(batchSize, events[..i]);
                  l.shs == shs && l.held == held && l.live == live && l.stopped == stopped
        invariant Now() == BookAll(old(Now()), shs)
      {
        assert events[..i + 1][..i] == events[..i];
        match events[i] {
          case Arrive(e, attempts) =>
            held := held + [e];
            if |held| >= batchSize && live {
              shs, live, stopped := HandOver(shs, held, attempts, old(Now()));
              held := [];
            }
          case FlushTick(attempts) =>
            if |held| > 0 && live {
              shs, live, stopped := HandOver(shs, held, attempts, old(Now()));
              held := [];
            }
          case ReportTick =>
            if shipped > 0 {
              shipped := 0;
            }
          case Cancelled =>
            live := false;
          case InClosed(last) =>
            var closing := Final(held, last);
            BookClosing(old(Now()), shs, closing);
            assert shs + [] == shs;
            shs, held, stopped := shs + closing, [], true;
        }
        i := i + 1;
      }
      StoppedStays(batchSize, events, i);
    }

    method HandOver(shs: seq<Shipment>, held: seq<Entry>, attempts: seq<Attempt>, ghost first: Books)
      returns (shs': seq<Shipment>, live: bool, stopped: bool)
      requires Now() == BookAll(first, shs)
      modifies this`shipped, positions
      ensures var outcome := FlushOutcome(attempts);
              && shs' == shs + [Shipment(held, outcome)]
              && live == (outcome != GivenUp) && stopped == (outcome == StillRetrying)
      ensures Now() == BookAll(first, shs')
    {
      var outcome, _ := Flush(held, attempts);
      BookOne(first, shs, Shipment(held, outcome));
      shs' := shs + [Shipment(held, outcome)];
      live, stopped := outcome != GivenUp, outcome == StillRetrying;
    }
  }

  lemma BookNone(b: Books)
    ensures BookAll(b, []) == b
  {
  }

  lemma BookOne(b: Books, shs: seq<Shipment>, sh: Shipment)
    ensures BookAll(b, shs + [sh]) == Book(BookAll(b, shs), sh)
  {
    assert (shs + [sh])[..|shs|] == shs;
  }

  // The last shipment whose positions reached the disk.
  function LastSave(shs: seq<Shipment>): (k: Option<nat>)
    ensures k.Some? ==> k.value < |shs| && shs[k.value].outcome == Committed(true)
  {
    if shs == [] then None
    else
      var n := |shs| - 1;
      if shs[n].outcome == Committed(true) then Some(n) else LastSave(shs[..n])
  }

  /** A restart resumes from the last save: whatever was shipped, given up or failed to be saved since, loading the
      file finds the positions that were in memory when it was last renamed, or the file that was there. */
  lemma {:induction false} RestartReadsLastSave(b: Books, shs: seq<Shipment>)
    ensures match LastSave(shs)
            case None => BookAll(b, shs).disk == b.disk
            case Some(k) => Loaded(BookAll(b, shs).disk) == Ok(BookAll(b, shs[..k + 1]).m)
  {
    if shs != [] {
      var n := |shs| - 1;
      RestartReadsLastSave(b, shs[..n]);
      var last := LastSave(shs);
      if last == Some(n) {
        assert shs[..n + 1] == shs;
      } else if last.Some? {
        assert shs[..n][..last.value + 1] == shs[..last.value + 1];
      }
    }
  }

  lemma BookClosing(b: Books, shs: seq<Shipment>, closing: seq<Shipment>)
    requires |closing| <= 1
    ensures BookAll(b, shs + closing) == BookAll(BookAll(b, shs), closing)
  {
    if closing == [] {
      assert shs + closing == shs;
    } else {
      assert shs + closing == shs + [closing[0]];
      BookOne(b, shs, closing[0]);
      assert closing[..0] == [];
    }
  }

  lemma {:induction false} StoppedStays(size: nat, events: seq<Event>, n: nat)
    requires n <= |events| && (n == |events| || RunSpec(size, events[..n]).stopped)
    ensures RunSpec(size, events) == RunSpec(size, events[..n])
    decreases |events|
  {
    if n == |events| {
      assert events[..n] == events;
    } else {
      assert events[..|events| - 1][..n] == events[..n];
      StoppedStays(size, events[..|events| - 1], n);
    }
  }
}
