/** The shipper's methods are runs of the pipeline's steps: what Commit, Flush, Final and Run compute in one go is
    what the interleaved actions reach one at a time. */
module ShipperRefinement {
  import opened Wrappers
  import opened Entities
  import opened Pipeline
  import opened Steps
  import Shipping
  import PositionStore

  // Memory and disk as the shipper's books.
  function BooksOf(m: map<string, Position>, disk: map<string, Position>): Shipping.Books {
    Shipping.Books(m, PositionStore.Saved(disk))
  }

  // The committing shipper once the positions of its batch from first up to k are set.
  function Committed(s: World, final: bool, first: nat, k: nat): World
    requires first <= k <= |s.batch|
  {
    s.(mem := Shipping.SetAll(s.mem, s.batch[first..k]), phase := Committing(final, k))
  }

  lemma SetOne(cfg: Config, s: World, final: bool, first: nat, k: nat)
    requires first <= k < |s.batch|
    ensures Enabled(cfg, SetPosition, Committed(s, final, first, k))
    ensures Apply(cfg, false, SetPosition, Committed(s, final, first, k)) == Committed(s, final, first, k + 1)
  {
    assert s.batch[first..k + 1][..k - first] == s.batch[first..k];
  }

  lemma {:induction false} SetPositions(cfg: Config, s: World, final: bool, first: nat, k: nat)
    returns (acts: seq<Action>)
    requires first <= k <= |s.batch|
    ensures Leads(cfg, Committed(s, final, first, k), acts, Committed(s, final, first, |s.batch|)) && Onwards(acts)
    decreases |s.batch| - k
  {
    hide Leads, Apply, Enabled, Committed;
    if k == |s.batch| {
      acts := [];
      NoSteps(cfg, Committed(s, final, first, k));
    } else {
      SetOne(cfg, s, final, first, k);
      var more := SetPositions(cfg, s, final, first, k + 1);
      acts := [SetPosition] + more;
      OneThen(cfg, Committed(s, final, first, k), SetPosition, Committed(s, final, first, k + 1), more,
              Committed(s, final, first, |s.batch|));
    }
  }

  // What is left of a commit under way.
  lemma CommitRest(cfg: Config, s: World, renamed: bool) returns (acts: seq<Action>)
    requires s.phase.Committing? && s.phase.next <= |s.batch|
    ensures var m := Shipping.SetAll(s.mem, s.batch[s.phase.next..]);
            && (renamed ==> Onwards(acts))
            && Leads(cfg, s, acts, s.(mem := m, disk := if renamed then m else s.disk, batch := [],
                                      phase := if s.phase.final then Stopped else Collecting))
  {
    hide Shipping.SetAll, Leads, Apply, Enabled;
    var k := s.phase.next;
    assert s.batch[k..k] == [] && s.batch[k..|s.batch|] == s.batch[k..];
    SetNone(s.mem);
    var sets := SetPositions(cfg, s, s.phase.final, k, k);
    var mid := s.(mem := Shipping.SetAll(s.mem, s.batch[k..]), phase := Committing(s.phase.final, |s.batch|));
    var last := SaveOne(cfg, mid, renamed);
    ThenOne(cfg, s, sets, mid, Save(renamed), last);
    acts := sets + [Save(renamed)];
  }

  /** Commit's bookkeeping, entry by entry and then saved, is what the steps after a receipt
      reach when no pass forgets a position in between. */
  lemma CommitIsSteps(cfg: Config, s: World, renamed: bool) returns (acts: seq<Action>)
    requires s.phase.Committing? && s.phase.next == 0
    ensures var sh := Shipping.Shipment(s.batch, Shipping.Committed(renamed));
            var after := Shipping.Book(BooksOf(s.mem, s.disk), sh);
            && after.disk.Saved? && (renamed ==> Onwards(acts))
            && Leads(cfg, s, acts, s.(mem := after.m, disk := after.disk.m, batch := [],
                                      phase := if s.phase.final then Stopped else Collecting))
  {
    hide Shipping.SetAll, Leads;
    assert s.batch[0..] == s.batch;
    acts := CommitRest(cfg, s, renamed);
  }

  lemma SaveOne(cfg: Config, s: World, renamed: bool) returns (s': World)
    requires s.phase.Committing? && s.phase.next == |s.batch|
    ensures s' == s.(disk := if renamed then s.mem else s.disk, batch := [],
                     phase := if s.phase.final then Stopped else Collecting)
    ensures Enabled(cfg, Save(renamed), s) && Apply(cfg, false, Save(renamed), s) == s'
  {
    s' := Apply(cfg, false, Save(renamed), s);
  }

  lemma SetNone(m: map<string, Position>)
    ensures Shipping.SetAll(m, []) == m
  {
  }

  // After flush or the shutdown send has dealt with the batch. A batch given up on is forgotten by Run,
  // because ctx is cancelled; one still being retried stays where it is.
  function AfterShipment(s: World, outcome: Shipping.Outcome): World
    requires s.phase.Sending?
  {
    match outcome
    case Committed(renamed) =>
      var m := Shipping.SetAll(s.mem, s.batch);
      s.(mem := m, disk := if renamed then m else s.disk, batch := [],
         delivered := s.delivered + ToSet(s.batch), arrived := s.arrived + s.batch,
         phase := if s.phase.final then Stopped else Collecting)
    case GivenUp =>
      if s.phase.final then s.(phase := Stopped)
      else s.(cancelled := true, batch := [], abandoned := s.abandoned + s.batch, phase := Collecting)
    case StillRetrying => s
  }

  lemma FailOnce(cfg: Config, s: World)
    requires s.phase.Sending?
    ensures Enabled(cfg, SendFailed(0), s)
    ensures Apply(cfg, false, SendFailed(0), s) == if s.phase.final then s.(phase := Stopped) else s
  {
    assert s.arrived + s.batch[..0] == s.arrived;
  }

  lemma ReceiptIsSteps(cfg: Config, s: World, renamed: bool) returns (acts: seq<Action>)
    requires s.phase.Sending?
    ensures Leads(cfg, s, acts, AfterShipment(s, Shipping.Committed(renamed))) && (renamed ==> Onwards(acts))
  {
    hide Leads, Shipping.SetAll;
    assert s.batch[..|s.batch|] == s.batch;
    var mid := s.(delivered := s.delivered + ToSet(s.batch), arrived := s.arrived + s.batch,
                  phase := Committing(s.phase.final, 0));
    var more := CommitIsSteps(cfg, mid, renamed);
    OneThen(cfg, s, Receipt, mid, more, AfterShipment(s, Shipping.Committed(renamed)));
    acts := [Receipt] + more;
  }

  lemma AbandonIsSteps(cfg: Config, s: World) returns (acts: seq<Action>)
    requires s.phase == Sending(false)
    ensures Leads(cfg, s, acts, AfterShipment(s, Shipping.GivenUp))
  {
    hide Leads;
    FailOnce(cfg, s);
    var mid := s.(cancelled := true);
    var last := AfterShipment(s, Shipping.GivenUp);
    NoSteps(cfg, last);
    OneThen(cfg, mid, Abandon, last, [], last);
    OneThen(cfg, s, Cancel, mid, [Abandon] + [], last);
    OneThen(cfg, s, SendFailed(0), s, [Cancel] + ([Abandon] + []), last);
    acts := [SendFailed(0)] + ([Cancel] + ([Abandon] + []));
  }

  lemma FlushLater(attempts: seq<Shipping.Attempt>)
    requires attempts != [] && attempts[0] == Shipping.Failed(false)
    ensures Shipping.FlushOutcome(attempts) == Shipping.FlushOutcome(attempts[1..])
  {
  }

  /** Flush is a run of failed sends, then a receipt with its bookkeeping, or a cancellation with an Abandon. */
  lemma {:induction false} FlushIsSteps(cfg: Config, s: World, attempts: seq<Shipping.Attempt>)
    returns (acts: seq<Action>)
    requires s.phase == Sending(false)
    ensures Leads(cfg, s, acts, AfterShipment(s, Shipping.FlushOutcome(attempts)))
    decreases |attempts|
  {
    hide Leads, Apply, Enabled;
    if attempts == [] {
      acts := [];
      NoSteps(cfg, s);
    } else {
      match attempts[0]
      case Receipted(_, renamed) => acts := ReceiptIsSteps(cfg, s, renamed);
      case Failed(cancelled) =>
        if cancelled {
          acts := AbandonIsSteps(cfg, s);
        } else {
          FlushLater(attempts);
          FailOnce(cfg, s);
          var more := FlushIsSteps(cfg, s, attempts[1..]);
          OneThen(cfg, s, SendFailed(0), s, more, AfterShipment(s, Shipping.FlushOutcome(attempts)));
          acts := [SendFailed(0)] + more;
        }
    }
  }

  // The shutdown send is one attempt.
  lemma FinalIsSteps(cfg: Config, s: World, last: Shipping.Attempt) returns (acts: seq<Action>)
    requires s.phase == Sending(true)
    ensures Leads(cfg, s, acts, AfterShipment(s, Shipping.FinalOutcome(last)))
  {
    hide Leads, Apply, Enabled;
    match last
    case Receipted(_, renamed) => acts := ReceiptIsSteps(cfg, s, renamed);
    case Failed(_) =>
      FailOnce(cfg, s);
      var s' := AfterShipment(s, Shipping.GivenUp);
      NoSteps(cfg, s');
      OneThen(cfg, s, SendFailed(0), s', [], s');
      acts := [SendFailed(0)] + [];
  }

  // The batches that flush gave up on, and those that were committed.
  function Lost(shs: seq<Shipping.Shipment>, flushes: nat): seq<Entry>
    requires flushes <= |shs|
  {
    if flushes == 0 then []
    else
      var sh := shs[flushes - 1];
      Lost(shs, flushes - 1) + if sh.outcome == Shipping.GivenUp then sh.batch else []
  }

  function Receipted(shs: seq<Shipping.Shipment>): set<Entry> {
    if shs == [] then {}
    else
      var sh := shs[|shs| - 1];
      Receipted(shs[..|shs| - 1]) + if sh.outcome.Committed? then ToSet(sh.batch) else {}
  }

  lemma LostKept(shs: seq<Shipping.Shipment>, sh: Shipping.Shipment, flushes: nat)
    requires flushes <= |shs|
    ensures Lost(shs + [sh], flushes) == Lost(shs, flushes)
  {
  }

  lemma LostOne(shs: seq<Shipping.Shipment>, sh: Shipping.Shipment)
    ensures Lost(shs + [sh], |shs| + 1) == Lost(shs, |shs|) + if sh.outcome == Shipping.GivenUp then sh.batch else []
  {
    LostKept(shs, sh, |shs|);
  }

  lemma ReceiptedOne(shs: seq<Shipping.Shipment>, sh: Shipping.Shipment)
    ensures Receipted(shs + [sh]) == Receipted(shs) + if sh.outcome.Committed? then ToSet(sh.batch) else {}
  {
    assert (shs + [sh])[..|shs|] == shs;
  }

  // ---- Run among the steps of the others ----

  // Steps of the tailer and of the environment. A cancellation of ctx is an event of Run.
  predicate OfOthers(a: Action) {
    || a.Grow? || a.Rotate? || a.Remove?
    || a.Open? || a == ReadLine || a == DropLine || a == CloseFile || a.EndPass?
    || a == StopTailing || a == CloseChannel
  }

  // One select of Run: what the others did since the last one, the state that led to, and the event.
  datatype Slot = Slot(meanwhile: seq<Action>, now: World, ev: Shipping.Event)

  function Events(slots: seq<Slot>): (events: seq<Shipping.Event>)
    ensures |events| == |slots|
    ensures forall i :: 0 <= i < |slots| ==> events[i] == slots[i].ev
  {
    seq(|slots|, i requires 0 <= i < |slots| => slots[i].ev)
  }

  // What a select can see: the entry at the head of the channel, or its close once it is empty.
  predicate Selectable(s: World, ev: Shipping.Event) {
    && s.phase == Collecting
    && (ev.Arrive? ==> s.queue != [] && s.queue[0] == ev.e)
    && (ev.InClosed? ==> s.queue == [] && s.closed)
  }

  // The agent after one turn of Run, all sends and waits of a flush included.
  function AfterTurn(cfg: Config, s: World, ev: Shipping.Event): World
    requires Selectable(s, ev)
  {
    match ev
    case Arrive(e, attempts) =>
      var held := s.batch + [e];
      var full := |held| >= cfg.batchSize && !s.cancelled;
      var t := s.(queue := s.queue[1..], batch := held, phase := if full then Sending(false) else Collecting);
      if full then AfterShipment(t, Shipping.FlushOutcome(attempts)) else t
    case FlushTick(attempts) =>
      if s.batch != [] && !s.cancelled then
        AfterShipment(s.(phase := Sending(false)), Shipping.FlushOutcome(attempts))
      else s
    case ReportTick => s
    case Cancelled => s.(cancelled := true)
    case InClosed(last) =>
      if s.batch == [] then s.(phase := Stopped)
      else AfterShipment(s.(phase := Sending(true)), Shipping.FinalOutcome(last))
  }

  // The agent after a number of selects. One that cannot be does not happen.
  function Play(cfg: Config, first: World, slots: seq<Slot>): World {
    if slots == [] then first
    else
      var before, slot := Play(cfg, first, slots[..|slots| - 1]), slots[|slots| - 1];
      if before.phase == Collecting && Selectable(slot.now, slot.ev) then AfterTurn(cfg, slot.now, slot.ev) else before
  }

  // Up to the end of Run, each select sees the agent as the others left it.
  ghost predicate Playable(cfg: Config, first: World, slots: seq<Slot>) {
    forall n :: 0 <= n < |slots| ==>
      var before := Play(cfg, first, slots[..n]);
      before.phase == Collecting ==>
        && Leads(cfg, before, slots[n].meanwhile, slots[n].now)
        && (forall i :: 0 <= i < |slots[n].meanwhile| ==> OfOthers(slots[n].meanwhile[i]))
        && Selectable(slots[n].now, slots[n].ev)
  }

  // The positions that passes which ended leave.
  function Forgotten(m: map<string, Position>, acts: seq<Action>): map<string, Position> {
    if acts == [] then m
    else Forgotten(if acts[0].EndPass? then Restrict(m, acts[0].seen) else m, acts[1..])
  }

  // Memory and disk, by Run's specification, if passes forget positions between its events.
  function Ledger(size: nat, books: Shipping.Books, slots: seq<Slot>): Shipping.Books {
    if slots == [] then books
    else
      var n := |slots| - 1;
      var before, l := Ledger(size, books, slots[..n]), Shipping.RunSpec(size, Events(slots[..n]));
      if l.stopped then before
      else
        var l' := Shipping.Turn(size, l, slots[n].ev);
        var now := Shipping.Books(Forgotten(before.m, slots[n].meanwhile), before.disk);
        if |l'.shs| > |l.shs| then Shipping.Book(now, l'.shs[|l.shs|]) else now
  }

  // What a step of the others leaves alone.
  ghost predicate SameShipper(s: World, s': World) {
    && s'.phase == s.phase && s'.batch == s.batch && s'.cancelled == s.cancelled && s'.disk == s.disk
    && s'.abandoned == s.abandoned && s'.delivered == s.delivered && s'.arrived == s.arrived
  }

  lemma EnvironmentKeeps(cfg: Config, a: Action, s: World)
    requires (a.Grow? || a.Rotate? || a.Remove? || a == CloseChannel || a == StopTailing) && Enabled(cfg, a, s)
    ensures SameShipper(s, Apply(cfg, false, a, s)) && Apply(cfg, false, a, s).mem == s.mem
  {
  }

  lemma TailerKeeps(cfg: Config, a: Action, s: World)
    requires (a.Open? || a == ReadLine || a == DropLine || a == CloseFile) && Enabled(cfg, a, s)
    ensures SameShipper(s, Apply(cfg, false, a, s)) && Apply(cfg, false, a, s).mem == s.mem
  {
    hide HasLine, LineAt;
  }

  lemma EndPassKeeps(cfg: Config, a: Action, s: World)
    requires a.EndPass? && Enabled(cfg, a, s)
    ensures SameShipper(s, Apply(cfg, false, a, s)) && Apply(cfg, false, a, s).mem == Restrict(s.mem, a.seen)
  {
  }

  lemma OtherKeeps(cfg: Config, a: Action, s: World)
    requires OfOthers(a) && Enabled(cfg, a, s)
    ensures var s' := Apply(cfg, false, a, s);
            SameShipper(s, s') && s'.mem == if a.EndPass? then Restrict(s.mem, a.seen) else s.mem
  {
    hide Enabled, Apply, SameShipper;
    if a.EndPass? {
      EndPassKeeps(cfg, a, s);
    } else if a.Open? || a == ReadLine || a == DropLine || a == CloseFile {
      TailerKeeps(cfg, a, s);
    } else {
      EnvironmentKeeps(cfg, a, s);
    }
  }

  lemma {:induction false} OthersKeep(cfg: Config, s: World, acts: seq<Action>, s': World)
    requires Leads(cfg, s, acts, s') && forall i :: 0 <= i < |acts| ==> OfOthers(acts[i])
    ensures SameShipper(s, s') && s'.mem == Forgotten(s.mem, acts)
    decreases |acts|
  {
    hide Enabled, Apply, OfOthers;
    if acts != [] {
      OtherKeeps(cfg, acts[0], s);
      OthersKeep(cfg, Apply(cfg, false, acts[0], s), acts[1..], s');
    }
  }

  // Run's local state l, in the agent that was first when Run started.
  ghost predicate Mirrors(s: World, l: Shipping.Loop, first: World) {
    && s.cancelled == !l.live
    && (l.stopped <==> s.phase != Collecting)
    && (!l.stopped ==> s.batch == l.held && l.flushes == |l.shs|)
    && l.flushes <= |l.shs|
    && s.abandoned == first.abandoned + Lost(l.shs, l.flushes)
    && s.delivered == first.delivered + Receipted(l.shs)
  }

  // One more shipment on both sides.
  lemma ShipmentMirrors(s: World, l: Shipping.Loop, first: World, outcome: Shipping.Outcome)
    requires Mirrors(s.(phase := Collecting), l, first) && s.phase.Sending?
    requires s.phase.final ==> outcome != Shipping.StillRetrying
    requires !s.phase.final ==> l.live
    ensures var l' := l.(shs := l.shs + [Shipping.Shipment(l.held, outcome)], held := [],
                         live := l.live && (s.phase.final || outcome != Shipping.GivenUp),
                         stopped := s.phase.final || outcome == Shipping.StillRetrying,
                         flushes := l.flushes + if s.phase.final then 0 else 1);
            Mirrors(AfterShipment(s, outcome), l', first)
  {
    hide Shipping.SetAll, Lost, Receipted, ToSet;
    var sh := Shipping.Shipment(l.held, outcome);
    LostKept(l.shs, sh, l.flushes);
    LostOne(l.shs, sh);
    ReceiptedOne(l.shs, sh);
    assert first.abandoned + Lost(l.shs, l.flushes) + s.batch == first.abandoned + (Lost(l.shs, l.flushes) + s.batch);
  }

  lemma ArriveMirrors(cfg: Config, s: World, l: Shipping.Loop, first: World, ev: Shipping.Event)
    requires Mirrors(s, l, first) && Selectable(s, ev) && ev.Arrive?
    ensures Mirrors(AfterTurn(cfg, s, ev), Shipping.Turn(cfg.batchSize, l, ev), first)
  {
    hide Shipping.FlushOutcome, Lost, Receipted, AfterShipment;
    var held := s.batch + [ev.e];
    var full := |held| >= cfg.batchSize && !s.cancelled;
    var t := s.(queue := s.queue[1..], batch := held, phase := if full then Sending(false) else Collecting);
    var now := l.(handled := l.handled + 1, held := held);
    if full {
      ShipmentMirrors(t, now, first, Shipping.FlushOutcome(ev.attempts));
    }
  }

  lemma TickMirrors(cfg: Config, s: World, l: Shipping.Loop, first: World, ev: Shipping.Event)
    requires Mirrors(s, l, first) && Selectable(s, ev) && ev.FlushTick?
    ensures Mirrors(AfterTurn(cfg, s, ev), Shipping.Turn(cfg.batchSize, l, ev), first)
  {
    hide Shipping.FlushOutcome, Lost, Receipted, AfterShipment;
    var now := l.(handled := l.handled + 1);
    if s.batch != [] && !s.cancelled {
      var t := s.(phase := Sending(false));
      assert t.(phase := Collecting) == s;
      ShipmentMirrors(t, now, first, Shipping.FlushOutcome(ev.attempts));
    }
  }

  lemma ClosedMirrors(cfg: Config, s: World, l: Shipping.Loop, first: World, ev: Shipping.Event)
    requires Mirrors(s, l, first) && Selectable(s, ev) && ev.InClosed?
    ensures Mirrors(AfterTurn(cfg, s, ev), Shipping.Turn(cfg.batchSize, l, ev), first)
  {
    hide Lost, Receipted, AfterShipment, Shipping.FinalOutcome;
    var now := l.(handled := l.handled + 1);
    if s.batch != [] {
      var t := s.(phase := Sending(true));
      NowMirrors(s, t, l, now, first);
      hide Mirrors;
      ClosingIsFinal(ev.last);
      ShipmentMirrors(t, now, first, Shipping.FinalOutcome(ev.last));
    }
  }

  lemma ClosingIsFinal(last: Shipping.Attempt)
    ensures Shipping.FinalOutcome(last) != Shipping.StillRetrying
  {
  }

  // The phase while sending, and the count of events, do not matter to Mirrors.
  lemma NowMirrors(s: World, t: World, l: Shipping.Loop, now: Shipping.Loop, first: World)
    requires Mirrors(s, l, first) && s.phase == Collecting && t == s.(phase := t.phase)
    requires now == l.(handled := now.handled)
    ensures Mirrors(t.(phase := Collecting), now, first) && s.batch == now.held && s.cancelled == !now.live
    ensures now.flushes == |now.shs|
  {
    hide Lost, Receipted;
  }

  lemma QuietMirrors(cfg: Config, s: World, l: Shipping.Loop, first: World, ev: Shipping.Event)
    requires Mirrors(s, l, first) && Selectable(s, ev) && (ev.ReportTick? || ev.Cancelled?)
    ensures Mirrors(AfterTurn(cfg, s, ev), Shipping.Turn(cfg.batchSize, l, ev), first)
  {
    hide Lost, Receipted;
  }

  // One turn of the specification is one turn of the agent's shipper.
  lemma TurnMirrors(cfg: Config, s: World, l: Shipping.Loop, first: World, ev: Shipping.Event)
    requires Mirrors(s, l, first) && Selectable(s, ev)
    ensures Mirrors(AfterTurn(cfg, s, ev), Shipping.Turn(cfg.batchSize, l, ev), first)
  {
    hide Mirrors, Selectable, AfterTurn, Shipping.Turn;
    match ev
    case Arrive(_, _) => ArriveMirrors(cfg, s, l, first, ev);
    case FlushTick(_) => TickMirrors(cfg, s, l, first, ev);
    case InClosed(_) => ClosedMirrors(cfg, s, l, first, ev);
    case _ => QuietMirrors(cfg, s, l, first, ev);
  }

  lemma CommittedBooks(s: World, renamed: bool)
    requires s.phase.Sending?
    ensures var s', m := AfterShipment(s, Shipping.Committed(renamed)), Shipping.SetAll(s.mem, s.batch);
            s'.mem == m && s'.disk == if renamed then m else s.disk
  {
    hide Shipping.SetAll, ToSet;
  }

  lemma UncommittedBooks(s: World, outcome: Shipping.Outcome)
    requires s.phase.Sending? && !outcome.Committed?
    ensures AfterShipment(s, outcome).mem == s.mem && AfterShipment(s, outcome).disk == s.disk
  {
    hide Shipping.SetAll, ToSet;
    if outcome.GivenUp? && !s.phase.final {
      assert AfterShipment(s, outcome).mem == s.mem;
    }
  }

  lemma ShipmentBooks(s: World, batch: seq<Entry>, outcome: Shipping.Outcome)
    requires s.phase.Sending? && s.batch == batch
    ensures var s' := AfterShipment(s, outcome);
            BooksOf(s'.mem, s'.disk) == Shipping.Book(BooksOf(s.mem, s.disk), Shipping.Shipment(batch, outcome))
  {
    hide Shipping.SetAll, AfterShipment;
    if outcome.Committed? {
      CommittedBooks(s, outcome.renamed);
    } else {
      UncommittedBooks(s, outcome);
    }
  }

  // What a turn from l to l' did to memory and disk.
  ghost predicate Booked(s: World, s': World, l: Shipping.Loop, l': Shipping.Loop) {
    && |l.shs| <= |l'.shs|
    && BooksOf(s'.mem, s'.disk) ==
       if |l'.shs| > |l.shs| then Shipping.Book(BooksOf(s.mem, s.disk), l'.shs[|l.shs|]) else BooksOf(s.mem, s.disk)
  }

  lemma ArriveBooks(cfg: Config, s: World, l: Shipping.Loop, ev: Shipping.Event)
    requires Selectable(s, ev) && s.batch == l.held && s.cancelled == !l.live && ev.Arrive?
    ensures Booked(s, AfterTurn(cfg, s, ev), l, Shipping.Turn(cfg.batchSize, l, ev))
  {
    hide Shipping.FlushOutcome, Shipping.Book, BooksOf, AfterShipment;
    var held := s.batch + [ev.e];
    if |held| >= cfg.batchSize && !s.cancelled {
      var t := s.(queue := s.queue[1..], batch := held, phase := Sending(false));
      ShipmentBooks(t, held, Shipping.FlushOutcome(ev.attempts));
    }
  }

  lemma TickBooks(cfg: Config, s: World, l: Shipping.Loop, ev: Shipping.Event)
    requires Selectable(s, ev) && s.batch == l.held && s.cancelled == !l.live && ev.FlushTick?
    ensures Booked(s, AfterTurn(cfg, s, ev), l, Shipping.Turn(cfg.batchSize, l, ev))
  {
    hide Shipping.FlushOutcome, Shipping.Book, BooksOf, AfterShipment;
    if s.batch != [] && !s.cancelled {
      ShipmentBooks(s.(phase := Sending(false)), s.batch, Shipping.FlushOutcome(ev.attempts));
    }
  }

  lemma ClosedBooks(cfg: Config, s: World, l: Shipping.Loop, ev: Shipping.Event)
    requires Selectable(s, ev) && s.batch == l.held && ev.InClosed?
    ensures Booked(s, AfterTurn(cfg, s, ev), l, Shipping.Turn(cfg.batchSize, l, ev))
  {
    hide Shipping.FinalOutcome, Shipping.Book, BooksOf, AfterShipment;
    if s.batch != [] {
      ShipmentBooks(s.(phase := Sending(true)), s.batch, Shipping.FinalOutcome(ev.last));
    }
  }

  lemma QuietBooks(cfg: Config, s: World, l: Shipping.Loop, ev: Shipping.Event)
    requires Selectable(s, ev) && (ev.ReportTick? || ev.Cancelled?)
    ensures Booked(s, AfterTurn(cfg, s, ev), l, Shipping.Turn(cfg.batchSize, l, ev))
  {
    hide Shipping.Book;
  }

  lemma TurnBooks(cfg: Config, s: World, l: Shipping.Loop, ev: Shipping.Event)
    requires Selectable(s, ev) && s.batch == l.held && s.cancelled == !l.live
    ensures Booked(s, AfterTurn(cfg, s, ev), l, Shipping.Turn(cfg.batchSize, l, ev))
  {
    hide Booked, Selectable, AfterTurn, Shipping.Turn;
    match ev
    case Arrive(_, _) => ArriveBooks(cfg, s, l, ev);
    case FlushTick(_) => TickBooks(cfg, s, l, ev);
    case InClosed(_) => ClosedBooks(cfg, s, l, ev);
    case _ => QuietBooks(cfg, s, l, ev);
  }

  lemma ReceiveOne(cfg: Config, s: World)
    requires s.phase == Collecting && s.queue != []
    ensures var held := s.batch + [s.queue[0]];
            var full := |held| >= cfg.batchSize && !s.cancelled;
            && Enabled(cfg, Receive, s)
            && Apply(cfg, false, Receive, s) ==
               s.(queue := s.queue[1..], batch := held, phase := if full then Sending(false) else Collecting)
  {
  }

  lemma TickOne(cfg: Config, s: World)
    requires s.phase == Collecting && s.batch != [] && !s.cancelled
    ensures Enabled(cfg, Tick, s) && Apply(cfg, false, Tick, s) == s.(phase := Sending(false))
  {
  }

  lemma FinishOne(cfg: Config, s: World)
    requires s.phase == Collecting && s.queue == [] && s.closed
    ensures Enabled(cfg, Finish, s)
    ensures Apply(cfg, false, Finish, s) == s.(phase := if s.batch == [] then Stopped else Sending(true))
  {
  }

  lemma CancelOne(cfg: Config, s: World)
    ensures Enabled(cfg, Cancel, s) && Apply(cfg, false, Cancel, s) == s.(cancelled := true)
  {
  }

  // One turn is a run of the shipper's steps.
  lemma TurnIsSteps(cfg: Config, s: World, ev: Shipping.Event) returns (acts: seq<Action>)
    requires Selectable(s, ev)
    ensures Leads(cfg, s, acts, AfterTurn(cfg, s, ev))
  {
    hide Leads, Apply, Enabled, AfterShipment, Shipping.FlushOutcome, Shipping.FinalOutcome;
    var s' := AfterTurn(cfg, s, ev);
    match ev
    case Arrive(e, attempts) =>
      ReceiveOne(cfg, s);
      var mid := Apply(cfg, false, Receive, s);
      var more: seq<Action> := [];
      if mid.phase == Sending(false) {
        more := FlushIsSteps(cfg, mid, attempts);
      } else {
        NoSteps(cfg, mid);
      }
      OneThen(cfg, s, Receive, mid, more, s');
      acts := [Receive] + more;
    case FlushTick(attempts) =>
      if s.batch != [] && !s.cancelled {
        TickOne(cfg, s);
        var more := FlushIsSteps(cfg, s.(phase := Sending(false)), attempts);
        OneThen(cfg, s, Tick, s.(phase := Sending(false)), more, s');
        acts := [Tick] + more;
      } else {
        acts := [];
        NoSteps(cfg, s);
      }
    case ReportTick =>
      acts := [];
      NoSteps(cfg, s);
    case Cancelled =>
      acts := [Cancel];
      CancelOne(cfg, s);
      OneStep(cfg, s, Cancel, s');
    case InClosed(last) =>
      FinishOne(cfg, s);
      var mid := s.(phase := if s.batch == [] then Stopped else Sending(true));
      var more: seq<Action> := [];
      if s.batch != [] {
        more := FinalIsSteps(cfg, mid, last);
      } else {
        NoSteps(cfg, mid);
      }
      OneThen(cfg, s, Finish, mid, more, s');
      acts := [Finish] + more;
  }

  lemma FewerSlots(cfg: Config, first: World, slots: seq<Slot>)
    requires slots != [] && Playable(cfg, first, slots)
    ensures Playable(cfg, first, slots[..|slots| - 1])
    ensures Events(slots)[..|slots| - 1] == Events(slots[..|slots| - 1])
  {
    hide Play, Leads, Selectable, OfOthers;
    var fewer := slots[..|slots| - 1];
    forall n | 0 <= n < |fewer| ensures fewer[..n] == slots[..n] && fewer[n] == slots[n] {
    }
  }

  /** The shipper's Run is a run of single steps of the agent, whatever the tailer and the environment do between its
      selects: read, forget files, stop, close the channel. What it hands on, what is acknowledged and given
      up, what memory and disk hold, and whether ctx counts as cancelled, are the same for
      both, through the shutdown send. */
  lemma {:induction false} ShipperRunIsSteps(cfg: Config, first: World, slots: seq<Slot>) returns (acts: seq<Action>)
    requires first.phase == Collecting && first.batch == [] && !first.cancelled && Playable(cfg, first, slots)
    ensures var s, l := Play(cfg, first, slots), Shipping.RunSpec(cfg.batchSize, Events(slots));
            && Leads(cfg, first, acts, s) && Mirrors(s, l, first)
            && BooksOf(s.mem, s.disk) == Ledger(cfg.batchSize, BooksOf(first.mem, first.disk), slots)
    decreases |slots|
  {
    hide Leads, Shipping.Turn, Mirrors, Play, AfterTurn, Ledger, Playable;
    if slots == [] {
      acts := [];
      StartMirrors(cfg, first);
    } else {
      var n := |slots| - 1;
      FewerSlots(cfg, first, slots);
      acts := ShipperRunIsSteps(cfg, first, slots[..n]);
      var more := SlotIsSteps(cfg, first, slots);
      LeadsOn(cfg, first, acts, Play(cfg, first, slots[..n]), more, Play(cfg, first, slots));
      acts := acts + more;
    }
  }

  // The last select.
  lemma SlotIsSteps(cfg: Config, first: World, slots: seq<Slot>) returns (acts: seq<Action>)
    requires slots != [] && Playable(cfg, first, slots)
    requires Events(slots)[..|slots| - 1] == Events(slots[..|slots| - 1])
    requires var before, l := Play(cfg, first, slots[..|slots| - 1]),
                              Shipping.RunSpec(cfg.batchSize, Events(slots[..|slots| - 1]));
             && Mirrors(before, l, first)
             && BooksOf(before.mem, before.disk) ==
                Ledger(cfg.batchSize, BooksOf(first.mem, first.disk), slots[..|slots| - 1])
    ensures var before, s := Play(cfg, first, slots[..|slots| - 1]), Play(cfg, first, slots);
            var l := Shipping.RunSpec(cfg.batchSize, Events(slots));
            && Leads(cfg, before, acts, s) && Mirrors(s, l, first)
            && BooksOf(s.mem, s.disk) == Ledger(cfg.batchSize, BooksOf(first.mem, first.disk), slots)
  {
    hide Leads, Shipping.Turn, AfterTurn, OfOthers, Selectable, Lost, Receipted, Shipping.Book;
    var n := |slots| - 1;
    var before, slot := Play(cfg, first, slots[..n]), slots[n];
    var l := Shipping.RunSpec(cfg.batchSize, Events(slots[..n]));
    assert before.phase != Collecting <==> l.stopped;
    if l.stopped {
      acts := [];
      NoSteps(cfg, before);
    } else {
      assert Leads(cfg, before, slot.meanwhile, slot.now) && Selectable(slot.now, slot.ev);
      OthersKeep(cfg, before, slot.meanwhile, slot.now);
      TurnMirrors(cfg, slot.now, l, first, slot.ev);
      TurnBooks(cfg, slot.now, l, slot.ev);
      acts := TurnIsSteps(cfg, slot.now, slot.ev);
      LeadsOn(cfg, before, slot.meanwhile, slot.now, acts, AfterTurn(cfg, slot.now, slot.ev));
      acts := slot.meanwhile + acts;
    }
  }

  lemma StartMirrors(cfg: Config, first: World)
    requires first.phase == Collecting && first.batch == [] && !first.cancelled
    ensures Leads(cfg, first, [], Play(cfg, first, []))
    ensures Mirrors(Play(cfg, first, []), Shipping.RunSpec(cfg.batchSize, Events([])), first)
    ensures BooksOf(first.mem, first.disk) == Ledger(cfg.batchSize, BooksOf(first.mem, first.disk), [])
    ensures Play(cfg, first, []) == first
  {
    assert first.abandoned + [] == first.abandoned;
  }

  lemma {:induction false} NothingForgotten(m: map<string, Position>, acts: seq<Action>)
    requires forall i :: 0 <= i < |acts| ==> !acts[i].EndPass?
    ensures Forgotten(m, acts) == m
  {
    if acts != [] {
      NothingForgotten(m, acts[1..]);
    }
  }

  // As long as no pass ends between the events, the ledger is the books of the class.
  lemma TurnAddsOne(size: nat, l: Shipping.Loop, ev: Shipping.Event)
    ensures var l' := Shipping.Turn(size, l, ev);
            l'.shs == l.shs || (|l'.shs| == |l.shs| + 1 && l'.shs == l.shs + [l'.shs[|l.shs|]])
  {
    hide Shipping.FlushOutcome, Shipping.FinalOutcome;
  }

  // As long as no pass ends between the events, the ledger is the books of the class.
  lemma {:induction false} LedgerIsBooks(size: nat, books: Shipping.Books, slots: seq<Slot>)
    requires forall n, i :: 0 <= n < |slots| && 0 <= i < |slots[n].meanwhile| ==> !slots[n].meanwhile[i].EndPass?
    ensures Ledger(size, books, slots) == Shipping.BookAll(books, Shipping.RunSpec(size, Events(slots)).shs)
    decreases |slots|
  {
    hide Shipping.Book, Shipping.Turn, Shipping.BookAll, Forgotten;
    if slots == [] {
      Shipping.BookNone(books);
    } else {
      var n := |slots| - 1;
      LedgerIsBooks(size, books, slots[..n]);
      assert Events(slots)[..n] == Events(slots[..n]);
      var l := Shipping.RunSpec(size, Events(slots[..n]));
      if !l.stopped {
        NothingForgotten(Ledger(size, books, slots[..n]).m, slots[n].meanwhile);
        var l' := Shipping.Turn(size, l, slots[n].ev);
        TurnAddsOne(size, l, slots[n].ev);
        if |l'.shs| > |l.shs| {
          Shipping.BookOne(books, l.shs, l'.shs[|l.shs|]);
        }
      }
    }
  }

  // ---- A run that reaches the shutdown send ----

  // After a cancellation, with the first k queued entries collected.
  function Collected(s: World, k: nat): World
    requires k <= |s.queue|
  {
    s.(cancelled := true, queue := s.queue[k..], batch := s.batch + s.queue[..k])
  }

  lemma CollectOne(cfg: Config, s: World, k: nat)
    requires s.phase == Collecting && k < |s.queue|
    ensures var ev := Shipping.Arrive(s.queue[k], []);
            Selectable(Collected(s, k), ev) && AfterTurn(cfg, Collected(s, k), ev) == Collected(s, k + 1)
  {
    assert s.batch + s.queue[..k] + [s.queue[k]] == s.batch + s.queue[..k + 1];
    assert s.queue[k..][1..] == s.queue[k + 1..];
  }

  lemma PlayOn(cfg: Config, first: World, slots: seq<Slot>, slot: Slot)
    requires Playable(cfg, first, slots)
    requires var before := Play(cfg, first, slots);
             before.phase == Collecting && Leads(cfg, before, slot.meanwhile, slot.now) && Selectable(slot.now, slot.ev)
    requires forall i :: 0 <= i < |slot.meanwhile| ==> OfOthers(slot.meanwhile[i])
    ensures Playable(cfg, first, slots + [slot])
    ensures Play(cfg, first, slots + [slot]) == AfterTurn(cfg, slot.now, slot.ev)
  {
    hide Leads, Selectable, AfterTurn, OfOthers;
    var all := slots + [slot];
    assert all[..|slots|] == slots;
    forall n | 0 <= n < |slots| ensures all[..n] == slots[..n] && all[n] == slots[n] {
    }
  }

  lemma {:induction false} CollectAll(cfg: Config, first: World, s: World, slots: seq<Slot>, k: nat)
    returns (all: seq<Slot>)
    requires s.phase == Collecting && k <= |s.queue|
    requires Playable(cfg, first, slots) && Play(cfg, first, slots) == Collected(s, k)
    ensures Playable(cfg, first, all) && Play(cfg, first, all) == Collected(s, |s.queue|)
    decreases |s.queue| - k
  {
    hide Playable, Play, Leads, Selectable, AfterTurn;
    if k == |s.queue| {
      all := slots;
    } else {
      var slot := Slot([], Collected(s, k), Shipping.Arrive(s.queue[k], []));
      NoSteps(cfg, Collected(s, k));
      CollectOne(cfg, s, k);
      PlayOn(cfg, first, slots, slot);
      all := CollectAll(cfg, first, s, slots + [slot], k + 1);
    }
  }

  /** The shutdown send is within reach: while Run collects and the tailer pauses, a cancellation, the collection of
      what is queued, the tailer's stop and the close of the channel lead to it, with all that was held or
      queued in its batch. */
  lemma ShutdownIsPlayable(cfg: Config, first: World, slots: seq<Slot>, last: Shipping.Attempt)
    returns (all: seq<Slot>)
    requires Playable(cfg, first, slots)
    requires var s := Play(cfg, first, slots);
             s.phase == Collecting && s.tailing && s.reading == None && Pipe(s) != []
    ensures Playable(cfg, first, all)
    ensures var s := Play(cfg, first, slots);
            Play(cfg, first, all) ==
            AfterShipment(s.(cancelled := true, tailing := false, closed := true, queue := [], batch := Pipe(s),
                             phase := Sending(true)), Shipping.FinalOutcome(last))
  {
    hide Playable, Play, Leads, AfterShipment;
    var s := Play(cfg, first, slots);
    NoSteps(cfg, s);
    PlayOn(cfg, first, slots, Slot([], s, Shipping.Cancelled));
    assert s.queue[0..] == s.queue && s.batch + s.queue[..0] == s.batch;
    all := CollectAll(cfg, first, s, slots + [Slot([], s, Shipping.Cancelled)], 0);
    var c := Collected(s, |s.queue|);
    assert s.queue[..|s.queue|] == s.queue;
    var stopped := c.(tailing := false);
    var closed := stopped.(closed := true);
    OneStep(cfg, c, StopTailing, stopped);
    ThenOne(cfg, c, [StopTailing], stopped, CloseChannel, closed);
    var slot := Slot([StopTailing] + [CloseChannel], closed, Shipping.InClosed(last));
    PlayOn(cfg, first, all, slot);
    all := all + [slot];
  }
}
