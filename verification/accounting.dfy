/** The node agent and the server together. Sending a batch is one stream, handled entry by entry while
    workers and other clients go on; the receipt reports how many entries found room. */
module Accounting {
  import opened Decoder
  import opened Entities
  import opened Pipeline
  import opened Tailing
  import FifoInvariant
  import AtLeastOnce
  import Server = Ingestion

  // What a receipt stood for: its batch, the count it reported, and the entries that did and did not find room.
  datatype Summary = Summary(batch: seq<Entry>, accepted: nat, took: seq<Entry>, dropped: seq<Entry>)

  datatype System = System(
    agent: World,
    server: Server.Server<Entry>,
    // the stream in progress: the first sent entries of the batch, split into took and dropped
    sent: nat,
    took: seq<Entry>,
    dropped: seq<Entry>,
    // history
    receipts: seq<Summary>)

  datatype Step =
    | Agent(a: Action)
    | Handled(picksDone: bool)
    | StreamFails
    | StreamEnds
    | Serve(act: Server.Act<Entry>)

  // Handled is Submit on the next entry of the batch; picksDone says that select picks a finished ctx.
  // Serve is any step of the server: workers, other clients, copies from broken streams, cancellation, shutdown.
  ghost predicate Enabled(cfg: Config, limits: Server.Limits, st: Step, g: System) {
    match st
    case Agent(a) => Pipeline.Enabled(cfg, a, g.agent) && !a.Receipt? && !a.SendFailed?
    case Handled(_) => g.agent.phase.Sending? && g.sent < |g.agent.batch| && !g.server.closed
    case StreamFails => g.agent.phase.Sending? && g.sent <= |g.agent.batch|
    case StreamEnds => g.agent.phase.Sending? && g.sent == |g.agent.batch|
    case Serve(act) => Server.Enabled(limits, act, g.server)
  }

  function NoStream(g: System): System {
    g.(sent := 0, took := [], dropped := [])
  }

  // The receipt that a stream which ends now gets.
  function ReceiptOf(g: System): Summary {
    Summary(g.agent.batch, |g.took|, g.took, g.dropped)
  }

  ghost function Apply(cfg: Config, keep: bool, limits: Server.Limits, st: Step, g: System): System
    requires Enabled(cfg, limits, st, g)
  {
    match st
    case Agent(a) =>
      var g' := g.(agent := Pipeline.Apply(cfg, keep, a, g.agent));
      if a.Crash? || a.Abandon? then NoStream(g') else g'
    case Handled(picksDone) =>
      var e := g.agent.batch[g.sent];
      if |g.server.queue| < limits.bufferSize && !picksDone then
        g.(server := Server.Apply(limits, Server.Submit(e), g.server), sent := g.sent + 1, took := g.took + [e])
      else g.(sent := g.sent + 1, dropped := g.dropped + [e])
    case StreamFails => NoStream(g.(agent := Pipeline.Apply(cfg, keep, SendFailed(g.sent), g.agent)))
    case StreamEnds =>
      NoStream(g.(agent := Pipeline.Apply(cfg, keep, Receipt, g.agent),
                  receipts := g.receipts + [ReceiptOf(g)]))
    case Serve(act) => g.(server := Server.Apply(limits, act, g.server))
  }

  ghost predicate Init(limits: Server.Limits, g: System) {
    Pipeline.Init(g.agent) && g.server == Server.Started(limits) && g == NoStream(g) && g.receipts == []
  }

  ghost predicate Run(cfg: Config, keep: bool, limits: Server.Limits, states: seq<System>, steps: seq<Step>) {
    && |states| == |steps| + 1 && Init(limits, states[0]) && limits.batchSize > 0
    && forall i :: 0 <= i < |steps| ==>
         Enabled(cfg, limits, steps[i], states[i]) && states[i + 1] == Apply(cfg, keep, limits, steps[i], states[i])
  }

  ghost predicate Guarded(st: Step, g: System) {
    st.Agent? ==> AtLeastOnce.Guarded(st.a, g.agent)
  }

  ghost predicate InReceipt(receipts: seq<Summary>, e: Entry) {
    exists i :: 0 <= i < |receipts| && e in receipts[i].dropped
  }

  // A receipt's batch is what it took, as many as it counts, and what it dropped.
  ghost predicate Honest(r: Summary) {
    r.accepted == |r.took| && multiset(r.batch) == multiset(r.took) + multiset(r.dropped)
  }

  ghost predicate StreamOk(g: System) {
    && g.sent <= |g.agent.batch|
    && (g.sent > 0 ==> g.agent.phase.Sending?)
    && multiset(g.agent.batch[..g.sent]) == multiset(g.took) + multiset(g.dropped)
    && (forall e :: e in g.took ==> e in g.server.accepted)
  }

  ghost predicate LedgerOk(g: System) {
    && (forall e :: e in g.agent.delivered ==> e in g.server.accepted || InReceipt(g.receipts, e))
    && (forall i :: 0 <= i < |g.receipts| ==>
          Honest(g.receipts[i]) && forall e :: e in g.receipts[i].took ==> e in g.server.accepted)
  }

  ghost predicate Inv(cfg: Config, limits: Server.Limits, g: System) {
    && FifoInvariant.Inv(cfg, g.agent)
    && Server.Inv(limits, g.server)
    && StreamOk(g) && LedgerOk(g)
  }

  lemma AgentKeeps(cfg: Config, keep: bool, limits: Server.Limits, st: Step, g: System)
    requires Inv(cfg, limits, g) && Enabled(cfg, limits, st, g) && st.Agent? && Guarded(st, g)
    ensures Inv(cfg, limits, Apply(cfg, keep, limits, st, g))
  {
    hide FifoInvariant.Inv, Server.Inv, InReceipt, Honest;
    AtLeastOnce.StepKeepsInv(cfg, keep, st.a, g.agent);
    DeliveredKept(cfg, keep, st.a, g.agent);
    if g.agent.phase.Sending? && !st.a.Crash? && !st.a.Abandon? {
      BatchKept(cfg, keep, st.a, g.agent);
    }
  }

  lemma TailerDelivers(cfg: Config, keep: bool, a: Action, s: World)
    requires Pipeline.Enabled(cfg, a, s) && (a.Open? || a.ReadLine? || a.DropLine? || a.EndPass? || a.CloseFile?)
    ensures Pipeline.Apply(cfg, keep, a, s).delivered == s.delivered
  {
    hide HasLine, LineAt, Opened, Wanted;
  }

  // No step but a receipt adds to what is delivered.
  lemma DeliveredKept(cfg: Config, keep: bool, a: Action, s: World)
    requires Pipeline.Enabled(cfg, a, s) && !a.Receipt?
    ensures Pipeline.Apply(cfg, keep, a, s).delivered == s.delivered
  {
    if a.Open? || a.ReadLine? || a.DropLine? || a.EndPass? || a.CloseFile? {
      hide Pipeline.Apply;
      TailerDelivers(cfg, keep, a, s);
    } else {
      hide HasLine, LineAt, Opened, Wanted;
    }
  }

  // While a batch is being sent, no other agent step touches it.
  lemma BatchKept(cfg: Config, keep: bool, a: Action, s: World)
    requires Pipeline.Enabled(cfg, a, s) && !a.Receipt? && !a.SendFailed? && !a.Crash? && !a.Abandon?
    requires s.phase.Sending?
    ensures var s' := Pipeline.Apply(cfg, keep, a, s);
            s'.phase == s.phase && s'.batch == s.batch
  {
    hide HasLine, LineAt, Opened, Wanted;
  }

  // The ledger outlives whatever adds to what the server accepted.
  lemma LedgerStays(g: System, g': System)
    requires LedgerOk(g) && g'.receipts == g.receipts && g'.agent.delivered == g.agent.delivered
    requires g.server.accepted <= g'.server.accepted
    ensures LedgerOk(g')
  {
    hide InReceipt, Honest;
    forall e | e in g.server.accepted ensures e in g'.server.accepted {
      var i :| 0 <= i < |g.server.accepted| && g.server.accepted[i] == e;
      assert g'.server.accepted[i] == e;
    }
  }

  // One more entry of the batch is sorted into took or dropped.
  lemma StreamGrows(g: System, g': System, fits: bool)
    requires StreamOk(g) && g.agent.phase.Sending? && g.sent < |g.agent.batch|
    requires g'.agent == g.agent && g'.sent == g.sent + 1
    requires var e := g.agent.batch[g.sent];
             if fits then
               g'.took == g.took + [e] && g'.dropped == g.dropped && g'.server.accepted == g.server.accepted + [e]
             else g'.took == g.took && g'.dropped == g.dropped + [e] && g'.server == g.server
    ensures StreamOk(g')
  {
    var e := g.agent.batch[g.sent];
    assert g.agent.batch[..g.sent + 1] == g.agent.batch[..g.sent] + [e];
    OneSorted(g.agent.batch[..g.sent], g.took, g.dropped, e);
  }

  lemma SubmitIs(limits: Server.Limits, s: Server.Server<Entry>, e: Entry)
    requires !s.closed && |s.queue| < limits.bufferSize
    ensures Server.Enabled(limits, Server.Submit(e), s)
    ensures Server.Apply(limits, Server.Submit(e), s) == s.(queue := s.queue + [e], accepted := s.accepted + [e])
  {
  }

  lemma HandledKeeps(cfg: Config, keep: bool, limits: Server.Limits, st: Step, g: System)
    requires Inv(cfg, limits, g) && Enabled(cfg, limits, st, g) && st.Handled?
    ensures Inv(cfg, limits, Apply(cfg, keep, limits, st, g))
  {
    hide FifoInvariant.Inv, Server.Inv, Server.Apply, Server.Enabled, StreamOk, LedgerOk;
    var g' := Apply(cfg, keep, limits, st, g);
    var e := g.agent.batch[g.sent];
    var fits := |g.server.queue| < limits.bufferSize && !st.picksDone;
    if fits {
      SubmitIs(limits, g.server, e);
      Server.StepInv(limits, Server.Submit(e), g.server);
    }
    StreamGrows(g, g', fits);
    LedgerStays(g, g');
  }

  lemma OneSorted(sent: seq<Entry>, took: seq<Entry>, dropped: seq<Entry>, e: Entry)
    requires multiset(sent) == multiset(took) + multiset(dropped)
    ensures multiset(sent + [e]) == multiset(took + [e]) + multiset(dropped)
    ensures multiset(sent + [e]) == multiset(took) + multiset(dropped + [e])
  {
  }

  lemma ReceiptIsHonest(cfg: Config, limits: Server.Limits, g: System)
    requires Inv(cfg, limits, g) && g.sent == |g.agent.batch|
    ensures Honest(ReceiptOf(g))
    ensures forall e :: e in g.took ==> e in g.server.accepted
    ensures forall e :: e in g.agent.batch ==> e in g.took || e in g.dropped
  {
    hide FifoInvariant.Inv, Server.Inv, LedgerOk;
    assert g.agent.batch[..g.sent] == g.agent.batch;
    forall e | e in g.agent.batch ensures e in g.took || e in g.dropped {
      assert multiset(g.agent.batch)[e] > 0;
    }
  }

  lemma LedgerGrows(g: System, r: Summary, delivered: set<Entry>)
    requires LedgerOk(g) && Honest(r) && forall e :: e in r.took ==> e in g.server.accepted
    requires forall e :: e in delivered ==> e in g.agent.delivered || e in r.took || e in r.dropped
    ensures forall e :: e in delivered ==> e in g.server.accepted || InReceipt(g.receipts + [r], e)
    ensures forall i :: 0 <= i < |g.receipts + [r]| ==>
              Honest((g.receipts + [r])[i]) && forall e :: e in (g.receipts + [r])[i].took ==> e in g.server.accepted
  {
    hide Honest;
    var all := g.receipts + [r];
    assert all[|g.receipts|] == r && forall i :: 0 <= i < |g.receipts| ==> all[i] == g.receipts[i];
    forall e | e in delivered ensures e in g.server.accepted || InReceipt(all, e) {
      if e in g.agent.delivered && InReceipt(g.receipts, e) {
        var i :| 0 <= i < |g.receipts| && e in g.receipts[i].dropped;
        assert e in all[i].dropped;
      } else if e in r.dropped {
        assert e in all[|g.receipts|].dropped;
      }
    }
  }

  /** The end of a stream. A broken one delivers nothing and leaves no receipt: the copies it carried have arrived, and
      the batch is sent again unless this was the shutdown send. A finished one delivers its batch, with a receipt
      whose batch is exactly what the server took, as many as it counts, and what it dropped. */
  lemma StreamKeeps(cfg: Config, keep: bool, limits: Server.Limits, st: Step, g: System)
    requires Inv(cfg, limits, g) && Enabled(cfg, limits, st, g) && (st.StreamFails? || st.StreamEnds?)
    ensures var g' := Apply(cfg, keep, limits, st, g);
            && Inv(cfg, limits, g')
            && (st.StreamFails? ==>
                  && g'.agent.delivered == g.agent.delivered && g'.receipts == g.receipts && g'.server == g.server
                  && g'.agent.arrived == g.agent.arrived + g.agent.batch[..g.sent] && g'.agent.batch == g.agent.batch
                  && g'.agent.phase == if g.agent.phase.final then Stopped else g.agent.phase)
            && (st.StreamEnds? ==>
                  var r := ReceiptOf(g);
                  && g'.agent.delivered == g.agent.delivered + ToSet(r.batch) && g'.receipts == g.receipts + [r]
                  && Honest(r) && forall e :: e in r.took ==> e in g.server.accepted)
  {
    hide FifoInvariant.Inv, Server.Inv, InReceipt, Honest;
    var g' := Apply(cfg, keep, limits, st, g);
    AtLeastOnce.StepKeepsInv(cfg, keep, if st.StreamFails? then SendFailed(g.sent) else Receipt, g.agent);
    assert g'.agent.batch[..0] == [];
    if st.StreamEnds? {
      ReceiptIsHonest(cfg, limits, g);
      LedgerGrows(g, ReceiptOf(g), g'.agent.delivered);
    }
  }

  lemma ServeKeeps(cfg: Config, keep: bool, limits: Server.Limits, st: Step, g: System)
    requires Inv(cfg, limits, g) && Enabled(cfg, limits, st, g) && st.Serve?
    ensures Inv(cfg, limits, Apply(cfg, keep, limits, st, g))
  {
    hide FifoInvariant.Inv, Server.Inv, Server.Apply, Server.Enabled, LedgerOk;
    Server.StepInv(limits, st.act, g.server);
    AcceptedGrows(limits, st.act, g.server);
    LedgerStays(g, Apply(cfg, keep, limits, st, g));
  }

  lemma AcceptedGrows(limits: Server.Limits, act: Server.Act<Entry>, s: Server.Server<Entry>)
    requires Server.Enabled(limits, act, s)
    ensures s.accepted <= Server.Apply(limits, act, s).accepted
  {
  }

  lemma {:induction false} RunInv(cfg: Config, keep: bool, limits: Server.Limits, states: seq<System>,
                                  steps: seq<Step>, n: nat)
    requires Run(cfg, keep, limits, states, steps) && n <= |steps|
    requires forall i :: 0 <= i < n ==> Guarded(steps[i], states[i])
    ensures Inv(cfg, limits, states[n])
  {
    hide Inv, Enabled, Apply, Guarded;
    if n == 0 {
      AtLeastOnce.InitInv(cfg, states[0].agent);
      Server.StartedInv<Entry>(limits);
      InitLedger(cfg, limits, states[0]);
    } else {
      RunInv(cfg, keep, limits, states, steps, n - 1);
      var st, g := steps[n - 1], states[n - 1];
      assert Enabled(cfg, limits, st, g) && Guarded(st, g);
      match st
      case Agent(_) => AgentKeeps(cfg, keep, limits, st, g);
      case Handled(_) => HandledKeeps(cfg, keep, limits, st, g);
      case StreamFails => StreamKeeps(cfg, keep, limits, st, g);
      case StreamEnds => StreamKeeps(cfg, keep, limits, st, g);
      case Serve(_) => ServeKeeps(cfg, keep, limits, st, g);
    }
  }

  lemma InitLedger(cfg: Config, limits: Server.Limits, g: System)
    requires Init(limits, g) && FifoInvariant.Inv(cfg, g.agent) && Server.Inv(limits, g.server)
    ensures Inv(cfg, limits, g)
  {
    hide FifoInvariant.Inv, Server.Inv;
  }

  // The repaired agent needs no guard.
  lemma NothingAbandonedStep(cfg: Config, a: Action, s: World)
    requires Pipeline.Enabled(cfg, a, s) && s.abandoned == []
    ensures Pipeline.Apply(cfg, true, a, s).abandoned == []
    ensures AtLeastOnce.Guarded(a, s)
  {
  }

  lemma {:induction false} RepairedIsGuarded(cfg: Config, limits: Server.Limits, states: seq<System>,
      steps: seq<Step>, n: nat)
    requires Run(cfg, true, limits, states, steps) && n <= |steps|
    ensures states[n].agent.abandoned == []
    ensures forall i :: 0 <= i < n ==> Guarded(steps[i], states[i])
  {
    hide Pipeline.Apply, Pipeline.Enabled, Server.Apply, Server.Enabled, AtLeastOnce.Guarded;
    if n > 0 {
      RepairedIsGuarded(cfg, limits, states, steps, n - 1);
      var st, g := steps[n - 1], states[n - 1];
      assert Enabled(cfg, limits, st, g) && states[n] == Apply(cfg, true, limits, st, g);
      match st
      case Agent(a) => NothingAbandonedStep(cfg, a, g.agent);
      case StreamFails => SendsAreEnabled(cfg, g.agent, g.sent); NothingAbandonedStep(cfg, SendFailed(g.sent), g.agent);
      case StreamEnds => SendsAreEnabled(cfg, g.agent, g.sent); NothingAbandonedStep(cfg, Receipt, g.agent);
      case _ =>
    }
  }

  lemma SendsAreEnabled(cfg: Config, s: World, n: nat)
    requires s.phase.Sending? && n <= |s.batch|
    ensures Pipeline.Enabled(cfg, SendFailed(n), s) && Pipeline.Enabled(cfg, Receipt, s)
  {
  }

  // Where an accepted entry is; only a cancelled server gives one up.
  lemma AcceptedIsSomewhere(limits: Server.Limits, s: Server.Server<Entry>, e: Entry)
    requires Server.Inv(limits, s) && e in s.accepted
    ensures || e in s.queue || e in Server.Batches(s.workers) || e in Server.Flatten(s.stored)
            || (e in s.givenUp && s.cancelled)
  {
    hide Server.Bounded, Server.InOrder, Server.Batches, Server.Flatten;
    assert multiset(s.accepted)[e] > 0;
  }

  /** End-to-end accounting. While no position is saved past an abandoned entry (none ever is by the repaired agent),
      every message at or before a position, in memory or on disk, is in the server's queue, in a worker's
      batch, in the table, among the entries some receipt reported as missing or, once the server was
      cancelled, among those its workers gave up; and each receipt's batch is exactly what the
      server took, as many as the receipt counts, and what it dropped. */
  lemma EveryCheckpointedMessageIsAccounted(cfg: Config, keep: bool, limits: Server.Limits, states: seq<System>,
      steps: seq<Step>, n: nat, file: string, pos: Position, m: Message)
    requires Run(cfg, keep, limits, states, steps) && n <= |steps|
    requires keep || forall i :: 0 <= i < n ==> Guarded(steps[i], states[i])
    requires var s := states[n].agent;
             && ((file in s.mem && s.mem[file] == pos) || (file in s.disk && s.disk[file] == pos))
             && Key(file, pos.inode) in s.contents
             && m in Decode(cfg.rules, s.contents[Key(file, pos.inode)]).out && m.end <= pos.offset
    ensures var e, g := ToEntry(cfg, file, pos.inode, m), states[n];
            || e in g.server.queue || e in Server.Batches(g.server.workers) || e in Server.Flatten(g.server.stored)
            || InReceipt(g.receipts, e) || (e in g.server.givenUp && g.server.cancelled)
    ensures forall i :: 0 <= i < |states[n].receipts| ==> Honest(states[n].receipts[i])
  {
    hide Init, Enabled, Apply, Guarded, FifoInvariant.Inv, Server.Inv, Decode, ToEntry, InReceipt, Honest;
    if keep {
      RepairedIsGuarded(cfg, limits, states, steps, n);
    }
    RunInv(cfg, keep, limits, states, steps, n);
    var g := states[n];
    AtLeastOnce.InvMeansDelivered(cfg, g.agent);
    assert Delivered(cfg, g.agent, file, pos);
    var e := ToEntry(cfg, file, pos.inode, m);
    assert e in g.agent.delivered;
    if e in g.server.accepted {
      AcceptedIsSomewhere(limits, g.server, e);
    }
  }
}
