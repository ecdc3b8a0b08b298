// The agent's backpressure and the order of its shutdown (internal/logagent/agent.go).
module Shutdown {
  import opened Decoder
  import opened Entities
  import opened Tailing
  import opened Pipeline

  // The tailer stops, then the channel closes, then the shipper's last send sees all there is.
  ghost predicate Orderly(s: World) {
    && (s.closed ==> !s.tailing)
    && (s.phase == Stopped || ((s.phase.Sending? || s.phase.Committing?) && s.phase.final) ==>
          s.closed && s.queue == [])
    && (!s.tailing ==> s.cancelled)
  }

  lemma OrderlyStep(cfg: Config, keep: bool, a: Action, s: World)
    requires Orderly(s) && Enabled(cfg, a, s)
    ensures Orderly(Apply(cfg, keep, a, s))
  {
    hide LineAt, HasLine, Opened, Wanted;
  }

  /** In every run: the channel closes only after the tailer has stopped, and the shutdown send begins only when the
      channel is closed and empty, so nothing can arrive after it. */
  lemma {:induction false} ShutdownIsOrderly(cfg: Config, keep: bool, states: seq<World>, acts: seq<Action>, n: nat)
    requires Run(cfg, keep, states, acts) && n <= |acts|
    ensures Orderly(states[n])
  {
    hide Enabled, Apply, Orderly;
    if n == 0 {
      InitOrderly(states[0]);
    } else {
      ShutdownIsOrderly(cfg, keep, states, acts, n - 1);
      OrderlyStep(cfg, keep, acts[n - 1], states[n - 1]);
    }
  }

  lemma InitOrderly(s: World)
    requires Init(s)
    ensures Orderly(s)
  {
  }

  // The channel holds at most a batch, and so does the shipper while ctx is live.
  ghost predicate Bounded(cfg: Config, s: World) {
    && |s.queue| <= cfg.batchSize
    && (!s.cancelled ==> |s.batch| <= cfg.batchSize && (s.phase == Collecting ==> |s.batch| < cfg.batchSize))
  }

  lemma BoundedStep(cfg: Config, keep: bool, a: Action, s: World)
    requires cfg.batchSize > 0 && Bounded(cfg, s) && Enabled(cfg, a, s)
    ensures Bounded(cfg, Apply(cfg, keep, a, s))
  {
    hide StepLine;
  }

  /** Backpressure: however long the server is down, a live agent holds at most two batches in
      memory; what it has not read waits on disk. */
  lemma {:induction false} MemoryIsBounded(cfg: Config, keep: bool, states: seq<World>, acts: seq<Action>, n: nat)
    requires Run(cfg, keep, states, acts) && cfg.batchSize > 0 && n <= |acts|
    ensures Bounded(cfg, states[n])
    ensures !states[n].cancelled ==> |Pipe(states[n])| <= 2 * cfg.batchSize
  {
    hide Enabled, Apply;
    if n > 0 {
      MemoryIsBounded(cfg, keep, states, acts, n - 1);
      BoundedStep(cfg, keep, acts[n - 1], states[n - 1]);
    }
  }
}
