// The receive loop of IngestLogs (internal/adapter/grpc/log_handler.go), while workers and other streams go on.
module LogHandling {
  import opened Wrappers
  import opened Ingestion
  import opened Ingesting

  // A message from the stream, what Submit's select finds, and what others did since the last message.
  datatype Request<T> = Request(e: T, ctxDone: bool, picksDone: bool, meanwhile: seq<Act<T>>)

  // The client finished, or the stream broke.
  datatype StreamEnd = ClientDone | Broken

  // An entry that entered the queue, from this stream or another.
  datatype Entered<T> = Ours(e: T) | Theirs(e: T)

  // The server after a stream, which of its messages entered the queue, and all that entered it in order.
  datatype Served<T> = Served(server: Server<T>, taken: seq<bool>, log: seq<Entered<T>>)

  function Meanwhile<T>(limits: Limits, s: Server<T>, acts: seq<Act<T>>): Server<T> {
    if acts == [] then s else Stepped(limits, acts[|acts| - 1], Meanwhile(limits, s, acts[..|acts| - 1]))
  }

  // What other streams submit meanwhile.
  function Others<T>(limits: Limits, s: Server<T>, acts: seq<Act<T>>): seq<Entered<T>> {
    if acts == [] then []
    else
      var n := |acts| - 1;
      var a := acts[n];
      Others(limits, s, acts[..n]) +
      if a.Submit? && Enabled(limits, a, Meanwhile(limits, s, acts[..n])) then [Theirs(a.e)] else []
  }

  predicate Fits<T>(limits: Limits, s: Server<T>, req: Request<T>) {
    |s.queue| < limits.bufferSize && !(req.ctxDone && req.picksDone)
  }

  // One message: the others' steps, then Submit or the drop.
  function ServeOne<T>(limits: Limits, s: Server<T>, req: Request<T>): Served<T> {
    var now, theirs := Meanwhile(limits, s, req.meanwhile), Others(limits, s, req.meanwhile);
    if Fits(limits, now, req) then Served(Stepped(limits, Submit(req.e), now), [true], theirs + [Ours(req.e)])
    else Served(now, [false], theirs)
  }

  function Serve<T>(limits: Limits, s: Server<T>, reqs: seq<Request<T>>): Served<T> {
    if reqs == [] then Served(s, [], [])
    else
      var before := Serve(limits, s, reqs[..|reqs| - 1]);
      var last := ServeOne(limits, before.server, reqs[|reqs| - 1]);
      Served(last.server, before.taken + last.taken, before.log + last.log)
  }

  // No stream is served after Stop.
  predicate StaysOpen<T>(acts: seq<Act<T>>) {
    forall i :: 0 <= i < |acts| ==> !acts[i].Close?
  }

  predicate AllStayOpen<T>(reqs: seq<Request<T>>) {
    forall i :: 0 <= i < |reqs| ==> StaysOpen(reqs[i].meanwhile)
  }

  predicate Live<T>(reqs: seq<Request<T>>) {
    forall i :: 0 <= i < |reqs| ==> !reqs[i].ctxDone
  }

  function Count(taken: seq<bool>): (n: nat)
    ensures n <= |taken|
  {
    if taken == [] then 0 else Count(taken[..|taken| - 1]) + if taken[|taken| - 1] then 1 else 0
  }

  // The entries of the messages that were taken.
  function Chosen<T>(reqs: seq<Request<T>>, taken: seq<bool>): (es: seq<T>)
    requires |taken| == |reqs|
    ensures |es| == Count(taken)
  {
    if reqs == [] then []
    else
      var n := |reqs| - 1;
      Chosen(reqs[..n], taken[..n]) + if taken[n] then [reqs[n].e] else []
  }

  function Entries<T>(log: seq<Entered<T>>): (es: seq<T>)
    ensures |es| == |log|
  {
    seq(|log|, i requires 0 <= i < |log| => log[i].e)
  }

  function OursOf<T>(log: seq<Entered<T>>): seq<T> {
    if log == [] then []
    else
      var last := log[|log| - 1];
      OursOf(log[..|log| - 1]) + if last.Ours? then [last.e] else []
  }

  lemma {:induction false} OursJoin<T>(a: seq<Entered<T>>, b: seq<Entered<T>>)
    ensures OursOf(a + b) == OursOf(a) + OursOf(b)
    decreases |b|
  {
    if b == [] {
      assert a + b == a;
    } else {
      var n := |b| - 1;
      OursJoin(a, b[..n]);
      assert (a + b)[..|a| + n] == a + b[..n];
      var last := if b[n].Ours? then [b[n].e] else [];
      assert OursOf(a) + OursOf(b[..n]) + last == OursOf(a) + (OursOf(b[..n]) + last);
    }
  }

  lemma EntriesJoin<T>(a: seq<Entered<T>>, b: seq<Entered<T>>)
    ensures Entries(a + b) == Entries(a) + Entries(b)
  {
  }

  // Others append what they submit; workers only ever take entries out.
  lemma {:induction false} MeanwhileKeeps<T>(limits: Limits, s: Server<T>, acts: seq<Act<T>>)
    requires Inv(limits, s) && !s.closed && StaysOpen(acts)
    ensures var r, theirs := Meanwhile(limits, s, acts), Others(limits, s, acts);
            && Inv(limits, r) && !r.closed && r.accepted == s.accepted + Entries(theirs)
            && OursOf(theirs) == [] && |r.queue| <= |s.queue| + |theirs|
    decreases |acts|
  {
    hide Inv, Apply, Enabled, Entries, OursOf;
    if acts == [] {
      NoEntries<T>();
      assert s.accepted + [] == s.accepted;
    } else {
      var n := |acts| - 1;
      MeanwhileKeeps(limits, s, acts[..n]);
      var now, theirs := Meanwhile(limits, s, acts[..n]), Others(limits, s, acts[..n]);
      assert theirs + [] == theirs;
      if Enabled(limits, acts[n], now) {
        StepInv(limits, acts[n], now);
        OneStep(limits, acts[n], now);
        if acts[n].Submit? {
          OneEntered(theirs, Theirs(acts[n].e));
          assert s.accepted + Entries(theirs) + [acts[n].e] == s.accepted + (Entries(theirs) + [acts[n].e]);
        }
      }
    }
  }

  lemma NoEntries<T>()
    ensures Entries<T>([]) == [] && OursOf<T>([]) == []
  {
  }

  lemma OneEntered<T>(log: seq<Entered<T>>, e: Entered<T>)
    ensures Entries(log + [e]) == Entries(log) + [e.e]
    ensures OursOf(log + [e]) == OursOf(log) + if e.Ours? then [e.e] else []
  {
    assert (log + [e])[..|log|] == log;
  }

  lemma OneStep<T>(limits: Limits, a: Act<T>, s: Server<T>)
    requires Enabled(limits, a, s) && !a.Close?
    ensures var r := Apply(limits, a, s);
            && r.closed == s.closed
            && r.accepted == s.accepted + (if a.Submit? then [a.e] else [])
            && |r.queue| <= |s.queue| + if a.Submit? then 1 else 0
  {
  }

  // Submit, or the drop of one entry.
  lemma OneRequest<T>(limits: Limits, s: Server<T>, req: Request<T>)
    requires Inv(limits, s) && !s.closed && StaysOpen(req.meanwhile)
    ensures var r := ServeOne(limits, s, req);
            && Inv(limits, r.server) && !r.server.closed && |r.taken| == 1
            && r.server.accepted == s.accepted + Entries(r.log)
            && OursOf(r.log) == (if r.taken[0] then [req.e] else [])
            && |r.server.queue| <= |s.queue| + |r.log|
            && (!req.ctxDone && !r.taken[0] ==> |r.server.queue| >= limits.bufferSize)
  {
    hide Inv, Meanwhile, Others, Entries, OursOf;
    MeanwhileKeeps(limits, s, req.meanwhile);
    var now, theirs := Meanwhile(limits, s, req.meanwhile), Others(limits, s, req.meanwhile);
    if Fits(limits, now, req) {
      StepInv(limits, Submit(req.e), now);
      OneEntered(theirs, Ours(req.e));
      assert s.accepted + Entries(theirs) + [req.e] == s.accepted + (Entries(theirs) + [req.e]);
    }
  }

  /** The receipt is honest: the entries it counts are those of this stream that entered the queue, in the order
      sent, among what other streams submitted. */
  lemma {:induction false} ReceiptIsHonest<T>(limits: Limits, s: Server<T>, reqs: seq<Request<T>>)
    requires Inv(limits, s) && !s.closed && AllStayOpen(reqs)
    ensures var r := Serve(limits, s, reqs);
            && |r.taken| == |reqs| && Inv(limits, r.server) && !r.server.closed
            && r.server.accepted == s.accepted + Entries(r.log) && OursOf(r.log) == Chosen(reqs, r.taken)
    decreases |reqs|
  {
    hide Inv, ServeOne, Entries, OursOf;
    if reqs == [] {
      NoEntries<T>();
      assert s.accepted + [] == s.accepted;
    } else {
      var n := |reqs| - 1;
      ReceiptIsHonest(limits, s, reqs[..n]);
      var before := Serve(limits, s, reqs[..n]);
      OneRequest(limits, before.server, reqs[n]);
      var last := ServeOne(limits, before.server, reqs[n]);
      EntriesJoin(before.log, last.log);
      OursJoin(before.log, last.log);
      assert (before.taken + last.taken)[..n] == before.taken;
      assert s.accepted + Entries(before.log) + Entries(last.log) ==
             s.accepted + (Entries(before.log) + Entries(last.log));
    }
  }

  /** Nothing is dropped while there is room: with a live context, whatever workers and other streams do meanwhile,
      either every message enters or what entered, theirs and ours, has filled the room there was. */
  lemma {:induction false} RoomIsUsed<T>(limits: Limits, s: Server<T>, reqs: seq<Request<T>>)
    requires Inv(limits, s) && !s.closed && AllStayOpen(reqs) && Live(reqs)
    ensures var r := Serve(limits, s, reqs);
            && |r.server.queue| <= |s.queue| + |r.log|
            && (Count(r.taken) == |reqs| || |s.queue| + |r.log| >= limits.bufferSize)
    decreases |reqs|
  {
    hide Inv, ServeOne, Chosen;
    if reqs != [] {
      var n := |reqs| - 1;
      RoomIsUsed(limits, s, reqs[..n]);
      ReceiptIsHonest(limits, s, reqs[..n]);
      var before := Serve(limits, s, reqs[..n]);
      OneRequest(limits, before.server, reqs[n]);
      var last := ServeOne(limits, before.server, reqs[n]);
      assert last.taken == [last.taken[0]];
      CountOne(before.taken, last.taken[0]);
    }
  }

  // One request of a live stream, with nothing else going on.
  lemma LiveRequest<T>(limits: Limits, s: Server<T>, req: Request<T>)
    requires Inv(limits, s) && !s.closed && !req.ctxDone && req.meanwhile == []
    ensures var r := ServeOne(limits, s, req);
            if |s.queue| < limits.bufferSize then r.taken == [true] && |r.server.queue| == |s.queue| + 1
            else r.taken == [false] && r.server == s
  {
    hide Inv;
  }

  /** With a live context and nothing else going on a full buffer is the only reason to drop: the first
      requests get in, as many as there is room, and no other. */
  lemma {:induction false} LiveTakesFirst<T>(limits: Limits, s: Server<T>, reqs: seq<Request<T>>)
    requires Inv(limits, s) && !s.closed && Live(reqs)
    requires forall i :: 0 <= i < |reqs| ==> reqs[i].meanwhile == []
    ensures var r, room := Serve(limits, s, reqs), limits.bufferSize - |s.queue|;
            && |r.taken| == |reqs|
            && |r.server.queue| == |s.queue| + (if |reqs| <= room then |reqs| else room)
            && forall i :: 0 <= i < |reqs| ==> (r.taken[i] <==> i < room)
    decreases |reqs|
  {
    hide Inv, ServeOne, Chosen, Count;
    if reqs == [] {
      QueueFits(limits, s);
    } else {
      var n := |reqs| - 1;
      LiveTakesFirst(limits, s, reqs[..n]);
      ReceiptIsHonest(limits, s, reqs[..n]);
      var before := Serve(limits, s, reqs[..n]);
      LiveRequest(limits, before.server, reqs[n]);
      var r, room := Serve(limits, s, reqs), limits.bufferSize - |s.queue|;
      assert r.taken == before.taken + [n < room];
    }
  }

  lemma QueueFits<T>(limits: Limits, s: Server<T>)
    requires Inv(limits, s)
    ensures |s.queue| <= limits.bufferSize
  {
  }

  class LogHandler<T> {
    const ingester: Ingester<T>

    constructor (ingester: Ingester<T>)
      ensures this.ingester == ingester
    {
      this.ingester := ingester;
    }

    /** The receipt counts exactly the entries of this stream that entered the queue, whatever workers and other
        streams do meanwhile; an entry that finds no room is dropped and the stream goes on; a
        broken stream yields no receipt. */
    method IngestLogs(reqs: seq<Request<T>>, end: StreamEnd) returns (receipt: Option<nat>)
      requires !ingester.closed && Inv(ingester.limits, ingester.Model()) && AllStayOpen(reqs)
      modifies ingester
      ensures var r := Serve(ingester.limits, old(ingester.Model()), reqs);
              && ingester.Model() == r.server
              && ingester.accepted == old(ingester.accepted) + Entries(r.log)
              && receipt == if end == ClientDone then Some(|OursOf(r.log)|) else None
      ensures Inv(ingester.limits, ingester.Model()) && !ingester.closed
    {
      hide Inv, Apply, Enabled, Chosen, ServeOne, Entries, OursOf, Count;
      var accepted := 0;
      CountNone();
      ghost var first := ingester.Model();
      var i := 0;
      while i < |reqs|
        invariant 0 <= i <= |reqs|
        invariant Inv(ingester.limits, first) && !first.closed
        invariant var r := Serve(ingester.limits, first, reqs[..i]);
                  ingester.Model() == r.server && accepted == Count(r.taken)
      {
        assert reqs[..i + 1][..i] == reqs[..i];
        ghost var before := Serve(ingester.limits, first, reqs[..i]);
        ReceiptIsHonest(ingester.limits, first, reqs[..i]);
        var took := Handle(reqs[i]);
        if took {
          accepted := accepted + 1;
        }
        assert Serve(ingester.limits, first, reqs[..i + 1]).taken == before.taken + [took];
        CountOne(before.taken, took);
        i := i + 1;
      }
      assert reqs[..i] == reqs;
      ReceiptIsHonest(ingester.limits, first, reqs);
      receipt := if end == ClientDone then Some(accepted) else None;
    }

    method Handle(req: Request<T>) returns (took: bool)
      requires !ingester.closed && Inv(ingester.limits, ingester.Model()) && StaysOpen(req.meanwhile)
      modifies ingester
      ensures var r := ServeOne(ingester.limits, old(ingester.Model()), req);
              ingester.Model() == r.server && r.taken == [took]
    {
      hide Inv, Apply, Enabled, Meanwhile, Others;
      MeanwhileKeeps(ingester.limits, ingester.Model(), req.meanwhile);
      Wait(req.meanwhile);
      ghost var now := ingester.Model();
      var r := ingester.Submit(req.e, req.ctxDone, req.picksDone);
      took := r == Accepted;
      if took {
        CanSubmit(ingester.limits, now, req.e);
      }
    }

    // The stream's next message has yet to come; everything else goes on.
    method Wait(acts: seq<Act<T>>)
      modifies ingester
      ensures ingester.Model() == Meanwhile(ingester.limits, old(ingester.Model()), acts)
    {
      hide Stepped;
      for k := 0 to |acts|
        invariant ingester.Model() == Meanwhile(ingester.limits, old(ingester.Model()), acts[..k])
      {
        assert acts[..k + 1][..k] == acts[..k];
        ingester.Perform(acts[k]);
      }
      assert acts[..|acts|] == acts;
    }
  }

  lemma CanSubmit<T>(limits: Limits, s: Server<T>, e: T)
    requires !s.closed && |s.queue| < limits.bufferSize
    ensures Enabled(limits, Act.Submit(e), s)
  {
  }

  lemma CountNone()
    ensures Count([]) == 0
  {
  }

  lemma CountOne(taken: seq<bool>, last: bool)
    ensures Count(taken + [last]) == Count(taken) + if last then 1 else 0
  {
    assert (taken + [last])[..|taken|] == taken;
  }
}
