/** At-least-once delivery of the agent, over every run of its steps: when it holds, when it
    does not, and that the repaired Run always meets it. */
module AtLeastOnce {
  import opened Wrappers
  import opened Decoder
  import opened Entities
  import opened Tailing
  import opened Pipeline
  import opened FifoInvariant

  /** What saving the next position of a batch needs: no entry that flush gave up on in this
      process, undelivered since, comes earlier in the same file. */
  ghost predicate NothingSkipped(s: World)
    requires s.phase.Committing? && s.phase.next < |s.batch|
  {
    var e := s.batch[s.phase.next];
    forall i :: 0 <= i < |s.abandoned| && KeyOf(s.abandoned[i]) == KeyOf(e) && s.abandoned[i].offset < e.offset ==>
      s.abandoned[i] in s.delivered
  }

  ghost predicate Guarded(a: Action, s: World) {
    a.SetPosition? && s.phase.Committing? && s.phase.next < |s.batch| ==> NothingSkipped(s)
  }

  // ---- One step ----

  lemma EnvironmentStep(cfg: Config, keep: bool, a: Action, s: World)
    requires Inv(cfg, s) && (a.Grow? || a.Rotate? || a.Remove? || a.Cancel?)
    ensures Inv(cfg, Apply(cfg, keep, a, s))
  {
    hide Consistent, Closed, AllGenuine, PositionsWithin, PositionsConsistent, FilesConsistent, FilesWithin;
    var s' := Apply(cfg, keep, a, s);
    assert Grows(s.contents, s'.contents);
    GrowInv(cfg, s, s'.contents, s'.current);
  }

  lemma CrashStep(cfg: Config, keep: bool, s: World)
    requires Inv(cfg, s)
    ensures Inv(cfg, Apply(cfg, keep, Crash, s))
  {
    hide Consistent, UpTo, Genuine, Before, PositionsWithin, PositionsConsistent;
  }

  lemma OpenStep(cfg: Config, keep: bool, a: Action, s: World)
    requires Inv(cfg, s) && Enabled(cfg, a, s) && a.Open?
    ensures Inv(cfg, Apply(cfg, keep, a, s))
  {
    hide Decode, Closed, AllGenuine;
    var s' := Apply(cfg, keep, a, s);
    var st := s'.files[a.path];
    var k := Key(a.path, st.inode);
    hide UpTo, Opened;
    assert Consistent(cfg, s.contents, k, st.at) &&
           Within(UpTo(cfg, s.contents, k, st.at.offset), Known(s) + ToSet(Pipe(s))) by {
      OpenedPoint(cfg, s, a.path);
    }
  }

  // Wherever Open starts, everything before is accounted for.
  lemma OpenedPoint(cfg: Config, s: World, path: string)
    requires Inv(cfg, s) && Enabled(cfg, Open(path), s)
    ensures var inode := s.current[path];
            var st := Opened(Lookup(s.files, path), Lookup(s.mem, path), inode, |s.contents[Key(path, inode)]|);
            st.inode == inode && Consistent(cfg, s.contents, Key(path, inode), st.at) &&
            Within(UpTo(cfg, s.contents, Key(path, inode), st.at.offset), Known(s) + ToSet(Pipe(s)))
  {
    hide Closed, AllGenuine, UpTo, Decode;
    var inode := s.current[path];
    var k := Key(path, inode);
    assert s.contents[k][..0] == "";
    StartOfFile(cfg, s.contents, k);
  }

  lemma StartOfFile(cfg: Config, contents: Contents, k: Key)
    requires k in contents
    ensures Decode(cfg.rules, "").at == START && UpTo(cfg, contents, k, 0) == []
  {
    ScanStop(cfg.rules, "", START);
    assert contents[k][..0] == "";
  }

  lemma ReadLineStep(cfg: Config, keep: bool, s: World)
    requires Inv(cfg, s) && Enabled(cfg, ReadLine, s)
    ensures Inv(cfg, Apply(cfg, keep, ReadLine, s))
  {
    hide Consistent, UpTo, Genuine, Before, Closed, AllGenuine, LineAt, PositionsWithin, PositionsConsistent, ToEntry;
    var s' := Apply(cfg, keep, ReadLine, s);
    var path := s.reading.value;
    var line := LineAt(cfg, s, path);
    var k := Key(path, s.files[path].inode);
    NextLine(cfg, s, path);
    var known := Known(s);
    if line.out == [] {
      assert Pipe(s') == Pipe(s);
    } else {
      var e := ToEntry(cfg, path, k.inode, line.out[0]);
      LineEmitsAtMostOne(cfg, s, path);
      assert ToEntries(cfg, path, k.inode, line.out) == [e];
      assert Pipe(s') == Pipe(s) + [e];
      EnterPipe(cfg, s.contents, known, Pipe(s), e);
      assert ToSet(Pipe(s')) == ToSet(Pipe(s)) + {e};
      MoreKnownFiles(cfg, s.contents, s.files, known + ToSet(Pipe(s)), known + ToSet(Pipe(s')));
    }
  }

  lemma LineEmitsAtMostOne(cfg: Config, s: World, path: string)
    requires HasLine(s, path)
    ensures |LineAt(cfg, s, path).out| <= 1
  {
    hide StepLine;
  }

  lemma TailerStep(cfg: Config, keep: bool, a: Action, s: World)
    requires Inv(cfg, s) && Enabled(cfg, a, s)
    requires a.DropLine? || a.CloseFile? || a.EndPass? || a.StopTailing? || a.CloseChannel?
    ensures Inv(cfg, Apply(cfg, keep, a, s))
  {
    hide Consistent, UpTo, Closed, AllGenuine, LineAt;
    if a.DropLine? {
      NextLine(cfg, s, s.reading.value);
    }
  }

  // Receive, Tick, Finish and a failed send move entries from the channel to the batch, at most.
  lemma CollectFrame(cfg: Config, keep: bool, a: Action, s: World)
    requires Enabled(cfg, a, s) && (a.Receive? || a.Tick? || a.Finish? || a.SendFailed?)
    ensures var s' := Apply(cfg, keep, a, s);
            && Pipe(s') == Pipe(s) && !s'.phase.Committing?
            && s'.mem == s.mem && s'.disk == s.disk && s'.contents == s.contents && s'.files == s.files
            && s'.reading == s.reading && s'.tailing == s.tailing
            && s'.abandoned == s.abandoned && s'.delivered == s.delivered
  {
    hide HasLine, LineAt, Opened, Wanted;
    if a.Receive? {
      assert s.batch + s.queue == s.batch + [s.queue[0]] + s.queue[1..];
    }
  }

  lemma CollectStep(cfg: Config, keep: bool, a: Action, s: World)
    requires Inv(cfg, s) && Enabled(cfg, a, s)
    requires a.Receive? || a.Tick? || a.Finish? || a.SendFailed?
    ensures Inv(cfg, Apply(cfg, keep, a, s))
  {
    hide Apply, Enabled, Pipe, Closed, AllGenuine, PositionsWithin, PositionsConsistent, FilesConsistent, FilesWithin;
    CollectFrame(cfg, keep, a, s);
  }

  lemma AbandonStep(cfg: Config, keep: bool, s: World)
    requires Inv(cfg, s) && Enabled(cfg, Abandon, s)
    ensures Inv(cfg, Apply(cfg, keep, Abandon, s))
  {
    hide Consistent, UpTo, Genuine, Before, Closed, PositionsWithin, PositionsConsistent, FilesConsistent, FilesWithin;
    var s' := Apply(cfg, keep, Abandon, s);
    if !keep {
      assert ToSet(s'.abandoned) == ToSet(s.abandoned) + ToSet(s.batch);
      LeavePipe(cfg, s.contents, Known(s), Known(s'), s.batch, s.queue);
      assert Pipe(s') == s.queue;
      assert ToSet(Pipe(s)) == ToSet(s.batch) + ToSet(s.queue);
      assert Known(s) + ToSet(Pipe(s)) == Known(s') + ToSet(Pipe(s'));
      BatchGenuine(cfg, s);
    }
  }

  lemma BatchGenuine(cfg: Config, s: World)
    requires Inv(cfg, s)
    ensures AllGenuine(cfg, s.contents, s.batch)
  {
    hide Genuine, Before, PositionsWithin, PositionsConsistent, FilesConsistent, FilesWithin;
    forall i | 0 <= i < |s.batch| ensures Genuine(cfg, s.contents, s.batch[i]) {
      assert Pipe(s)[i] == s.batch[i];
    }
  }

  lemma ReceiptStep(cfg: Config, keep: bool, s: World)
    requires Inv(cfg, s) && Enabled(cfg, Receipt, s)
    ensures Inv(cfg, Apply(cfg, keep, Receipt, s))
  {
    hide Closed, AllGenuine, PositionsWithin, PositionsConsistent, FilesConsistent, FilesWithin;
    var s' := Apply(cfg, keep, Receipt, s);
    MoreKnown(cfg, s.contents, Known(s), Known(s'), Pipe(s));
    if s.tailing {
      MoreKnownFiles(cfg, s.contents, s.files, Known(s) + ToSet(Pipe(s)), Known(s') + ToSet(Pipe(s)));
    }
    MoreKnownPositions(cfg, s.contents, s.mem, s.delivered, s'.delivered);
    MoreKnownPositions(cfg, s.contents, s.disk, s.delivered, s'.delivered);
  }

  lemma SaveStep(cfg: Config, keep: bool, a: Action, s: World)
    requires Inv(cfg, s) && Enabled(cfg, a, s) && a.Save?
    ensures Inv(cfg, Apply(cfg, keep, a, s))
  {
    hide Closed, AllGenuine, PositionsWithin, PositionsConsistent, FilesConsistent, FilesWithin;
    var s' := Apply(cfg, keep, a, s);
    LeavePipe(cfg, s.contents, Known(s), Known(s'), s.batch, s.queue);
    assert Pipe(s') == s.queue;
    assert ToSet(Pipe(s)) == ToSet(s.batch) + ToSet(s.queue);
    assert Known(s) + ToSet(Pipe(s)) == Known(s') + ToSet(Pipe(s'));
  }

  // ---- Saving one position ----

  // Of the entries of one file, those that end earlier are the ones before.
  lemma EarlierInFile(cfg: Config, contents: Contents, e: Entry, b: Entry)
    requires Genuine(cfg, contents, e)
    ensures b in Before(cfg, contents, e) ==> KeyOf(b) == KeyOf(e) && b.offset < e.offset
    ensures Genuine(cfg, contents, b) && KeyOf(b) == KeyOf(e) && b.offset < e.offset ==> b in Before(cfg, contents, e)
  {
    hide Decode, ToEntry;
    var content := contents[KeyOf(e)];
    var out := Decode(cfg.rules, content[..e.offset]).out;
    DecodeBounds(cfg.rules, content[..e.offset]);
    forall i | 0 <= i < |out|
      ensures var x := ToEntry(cfg, e.file, e.inode, out[i]);
              KeyOf(x) == KeyOf(e) && x.offset == out[i].end
    {
      EntryFields(cfg, e.file, e.inode, out[i]);
    }
    if Genuine(cfg, contents, b) && KeyOf(b) == KeyOf(e) && b.offset < e.offset {
      DecodeWithin(cfg.rules, content[..e.offset], b.offset);
      assert content[..e.offset][..b.offset] == content[..b.offset];
      var es := UpTo(cfg, contents, KeyOf(e), e.offset);
      var j := |UpTo(cfg, contents, KeyOf(e), b.offset)| - 1;
      assert es[j] == b;
      assert j < |es| - 1;
      assert Before(cfg, contents, e)[j] == b;
    }
  }

  lemma DecodeBounds(rules: Rules, s: string)
    ensures Ordered(Decode(rules, s).out, 0, Decode(rules, s).at.offset)
  {
    ScanBounds(rules, s, START);
  }

  // What the invariant says of the next entry of a committing batch.
  lemma NextInBatch(cfg: Config, s: World)
    requires s.phase.Committing? && s.phase.next < |s.batch|
    requires Inv(cfg, s)
    ensures var e := s.batch[s.phase.next];
            && Genuine(cfg, s.contents, e) && e in s.delivered
            && Within(Before(cfg, s.contents, e), s.delivered + ToSet(s.abandoned))
  {
    hide Genuine, Before, Consistent, UpTo, PositionsWithin, PositionsConsistent, FilesConsistent, FilesWithin;
    var n := s.phase.next;
    var e := s.batch[n];
    assert Pipe(s)[n] == e && Pipe(s)[..n] == s.batch[..n];
    assert ToSet(s.batch[..n]) <= s.delivered;
    assert e in ToSet(s.batch);
  }

  lemma UpToNext(cfg: Config, contents: Contents, e: Entry, known: set<Entry>)
    requires Genuine(cfg, contents, e) && e in known
    ensures Within(UpTo(cfg, contents, KeyOf(e), e.offset), known) <==> Within(Before(cfg, contents, e), known)
  {
    hide Genuine, Before, UpTo;
    LastOfUpTo(cfg, contents, e);
    var before := Before(cfg, contents, e);
    var all := before + [e];
    assert forall i :: 0 <= i < |before| ==> before[i] == all[i];
    assert forall i :: 0 <= i < |all| ==> i < |before| || all[i] == e;
  }

  lemma NotSkippedIsDelivered(cfg: Config, s: World)
    requires s.phase.Committing? && s.phase.next < |s.batch| && NothingSkipped(s)
    requires var e := s.batch[s.phase.next];
             Genuine(cfg, s.contents, e) && Within(Before(cfg, s.contents, e), s.delivered + ToSet(s.abandoned))
    ensures Within(Before(cfg, s.contents, s.batch[s.phase.next]), s.delivered)
  {
    hide Genuine, Before;
    var e := s.batch[s.phase.next];
    var before := Before(cfg, s.contents, e);
    forall i | 0 <= i < |before| ensures before[i] in s.delivered {
      EarlierInFile(cfg, s.contents, e, before[i]);
    }
  }

  lemma DeliveredSkipsNothing(cfg: Config, s: World)
    requires s.phase.Committing? && s.phase.next < |s.batch| && AllGenuine(cfg, s.contents, s.abandoned)
    requires var e := s.batch[s.phase.next];
             Genuine(cfg, s.contents, e) && Within(Before(cfg, s.contents, e), s.delivered)
    ensures NothingSkipped(s)
  {
    hide Genuine, Before;
    var e := s.batch[s.phase.next];
    forall i | 0 <= i < |s.abandoned| && KeyOf(s.abandoned[i]) == KeyOf(e) && s.abandoned[i].offset < e.offset
      ensures s.abandoned[i] in s.delivered
    {
      EarlierInFile(cfg, s.contents, e, s.abandoned[i]);
    }
  }

  // The position of the next entry is delivered exactly when nothing was skipped.
  lemma PositionCovered(cfg: Config, s: World)
    requires s.phase.Committing? && s.phase.next < |s.batch|
    requires Inv(cfg, s)
    ensures var e := s.batch[s.phase.next];
            Genuine(cfg, s.contents, e) &&
            (Within(UpTo(cfg, s.contents, KeyOf(e), e.offset), s.delivered) <==> NothingSkipped(s))
  {
    hide Genuine, Before, Within, UpTo, NothingSkipped, DurableInv, PhaseOk, Closed, AllGenuine, FilesConsistent,
         FilesWithin;
    var e := s.batch[s.phase.next];
    NextInBatch(cfg, s);
    UpToNext(cfg, s.contents, e, s.delivered);
    if NothingSkipped(s) {
      NotSkippedIsDelivered(cfg, s);
    }
    if Within(Before(cfg, s.contents, e), s.delivered) {
      DeliveredSkipsNothing(cfg, s);
    }
  }

  lemma LastOfUpTo(cfg: Config, contents: Contents, e: Entry)
    requires Genuine(cfg, contents, e)
    ensures UpTo(cfg, contents, KeyOf(e), e.offset) == Before(cfg, contents, e) + [e]
    ensures Consistent(cfg, contents, KeyOf(e), Point(e.offset, ""))
  {
    hide UpTo, Consistent;
  }

  // One more position, covered by what is delivered.
  lemma OnePosition(cfg: Config, contents: Contents, m: map<string, Position>, known: set<Entry>, file: string,
                    pos: Position)
    requires PositionsConsistent(cfg, contents, m) && PositionsWithin(cfg, contents, m, known)
    requires Consistent(cfg, contents, Key(file, pos.inode), Point(pos.offset, ""))
    requires Within(UpTo(cfg, contents, Key(file, pos.inode), pos.offset), known)
    ensures PositionsConsistent(cfg, contents, m[file := pos]) && PositionsWithin(cfg, contents, m[file := pos], known)
  {
    hide Consistent, UpTo, Within;
  }

  lemma SetPositionStep(cfg: Config, keep: bool, s: World)
    requires Enabled(cfg, SetPosition, s) && NothingSkipped(s)
    requires Inv(cfg, s)
    ensures Inv(cfg, Apply(cfg, keep, SetPosition, s))
  {
    hide Closed, AllGenuine, Consistent, UpTo, Within, FilesConsistent, FilesWithin, PositionsConsistent,
         PositionsWithin, NothingSkipped, Genuine, Before;
    var e := s.batch[s.phase.next];
    PositionCovered(cfg, s);
    LastOfUpTo(cfg, s.contents, e);
    OnePosition(cfg, s.contents, s.mem, s.delivered, e.file, Position(e.inode, e.offset));
  }

  lemma StepKeepsInv(cfg: Config, keep: bool, a: Action, s: World)
    requires Inv(cfg, s) && Enabled(cfg, a, s) && Guarded(a, s)
    ensures Inv(cfg, Apply(cfg, keep, a, s))
  {
    hide Inv, Apply, NothingSkipped;
    match a
    case Grow(_, _) | Rotate(_, _) | Remove(_) | Cancel => EnvironmentStep(cfg, keep, a, s);
    case Crash => CrashStep(cfg, keep, s);
    case Open(_) => OpenStep(cfg, keep, a, s);
    case ReadLine => ReadLineStep(cfg, keep, s);
    case DropLine | CloseFile | EndPass(_) | StopTailing | CloseChannel => TailerStep(cfg, keep, a, s);
    case Receive | Tick | Finish | SendFailed(_) => CollectStep(cfg, keep, a, s);
    case Abandon => AbandonStep(cfg, keep, s);
    case Receipt => ReceiptStep(cfg, keep, s);
    case SetPosition => SetPositionStep(cfg, keep, s);
    case Save(_) => SaveStep(cfg, keep, a, s);
  }

  // ---- The promise, in terms of whole files ----

  lemma DeliveredIsWithin(cfg: Config, s: World, file: string, pos: Position)
    requires Consistent(cfg, s.contents, Key(file, pos.inode), Point(pos.offset, ""))
    ensures Delivered(cfg, s, file, pos) <==>
            Within(UpTo(cfg, s.contents, Key(file, pos.inode), pos.offset), s.delivered)
  {
    hide Decode, ToEntry;
    var k := Key(file, pos.inode);
    var content := s.contents[k];
    DecodeWithin(cfg.rules, content, pos.offset);
    var out := Decode(cfg.rules, content[..pos.offset]).out;
    var es := UpTo(cfg, s.contents, k, pos.offset);
    if Within(es, s.delivered) {
      forall m | m in Decode(cfg.rules, content).out && m.end <= pos.offset
        ensures ToEntry(cfg, file, pos.inode, m) in s.delivered
      {
        var i :| 0 <= i < |out| && out[i] == m;
        assert es[i] == ToEntry(cfg, file, pos.inode, m);
      }
    }
    if Delivered(cfg, s, file, pos) {
      forall i | 0 <= i < |es| ensures es[i] in s.delivered {
        assert out[i] in out;
      }
    }
  }

  lemma InvMeansDelivered(cfg: Config, s: World)
    requires Inv(cfg, s)
    ensures CheckpointsDelivered(cfg, s)
  {
    hide Consistent, UpTo, Closed, AllGenuine, FilesConsistent, FilesWithin, Delivered, Within;
    forall file | file in s.mem ensures Delivered(cfg, s, file, s.mem[file]) {
      DeliveredIsWithin(cfg, s, file, s.mem[file]);
    }
    forall file | file in s.disk ensures Delivered(cfg, s, file, s.disk[file]) {
      DeliveredIsWithin(cfg, s, file, s.disk[file]);
    }
  }

  lemma SkippingBreaksPromise(cfg: Config, keep: bool, s: World)
    requires Enabled(cfg, SetPosition, s) && !NothingSkipped(s)
    requires Inv(cfg, s)
    ensures !CheckpointsDelivered(cfg, Apply(cfg, keep, SetPosition, s))
  {
    hide Inv, UpTo, Consistent, NothingSkipped, Genuine, Before, Delivered, Within;
    var e := s.batch[s.phase.next];
    PositionCovered(cfg, s);
    LastOfUpTo(cfg, s.contents, e);
    SetIsUndelivered(cfg, keep, s);
  }

  lemma SetIsUndelivered(cfg: Config, keep: bool, s: World)
    requires Enabled(cfg, SetPosition, s)
    requires var e := s.batch[s.phase.next];
             && Consistent(cfg, s.contents, KeyOf(e), Point(e.offset, ""))
             && !Within(UpTo(cfg, s.contents, KeyOf(e), e.offset), s.delivered)
    ensures !CheckpointsDelivered(cfg, Apply(cfg, keep, SetPosition, s))
  {
    hide UpTo, Consistent, Delivered, Within;
    var s' := Apply(cfg, keep, SetPosition, s);
    var e := s.batch[s.phase.next];
    DeliveredIsWithin(cfg, s', e.file, Position(e.inode, e.offset));
    assert e.file in s'.mem && s'.mem[e.file] == Position(e.inode, e.offset);
  }

  lemma InitInv(cfg: Config, s: World)
    requires Init(s)
    ensures Inv(cfg, s)
  {
    hide Consistent, UpTo, Genuine, Before;
  }

  // ---- Runs ----

  lemma {:induction false} GuardedRunKeepsInv(cfg: Config, keep: bool, states: seq<World>, acts: seq<Action>, n: nat)
    requires Run(cfg, keep, states, acts) && n <= |acts|
    requires forall i :: 0 <= i < n ==> Guarded(acts[i], states[i])
    ensures forall i :: 0 <= i <= n ==> Inv(cfg, states[i])
  {
    hide Inv, Enabled, Apply, Guarded, Init;
    if n == 0 {
      InitInv(cfg, states[0]);
    } else {
      GuardedRunKeepsInv(cfg, keep, states, acts, n - 1);
      StepKeepsInv(cfg, keep, acts[n - 1], states[n - 1]);
    }
  }

  /** At-least-once delivery, exactly: in every run of polls, rotations, sends, failed sends, lost
      receipts, failed saves, cancellations, crashes and restarts, no position ever gets ahead of
      delivery if and only if no position is saved past an entry that flush gave up on. */
  lemma {:induction false} AtLeastOnceExactly(cfg: Config, keep: bool, states: seq<World>, acts: seq<Action>)
    requires Run(cfg, keep, states, acts)
    ensures (forall i :: 0 <= i < |states| ==> CheckpointsDelivered(cfg, states[i])) <==>
            (forall i :: 0 <= i < |acts| ==> Guarded(acts[i], states[i]))
  {
    hide Inv, Enabled, Apply, NothingSkipped, CheckpointsDelivered, Init;
    if forall i :: 0 <= i < |acts| ==> Guarded(acts[i], states[i]) {
      GuardedRunKeepsInv(cfg, keep, states, acts, |acts|);
      forall i | 0 <= i < |states| ensures CheckpointsDelivered(cfg, states[i]) {
        InvMeansDelivered(cfg, states[i]);
      }
    } else {
      var n := FirstUnguarded(states, acts);
      GuardedRunKeepsInv(cfg, keep, states, acts, n);
      assert acts[n] == SetPosition;
      assert Enabled(cfg, acts[n], states[n]) && states[n + 1] == Apply(cfg, keep, acts[n], states[n]);
      SkippingBreaksPromise(cfg, keep, states[n]);
    }
  }

  lemma {:induction false} FirstUnguarded(states: seq<World>, acts: seq<Action>) returns (n: nat)
    requires |states| == |acts| + 1 && exists i :: 0 <= i < |acts| && !Guarded(acts[i], states[i])
    ensures n < |acts| && !Guarded(acts[n], states[n])
    ensures forall i :: 0 <= i < n ==> Guarded(acts[i], states[i])
  {
    hide Guarded;
    n := 0;
    while Guarded(acts[n], states[n])
      invariant n < |acts|
      invariant forall i :: 0 <= i < n ==> Guarded(acts[i], states[i])
      decreases |acts| - n
    {
      n := n + 1;
      if n == |acts| {
        assert false;
      }
    }
  }

  // A process that never abandons a batch has nothing to skip.
  lemma {:induction false} NothingAbandoned(cfg: Config, keep: bool, states: seq<World>, acts: seq<Action>, n: nat)
    requires Run(cfg, keep, states, acts) && n <= |acts|
    requires keep || forall i :: 0 <= i < n ==> acts[i] != Abandon
    ensures states[n].abandoned == []
  {
    if n > 0 {
      NothingAbandoned(cfg, keep, states, acts, n - 1);
      assert Enabled(cfg, acts[n - 1], states[n - 1]) && states[n] == Apply(cfg, keep, acts[n - 1], states[n - 1]);
    }
  }

  /** The repaired Run, which keeps the batch when flush returns uncommitted, delivers
      at least once in all runs; so does the original in every run that abandons no batch. */
  lemma RepairedAtLeastOnce(cfg: Config, keep: bool, states: seq<World>, acts: seq<Action>)
    requires Run(cfg, keep, states, acts)
    requires keep || forall i :: 0 <= i < |acts| ==> acts[i] != Abandon
    ensures forall i :: 0 <= i < |states| ==> CheckpointsDelivered(cfg, states[i])
  {
    hide Enabled, Apply, CheckpointsDelivered, Init;
    forall i | 0 <= i < |acts| ensures Guarded(acts[i], states[i]) {
      NothingAbandoned(cfg, keep, states, acts, i);
    }
    AtLeastOnceExactly(cfg, keep, states, acts);
  }
}
