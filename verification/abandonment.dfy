/** What flush's giving up does. The comment on flush says an abandoned batch is not lost because its
    positions were never saved; the shutdown send that follows can save later ones. */
module Abandonment {
  import opened Wrappers
  import opened Decoder
  import opened Entities
  import opened Tailing
  import opened Pipeline
  import opened FifoInvariant
  import opened AtLeastOnce

  ghost predicate Reachable(cfg: Config, keep: bool, s: World) {
    exists states, acts :: Run(cfg, keep, states, acts) && states[|acts|] == s
  }

  lemma ReachStep(cfg: Config, keep: bool, a: Action, s: World, s': World)
    requires Reachable(cfg, keep, s) && Enabled(cfg, a, s) && s' == Apply(cfg, keep, a, s)
    ensures Reachable(cfg, keep, s')
  {
    hide Apply, Enabled, Init;
    var states, acts :| Run(cfg, keep, states, acts) && states[|acts|] == s;
    assert Run(cfg, keep, states + [s'], acts + [a]) && (states + [s'])[|acts + [a]|] == s';
  }

  lemma ReachInit(cfg: Config, keep: bool, s: World)
    requires Init(s)
    ensures Reachable(cfg, keep, s)
  {
    var none: seq<Action> := [];
    assert Run(cfg, keep, [s], none) && [s][|none|] == s;
  }

  /** Only the shutdown send can skip: outside it, every position the shipper
      saves is guarded by there being nothing abandoned. */
  lemma OnlyFinalSkips(cfg: Config, keep: bool, s: World)
    requires Reachable(cfg, keep, s)
    ensures s.phase.Committing? && !s.phase.final ==> s.abandoned == []
    ensures s.phase.Committing? && s.phase.next < |s.batch| && !NothingSkipped(s) ==>
            s.phase.final && s.cancelled && !keep
  {
    hide Apply, Enabled, Init, NothingSkipped;
    var states, acts :| Run(cfg, keep, states, acts) && states[|acts|] == s;
    AbandonedMeansShutdown(cfg, keep, states, acts, |acts|);
    if keep {
      NothingAbandoned(cfg, keep, states, acts, |acts|);
    }
    if s.abandoned == [] && s.phase.Committing? && s.phase.next < |s.batch| {
      EmptySkipsNothing(s);
    }
  }

  lemma EmptySkipsNothing(s: World)
    requires s.phase.Committing? && s.phase.next < |s.batch| && s.abandoned == []
    ensures NothingSkipped(s)
  {
  }

  // Once a batch was given up, ctx is cancelled and only the shutdown send is left.
  ghost predicate ShutsDown(s: World) {
    s.abandoned != [] ==> s.cancelled && (s.phase.Sending? || s.phase.Committing? ==> s.phase.final)
  }

  lemma ShutsDownStep(cfg: Config, keep: bool, a: Action, s: World)
    requires Enabled(cfg, a, s) && ShutsDown(s)
    ensures ShutsDown(Apply(cfg, keep, a, s))
  {
    hide Opened, LineAt, HasLine, Wanted;
    var s' := Apply(cfg, keep, a, s);
    if a.Open? || a.ReadLine? || a.DropLine? {
      assert s'.abandoned == s.abandoned && s'.cancelled == s.cancelled && s'.phase == s.phase;
    }
  }

  lemma {:induction false} AbandonedMeansShutdown(cfg: Config, keep: bool, states: seq<World>, acts: seq<Action>,
      n: nat)
    requires Run(cfg, keep, states, acts) && n <= |acts|
    ensures ShutsDown(states[n])
  {
    hide Enabled, Apply;
    if n > 0 {
      AbandonedMeansShutdown(cfg, keep, states, acts, n - 1);
      assert Enabled(cfg, acts[n - 1], states[n - 1]) && states[n] == Apply(cfg, keep, acts[n - 1], states[n - 1]);
      ShutsDownStep(cfg, keep, acts[n - 1], states[n - 1]);
    }
  }

  /** FIFO prefix closure: as long as no position was saved past an abandoned entry, for every entry between the
      tailer and its receipt, each earlier message of its file has been receipted, was given up in this
      process, or stands ahead of it. */
  lemma FifoPrefixClosure(cfg: Config, keep: bool, states: seq<World>, acts: seq<Action>, n: nat, i: nat, m: Message)
    requires Run(cfg, keep, states, acts) && n <= |acts|
    requires forall j :: 0 <= j < n ==> Guarded(acts[j], states[j])
    requires i < |Pipe(states[n])| && KeyOf(Pipe(states[n])[i]) in states[n].contents
    requires var e := Pipe(states[n])[i];
             m in Decode(cfg.rules, states[n].contents[KeyOf(e)]).out && m.end < e.offset
    ensures var e := Pipe(states[n])[i];
            var earlier := ToEntry(cfg, e.file, e.inode, m);
            || earlier in states[n].delivered || earlier in states[n].abandoned
            || earlier in Pipe(states[n])[..i]
  {
    hide Apply, Enabled, Init, Guarded, Decode, ToEntry, PositionsWithin, PositionsConsistent, FilesConsistent,
         FilesWithin;
    GuardedRunKeepsInv(cfg, keep, states, acts, n);
    var s := states[n];
    var e := Pipe(s)[i];
    assert Genuine(cfg, s.contents, e);
    MessageInBefore(cfg, s.contents, e, m);
    var earlier := ToEntry(cfg, e.file, e.inode, m);
    assert Within(Before(cfg, s.contents, e), Known(s) + ToSet(Pipe(s)[..i]));
    assert earlier in Known(s) + ToSet(Pipe(s)[..i]);
  }

  lemma MessageInBefore(cfg: Config, contents: Contents, e: Entry, m: Message)
    requires Genuine(cfg, contents, e) && m in Decode(cfg.rules, contents[KeyOf(e)]).out && m.end < e.offset
    ensures ToEntry(cfg, e.file, e.inode, m) in Before(cfg, contents, e)
  {
    hide Decode, ToEntry;
    DecodeWithin(cfg.rules, contents[KeyOf(e)], e.offset);
    var out := Decode(cfg.rules, contents[KeyOf(e)][..e.offset]).out;
    var i :| 0 <= i < |out| && out[i] == m;
    EntryFields(cfg, e.file, e.inode, m);
    assert UpTo(cfg, contents, KeyOf(e), e.offset)[i] == ToEntry(cfg, e.file, e.inode, m);
    assert i < |out| - 1;
    assert Before(cfg, contents, e)[i] == ToEntry(cfg, e.file, e.inode, m);
  }

  // ---- The witness ----

  // The run so far: two lines in one file, the first in a failing send, the second in the channel.
  ghost function Outage(path: string, inode: nat, content: string, at: Point, batch: seq<Entry>, queue: seq<Entry>,
                        reading: Option<string>, phase: Phase): World {
    World(map[Key(path, inode) := content], map[path := inode], map[], map[path := FileState(inode, at)], reading, true,
          map[], false, queue, false, batch, phase, [], {}, [])
  }

  lemma OpenedOnce(cfg: Config, keep: bool, path: string, inode: nat, content: string)
    requires Wanted(cfg, path)
    ensures Reachable(cfg, keep, Outage(path, inode, content, START, [], [], Some(path), Collecting))
  {
    var s0 := World(map[], map[], map[], map[], None, true, map[], false, [], false, [], Collecting, [], {}, []);
    ReachInit(cfg, keep, s0);
    hide Reachable;
    var s1 := s0.(contents := map[Key(path, inode) := ""], current := map[path := inode]);
    ReachStep(cfg, keep, Rotate(path, inode), s0, s1);
    var s2 := s1.(contents := map[Key(path, inode) := "" + content]);
    assert s1.contents[Key(path, inode) := "" + content] == s2.contents;
    ReachStep(cfg, keep, Grow(Key(path, inode), content), s1, s2);
    OpenIt(cfg, keep, path, inode, content, s2);
  }

  lemma OpenIt(cfg: Config, keep: bool, path: string, inode: nat, content: string, s2: World)
    requires Wanted(cfg, path) && Reachable(cfg, keep, s2)
    requires s2 == World(map[Key(path, inode) := "" + content], map[path := inode], map[], map[], None, true, map[],
                         false, [], false, [], Collecting, [], {}, [])
    ensures Reachable(cfg, keep, Outage(path, inode, content, START, [], [], Some(path), Collecting))
  {
    hide Reachable;
    var s3 := s2.(files := map[path := FileState(inode, START)], reading := Some(path));
    ReachStep(cfg, keep, Open(path), s2, s3);
    assert "" + content == content;
  }

  // Reading a line that emits one message into a channel with room.
  lemma ReadStep(cfg: Config, s: World, path: string, raw: string, rest: string, e: Entry) returns (s': World)
    requires Reachable(cfg, false, s) && s.tailing && s.reading == Some(path) && |s.queue| < cfg.batchSize
    requires path in s.files && Key(path, s.files[path].inode) in s.contents
    requires var c := s.contents[Key(path, s.files[path].inode)];
             s.files[path].at.offset <= |c| && c[s.files[path].at.offset..] == raw + "\n" + rest
    requires '\n' !in raw
    requires var line := StepLine(cfg.rules, s.files[path].at, raw);
             line.out != [] && e == ToEntry(cfg, path, s.files[path].inode, line.out[0])
    ensures var st := s.files[path];
            var at := StepLine(cfg.rules, st.at, raw).at;
            s' == s.(files := s.files[path := FileState(st.inode, at)], queue := s.queue + [e])
    ensures Reachable(cfg, false, s')
  {
    hide Reachable, StepLine, ToEntry, LineAt;
    LineHere(cfg, s, path, raw, rest);
    var line := StepLine(cfg.rules, s.files[path].at, raw);
    assert ToEntries(cfg, path, s.files[path].inode, line.out) == [e];
    s' := s.(files := s.files[path := FileState(s.files[path].inode, line.at)], queue := s.queue + [e]);
    ReachStep(cfg, false, ReadLine, s, s');
  }

  lemma FirstStuck(cfg: Config, s: World, e: Entry) returns (s': World)
    requires Reachable(cfg, false, s) && cfg.batchSize > 0
    requires s.queue == [e] && s.batch == [] && s.phase == Collecting && !s.cancelled
    ensures s' == s.(queue := [], batch := [e], phase := Sending(false)) && Reachable(cfg, false, s')
  {
    hide Reachable;
    assert [e][1..] == [] && [] + [e] == [e];
    var t := s.(queue := [], batch := [e], phase := if cfg.batchSize == 1 then Sending(false) else Collecting);
    ReachStep(cfg, false, Receive, s, t);
    s' := t.(phase := Sending(false));
    if cfg.batchSize > 1 {
      ReachStep(cfg, false, Tick, t, s');
    }
  }

  lemma BothRead(cfg: Config, path: string, inode: nat, a: string, b: string)
    requires cfg.batchSize > 0 && Wanted(cfg, path) && '\n' !in a && '\n' !in b
    requires var first := StepLine(cfg.rules, START, a);
             first.out != [] && StepLine(cfg.rules, first.at, b).out != []
    ensures var content := a + "\n" + (b + "\n");
            var first := StepLine(cfg.rules, START, a);
            var second := StepLine(cfg.rules, first.at, b);
            var ea, eb := ToEntry(cfg, path, inode, first.out[0]), ToEntry(cfg, path, inode, second.out[0]);
            Reachable(cfg, false, Outage(path, inode, content, second.at, [ea], [eb], Some(path), Sending(false)))
  {
    hide Reachable, StepLine, ToEntry;
    var content := a + "\n" + (b + "\n");
    var first := StepLine(cfg.rules, START, a);
    var second := StepLine(cfg.rules, first.at, b);
    var ea, eb := ToEntry(cfg, path, inode, first.out[0]), ToEntry(cfg, path, inode, second.out[0]);
    OpenedOnce(cfg, false, path, inode, content);
    assert content[0..] == content;
    var s := ReadStep(cfg, Outage(path, inode, content, START, [], [], Some(path), Collecting), path, a, b + "\n", ea);
    s := FirstStuck(cfg, s, ea);
    assert content[first.at.offset..] == b + "\n" + "";
    s := ReadStep(cfg, s, path, b, "", eb);
    assert s == Outage(path, inode, content, second.at, [ea], [eb], Some(path), Sending(false));
  }

  /** Why delivery is at least once and not exactly once: for every configuration, wanted file and line that emits a
      message, if the batch reaches the server and its receipt is lost, the next attempt delivers the
      same entry again. */
  lemma LostReceiptDuplicates(cfg: Config, path: string, inode: nat, a: string) returns (s: World)
    requires cfg.batchSize > 0 && Wanted(cfg, path) && '\n' !in a && StepLine(cfg.rules, START, a).out != []
    ensures Reachable(cfg, false, s) && !s.cancelled
    ensures exists e :: s.arrived == [e, e] && s.delivered == {e} && KeyOf(e) == Key(path, inode)
  {
    hide Reachable, StepLine, ToEntry;
    var content := a + "\n" + "";
    var first := StepLine(cfg.rules, START, a);
    var e := ToEntry(cfg, path, inode, first.out[0]);
    EntryFields(cfg, path, inode, first.out[0]);
    OpenedOnce(cfg, false, path, inode, content);
    assert content[0..] == content;
    var t := ReadStep(cfg, Outage(path, inode, content, START, [], [], Some(path), Collecting), path, a, "", e);
    t := FirstStuck(cfg, t, e);
    s := SentTwice(cfg, t, e);
    assert s.arrived == [e, e] && s.delivered == {e};
  }

  lemma SentTwice(cfg: Config, s: World, e: Entry) returns (s': World)
    requires Reachable(cfg, false, s) && s.batch == [e] && s.phase == Sending(false)
    requires s.arrived == [] && s.delivered == {}
    ensures s' == s.(phase := Committing(false, 0), arrived := [e, e], delivered := {e}) && Reachable(cfg, false, s')
  {
    hide Reachable, Apply, Enabled;
    var t := s.(arrived := [e]);
    CopySent(cfg, s, e);
    ReachStep(cfg, false, SendFailed(1), s, t);
    s' := t.(phase := Committing(false, 0), arrived := [e, e], delivered := {e});
    CopyReceipted(cfg, t, e);
    ReachStep(cfg, false, Receipt, t, s');
  }

  lemma CopySent(cfg: Config, s: World, e: Entry)
    requires s.batch == [e] && s.phase == Sending(false) && s.arrived == []
    ensures Enabled(cfg, SendFailed(1), s) && Apply(cfg, false, SendFailed(1), s) == s.(arrived := [e])
  {
    hide HasLine, LineAt, Opened, Wanted, ToEntries;
    assert [] + [e][..1] == [e];
  }

  lemma CopyReceipted(cfg: Config, s: World, e: Entry)
    requires s.batch == [e] && s.phase == Sending(false) && s.arrived == [e] && s.delivered == {}
    ensures Enabled(cfg, Receipt, s)
    ensures Apply(cfg, false, Receipt, s) ==
            s.(phase := Committing(false, 0), arrived := [e, e], delivered := {e})
  {
    hide HasLine, LineAt, Opened, Wanted, ToEntries;
    assert [e][..1] == [e] && ToSet([e]) == {e};
  }

  lemma GiveUp(cfg: Config, s: World, ea: Entry) returns (s': World)
    requires Reachable(cfg, false, s) && s.batch == [ea] && s.phase == Sending(false) && s.abandoned == []
    ensures s' == s.(cancelled := true, batch := [], phase := Collecting, abandoned := [ea]) &&
            Reachable(cfg, false, s')
  {
    hide Reachable;
    var t := s.(cancelled := true);
    ReachStep(cfg, false, Cancel, s, t);
    assert [ea][..0] == [] && t.arrived + [] == t.arrived;
    ReachStep(cfg, false, SendFailed(0), t, t);
    s' := t.(phase := Collecting, batch := [], abandoned := [ea]);
    assert [] + [ea] == [ea];
    ReachStep(cfg, false, Abandon, t, s');
  }

  lemma CloseDown(cfg: Config, s: World, path: string) returns (s': World)
    requires Reachable(cfg, false, s) && s.cancelled && s.tailing && s.reading.Some?
    requires s.files.Keys == {path} && s.mem == map[]
    ensures s' == s.(reading := None, tailing := false, closed := true) && Reachable(cfg, false, s')
  {
    hide Reachable;
    var t := s.(reading := None);
    ReachStep(cfg, false, CloseFile, s, t);
    assert Restrict(t.files, {path}) == t.files && Restrict(t.mem, {path}) == t.mem;
    ReachStep(cfg, false, EndPass({path}), t, t);
    var u := t.(tailing := false);
    ReachStep(cfg, false, StopTailing, t, u);
    s' := u.(closed := true);
    ReachStep(cfg, false, CloseChannel, u, s');
  }

  lemma FinalSend(cfg: Config, s: World, eb: Entry) returns (s': World)
    requires Reachable(cfg, false, s) && s.cancelled && s.closed
    requires s.batch == [] && s.queue == [eb] && s.phase == Collecting
    ensures s' == s.(queue := [], batch := [eb], phase := Sending(true)) && Reachable(cfg, false, s')
  {
    hide Reachable;
    var t := s.(queue := [], batch := [eb]);
    assert [] + [eb] == [eb] && [eb][1..] == [];
    ReachStep(cfg, false, Receive, s, t);
    s' := t.(phase := Sending(true));
    ReachStep(cfg, false, Finish, t, s');
  }

  lemma Receipted(cfg: Config, s: World, eb: Entry) returns (s': World)
    requires Reachable(cfg, false, s) && s.batch == [eb] && s.phase == Sending(true)
    ensures s' == s.(phase := Committing(true, 0), delivered := s.delivered + {eb}, arrived := s.arrived + [eb])
    ensures Reachable(cfg, false, s')
  {
    hide Reachable;
    assert [eb][..1] == [eb] && ToSet([eb]) == {eb};
    s' := s.(phase := Committing(true, 0), delivered := s.delivered + {eb}, arrived := s.arrived + [eb]);
    ReachStep(cfg, false, Receipt, s, s');
  }

  lemma SaveLast(cfg: Config, s: World, e: Entry) returns (s': World)
    requires Reachable(cfg, false, s) && s.batch == [e] && s.phase == Committing(true, 0) && s.mem == map[]
    ensures var m := map[e.file := Position(e.inode, e.offset)];
            s' == s.(mem := m, disk := m, batch := [], phase := Stopped)
    ensures Reachable(cfg, false, s')
  {
    hide Reachable;
    var t := s.(mem := map[e.file := Position(e.inode, e.offset)], phase := Committing(true, 1));
    ReachStep(cfg, false, SetPosition, s, t);
    s' := t.(disk := t.mem, batch := [], phase := Stopped);
    ReachStep(cfg, false, Save(true), t, s');
  }

  /** The comment on flush fails. In every configuration, for any wanted file and two lines that each emit a message,
      the original can give up on the first, ship the second in its shutdown send, and save
      on disk a position beyond the first, which no server ever acknowledged. */
  lemma AbandonedBatchIsLost(cfg: Config, path: string, inode: nat, a: string, b: string) returns (s: World)
    requires cfg.batchSize > 0 && Wanted(cfg, path) && '\n' !in a && '\n' !in b
    requires var first := StepLine(cfg.rules, START, a);
             first.out != [] && StepLine(cfg.rules, first.at, b).out != []
    ensures Reachable(cfg, false, s) && s.phase == Stopped
    ensures path in s.disk && s.disk[path] == Position(inode, |a| + |b| + 2)
    ensures !CheckpointsDelivered(cfg, s)
  {
    hide Reachable, StepLine, ToEntry, CheckpointsDelivered;
    var content := a + "\n" + (b + "\n");
    var first := StepLine(cfg.rules, START, a);
    var second := StepLine(cfg.rules, first.at, b);
    var ea, eb := ToEntry(cfg, path, inode, first.out[0]), ToEntry(cfg, path, inode, second.out[0]);
    EntryFields(cfg, path, inode, first.out[0]);
    EntryFields(cfg, path, inode, second.out[0]);
    BothRead(cfg, path, inode, a, b);
    var t := GiveUp(cfg, Outage(path, inode, content, second.at, [ea], [eb], Some(path), Sending(false)), ea);
    t := CloseDown(cfg, t, path);
    t := FinalSend(cfg, t, eb);
    t := Receipted(cfg, t, eb);
    s := SaveLast(cfg, t, eb);
    FirstIsLost(cfg, s, path, inode, a, b);
  }

  lemma FirstIsLost(cfg: Config, s: World, path: string, inode: nat, a: string, b: string)
    requires '\n' !in a && '\n' !in b
    requires path in s.disk && s.disk[path] == Position(inode, |a| + |b| + 2)
    requires s.contents == map[Key(path, inode) := a + "\n" + (b + "\n")]
    requires var first := StepLine(cfg.rules, START, a);
             first.out != [] && ToEntry(cfg, path, inode, first.out[0]) !in s.delivered
    ensures !CheckpointsDelivered(cfg, s)
  {
    hide StepLine, ToEntry, Scan;
    var first := StepLine(cfg.rules, START, a);
    ScanLine(cfg.rules, a, b + "\n", START);
    var out := Decode(cfg.rules, a + "\n" + (b + "\n")).out;
    assert out[0] == first.out[0] && out[0] in out;
  }
}
