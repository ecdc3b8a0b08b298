/** What the agent can always still do. From every reachable state of a live agent some further steps of reading,
    sending, receiving receipts and saving deliver every complete line of every file it follows, and
    checkpoint it (internal/logagent/agent.go, tailer.go, shipper.go). */
module Progress {
  import opened Wrappers
  import opened Decoder
  import opened Entities
  import opened Tailing
  import opened Polling
  import opened Pipeline
  import opened FifoInvariant
  import opened AtLeastOnce
  import opened Steps
  import opened Refinement
  import Abandonment
  import Shutdown

  // A reachable live agent: nothing given up in this process, and its goroutines at work.
  lemma LiveWorks(cfg: Config, keep: bool, states: seq<World>, acts: seq<Action>)
    requires Run(cfg, keep, states, acts) && cfg.batchSize > 0 && !states[|acts|].cancelled
    requires forall i :: 0 <= i < |acts| ==> Guarded(acts[i], states[i])
    ensures var s := states[|acts|];
            Inv(cfg, s) && s.abandoned == [] && s.tailing && Working(cfg, s)
  {
    hide Run, Enabled, Apply, DurableInv, FilesConsistent, FilesWithin, Closed, AllGenuine;
    GuardedRunKeepsInv(cfg, keep, states, acts, |acts|);
    Abandonment.AbandonedMeansShutdown(cfg, keep, states, acts, |acts|);
    Shutdown.ShutdownIsOrderly(cfg, keep, states, acts, |acts|);
    Shutdown.MemoryIsBounded(cfg, keep, states, acts, |acts|);
  }

  // ---- What the positions under way cover ----

  // The runs the second half of the claim is about: saves succeed, and no pass forgets a file it knew.
  ghost predicate Steady(a: Action, s: World) {
    (a.Save? ==> a.renamed) && (a.EndPass? ==> s.files.Keys <= a.seen)
  }

  // Memory once everything under way is committed.
  function Target(s: World): map<string, Position> {
    Shipping.SetAll(s.mem, Unset(s))
  }

  // The position that path will have covers all that was read of it.
  ghost predicate Covers(cfg: Config, s: World, path: string)
    requires path in s.files
  {
    var st := s.files[path];
    var es := UpTo(cfg, s.contents, Key(path, st.inode), st.at.offset);
    es != [] ==>
      path in Target(s) && Target(s)[path].inode == st.inode && es[|es| - 1].offset <= Target(s)[path].offset
  }

  ghost predicate AllCovered(cfg: Config, s: World) {
    !s.cancelled ==> forall path :: path in s.files ==> Covers(cfg, s, path)
  }

  // Between two commits the disk holds what memory does.
  ghost predicate Saved(s: World) {
    !s.phase.Committing? ==> forall file :: file in s.mem ==> file in s.disk && s.disk[file] == s.mem[file]
  }

  ghost predicate Tracked(cfg: Config, s: World) {
    PipeKnown(s) && AllCovered(cfg, s) && Saved(s)
  }

  // Nothing that Covers speaks of changed for the files of both states.
  lemma SameCovered(cfg: Config, s: World, s': World)
    requires AllCovered(cfg, s) && (s.cancelled ==> s'.cancelled)
    requires s'.files == s.files && Target(s') == Target(s)
    requires FilesConsistent(cfg, s.contents, s.files) && Grows(s.contents, s'.contents)
    ensures AllCovered(cfg, s')
  {
    hide Target, UpTo, Consistent, Grows;
    if !s'.cancelled {
      forall path | path in s'.files ensures Covers(cfg, s', path) {
        GrowUpTo(cfg, s.contents, s'.contents, Key(path, s.files[path].inode), s.files[path].at);
        assert Covers(cfg, s, path);
      }
    }
  }

  lemma SameContents(s: World)
    ensures Grows(s.contents, s.contents)
  {
  }

  // Steps of the environment, and of the tailer between lines.
  predicate Outside(a: Action) {
    a.Grow? || a.Rotate? || a.Remove? || a.Cancel? || a.CloseFile? || a.StopTailing? || a.CloseChannel?
  }

  ghost predicate SameInside(s: World, s': World) {
    && s'.files == s.files && s'.mem == s.mem && s'.disk == s.disk && s'.phase == s.phase
    && s'.batch == s.batch && s'.queue == s.queue && (s.cancelled ==> s'.cancelled)
  }

  lemma ContentsFrame(cfg: Config, keep: bool, a: Action, s: World)
    requires Enabled(cfg, a, s) && (a.Grow? || a.Rotate? || a.Remove?)
    ensures var s' := Apply(cfg, keep, a, s); SameInside(s, s') && Grows(s.contents, s'.contents)
  {
  }

  lemma FlagsFrame(cfg: Config, keep: bool, a: Action, s: World)
    requires Enabled(cfg, a, s) && (a.Cancel? || a.CloseFile? || a.StopTailing? || a.CloseChannel?)
    ensures var s' := Apply(cfg, keep, a, s); SameInside(s, s') && s'.contents == s.contents
  {
  }

  lemma OutsideFrame(cfg: Config, keep: bool, a: Action, s: World)
    requires Enabled(cfg, a, s) && Outside(a)
    ensures var s' := Apply(cfg, keep, a, s); SameInside(s, s') && Grows(s.contents, s'.contents)
  {
    hide Enabled, Apply, SameInside;
    if a.Grow? || a.Rotate? || a.Remove? {
      ContentsFrame(cfg, keep, a, s);
    } else {
      FlagsFrame(cfg, keep, a, s);
    }
  }

  lemma OutsideTracked(cfg: Config, keep: bool, a: Action, s: World)
    requires Tracked(cfg, s) && Enabled(cfg, a, s) && FilesConsistent(cfg, s.contents, s.files) && Outside(a)
    ensures Tracked(cfg, Apply(cfg, keep, a, s))
  {
    hide Enabled, Apply, Shipping.SetAll, FilesConsistent, AllCovered, Grows;
    OutsideFrame(cfg, keep, a, s);
    SameCovered(cfg, s, Apply(cfg, keep, a, s));
  }

  lemma CrashTracked(cfg: Config, keep: bool, s: World)
    requires Tracked(cfg, s)
    ensures Tracked(cfg, Apply(cfg, keep, Crash, s))
  {
    hide Shipping.SetAll, UpTo, Covers;
    assert Unset(Apply(cfg, keep, Crash, s)) == [];
  }

  // Only its steps touch what is under way.
  predicate OfShipper(a: Action) {
    a.Receive? || a.Tick? || a.Finish? || a.SendFailed? || a.Receipt? || a.SetPosition? || a.Save?
  }

  // What a step leaves alone.
  ghost predicate SameUnderWay(s: World, s': World) {
    && s'.files == s.files && s'.contents == s.contents && s'.cancelled == s.cancelled
    && Unset(s') == Unset(s) && s'.mem == s.mem
  }

  lemma ReceiveFrame(cfg: Config, keep: bool, s: World)
    requires Enabled(cfg, Receive, s)
    ensures SameUnderWay(s, Apply(cfg, keep, Receive, s))
  {
    assert s.batch + s.queue == s.batch + [s.queue[0]] + s.queue[1..];
  }

  lemma SaveFrame(cfg: Config, keep: bool, a: Action, s: World)
    requires Enabled(cfg, a, s) && (a.Save? || a.Receipt?)
    ensures SameUnderWay(s, Apply(cfg, keep, a, s))
  {
    hide ToSet;
    assert a.Receipt? ==> s.batch[0..] == s.batch;
  }

  lemma SendFrame(cfg: Config, keep: bool, a: Action, s: World)
    requires Enabled(cfg, a, s) && (a.Tick? || a.Finish? || a.SendFailed?)
    ensures SameUnderWay(s, Apply(cfg, keep, a, s))
  {
  }

  lemma ShipperFrame(cfg: Config, keep: bool, a: Action, s: World)
    requires Enabled(cfg, a, s) && OfShipper(a)
    ensures a.SetPosition? || SameUnderWay(s, Apply(cfg, keep, a, s))
  {
    hide Enabled, Apply, SameUnderWay;
    if a.Receive? {
      ReceiveFrame(cfg, keep, s);
    } else if a.Save? || a.Receipt? {
      SaveFrame(cfg, keep, a, s);
    } else if !a.SetPosition? {
      SendFrame(cfg, keep, a, s);
    }
  }

  lemma SetPositionFrame(cfg: Config, keep: bool, s: World)
    requires Enabled(cfg, SetPosition, s)
    ensures var s', e := Apply(cfg, keep, SetPosition, s), s.batch[s.phase.next];
            && s'.files == s.files && s'.contents == s.contents && s'.cancelled == s.cancelled
            && Unset(s) == [e] + Unset(s') && s'.mem == s.mem[e.file := Position(e.inode, e.offset)]
  {
  }

  // Steps of the shipper move entries towards their positions, and change nothing else.
  lemma ShipperKeepsTarget(cfg: Config, keep: bool, a: Action, s: World)
    requires Enabled(cfg, a, s) && OfShipper(a)
    ensures var s' := Apply(cfg, keep, a, s);
            && Target(s') == Target(s) && s'.files == s.files && s'.contents == s.contents
            && s'.cancelled == s.cancelled && (PipeKnown(s) ==> PipeKnown(s'))
  {
    hide Shipping.SetAll, Unset;
    hide Apply;
    var s' := Apply(cfg, keep, a, s);
    ShipperFrame(cfg, keep, a, s);
    if a.SetPosition? {
      SetPositionFrame(cfg, keep, s);
      var e := s.batch[s.phase.next];
      Shipping.SetAllJoin(s.mem, [e], Unset(s'));
      SetOneOnly(s.mem, e);
      assert forall i :: 0 <= i < |Unset(s')| ==> Unset(s')[i] == Unset(s)[i + 1];
    }
  }

  lemma SetOneOnly(m: map<string, Position>, e: Entry)
    ensures Shipping.SetAll(m, [e]) == m[e.file := Position(e.inode, e.offset)]
  {
    assert [e][..0] == [];
  }

  lemma ShipperSaves(cfg: Config, keep: bool, a: Action, s: World)
    requires Enabled(cfg, a, s) && Saved(s) && Steady(a, s)
    requires OfShipper(a) || a.Abandon?
    ensures Saved(Apply(cfg, keep, a, s))
  {
    hide ToSet;
  }

  lemma ShipperTracked(cfg: Config, keep: bool, a: Action, s: World)
    requires Tracked(cfg, s) && Enabled(cfg, a, s) && FilesConsistent(cfg, s.contents, s.files) && PhaseOk(s)
    requires Steady(a, s)
    requires OfShipper(a)
    ensures Tracked(cfg, Apply(cfg, keep, a, s))
  {
    hide Apply, Enabled, AllCovered, PipeKnown, Saved, Target, FilesConsistent;
    ShipperKeepsTarget(cfg, keep, a, s);
    ShipperSaves(cfg, keep, a, s);
    SameContents(s);
    SameCovered(cfg, s, Apply(cfg, keep, a, s));
  }

  // Giving up and dropping happen only under a cancelled ctx.
  lemma CancelledTracked(cfg: Config, keep: bool, a: Action, s: World)
    requires Tracked(cfg, s) && Enabled(cfg, a, s) && (a.Abandon? || a.DropLine?) && PhaseOk(s)
    ensures Tracked(cfg, Apply(cfg, keep, a, s))
  {
    hide Target, LineAt, UpTo;
    var s' := Apply(cfg, keep, a, s);
    forall i | 0 <= i < |Unset(s')| ensures Unset(s')[i].file in s'.files {
      assert Unset(s')[i] in Unset(s);
    }
  }

  lemma {:induction false} RestrictTarget(m: map<string, Position>, seen: set<string>, es: seq<Entry>, file: string)
    requires file in seen
    ensures Lookup(Shipping.SetAll(Restrict(m, seen), es), file) == Lookup(Shipping.SetAll(m, es), file)
  {
    if es != [] {
      RestrictTarget(m, seen, es[..|es| - 1], file);
    }
  }

  lemma EndPassTracked(cfg: Config, keep: bool, a: Action, s: World)
    requires Tracked(cfg, s) && Enabled(cfg, a, s) && a.EndPass? && Steady(a, s)
    ensures Tracked(cfg, Apply(cfg, keep, a, s))
  {
    hide UpTo, Shipping.SetAll;
    var s' := Apply(cfg, keep, a, s);
    assert s'.files == s.files && Unset(s') == Unset(s);
    if !s'.cancelled {
      forall path | path in s'.files ensures Covers(cfg, s', path) {
        RestrictTarget(s.mem, a.seen, Unset(s), path);
        assert Covers(cfg, s, path);
      }
    }
  }

  // Messages of the first o bytes end within them.
  lemma LastWithin(cfg: Config, contents: Contents, k: Key, o: nat)
    requires UpTo(cfg, contents, k, o) != []
    ensures var es := UpTo(cfg, contents, k, o); es[|es| - 1].offset <= o
  {
    hide Decode, ToEntry;
    var out := Decode(cfg.rules, contents[k][..o]).out;
    ScanBounds(cfg.rules, contents[k][..o], START);
    DecodeIsScan(cfg, contents[k][..o]);
    EntryFields(cfg, k.path, k.inode, out[|out| - 1]);
  }

  lemma DecodeIsScan(cfg: Config, s: string)
    ensures Decode(cfg.rules, s) == Scan(cfg.rules, s, START)
  {
  }

  lemma OpenTracked(cfg: Config, keep: bool, a: Action, s: World)
    requires Tracked(cfg, s) && Enabled(cfg, a, s) && a.Open?
    ensures Tracked(cfg, Apply(cfg, keep, a, s))
  {
    hide UpTo, Shipping.SetAll, Wanted;
    var s' := Apply(cfg, keep, a, s);
    var path := a.path;
    assert Unset(s') == Unset(s) && Target(s') == Target(s);
    if !s'.cancelled {
      forall p | p in s'.files ensures Covers(cfg, s', p) {
        if p != path || (path in s.files && s'.files[path] == s.files[path]) {
          assert Covers(cfg, s, p);
        } else {
          var st := s'.files[path];
          var k := Key(path, st.inode);
          if st.at.offset == 0 {
            StartOfFile(cfg, s.contents, k);
          } else {
            Shipping.OthersKept(s.mem, Unset(s), path);
            if UpTo(cfg, s.contents, k, st.at.offset) != [] {
              LastWithin(cfg, s.contents, k, st.at.offset);
            }
          }
        }
      }
    }
  }

  lemma ReadTracked(cfg: Config, keep: bool, s: World)
    requires Tracked(cfg, s) && Enabled(cfg, ReadLine, s) && FilesConsistent(cfg, s.contents, s.files) && PhaseOk(s)
    ensures Tracked(cfg, Apply(cfg, keep, ReadLine, s))
  {
    hide UpTo, Shipping.SetAll, LineAt, Genuine, Before, Consistent, ToEntry;
    var s' := Apply(cfg, keep, ReadLine, s);
    var path := s.reading.value;
    var inode, line := s.files[path].inode, LineAt(cfg, s, path);
    var es := ToEntries(cfg, path, inode, line.out);
    NextLine(cfg, s, path);
    LineEmitsAtMostOne(cfg, s, path);
    assert Unset(s') == Unset(s) + es;
    Shipping.SetAllJoin(s.mem, Unset(s), es);
    forall i | 0 <= i < |es| ensures es[i].file == path && es[i].inode == inode {
      EntryFields(cfg, path, inode, line.out[i]);
    }
    if !s'.cancelled {
      forall p | p in s'.files ensures Covers(cfg, s', p) {
        assert Covers(cfg, s, p);
        if es != [] {
          assert es == [es[0]];
          SetOneOnly(Target(s), es[0]);
        } else {
          SetNoneMore(Target(s));
          assert UpTo(cfg, s.contents, Key(path, inode), s.files[path].at.offset) + es ==
                 UpTo(cfg, s.contents, Key(path, inode), s.files[path].at.offset);
        }
      }
    }
  }

  lemma SetNoneMore(m: map<string, Position>)
    ensures Shipping.SetAll(m, []) == m
  {
  }

  lemma StepTracked(cfg: Config, keep: bool, a: Action, s: World)
    requires Inv(cfg, s) && Enabled(cfg, a, s) && Steady(a, s) && Tracked(cfg, s)
    ensures Tracked(cfg, Apply(cfg, keep, a, s))
  {
    hide Apply, Enabled, Tracked, Steady, PhaseOk, FilesConsistent, DurableInv, FilesWithin, Closed, AllGenuine;
    match a
    case Grow(_, _) | Rotate(_, _) | Remove(_) | Cancel | CloseFile | StopTailing | CloseChannel =>
      OutsideTracked(cfg, keep, a, s);
    case Crash => CrashTracked(cfg, keep, s);
    case Open(_) => OpenTracked(cfg, keep, a, s);
    case ReadLine => ReadTracked(cfg, keep, s);
    case EndPass(_) => EndPassTracked(cfg, keep, a, s);
    case Abandon | DropLine => CancelledTracked(cfg, keep, a, s);
    case Receive | Tick | Finish | SendFailed(_) | Receipt | SetPosition | Save(_) => ShipperTracked(cfg, keep, a, s);
  }

  lemma InitTracked(cfg: Config, s: World)
    requires Init(s)
    ensures Tracked(cfg, s)
  {
  }

  lemma {:induction false} RunTracked(cfg: Config, keep: bool, states: seq<World>, acts: seq<Action>, n: nat)
    requires Run(cfg, keep, states, acts) && n <= |acts|
    requires forall i :: 0 <= i < n ==> Guarded(acts[i], states[i]) && Steady(acts[i], states[i])
    ensures Tracked(cfg, states[n])
  {
    hide Enabled, Apply, Inv, Tracked, Steady, Guarded, Init;
    if n == 0 {
      InitTracked(cfg, states[0]);
    } else {
      RunTracked(cfg, keep, states, acts, n - 1);
      GuardedRunKeepsInv(cfg, keep, states, acts, n - 1);
      assert Enabled(cfg, acts[n - 1], states[n - 1]) && states[n] == Apply(cfg, keep, acts[n - 1], states[n - 1]);
      StepTracked(cfg, keep, acts[n - 1], states[n - 1]);
    }
  }

  // ---- Going on ----

  lemma OnwardIsSafe(cfg: Config, a: Action, s: World)
    requires Onward(a) && Enabled(cfg, a, s) && s.abandoned == []
    ensures Guarded(a, s) && Steady(a, s)
    ensures Apply(cfg, false, a, s).abandoned == [] && Apply(cfg, false, a, s).tailing == s.tailing
  {
    hide LineAt, HasLine, Opened, Wanted, ToSet;
  }

  // Steps for which everything goes well keep what the theorems rest on.
  lemma {:induction false} OnwardsKeep(cfg: Config, s: World, acts: seq<Action>, s': World)
    requires Leads(cfg, s, acts, s') && Onwards(acts) && Inv(cfg, s) && s.abandoned == []
    ensures Inv(cfg, s') && s'.abandoned == [] && s'.tailing == s.tailing && (Tracked(cfg, s) ==> Tracked(cfg, s'))
    decreases |acts|
  {
    hide Inv, Apply, Enabled, Tracked, Guarded, Steady, Onward;
    if acts != [] {
      assert Onward(acts[0]);
      OnwardIsSafe(cfg, acts[0], s);
      StepKeepsInv(cfg, false, acts[0], s);
      if Tracked(cfg, s) {
        StepTracked(cfg, false, acts[0], s);
      }
      OnwardsKeep(cfg, Apply(cfg, false, acts[0], s), acts[1..], s');
    }
  }

  // The files the agent follows: wanted, and there.
  ghost predicate Follows(cfg: Config, s: World, path: string) {
    path in s.current && Wanted(cfg, path) && Key(path, s.current[path]) in s.contents
  }

  ghost function InodeOf(s: World, path: string): nat {
    if path in s.current then s.current[path] else 0
  }

  ghost function ContentOf(s: World, path: string): string {
    if Key(path, InodeOf(s, path)) in s.contents then s.contents[Key(path, InodeOf(s, path))] else ""
  }

  ghost function LookOf(s: World, path: string): Look {
    Look(InodeOf(s, path), |ContentOf(s, path)|, ContentOf(s, path), None)
  }

  // A pass that lists the files of left and can read them all.
  ghost predicate Lists(s: World, left: set<string>, found: seq<Found>) {
    && Distinct(found)
    && (forall i :: 0 <= i < |found| ==>
          found[i].path in left && found[i] == Found(found[i].path, Some(LookOf(s, found[i].path)), false))
    && (forall path :: path in left ==> LookAt(found, path) == Some(LookOf(s, path)))
  }

  lemma {:induction false} ListThem(cfg: Config, s: World, left: set<string>) returns (found: seq<Found>)
    requires forall path :: path in left ==> Follows(cfg, s, path)
    ensures Lists(s, left, found)
    decreases |left|
  {
    hide Wanted;
    if left == {} {
      found := [];
    } else {
      var path :| path in left;
      var rest := ListThem(cfg, s, left - {path});
      found := [Found(path, Some(LookOf(s, path)), false)] + rest;
      assert found[1..] == rest;
    }
  }

  lemma ListedIsFound(cfg: Config, s: World, left: set<string>, found: seq<Found>)
    requires forall path :: path in left ==> Follows(cfg, s, path)
    requires Lists(s, left, found)
    ensures FindsAll(cfg, s, found) && forall i :: 0 <= i < |found| ==> !found[i].done
  {
    hide Wanted, LookAt;
  }

  lemma ListedAt(s: World, left: set<string>, found: seq<Found>)
    requires Lists(s, left, found)
    ensures Distinct(found) && forall path :: path in left ==> LookAt(found, path) == Some(LookOf(s, path))
  {
  }

  // path has been read to its last complete line.
  ghost predicate ReadToEnd(cfg: Config, s: World, path: string) {
    Lookup(s.files, path) == Some(FileState(InodeOf(s, path), Decode(cfg.rules, ContentOf(s, path)).at))
  }

  // What a live pass makes of a file it can read.
  lemma PassReadsToEnd(cfg: Config, s: World, path: string)
    requires Inv(cfg, s) && Follows(cfg, s, path) && s.tailing && s.reading == None
    ensures var look := LookOf(s, path);
            var st := Opened(Lookup(s.files, path), Lookup(s.mem, path), look.inode, look.size);
            var pass := ReadFileSpec(cfg.rules, look, st, None);
            st.inode == InodeOf(s, path) && pass.at == Decode(cfg.rules, look.content).at
  {
    hide ReadFileSpec, Decode, Opened, Inv, Wanted, UpTo;
    var look := LookOf(s, path);
    var st := Opened(Lookup(s.files, path), Lookup(s.mem, path), look.inode, look.size);
    OpenedPoint(cfg, s, path);
    var out := Decode(cfg.rules, look.content[..st.at.offset]).out;
    LookDecodes(cfg.rules, look, st, out);
  }

  // One pass over all of them.
  lemma ReadAll(cfg: Config, s: World, left: set<string>) returns (acts: seq<Action>, s': World)
    requires Inv(cfg, s) && Working(cfg, s) && s.tailing && s.reading == None && PipeKnown(s)
    requires forall path :: path in left ==> Follows(cfg, s, path)
    ensures Leads(cfg, s, acts, s') && Onwards(acts) && Working(cfg, s')
    ensures s'.contents == s.contents && s'.current == s.current && s'.cancelled == s.cancelled
    ensures forall path :: path in left ==> ReadToEnd(cfg, s', path)
  {
    hide Inv, Working, PipeKnown, Carries, Leads, Wanted, PollSpec, Projects, FindsAll, Lists, Onward, Follows,
         ContentOf, InodeOf;
    var found := ListThem(cfg, s, left);
    ListedIsFound(cfg, s, left, found);
    assert Distinct(found) && forall path :: path in left ==> LookAt(found, path) == Some(LookOf(s, path)) by {
      ListedAt(s, left, found);
    }
    CancelCutsPass(cfg, s.mem, found, s.files, 0);
    var done;
    acts, s', done := FilesAreSteps(cfg, s, found, None);
    var r := PollSpec(cfg, s.mem, found, s.files, None);
    CarriesFrame(s, s', r.out, done);
    forall path | path in left ensures ReadToEnd(cfg, s', path) {
      FileReadToEnd(cfg, s, found, path);
      SameContent(s, s', path);
    }
  }

  lemma SameContent(s: World, s': World, path: string)
    requires s'.current == s.current && s'.contents == s.contents
    ensures InodeOf(s', path) == InodeOf(s, path) && ContentOf(s', path) == ContentOf(s, path)
  {
  }

  lemma FileReadToEnd(cfg: Config, s: World, found: seq<Found>, path: string)
    requires Inv(cfg, s) && s.tailing && s.reading == None
    requires Follows(cfg, s, path) && LookAt(found, path) == Some(LookOf(s, path))
    requires Distinct(found) && forall i :: 0 <= i < |found| ==> !found[i].done
    ensures var r := PollSpec(cfg, s.mem, found, s.files, None);
            Lookup(r.files, path) == Some(FileState(InodeOf(s, path), Decode(cfg.rules, ContentOf(s, path)).at))
  {
    hide Inv, PollSpec, Decode, Projects, ContentOf, InodeOf, Distinct, LookAt;
    PassReadsToEnd(cfg, s, path);
    PollProjects(cfg, s.mem, found, s.files, path);
    Projected(cfg, s, PollSpec(cfg, s.mem, found, s.files, None), LookOf(s, path), path);
  }

  lemma Projected(cfg: Config, s: World, r: Polled, look: Look, path: string)
    requires Projects(cfg, s.mem, Some(look), s.files, r, path)
    ensures var st := Opened(Lookup(s.files, path), Lookup(s.mem, path), look.inode, look.size);
            Lookup(r.files, path) == Some(FileState(st.inode, ReadFileSpec(cfg.rules, look, st, None).at))
  {
    hide Opened, ReadFileSpec, OfFile;
  }

  // Every complete message of path has been acknowledged.
  ghost predicate AllDelivered(cfg: Config, s: World, path: string) {
    forall m :: m in Decode(cfg.rules, ContentOf(s, path)).out ==>
      ToEntry(cfg, path, InodeOf(s, path), m) in s.delivered
  }

  // And a saved position covers it, so that no restart sends it again.
  ghost predicate AllSaved(cfg: Config, s: World, path: string) {
    forall m :: m in Decode(cfg.rules, ContentOf(s, path)).out ==>
      path in s.disk && s.disk[path].inode == InodeOf(s, path) && m.end <= s.disk[path].offset
  }

  // Reading to the last complete line is reading everything that decodes.
  lemma EndIsAll(cfg: Config, s: World, path: string)
    requires Follows(cfg, s, path) && ReadToEnd(cfg, s, path)
    ensures var k, o := Key(path, InodeOf(s, path)), s.files[path].at.offset;
            UpTo(cfg, s.contents, k, o) == ToEntries(cfg, path, k.inode, Decode(cfg.rules, ContentOf(s, path)).out)
  {
    hide Scan, ToEntry;
    var content := ContentOf(s, path);
    ScanConsumed(cfg.rules, content, START);
  }

  lemma EmptyPipeDelivered(cfg: Config, s: World, path: string)
    requires Inv(cfg, s) && s.tailing && s.abandoned == [] && Pipe(s) == []
    requires Follows(cfg, s, path) && ReadToEnd(cfg, s, path)
    ensures AllDelivered(cfg, s, path)
  {
    hide Decode, UpTo, ToEntry, DurableInv, PhaseOk, FilesConsistent, Closed, AllGenuine;
    EndIsAll(cfg, s, path);
    var out := Decode(cfg.rules, ContentOf(s, path)).out;
    var es := UpTo(cfg, s.contents, Key(path, InodeOf(s, path)), s.files[path].at.offset);
    forall m | m in out ensures ToEntry(cfg, path, InodeOf(s, path), m) in s.delivered {
      var i :| 0 <= i < |out| && out[i] == m;
      assert es[i] in Known(s) + ToSet(Pipe(s));
    }
  }

  // With nothing under way, the disk covers what was read of path.
  lemma PositionOnDisk(cfg: Config, s: World, path: string)
    requires Tracked(cfg, s) && !s.cancelled && s.phase == Collecting && Pipe(s) == [] && path in s.files
    ensures var st := s.files[path];
            var es := UpTo(cfg, s.contents, Key(path, st.inode), st.at.offset);
            es != [] ==>
              path in s.disk && s.disk[path].inode == st.inode && es[|es| - 1].offset <= s.disk[path].offset
  {
    hide UpTo, PipeKnown;
    assert Covers(cfg, s, path);
    assert Unset(s) == [];
    SetNoneMore(s.mem);
  }

  lemma LastIsLatest(cfg: Config, content: string, file: string, inode: nat, m: Message)
    requires m in Decode(cfg.rules, content).out
    ensures var es := ToEntries(cfg, file, inode, Decode(cfg.rules, content).out);
            es != [] && m.end <= es[|es| - 1].offset
  {
    hide Decode, ToEntry;
    var out := Decode(cfg.rules, content).out;
    DecodeBounds(cfg.rules, content);
    var i :| 0 <= i < |out| && out[i] == m;
    EntryFields(cfg, file, inode, out[|out| - 1]);
  }

  lemma EmptyPipeSaved(cfg: Config, s: World, path: string)
    requires Tracked(cfg, s) && !s.cancelled && s.phase == Collecting && Pipe(s) == []
    requires Follows(cfg, s, path) && ReadToEnd(cfg, s, path)
    ensures AllSaved(cfg, s, path)
  {
    hide Decode, UpTo, ToEntry, Tracked;
    EndIsAll(cfg, s, path);
    PositionOnDisk(cfg, s, path);
    forall m | m in Decode(cfg.rules, ContentOf(s, path)).out
      ensures path in s.disk && s.disk[path].inode == InodeOf(s, path) && m.end <= s.disk[path].offset
    {
      LastIsLatest(cfg, ContentOf(s, path), path, InodeOf(s, path), m);
    }
  }

  // The open file is closed first.
  lemma Pause(cfg: Config, s: World) returns (acts: seq<Action>, s': World)
    requires Working(cfg, s) && s.tailing
    ensures s' == s.(reading := None) && Leads(cfg, s, acts, s') && Onwards(acts) && Working(cfg, s')
  {
    hide Leads;
    s' := s.(reading := None);
    if s.reading.Some? {
      acts := [CloseFile];
      OneStep(cfg, s, CloseFile, s');
    } else {
      acts := [];
      NoSteps(cfg, s);
    }
  }

  // Close, ship what is held, read everything, ship that.
  lemma GoOn(cfg: Config, s: World, left: set<string>) returns (acts: seq<Action>, s': World)
    requires Inv(cfg, s) && s.abandoned == [] && Working(cfg, s) && s.tailing && !s.cancelled
    requires forall path :: path in left ==> Follows(cfg, s, path)
    ensures Leads(cfg, s, acts, s') && Onwards(acts)
    ensures s'.contents == s.contents && s'.current == s.current && s'.tailing && !s'.cancelled
    ensures s'.phase == Collecting && Pipe(s') == []
    ensures forall path :: path in left ==> ReadToEnd(cfg, s', path)
  {
    hide Inv, Working, PipeKnown, Carries, Leads, Wanted, Onward, Decode;
    var a, s1 := Pause(cfg, s);
    OnwardsKeep(cfg, s, a, s1);
    var b, s2 := CatchUp(cfg, s1);
    CarriesFrame(s1, s2, [], Unset(s1));
    OnwardsKeep(cfg, s1, b, s2);
    NothingUnset(s2);
    var c, s3 := ReadAll(cfg, s2, left);
    OnwardsKeep(cfg, s2, c, s3);
    var d, s4 := CatchUp(cfg, s3);
    CarriesFrame(s3, s4, [], Unset(s3));
    LeadsOn(cfg, s, a, s1, b, s2);
    LeadsOn(cfg, s, a + b, s2, c, s3);
    LeadsOn(cfg, s, a + b + c, s3, d, s4);
    acts, s' := a + b + c + d, s4;
  }

  /** Everything gets through. Wherever a run has left a live agent, as long as no position was saved past an abandoned
      entry, some steps of reading, sending, receipts and saves lead to a state in which every complete
      message of every file the agent follows has been acknowledged and nothing is under way. If moreover
      no save failed and no pass forgot a file that was known, each such message is covered by the
      position on disk. */
  lemma EverythingGetsThrough(cfg: Config, keep: bool, states: seq<World>, acts: seq<Action>)
    returns (more: seq<Action>, s': World)
    requires Run(cfg, keep, states, acts) && cfg.batchSize > 0 && !states[|acts|].cancelled
    requires forall i :: 0 <= i < |acts| ==> Guarded(acts[i], states[i])
    ensures var s := states[|acts|];
            && Leads(cfg, s, more, s') && Onwards(more) && s'.contents == s.contents && s'.current == s.current
            && Pipe(s') == []
            && (forall path :: Follows(cfg, s', path) ==> AllDelivered(cfg, s', path))
    ensures (forall i :: 0 <= i < |acts| ==> Steady(acts[i], states[i])) ==>
              forall path :: Follows(cfg, s', path) ==> AllSaved(cfg, s', path)
  {
    hide Enabled, Apply, Init, Inv, Working, Leads, Onward, Tracked, Guarded, Steady, AllDelivered, AllSaved, ReadToEnd,
         Wanted;
    var s := states[|acts|];
    LiveWorks(cfg, keep, states, acts);
    var left := set path | path in s.current && Follows(cfg, s, path);
    more, s' := GoOn(cfg, s, left);
    OnwardsKeep(cfg, s, more, s');
    forall path | Follows(cfg, s', path) ensures AllDelivered(cfg, s', path) {
      assert path in left;
      EmptyPipeDelivered(cfg, s', path);
    }
    if forall i :: 0 <= i < |acts| ==> Steady(acts[i], states[i]) {
      RunTracked(cfg, keep, states, acts, |acts|);
      forall path | Follows(cfg, s', path) ensures AllSaved(cfg, s', path) {
        assert path in left;
        EmptyPipeSaved(cfg, s', path);
      }
    }
  }
}
