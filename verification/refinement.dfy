/** The tailer's methods are runs of the pipeline's steps: what ReadFile, Poll and a round of Run compute in one go
    is what the interleaved actions reach one at a time, the shipper taking entries from the channel as it fills. */
module Refinement {
  import opened Wrappers
  import opened Decoder
  import opened Entities
  import opened Tailing
  import opened Pipeline
  import opened Steps
  import opened ShipperRefinement
  import Shipping

  // ---- The shipper makes room ----

  // Entries whose position the shipper has yet to set.
  function Unset(s: World): seq<Entry> {
    (if s.phase.Committing? && s.phase.next <= |s.batch| then s.batch[s.phase.next..] else s.batch) + s.queue
  }

  // All copies that reached the server, and then all entries of which none has in this attempt.
  function Outflow(s: World): seq<Entry> {
    s.arrived + if s.phase.Committing? then s.queue else s.batch + s.queue
  }

  // The shipper goes on, and the channel holds no more than it can.
  ghost predicate Working(cfg: Config, s: World) {
    && cfg.batchSize > 0 && |s.queue| <= cfg.batchSize
    && s.phase != Stopped && (s.phase.Sending? || s.phase.Committing? ==> !s.phase.final)
    && (s.phase.Committing? ==> s.phase.next <= |s.batch|)
  }

  // From s to s' the tailer sent out, in this order, and the shipper set the positions of done.
  ghost predicate Carries(s: World, s': World, out: seq<Entry>, done: seq<Entry>) {
    && Outflow(s') == Outflow(s) + out
    && Unset(s) + out == done + Unset(s')
    && s'.mem == Shipping.SetAll(s.mem, done)
    && s'.contents == s.contents && s'.current == s.current && s'.closed == s.closed && s'.abandoned == s.abandoned
  }

  ghost predicate SameTailer(s: World, s': World) {
    s'.files == s.files && s'.reading == s.reading && s'.tailing == s.tailing && s'.cancelled == s.cancelled
  }

  lemma CarriesNothing(s: World)
    ensures Carries(s, s, [], [])
  {
    SetNone(s.mem);
    assert Outflow(s) + [] == Outflow(s) && Unset(s) + [] == [] + Unset(s);
  }

  lemma CarriesOn(s: World, mid: World, s': World, out: seq<Entry>, done: seq<Entry>, out': seq<Entry>,
                  done': seq<Entry>)
    requires Carries(s, mid, out, done) && Carries(mid, s', out', done')
    ensures Carries(s, s', out + out', done + done')
  {
    hide Unset, Outflow;
    Shipping.SetAllJoin(s.mem, done, done');
    assert Outflow(s) + out + out' == Outflow(s) + (out + out');
    assert Unset(s) + (out + out') == (Unset(s) + out) + out' == done + (Unset(mid) + out');
    assert done + (done' + Unset(s')) == (done + done') + Unset(s');
  }

  // The shipper alone, before or after.
  lemma CarriesMore(s: World, mid: World, s': World, out: seq<Entry>, done: seq<Entry>, done': seq<Entry>)
    requires Carries(s, mid, out, done) && Carries(mid, s', [], done')
    ensures Carries(s, s', out, done + done')
  {
    hide Carries;
    CarriesOn(s, mid, s', out, done, [], done');
    assert out + [] == out;
  }

  lemma CarriesThen(s: World, mid: World, s': World, done: seq<Entry>, out: seq<Entry>, done': seq<Entry>)
    requires Carries(s, mid, [], done) && Carries(mid, s', out, done')
    ensures Carries(s, s', out, done + done')
  {
    hide Carries;
    CarriesOn(s, mid, s', [], done, out, done');
    assert [] + out == out;
  }

  // The shipper with its batch dealt with: acknowledged, if it was not, and its positions set and saved.
  function Cleared(s: World): World {
    if s.phase == Collecting && (s.batch == [] || s.cancelled) then s
    else
      var left := if s.phase.Committing? && s.phase.next <= |s.batch| then s.batch[s.phase.next..] else s.batch;
      var sent := if s.phase.Committing? then [] else s.batch;
      var m := Shipping.SetAll(s.mem, left);
      s.(mem := m, disk := m, batch := [], phase := Collecting,
         delivered := s.delivered + ToSet(sent), arrived := s.arrived + sent)
  }

  lemma ClearIsSteps(cfg: Config, s: World) returns (acts: seq<Action>)
    requires Working(cfg, s)
    ensures Leads(cfg, s, acts, Cleared(s)) && Onwards(acts)
  {
    hide Leads, Apply, Enabled, Shipping.SetAll;
    if s.phase.Committing? {
      acts := CommitRest(cfg, s, true);
      assert s.arrived + [] == s.arrived && s.delivered + ToSet([]) == s.delivered;
    } else if s.phase.Sending? {
      acts := ReceiptIsSteps(cfg, s, true);
    } else if s.batch == [] || s.cancelled {
      acts := [];
      NoSteps(cfg, s);
    } else {
      TickOne(cfg, s);
      var mid := s.(phase := Sending(false));
      acts := ReceiptIsSteps(cfg, mid, true);
      OneThen(cfg, s, Tick, mid, acts, Cleared(s));
      acts := [Tick] + acts;
    }
  }

  lemma ClearCarries(cfg: Config, s: World) returns (done: seq<Entry>)
    requires Working(cfg, s)
    ensures var s' := Cleared(s);
            && Carries(s, s', [], done) && SameTailer(s, s') && Working(cfg, s')
            && s'.phase == Collecting && s'.queue == s.queue && (!s.cancelled ==> s'.batch == [])
            && (s'.disk == s'.mem || s' == s)
  {
    hide Shipping.SetAll, ToSet;
    var s' := Cleared(s);
    if s' == s {
      done := [];
      CarriesNothing(s);
    } else {
      done := if s.phase.Committing? then s.batch[s.phase.next..] else s.batch;
      assert Unset(s) + [] == done + Unset(s');
      assert Outflow(s) + [] == Outflow(s');
    }
  }

  lemma TakeCarries(cfg: Config, s: World, s': World)
    requires s.phase == Collecting && s.queue != []
    requires var held := s.batch + [s.queue[0]];
             var full := |held| >= cfg.batchSize && !s.cancelled;
             s' == s.(queue := s.queue[1..], batch := held, phase := if full then Sending(false) else Collecting)
    ensures Carries(s, s', [], []) && SameTailer(s, s')
  {
    SetNone(s.mem);
    assert s.batch + s.queue == s.batch + [s.queue[0]] + s.queue[1..];
    assert Outflow(s') == Outflow(s) + [] && Unset(s) + [] == [] + Unset(s');
  }

  // However full the channel is, the shipper's steps make room in it.
  lemma MakeRoom(cfg: Config, s: World) returns (acts: seq<Action>, s': World, done: seq<Entry>)
    requires Working(cfg, s)
    ensures Leads(cfg, s, acts, s') && Onwards(acts) && Working(cfg, s') && |s'.queue| < cfg.batchSize
    ensures Carries(s, s', [], done) && SameTailer(s, s')
  {
    hide Leads, Apply, Enabled, Carries, Cleared;
    if |s.queue| < cfg.batchSize {
      acts, s', done := [], s, [];
      NoSteps(cfg, s);
      CarriesNothing(s);
    } else {
      acts := ClearIsSteps(cfg, s);
      done := ClearCarries(cfg, s);
      var mid := Cleared(s);
      ReceiveOne(cfg, mid);
      s' := Apply(cfg, false, Receive, mid);
      TakeCarries(cfg, mid, s');
      CarriesMore(s, mid, s', [], done, []);
      assert done + [] == done;
      ThenOne(cfg, s, acts, mid, Receive, s');
      acts := acts + [Receive];
    }
  }

  /** The shipper catches up: from any state of a live agent whose shipper works, steps of it alone empty the channel
      and its batch, set every position that was due, and save. */
  lemma {:induction false} CatchUp(cfg: Config, s: World) returns (acts: seq<Action>, s': World)
    requires Working(cfg, s) && !s.cancelled
    ensures Leads(cfg, s, acts, s') && Onwards(acts) && Working(cfg, s')
    ensures Carries(s, s', [], Unset(s)) && SameTailer(s, s') && s'.phase == Collecting && Pipe(s') == []
    ensures s'.disk == s'.mem || (s' == s && Unset(s) == [])
    decreases |s.queue|
  {
    hide Leads, Apply, Enabled, Carries, Cleared;
    acts := ClearIsSteps(cfg, s);
    var done := ClearCarries(cfg, s);
    s' := Cleared(s);
    if s'.queue != [] {
      ReceiveOne(cfg, s');
      var mid := Apply(cfg, false, Receive, s');
      TakeCarries(cfg, s', mid);
      CarriesMore(s, s', mid, [], done, []);
      ThenOne(cfg, s, acts, s', Receive, mid);
      var more, last := CatchUp(cfg, mid);
      CarriesMore(s, mid, last, [], done + [], Unset(mid));
      LeadsOn(cfg, s, acts + [Receive], mid, more, last);
      UnsetNow(mid);
      acts, s', done := acts + [Receive] + more, last, done + [] + Unset(mid);
    }
    AllSet(s, s', done);
  }

  lemma UnsetNow(s: World)
    requires !s.phase.Committing? && s.batch != []
    ensures Unset(s) != []
  {
  }

  lemma AllSet(s: World, s': World, done: seq<Entry>)
    requires Carries(s, s', [], done) && s'.phase == Collecting && s'.batch == s'.queue == []
    ensures done == Unset(s) && Pipe(s') == []
  {
    hide Shipping.SetAll, Outflow;
    assert Unset(s') == [];
    assert Unset(s) + [] == Unset(s) && done + [] == done;
  }

  // ---- One line ----

  // path is open, and read up to a point of its content.
  ghost predicate Reads(s: World, path: string) {
    && s.tailing && s.reading == Some(path) && path in s.files && Key(path, s.files[path].inode) in s.contents
    && s.files[path].at.offset <= |s.contents[Key(path, s.files[path].inode)]|
  }

  // The state after lines of the open file, their messages in the channel.
  function AfterLines(cfg: Config, s: World, path: string, at: Point, out: seq<Message>): World
    requires path in s.files
  {
    s.(files := s.files[path := FileState(s.files[path].inode, at)],
       queue := s.queue + ToEntries(cfg, path, s.files[path].inode, out))
  }

  lemma LinesCarry(cfg: Config, s: World, path: string, at: Point, out: seq<Message>)
    requires path in s.files
    ensures Carries(s, AfterLines(cfg, s, path, at, out), ToEntries(cfg, path, s.files[path].inode, out), [])
  {
    var es := ToEntries(cfg, path, s.files[path].inode, out);
    var s' := AfterLines(cfg, s, path, at, out);
    SetNone(s.mem);
    assert Outflow(s') == Outflow(s) + es && Unset(s) + es == [] + Unset(s');
  }

  lemma ReadOne(cfg: Config, s: World, path: string, raw: string, rest: string)
    requires Reads(s, path) && '\n' !in raw && Rest(s, path) == raw + "\n" + rest
    requires var line := StepLine(cfg.rules, s.files[path].at, raw); line.out == [] || |s.queue| < cfg.batchSize
    ensures var line := StepLine(cfg.rules, s.files[path].at, raw);
            var s' := AfterLines(cfg, s, path, line.at, line.out);
            && Enabled(cfg, ReadLine, s) && Apply(cfg, false, ReadLine, s) == s'
            && Reads(s', path) && Rest(s', path) == rest
            && (Working(cfg, s) ==> Working(cfg, s'))
  {
    hide StepLine, ToEntry;
    LineHere(cfg, s, path, raw, rest);
    var content := s.contents[Key(path, s.files[path].inode)];
    var o := s.files[path].at.offset;
    assert |content[o..]| == |raw| + 1 + |rest|;
    assert (raw + "\n" + rest)[|raw| + 1..] == rest;
    assert content[o + |raw| + 1..] == content[o..][|raw| + 1..];
  }

  // The next line, for which the shipper first makes room if it has to.
  lemma LineIsSteps(cfg: Config, s: World, path: string, raw: string, rest: string)
    returns (acts: seq<Action>, s': World, done: seq<Entry>)
    requires Working(cfg, s) && Reads(s, path) && '\n' !in raw && Rest(s, path) == raw + "\n" + rest
    ensures var inode, line := s.files[path].inode, StepLine(cfg.rules, s.files[path].at, raw);
            && Leads(cfg, s, acts, s') && Onwards(acts) && Working(cfg, s')
            && Carries(s, s', ToEntries(cfg, path, inode, line.out), done)
            && s'.files == s.files[path := FileState(inode, line.at)] && s'.cancelled == s.cancelled
            && Reads(s', path) && Rest(s', path) == rest
  {
    hide StepLine, Leads, Apply, Enabled, Carries, ToEntry;
    var mid := s;
    acts, mid, done := MakeRoom(cfg, s);
    RestKept(s, mid, path, done);
    var line := StepLine(cfg.rules, s.files[path].at, raw);
    ReadOne(cfg, mid, path, raw, rest);
    s' := AfterLines(cfg, mid, path, line.at, line.out);
    LinesCarry(cfg, mid, path, line.at, line.out);
    CarriesThen(s, mid, s', done, ToEntries(cfg, path, s.files[path].inode, line.out), []);
    assert done + [] == done;
    ThenOne(cfg, s, acts, mid, ReadLine, s');
    acts := acts + [ReadLine];
  }

  lemma RestKept(s: World, s': World, path: string, done: seq<Entry>)
    requires Reads(s, path) && Carries(s, s', [], done) && SameTailer(s, s')
    ensures Reads(s', path) && Rest(s', path) == Rest(s, path)
  {
    hide Unset, Outflow, Shipping.SetAll;
  }

  // A message that a cancellation keeps from the channel.
  lemma DropIsSteps(cfg: Config, s: World, path: string, raw: string, rest: string)
    returns (acts: seq<Action>, s': World)
    requires Working(cfg, s) && Reads(s, path) && '\n' !in raw && Rest(s, path) == raw + "\n" + rest
    requires StepLine(cfg.rules, s.files[path].at, raw).out != []
    ensures var st := FileState(s.files[path].inode, StepLine(cfg.rules, s.files[path].at, raw).at);
            && Leads(cfg, s, acts, s') && acts == [Cancel, DropLine] && Working(cfg, s') && Carries(s, s', [], [])
            && s' == s.(cancelled := true, files := s.files[path := st], reading := None, tailing := false)
  {
    hide StepLine, ToEntry, Leads;
    LineHere(cfg, s, path, raw, rest);
    var mid := s.(cancelled := true);
    LineHere(cfg, mid, path, raw, rest);
    s' := Apply(cfg, false, DropLine, mid);
    OneStep(cfg, s, Cancel, mid);
    ThenOne(cfg, s, [Cancel], mid, DropLine, s');
    acts := [Cancel, DropLine];
    assert [Cancel] + [DropLine] == acts;
    SetNone(s.mem);
    assert Outflow(s) + [] == Outflow(s') && Unset(s) + [] == [] + Unset(s');
  }

  // What became of the tailer: still at path, or stopped by the end of ctx.
  ghost predicate LeftAt(s: World, s': World, path: string, stopped: bool) {
    && s'.reading == (if stopped then None else Some(path)) && s'.tailing == !stopped
    && s'.cancelled == (s.cancelled || stopped)
  }

  /** One pass of ReadFile over a backlog of any size is a run of ReadLine steps, with steps of the shipper between them
      when the channel is full: what it emits goes through the channel in order. A pass that a
      cancellation cuts short ends with DropLine, after which the tailer has stopped. */
  lemma {:induction false} PassIsReadLines(cfg: Config, s: World, path: string, broken: Option<nat>,
      sends: Option<nat>) returns (acts: seq<Action>, s': World, done: seq<Entry>)
    requires Working(cfg, s) && Reads(s, path)
    ensures var inode := s.files[path].inode;
            var pass := ReadLines(cfg.rules, Rest(s, path), s.files[path].at, broken, sends);
            && Leads(cfg, s, acts, s') && Working(cfg, s')
            && Carries(s, s', ToEntries(cfg, path, inode, pass.out), done)
            && s'.files == s.files[path := FileState(inode, pass.at)]
            && LeftAt(s, s', path, pass.end == Cancelled)
            && if pass.end == Cancelled then acts != [] && acts[|acts| - 1] == DropLine else Onwards(acts)
    decreases |Rest(s, path)|, 0
  {
    hide StepLine, ReadLines, Carries, Leads, ToEntry;
    var inode, at, all := s.files[path].inode, s.files[path].at, Rest(s, path);
    if broken == Some(0) || '\n' !in all {
      acts, s', done := [], s, [];
      ReadLinesStop(cfg.rules, all, at, broken, sends);
      NoSteps(cfg, s);
      CarriesNothing(s);
      assert ToEntries(cfg, path, inode, []) == [];
      assert s.files[path := FileState(inode, at)] == s.files;
    } else {
      var raw, rest := FirstLine(all);
      var line := StepLine(cfg.rules, at, raw);
      ReadLinesLine(cfg.rules, raw, rest, at, broken, sends);
      if line.out != [] && sends == Some(0) {
        done := [];
        acts, s' := DropIsSteps(cfg, s, path, raw, rest);
        assert ToEntries(cfg, path, inode, []) == [];
      } else {
        var sends' := if line.out == [] then sends else Less(sends);
        acts, s', done := LineThen(cfg, s, path, raw, rest, Less(broken), sends');
      }
    }
  }

  lemma LineThen(cfg: Config, s: World, path: string, raw: string, rest: string, broken: Option<nat>,
      sends: Option<nat>) returns (acts: seq<Action>, s': World, done: seq<Entry>)
    requires Working(cfg, s) && Reads(s, path) && '\n' !in raw && Rest(s, path) == raw + "\n" + rest
    ensures var inode, line := s.files[path].inode, StepLine(cfg.rules, s.files[path].at, raw);
            var later := ReadLines(cfg.rules, rest, line.at, broken, sends);
            && Leads(cfg, s, acts, s') && Working(cfg, s')
            && Carries(s, s', ToEntries(cfg, path, inode, line.out + later.out), done)
            && s'.files == s.files[path := FileState(inode, later.at)]
            && LeftAt(s, s', path, later.end == Cancelled)
            && if later.end == Cancelled then acts != [] && acts[|acts| - 1] == DropLine else Onwards(acts)
    decreases |rest|, 1
  {
    hide StepLine, ReadLines, Carries, Leads, ToEntry;
    var inode, line := s.files[path].inode, StepLine(cfg.rules, s.files[path].at, raw);
    var one, mid, set1 := LineIsSteps(cfg, s, path, raw, rest);
    var later := ReadLines(cfg.rules, rest, line.at, broken, sends);
    var more, last, set2 := PassIsReadLines(cfg, mid, path, broken, sends);
    LeadsOn(cfg, s, one, mid, more, last);
    CarriesOn(s, mid, last, ToEntries(cfg, path, inode, line.out), set1, ToEntries(cfg, path, inode, later.out), set2);
    EntriesJoin(cfg, path, inode, line.out, later.out);
    assert s.files[path := FileState(inode, line.at)][path := FileState(inode, later.at)] ==
           s.files[path := FileState(inode, later.at)];
    acts, s', done := one + more, last, set1 + set2;
  }

  // ---- One file ----

  // The file behind a path is as the pass finds it.
  ghost predicate Finds(s: World, path: string, look: Look) {
    && path in s.current && s.current[path] == look.inode
    && Key(path, look.inode) in s.contents && s.contents[Key(path, look.inode)] == look.content
    && look.size == |look.content|
  }

  lemma OpenFile(cfg: Config, s: World, path: string, look: Look) returns (s': World)
    requires s.tailing && s.reading == None && Wanted(cfg, path) && Finds(s, path, look)
    ensures var st := Opened(Lookup(s.files, path), Lookup(s.mem, path), look.inode, look.size);
            && s' == s.(files := s.files[path := st], reading := Some(path))
            && Enabled(cfg, Open(path), s) && Apply(cfg, false, Open(path), s) == s'
            && st.inode == look.inode && st.at.offset <= |look.content|
            && Reads(s', path) && Rest(s', path) == After(look.content, st.at)
  {
    hide Wanted;
    s' := Apply(cfg, false, Open(path), s);
  }

  // A change of the tailer's own state carries nothing.
  lemma TailerCarries(cfg: Config, s: World, s': World)
    requires s' == s.(files := s'.files, reading := s'.reading, tailing := s'.tailing, cancelled := s'.cancelled)
    ensures Carries(s, s', [], []) && (Working(cfg, s) ==> Working(cfg, s'))
  {
    CarriesNothing(s);
  }

  // Between two files, or stopped by the end of ctx.
  ghost predicate Paused(s: World, s': World, stopped: bool) {
    s'.reading == None && s'.tailing == !stopped && s'.cancelled == (s.cancelled || stopped)
  }

  // readFile is Open, its lines, and CloseFile; or Open, the lines before a cancellation, and DropLine.
  lemma FileIsSteps(cfg: Config, s: World, path: string, look: Look, sends: Option<nat>)
    returns (acts: seq<Action>, s': World, done: seq<Entry>)
    requires Working(cfg, s) && s.tailing && s.reading == None && Wanted(cfg, path) && Finds(s, path, look)
    ensures var st := Opened(Lookup(s.files, path), Lookup(s.mem, path), look.inode, look.size);
            var pass := ReadFileSpec(cfg.rules, look, st, sends);
            && Leads(cfg, s, acts, s') && Working(cfg, s')
            && Carries(s, s', ToEntries(cfg, path, st.inode, pass.out), done)
            && s'.files == s.files[path := FileState(st.inode, pass.at)] && Paused(s, s', pass.end == Cancelled)
            && (pass.end != Cancelled ==> Onwards(acts))
  {
    hide Wanted, Apply, Enabled, ReadLines, Opened, Leads, Carries, ToEntry, Rest;
    var st := Opened(Lookup(s.files, path), Lookup(s.mem, path), look.inode, look.size);
    var pass := ReadFileSpec(cfg.rules, look, st, sends);
    var s1 := OpenFile(cfg, s, path, look);
    TailerCarries(cfg, s, s1);
    var lines, s2 := [], s1;
    if look.size == st.at.offset {
      NoSteps(cfg, s1);
      done := [];
      CarriesNothing(s1);
      assert ToEntries(cfg, path, st.inode, []) == [];
    } else {
      lines, s2, done := PassIsReadLines(cfg, s1, path, look.broken, sends);
    }
    assert s.files[path := st][path := FileState(st.inode, pass.at)] == s.files[path := FileState(st.inode, pass.at)];
    assert s1.files[path := FileState(st.inode, st.at)] == s1.files;
    OneThen(cfg, s, Open(path), s1, lines, s2);
    CarriesThen(s, s1, s2, [], ToEntries(cfg, path, st.inode, pass.out), done);
    assert [] + done == done;
    acts, s' := [Open(path)] + lines, s2;
    if pass.end != Cancelled {
      acts, s', done := CloseAfter(cfg, s, acts, s2, ToEntries(cfg, path, st.inode, pass.out), done);
    }
  }

  lemma CloseAfter(cfg: Config, s: World, lines: seq<Action>, s2: World, out: seq<Entry>, set2: seq<Entry>)
    returns (acts: seq<Action>, s': World, done: seq<Entry>)
    requires Leads(cfg, s, lines, s2) && Onwards(lines) && Working(cfg, s2) && Carries(s, s2, out, set2)
    requires s2.reading.Some?
    ensures Leads(cfg, s, acts, s') && Onwards(acts) && Working(cfg, s') && Carries(s, s', out, done)
    ensures s' == s2.(reading := None)
  {
    hide Leads, Carries;
    s' := s2.(reading := None);
    TailerCarries(cfg, s2, s');
    CarriesMore(s, s2, s', out, set2, []);
    ThenOne(cfg, s, lines, s2, CloseFile, s');
    acts, done := lines + [CloseFile], set2 + [];
  }

  // ---- A pass over the directory ----

  // Everything a pass finds is there.
  ghost predicate FindsAll(cfg: Config, s: World, found: seq<Found>) {
    forall i :: 0 <= i < |found| && found[i].look.Some? && Wanted(cfg, found[i].path) ==>
      Finds(s, found[i].path, found[i].look.value)
  }

  // All entries under way are of files that the tailer knows.
  ghost predicate PipeKnown(s: World) {
    forall i :: 0 <= i < |Unset(s)| ==> Unset(s)[i].file in s.files
  }

  // Only files of known had their position set.
  ghost predicate OthersSaved(known: set<string>, m: map<string, Position>, m': map<string, Position>) {
    forall file :: file !in known ==> Lookup(m', file) == Lookup(m, file)
  }

  lemma {:induction false} SetsKnown(m: map<string, Position>, es: seq<Entry>, known: set<string>)
    requires forall i :: 0 <= i < |es| ==> es[i].file in known
    ensures OthersSaved(known, m, Shipping.SetAll(m, es))
  {
    if es != [] {
      SetsKnown(m, es[..|es| - 1], known);
    }
  }

  lemma PipeStaysKnown(s: World, s': World, out: seq<Entry>, done: seq<Entry>)
    requires PipeKnown(s) && Carries(s, s', out, done) && s.files.Keys <= s'.files.Keys
    requires forall i :: 0 <= i < |out| ==> out[i].file in s'.files
    ensures PipeKnown(s') && OthersSaved(s'.files.Keys, s.mem, s'.mem)
  {
    hide Unset, Outflow, Shipping.SetAll, OthersSaved;
    var all := Unset(s) + out;
    forall i | 0 <= i < |all| ensures all[i].file in s'.files {
    }
    forall i | 0 <= i < |done| ensures done[i].file in s'.files.Keys {
      assert done[i] == all[i];
    }
    forall i | 0 <= i < |Unset(s')| ensures Unset(s')[i].file in s'.files {
      assert Unset(s')[i] == all[|done| + i];
    }
    SetsKnown(s.mem, done, s'.files.Keys);
  }

  // Positions of files already known to the tailer do not matter to a pass.
  lemma {:induction false} KnownFilesOnly(cfg: Config, m: map<string, Position>, m': map<string, Position>,
                                          found: seq<Found>, files: map<string, FileState>, sends: Option<nat>)
    requires OthersSaved(files.Keys, m, m')
    ensures PollSpec(cfg, m', found, files, sends) == PollSpec(cfg, m, found, files, sends)
  {
    hide Wanted, ReadFileSpec;
    if found != [] {
      var Found(path, look, done) := found[0];
      if !Wanted(cfg, path) || look.None? {
        KnownFilesOnly(cfg, m, m', found[1..], files, sends);
      } else {
        var st := Opened(Lookup(files, path), Lookup(m, path), look.value.inode, look.value.size);
        assert st == Opened(Lookup(files, path), Lookup(m', path), look.value.inode, look.value.size);
        hide Opened;
        var pass := ReadFileSpec(cfg.rules, look.value, st, sends);
        var out := ToEntries(cfg, path, st.inode, pass.out);
        KnownFilesOnly(cfg, m, m', found[1..], files[path := FileState(st.inode, pass.at)], Spent(sends, |out|));
      }
    }
  }

  // ctx ends while nothing is open.
  lemma StopIsSteps(cfg: Config, s: World) returns (acts: seq<Action>, s': World)
    requires s.tailing && s.reading == None
    ensures s' == s.(cancelled := true, tailing := false)
    ensures Leads(cfg, s, acts, s') && Carries(s, s', [], []) && Paused(s, s', true)
    ensures Working(cfg, s) ==> Working(cfg, s')
  {
    hide Leads;
    var mid := s.(cancelled := true);
    s' := mid.(tailing := false);
    OneStep(cfg, s, Cancel, mid);
    ThenOne(cfg, s, [Cancel], mid, StopTailing, s');
    acts := [Cancel] + [StopTailing];
    TailerCarries(cfg, s, s');
  }

  // The files of a pass, one after another; a pass that ctx ends has stopped the tailer.
  lemma {:induction false} FilesAreSteps(cfg: Config, s: World, found: seq<Found>, sends: Option<nat>)
    returns (acts: seq<Action>, s': World, done: seq<Entry>)
    requires Working(cfg, s) && s.tailing && s.reading == None && FindsAll(cfg, s, found) && PipeKnown(s)
    ensures var r := PollSpec(cfg, s.mem, found, s.files, sends);
            && Leads(cfg, s, acts, s') && Working(cfg, s') && Carries(s, s', r.out, done)
            && s'.files == r.files && Paused(s, s', r.cancelled) && PipeKnown(s')
            && (!r.cancelled ==> Onwards(acts))
    decreases |found|, 1
  {
    hide Wanted, ReadFileSpec, Opened, Leads, Carries, PipeKnown;
    if found == [] {
      acts, s', done := [], s, [];
      NoSteps(cfg, s);
      CarriesNothing(s);
    } else {
      var Found(path, look, done') := found[0];
      RestFound(cfg, s, s, found);
      if !Wanted(cfg, path) || (look.None? && !done') {
        acts, s', done := FilesAreSteps(cfg, s, found[1..], sends);
      } else if look.None? {
        acts, s' := StopIsSteps(cfg, s);
        done := [];
        NoFilesLost(s, s', [], []);
      } else {
        acts, s', done := OneFileThen(cfg, s, found, sends);
      }
    }
  }

  lemma NoFilesLost(s: World, s': World, out: seq<Entry>, done: seq<Entry>)
    requires PipeKnown(s) && Carries(s, s', out, done) && s'.files == s.files && out == []
    ensures PipeKnown(s')
  {
    hide PipeKnown, Carries;
    PipeStaysKnown(s, s', out, done);
  }

  lemma RestFound(cfg: Config, s: World, s': World, found: seq<Found>)
    requires found != [] && FindsAll(cfg, s, found)
    requires s'.current == s.current && s'.contents == s.contents
    ensures FindsAll(cfg, s', found[1..])
    ensures found[0].look.Some? && Wanted(cfg, found[0].path) ==> Finds(s, found[0].path, found[0].look.value)
  {
    hide Wanted;
  }

  lemma CarriesFrame(s: World, s': World, out: seq<Entry>, done: seq<Entry>)
    requires Carries(s, s', out, done)
    ensures s'.contents == s.contents && s'.current == s.current && s'.abandoned == s.abandoned
  {
  }

  lemma EntriesOfKnown(cfg: Config, file: string, inode: nat, out: seq<Message>, files: map<string, FileState>)
    requires file in files
    ensures forall i :: 0 <= i < |out| ==> ToEntries(cfg, file, inode, out)[i].file in files
  {
  }

  lemma OneFileThen(cfg: Config, s: World, found: seq<Found>, sends: Option<nat>)
    returns (acts: seq<Action>, s': World, done: seq<Entry>)
    requires Working(cfg, s) && s.tailing && s.reading == None && FindsAll(cfg, s, found) && PipeKnown(s)
    requires found != [] && Wanted(cfg, found[0].path) && found[0].look.Some?
    ensures var r := PollSpec(cfg, s.mem, found, s.files, sends);
            && Leads(cfg, s, acts, s') && Working(cfg, s') && Carries(s, s', r.out, done)
            && s'.files == r.files && Paused(s, s', r.cancelled) && PipeKnown(s')
            && (!r.cancelled ==> Onwards(acts))
    decreases |found|, 0
  {
    hide Wanted, ReadFileSpec, Opened, Leads, FindsAll, Finds, Carries, PipeKnown, OthersSaved, ToEntry, Working;
    var Found(path, l, failed) := found[0];
    var look := l.value;
    RestFound(cfg, s, s, found);
    var st := Opened(Lookup(s.files, path), Lookup(s.mem, path), look.inode, look.size);
    var pass := ReadFileSpec(cfg.rules, look, st, sends);
    var out := ToEntries(cfg, path, st.inode, pass.out);
    var mid;
    acts, mid, done := FileIsSteps(cfg, s, path, look, sends);
    s' := mid;
    EntriesOfKnown(cfg, path, st.inode, pass.out, mid.files);
    PipeStaysKnown(s, mid, out, done);
    if pass.end != Cancelled {
      if EndsPass(pass.end, failed) {
        var stop, last := StopIsSteps(cfg, mid);
        CarriesMore(s, mid, last, out, done, []);
        NoFilesLost(mid, last, [], []);
        LeadsOn(cfg, s, acts, mid, stop, last);
        acts, s', done := acts + stop, last, done + [];
      } else {
        CarriesFrame(s, mid, out, done);
        RestFound(cfg, s, mid, found);
        var left := Spent(sends, |out|);
        KnownFilesOnly(cfg, s.mem, mid.mem, found[1..], mid.files, left);
        var later := PollSpec(cfg, mid.mem, found[1..], mid.files, left);
        var more, last, set2 := FilesAreSteps(cfg, mid, found[1..], left);
        CarriesOn(s, mid, last, out, done, later.out, set2);
        LeadsOn(cfg, s, acts, mid, more, last);
        acts, s', done := acts + more, last, done + set2;
      }
    }
  }

  /** A round of the tailer's Run is a run of single steps, over a backlog of any size: the files of the pass, with
      steps of the shipper in between, then EndPass, then StopTailing if ctx is done. All that the pass sends goes
      through the channel in order. m is memory when the pass ends: the positions of done are set
      in it, those of the other entries still to come. A pass that ctx ends has stopped the
      tailer and forgotten nothing. */
  lemma RoundIsSteps(cfg: Config, s: World, round: Round)
    returns (acts: seq<Action>, s': World, m: map<string, Position>, done: seq<Entry>)
    requires Working(cfg, s) && s.tailing && s.reading == None && FindsAll(cfg, s, round.found) && PipeKnown(s)
    requires round.shipped == map[]
    ensures var r := PollSpec(cfg, s.mem, round.found, s.files, round.sends);
            var t := RoundSpec(cfg, Tailed(s.files, s.mem, [], false), round);
            && Leads(cfg, s, acts, s') && Working(cfg, s') && s'.files == t.files && Paused(s, s', t.ended)
            && Outflow(s') == Outflow(s) + t.out
            && Unset(s) + t.out == done + Unset(s') && m == Shipping.SetAll(s.mem, done)
            && s'.mem == (if r.cancelled then m else Restrict(m, Seen(cfg, round.found)))
            && forall file :: file !in r.files ==> Lookup(s'.mem, file) == Lookup(t.m, file)
  {
    hide PollSpec, Leads, FindsAll, Seen, PipeKnown, Outflow, Unset, Shipping.SetAll, Working;
    assert s.mem + round.shipped == s.mem;
    var r := PollSpec(cfg, s.mem, round.found, s.files, round.sends);
    assert [] + r.out == r.out;
    var mid;
    acts, mid, done := FilesAreSteps(cfg, s, round.found, round.sends);
    s', m := mid, mid.mem;
    PollKnows(cfg, s, round, mid, done);
    if !r.cancelled {
      var seen := Seen(cfg, round.found);
      s' := mid.(files := Restrict(mid.files, seen), mem := Restrict(mid.mem, seen));
      EndIt(cfg, mid, seen);
      ThenOne(cfg, s, acts, mid, EndPass(seen), s');
      acts := acts + [EndPass(seen)];
      if round.stop {
        var stop, last := StopIsSteps(cfg, s');
        LeadsOn(cfg, s, acts, s', stop, last);
        StopKeeps(s', last);
        acts, s' := acts + stop, last;
      }
    }
  }

  lemma StopKeeps(s: World, s': World)
    requires s' == s.(cancelled := true, tailing := false)
    ensures Outflow(s') == Outflow(s) && Unset(s') == Unset(s)
  {
  }

  lemma {:induction false} FilesKept(cfg: Config, saved: map<string, Position>, found: seq<Found>,
                                     files: map<string, FileState>, sends: Option<nat>)
    ensures var r := PollSpec(cfg, saved, found, files, sends);
            && files.Keys <= r.files.Keys && forall i :: 0 <= i < |r.out| ==> r.out[i].file in r.files
  {
    hide Wanted, ReadFileSpec, Opened;
    if found != [] {
      var Found(path, look, done) := found[0];
      if !Wanted(cfg, path) || look.None? {
        FilesKept(cfg, saved, found[1..], files, sends);
      } else {
        var st := Opened(Lookup(files, path), Lookup(saved, path), look.value.inode, look.value.size);
        var pass := ReadFileSpec(cfg.rules, look.value, st, sends);
        var out := ToEntries(cfg, path, st.inode, pass.out);
        FilesKept(cfg, saved, found[1..], files[path := FileState(st.inode, pass.at)], Spent(sends, |out|));
      }
    }
  }

  lemma PollKnows(cfg: Config, s: World, round: Round, mid: World, done: seq<Entry>)
    requires var r := PollSpec(cfg, s.mem, round.found, s.files, round.sends);
             PipeKnown(s) && Carries(s, mid, r.out, done) && mid.files == r.files
    ensures OthersSaved(mid.files.Keys, s.mem, mid.mem)
  {
    hide PollSpec, Carries, PipeKnown, OthersSaved;
    FilesKept(cfg, s.mem, round.found, s.files, round.sends);
    PipeStaysKnown(s, mid, PollSpec(cfg, s.mem, round.found, s.files, round.sends).out, done);
  }

  lemma EndIt(cfg: Config, s: World, seen: set<string>)
    requires s.tailing && s.reading == None
    ensures var s' := s.(files := Restrict(s.files, seen), mem := Restrict(s.mem, seen));
            && Enabled(cfg, EndPass(seen), s) && Apply(cfg, false, EndPass(seen), s) == s'
            && Outflow(s') == Outflow(s) && Unset(s') == Unset(s) && (Working(cfg, s) ==> Working(cfg, s'))
  {
  }

  lemma {:induction false} SetAllMerge(m: map<string, Position>, es: seq<Entry>)
    ensures Shipping.SetAll(m, es) == m + Shipping.SetAll(map[], es)
  {
    if es == [] {
      SetNone(m);
      SetNone(map[]);
    } else {
      SetAllMerge(m, es[..|es| - 1]);
    }
  }

  lemma NothingUnset(s: World)
    requires s.phase == Collecting && Pipe(s) == []
    ensures Unset(s) == [] && PipeKnown(s)
  {
  }

  /** The same for a round before which the shipper saves all it has: from any state of a live agent between two
      passes, its steps and then those of the round. */
  lemma RoundAfterCatchUp(cfg: Config, s: World, round: Round)
    returns (acts: seq<Action>, s': World, m: map<string, Position>, done: seq<Entry>)
    requires Working(cfg, s) && !s.cancelled && s.tailing && s.reading == None && FindsAll(cfg, s, round.found)
    requires round.shipped == Shipping.SetAll(map[], Unset(s))
    ensures var saved := s.mem + round.shipped;
            var r := PollSpec(cfg, saved, round.found, s.files, round.sends);
            var t := RoundSpec(cfg, Tailed(s.files, s.mem, [], false), round);
            && Leads(cfg, s, acts, s') && Working(cfg, s') && s'.files == t.files && Paused(s, s', t.ended)
            && Outflow(s') == Outflow(s) + t.out && t.out == done + Unset(s')
            && m == Shipping.SetAll(saved, done)
            && s'.mem == (if r.cancelled then m else Restrict(m, Seen(cfg, round.found)))
            && forall file :: file !in r.files ==> Lookup(s'.mem, file) == Lookup(t.m, file)
  {
    hide PollSpec, Leads, FindsAll, Finds, Seen, PipeKnown, Shipping.SetAll, Working, Unset, Outflow;
    var first, mid := CatchUp(cfg, s);
    SetAllMerge(s.mem, Unset(s));
    NothingUnset(mid);
    var quiet := round.(shipped := map[]);
    FoundStill(cfg, s, mid, round.found);
    assert mid.mem + quiet.shipped == mid.mem == s.mem + round.shipped;
    var more;
    more, s', m, done := RoundIsSteps(cfg, mid, quiet);
    LeadsOn(cfg, s, first, mid, more, s');
    acts := first + more;
    var t := RoundSpec(cfg, Tailed(s.files, s.mem, [], false), round);
    assert Outflow(s) + [] == Outflow(s) && [] + t.out == t.out;
  }

  lemma FoundStill(cfg: Config, s: World, s': World, found: seq<Found>)
    requires FindsAll(cfg, s, found) && s'.current == s.current && s'.contents == s.contents
    ensures FindsAll(cfg, s', found)
  {
    hide Wanted;
  }
}
