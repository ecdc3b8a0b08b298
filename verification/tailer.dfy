/** The polling file reader (internal/logagent/tailer.go). What a pass finds on disk, where
    a read fails and how many sends succeed before cancellation are parameters. */
module Tailing {
  import opened Wrappers
  import opened Cri
  import opened Decoder
  import opened Entities
  import opened PositionStore

  // Kept per path from one pass to the next: which file it was, and where reading it stopped.
  datatype FileState = FileState(inode: nat, at: Point)

  // One open file: Stat's size, the bytes read before end of file, and, if the read
  // fails, how many complete lines were read first.
  datatype Look = Look(inode: nat, size: nat, content: string, broken: Option<nat>)

  datatype PassEnd = EndOfFile | ReadFailed | Cancelled

  datatype Pass = Pass(at: Point, out: seq<Message>, end: PassEnd)

  // Where to start reading: as remembered, else as saved for this inode, else at the top;
  // and from the top again after a rotation or a truncation.
  function Opened(known: Option<FileState>, saved: Option<Position>, inode: nat, size: nat): FileState {
    var st :=
      match known
      case Some(st) => st
      case None =>
        if saved.Some? && saved.value.inode == inode then FileState(inode, Point(saved.value.offset, ""))
        else FileState(inode, START);
    if st.inode != inode || size < st.at.offset then FileState(inode, START) else st
  }

  function Less(n: Option<nat>): Option<nat> {
    if n.Some? && n.value > 0 then Some(n.value - 1) else n
  }

  // One pass over the bytes after the current point. sends is the number of entries the
  // channel takes before cancellation, None if ctx stays live.
  function ReadLines(rules: Rules, rest: string, p: Point, broken: Option<nat>, sends: Option<nat>): Pass
    decreases |rest|
  {
    if broken == Some(0) then Pass(p, [], ReadFailed)
    else
      var i := IndexOf(rest, '\n');
      if i == |rest| then Pass(p, [], EndOfFile)
      else
        var first := StepLine(rules, p, rest[..i]);
        if first.out != [] && sends == Some(0) then Pass(first.at, [], Cancelled)
        else
          var sends' := if first.out == [] then sends else Less(sends);
          var later := ReadLines(rules, rest[i + 1..], first.at, Less(broken), sends');
          Pass(later.at, first.out + later.out, later.end)
  }

  // ReadLines unfolded at one complete line.
  lemma ReadLinesLine(rules: Rules, raw: string, rest: string, p: Point, broken: Option<nat>, sends: Option<nat>)
    requires '\n' !in raw && broken != Some(0)
    ensures var first := StepLine(rules, p, raw);
            var pass := ReadLines(rules, raw + "\n" + rest, p, broken, sends);
            if first.out != [] && sends == Some(0) then pass == Pass(first.at, [], Cancelled)
            else
              var sends' := if first.out == [] then sends else Less(sends);
              var later := ReadLines(rules, rest, first.at, Less(broken), sends');
              pass == Pass(later.at, first.out + later.out, later.end)
  {
    hide StepLine;
    IndexOfFirst(raw, '\n', rest);
    var s := raw + "\n" + rest;
    assert s[..|raw|] == raw && s[|raw| + 1..] == rest;
  }

  lemma ReadLinesStop(rules: Rules, s: string, p: Point, broken: Option<nat>, sends: Option<nat>)
    requires broken == Some(0) || '\n' !in s
    ensures ReadLines(rules, s, p, broken, sends) == Pass(p, [], if broken == Some(0) then ReadFailed else EndOfFile)
  {
    hide StepLine;
    if '\n' !in s {
      IndexOfAbsent(s, '\n');
    }
  }

  // The bytes of content after p; none when the file is shorter.
  function After(content: string, p: Point): string {
    if p.offset <= |content| then content[p.offset..] else ""
  }

  function ReadFileSpec(rules: Rules, look: Look, st: FileState, sends: Option<nat>): Pass {
    if look.size == st.at.offset then Pass(st.at, [], EndOfFile)
    else ReadLines(rules, After(look.content, st.at), st.at, look.broken, sends)
  }

  // How many sends are left after n of them.
  function Spent(sends: Option<nat>, n: nat): Option<nat> {
    if sends.Some? then Some(if n <= sends.value then sends.value - n else 0) else None
  }

  // A listed path: what opening it finds, None if that fails. done says that ctx is done by the time
  // opening or reading it fails.
  datatype Found = Found(path: string, look: Option<Look>, done: bool)

  datatype Polled = Polled(files: map<string, FileState>, out: seq<Entry>, cancelled: bool)

  // readFile returned an error, and ctx is done.
  predicate EndsPass(end: PassEnd, done: bool) {
    end == Cancelled || (end == ReadFailed && done)
  }

  // A pass over the listed paths, before the paths that are gone are forgotten.
  function PollSpec(cfg: Config, saved: map<string, Position>, found: seq<Found>, files: map<string, FileState>,
                    sends: Option<nat>): Polled {
    if found == [] then Polled(files, [], false)
    else
      var Found(path, look, done) := found[0];
      if !Wanted(cfg, path) then PollSpec(cfg, saved, found[1..], files, sends)
      else if look.None? then
        if done then Polled(files, [], true) else PollSpec(cfg, saved, found[1..], files, sends)
      else
        var st := Opened(Lookup(files, path), Lookup(saved, path), look.value.inode, look.value.size);
        var pass := ReadFileSpec(cfg.rules, look.value, st, sends);
        var files' := files[path := FileState(st.inode, pass.at)];
        var out := ToEntries(cfg, path, st.inode, pass.out);
        if EndsPass(pass.end, done) then Polled(files', out, true)
        else
          var later := PollSpec(cfg, saved, found[1..], files', Spent(sends, |out|));
          Polled(later.files, out + later.out, later.cancelled)
  }

  function Seen(cfg: Config, found: seq<Found>): set<string> {
    set i | 0 <= i < |found| && Wanted(cfg, found[i].path) :: found[i].path
  }

  lemma NothingSeen(cfg: Config, found: seq<Found>)
    ensures Seen(cfg, found[..0]) == {}
  {
    hide Wanted;
  }

  lemma SeenGrows(cfg: Config, found: seq<Found>, n: nat)
    requires n < |found|
    ensures Seen(cfg, found[..n + 1]) ==
            Seen(cfg, found[..n]) + if Wanted(cfg, found[n].path) then {found[n].path} else {}
  {
    hide Wanted;
    var some, more := found[..n], found[..n + 1];
    forall file | file in Seen(cfg, some) ensures file in Seen(cfg, more) {
      var i :| 0 <= i < |some| && Wanted(cfg, some[i].path) && some[i].path == file;
      assert more[i] == some[i];
    }
    assert Wanted(cfg, more[n].path) ==> more[n].path in Seen(cfg, more);
    forall file | file in Seen(cfg, more)
      ensures file in Seen(cfg, some) || (Wanted(cfg, found[n].path) && file == found[n].path)
    {
      var i :| 0 <= i < |more| && Wanted(cfg, more[i].path) && more[i].path == file;
      assert i < n ==> some[i] == more[i];
    }
  }

  // One turn of Run: what the shipper saved in memory since the last pass, what the pass finds, and
  // whether select then sees ctx done.
  datatype Round = Round(shipped: map<string, Position>, found: seq<Found>, sends: Option<nat>, stop: bool)

  datatype Tailed = Tailed(files: map<string, FileState>, m: map<string, Position>, out: seq<Entry>, ended: bool)

  function RoundSpec(cfg: Config, t: Tailed, round: Round): Tailed {
    var m := t.m + round.shipped;
    var r := PollSpec(cfg, m, round.found, t.files, round.sends);
    if r.cancelled then Tailed(r.files, m, t.out + r.out, true)
    else
      var seen := Seen(cfg, round.found);
      Tailed(Restrict(r.files, seen), Restrict(m, seen), t.out + r.out, round.stop)
  }

  // Run, until ctx ends it.
  function RunSpec(cfg: Config, first: Tailed, rounds: seq<Round>): Tailed {
    if rounds == [] then first
    else
      var t := RunSpec(cfg, first, rounds[..|rounds| - 1]);
      if t.ended then t else RoundSpec(cfg, t, rounds[|rounds| - 1])
  }

  // A line emits at most one entry.
  lemma LineEntries(cfg: Config, path: string, inode: nat, at: Point, raw: string)
    ensures var out := StepLine(cfg.rules, at, raw).out;
            ToEntries(cfg, path, inode, out) == if out == [] then [] else [ToEntry(cfg, path, inode, out[0])]
  {
    hide ToEntry;
  }

  class Tailer {
    const cfg: Config
    const positions: Positions
    var files: map<string, FileState>

    constructor (cfg: Config, positions: Positions)
      ensures this.cfg == cfg && this.positions == positions && files == map[]
    {
      this.cfg, this.positions, files := cfg, positions, map[];
    }

    method ReadFile(path: string, look: Look, sends: Option<nat>) returns (out: seq<Entry>, end: PassEnd)
      modifies this`files
      ensures var st := Opened(Lookup(old(files), path), Lookup(positions.m, path), look.inode, look.size);
              var pass := ReadFileSpec(cfg.rules, look, st, sends);
              && files == old(files)[path := FileState(st.inode, pass.at)]
              && out == ToEntries(cfg, path, st.inode, pass.out)
              && ShipsAll(cfg, path, st.inode, pass.out, out)
              && end == pass.end
    {
      hide StepLine, ReadLines, ToEntry, ShipsAll;
      var pos := positions.Get(path);
      var st := Opened(Lookup(files, path), pos, look.inode, look.size);
      files := files[path := st];
      EntriesShip(cfg, path, st.inode, ReadFileSpec(cfg.rules, look, st, sends).out);
      if look.size == st.at.offset {
        return [], EndOfFile;
      }
      out, end := ReadOn(path, After(look.content, st.at), look.broken, sends);
    }

    // The line loop of ReadFile, from the recorded point of path.
    method ReadOn(path: string, content: string, failAfter: Option<nat>, sends: Option<nat>)
      returns (out: seq<Entry>, end: PassEnd)
      requires path in files
      modifies this`files
      ensures var st := old(files)[path];
              var pass := ReadLines(cfg.rules, content, st.at, failAfter, sends);
              && files == old(files)[path := FileState(st.inode, pass.at)]
              && out == ToEntries(cfg, path, st.inode, pass.out)
              && ShipsAll(cfg, path, st.inode, pass.out, out)
              && end == pass.end
    {
      hide StepLine, ReadLines, ToEntry, ToEntries, ShipsAll;
      EntriesShip(cfg, path, files[path].inode,
                  ReadLines(cfg.rules, content, files[path].at, failAfter, sends).out);
      out := [];
      var rest, broken, left := content, failAfter, sends;
      var st := files[path];
      ghost var done: seq<Message> := [];
      assert ToEntries(cfg, path, st.inode, done) == [];
      ghost var all := ReadLines(cfg.rules, rest, st.at, broken, left);
      while broken != Some(0) && IndexOf(rest, '\n') < |rest|
        invariant path in files && files == old(files)[path := FileState(st.inode, files[path].at)]
        invariant out == ToEntries(cfg, path, st.inode, done)
        invariant var later := ReadLines(cfg.rules, rest, files[path].at, broken, left);
                  all == Pass(later.at, done + later.out, later.end)
        decreases |rest|
      {
        var i := IndexOf(rest, '\n');
        var raw, tail := rest[..i], rest[i + 1..];
        assert rest == raw + "\n" + tail;
        var at := files[path].at;
        ReadLinesLine(cfg.rules, raw, tail, at, broken, left);
        var line := StepLine(cfg.rules, at, raw);
        files := files[path := files[path].(at := line.at)];
        if line.out != [] {
          if left == Some(0) {
            assert done + [] == done;
            return out, Cancelled;
          }
          out := out + [ToEntry(cfg, path, st.inode, line.out[0])];
          left := Less(left);
        }
        ghost var later := ReadLines(cfg.rules, tail, line.at, Less(broken), left);
        assert done + (line.out + later.out) == (done + line.out) + later.out;
        EntriesJoin(cfg, path, st.inode, done, line.out);
        LineEntries(cfg, path, st.inode, at, raw);
        done := done + line.out;
        rest, broken := tail, Less(broken);
      }
      ReadLinesStop(cfg.rules, rest, files[path].at, broken, left) by {
        assert broken != Some(0) ==> '\n' !in rest;
      }
      assert done + [] == done;
      end := if broken == Some(0) then ReadFailed else EndOfFile;
    }

    // One pass over the directory. A file that cannot be opened keeps its state and its position. A pass that a
    // finished ctx ends forgets nothing.
    method Poll(found: seq<Found>, sends: Option<nat>) returns (out: seq<Entry>, cancelled: bool)
      modifies this`files, positions`m
      ensures var r := PollSpec(cfg, old(positions.m), found, old(files), sends);
              && out == r.out && cancelled == r.cancelled
              && files == (if cancelled then r.files else Restrict(r.files, Seen(cfg, found)))
              && positions.m == if cancelled then old(positions.m) else Restrict(old(positions.m), Seen(cfg, found))
      ensures forall e :: e in out ==> IsFollowed(cfg, e.file)
      ensures !cancelled ==> forall file ::
                (file in positions.m <==>
                   && file in old(positions.m) && IsFollowed(cfg, file)
                   && exists i :: 0 <= i < |found| && found[i].path == file)
      ensures forall file :: file in positions.m ==> positions.m[file] == old(positions.m)[file]
    {
      hide ReadFileSpec, Opened, Wanted, IsFollowed, Seen, ToEntries, ShipsAll, Restrict;
      PollOnlyWanted(cfg, positions.m, found, files, sends);
      SeenIsListed(cfg, found);
      out, cancelled := [], false;
      var seen: set<string> := {};
      var left := sends;
      var i := 0;
      assert Seen(cfg, found[..0]) == {} by { NothingSeen(cfg, found); }
      ghost var all := PollSpec(cfg, positions.m, found, files, sends);
      while i < |found|
        invariant 0 <= i <= |found|
        invariant positions.m == old(positions.m)
        invariant seen == Seen(cfg, found[..i])
        invariant var later := PollSpec(cfg, positions.m, found[i..], files, left);
                  all == Polled(later.files, out + later.out, later.cancelled)
      {
        var Found(path, look, done) := found[i];
        assert found[i..][1..] == found[i + 1..];
        SeenGrows(cfg, found, i);
        ghost var before := out;
        if Wanted(cfg, path) {
          seen := seen + {path};
          if look.None? {
            if done {
              assert before + [] == before;
              return out, true;
            }
          } else {
            var sent, end := ReadFile(path, look.value, left);
            out := out + sent;
            if EndsPass(end, done) {
              return out, true;
            }
            left := Spent(left, |sent|);
            ghost var later := PollSpec(cfg, positions.m, found[i + 1..], files, left);
            assert before + (sent + later.out) == out + later.out;
          }
        }
        i := i + 1;
      }
      assert found[i..] == [] && found[..i] == found;
      files := Restrict(files, seen);
      positions.Retain(seen);
    }

    // Polls until a pass is cancelled or ctx is done after one, or as long as there are rounds.
    method Run(rounds: seq<Round>) returns (out: seq<Entry>, ended: bool)
      modifies this`files, positions`m
      ensures RunSpec(cfg, Tailed(old(files), old(positions.m), [], false), rounds) ==
              Tailed(files, positions.m, out, ended)
    {
      hide PollSpec, Seen;
      out, ended := [], false;
      ghost var first := Tailed(files, positions.m, [], false);
      var i := 0;
      while i < |rounds| && !ended
        invariant 0 <= i <= |rounds|
        invariant RunSpec(cfg, first, rounds[..i]) == Tailed(files, positions.m, out, ended)
      {
        assert rounds[..i + 1][..i] == rounds[..i];
        positions.m := positions.m + rounds[i].shipped;
        var sent, cancelled := Poll(rounds[i].found, rounds[i].sends);
        out := out + sent;
        ended := cancelled || rounds[i].stop;
        i := i + 1;
      }
      assert rounds[..i] + rounds[i..] == rounds;
      assert i == |rounds| ==> rounds[..i] == rounds;
      if ended {
        EndedStays(cfg, first, rounds[..i], rounds[i..]);
      }
    }
  }

  /** After a cancelled pass, or a pause that saw ctx done, nothing more is read or sent, and no state changes. */
  lemma {:induction false} EndedStays(cfg: Config, first: Tailed, before: seq<Round>, after: seq<Round>)
    requires RunSpec(cfg, first, before).ended
    ensures RunSpec(cfg, first, before + after) == RunSpec(cfg, first, before)
  {
    hide RoundSpec;
    if after == [] {
      assert before + after == before;
    } else {
      var n := |after| - 1;
      EndedStays(cfg, first, before, after[..n]);
      assert (before + after)[..|before| + n] == before + after[..n];
    }
  }

  // ---- Passes against Scan ----

  lemma {:induction false} NotCancelled(rules: Rules, s: string, p: Point, broken: Option<nat>)
    ensures ReadLines(rules, s, p, broken, None).end != Cancelled
    ensures broken == None ==> ReadLines(rules, s, p, broken, None).end == EndOfFile
    decreases |s|
  {
    hide StepLine;
    var i := IndexOf(s, '\n');
    if broken != Some(0) && i < |s| {
      NotCancelled(rules, s[i + 1..], StepLine(rules, p, s[..i]).at, Less(broken));
    }
  }

  // What one pass did is a scan of the lines it consumed. A cancelled pass has read one
  // message more than it sent.
  lemma {:induction false} PassIsScan(rules: Rules, s: string, p: Point, broken: Option<nat>, sends: Option<nat>)
    returns (read: string)
    ensures read <= s
    ensures var pass := ReadLines(rules, s, p, broken, sends);
            var r := Scan(rules, read, p);
            && pass.at.offset == p.offset + |read|
            && r.at == pass.at
            && (pass.end != Cancelled ==> r.out == pass.out)
            && (pass.end == Cancelled ==> exists lost :: r.out == pass.out + [lost])
            && (pass.end == EndOfFile ==> Scan(rules, s, p) == Scanned(pass.at, pass.out))
    decreases |s|
  {
    hide StepLine, Scan, ReadLines;
    if broken == Some(0) || '\n' !in s {
      read := "";
      ReadLinesStop(rules, s, p, broken, sends);
      ScanStop(rules, "", p);
      if '\n' !in s {
        ScanStop(rules, s, p);
      }
    } else {
      var raw, rest := FirstLine(s);
      var first := StepLine(rules, p, raw);
      ScanLine(rules, raw, rest, p);
      ReadLinesLine(rules, raw, rest, p, broken, sends);
      if first.out != [] && sends == Some(0) {
        read := raw + "\n" + "";
        ScanLine(rules, raw, "", p);
        ScanStop(rules, "", first.at);
        assert first.out + [] == [] + [first.out[0]];
      } else {
        var sends' := if first.out == [] then sends else Less(sends);
        var more := PassIsScan(rules, rest, first.at, Less(broken), sends');
        var later := ReadLines(rules, rest, first.at, Less(broken), sends');
        read := raw + "\n" + more;
        ScanLine(rules, raw, more, p);
        if later.end == Cancelled {
          var lost :| Scan(rules, more, first.at).out == later.out + [lost];
          assert first.out + (later.out + [lost]) == (first.out + later.out) + [lost];
        }
      }
    }
  }

  // A scan of more bytes from where everything before was consumed.
  lemma DecodeExtend(rules: Rules, content: string, o: nat, n: nat)
    requires o + n <= |content| && Decode(rules, content[..o]).at.offset == o
    ensures var a := Decode(rules, content[..o]);
            var b := Scan(rules, content[o..][..n], a.at);
            Decode(rules, content[..o + n]) == Scanned(b.at, a.out + b.out)
  {
    hide Scan;
    assert content[..o + n] == content[..o] + content[o..][..n];
    ScanGrow(rules, content[..o], content[o..][..n], START);
    assert Unread(rules, content[..o], START) + content[o..][..n] == content[o..][..n];
  }

  /** A file that was rotated, or is shorter than what was read of it, is read again from
      the top, and what was pending before is forgotten. */
  lemma RotatedOrTruncatedIsReadWhole(rules: Rules, known: FileState, saved: Option<Position>, look: Look)
    requires known.inode != look.inode || look.size < known.at.offset
    requires look.broken == None && look.size == |look.content|
    ensures var st := Opened(Some(known), saved, look.inode, look.size);
            var pass := ReadFileSpec(rules, look, st, None);
            st.inode == look.inode && Decode(rules, look.content) == Scanned(pass.at, pass.out)
  {
    hide Scan, ReadLines;
    if look.content == "" {
      ScanStop(rules, "", START);
    } else {
      assert look.content[0..] == look.content;
      NotCancelled(rules, look.content, START, None);
      var read := PassIsScan(rules, look.content, START, None, None);
    }
  }

  /** A file first seen in this process resumes at its saved position, if that is for the same inode; if every byte
      before the position decodes with nothing pending, the pass emits exactly the messages after it. */
  lemma ResumedPassContinues(rules: Rules, pos: Position, look: Look)
    requires pos.inode == look.inode && look.broken == None && look.size == |look.content| && pos.offset <= look.size
    requires Decode(rules, look.content[..pos.offset]).at == Point(pos.offset, "")
    ensures var st := Opened(None, Some(pos), look.inode, look.size);
            var pass := ReadFileSpec(rules, look, st, None);
            var all := Decode(rules, look.content);
            all.at == pass.at && all.out == Decode(rules, look.content[..pos.offset]).out + pass.out
  {
    hide Scan, ReadLines;
    var o := pos.offset;
    var rest := look.content[o..];
    DecodeExtend(rules, look.content, o, |rest|);
    assert rest[..|rest|] == rest && look.content[..o + |rest|] == look.content;
    NotCancelled(rules, rest, Point(o, ""), None);
    var read := PassIsScan(rules, rest, Point(o, ""), None, None);
    if look.size == o {
      ScanStop(rules, "", Point(o, ""));
      assert rest == "";
    }
  }

  // The files a pass sees are the listed ones that the agent ships.
  lemma SeenIsListed(cfg: Config, found: seq<Found>)
    ensures forall file ::
              (file in Seen(cfg, found) <==>
                 IsFollowed(cfg, file) && exists i :: 0 <= i < |found| && found[i].path == file)
  {
    hide Wanted, IsFollowed;
    forall file
      ensures file in Seen(cfg, found) <==>
              IsFollowed(cfg, file) && exists i :: 0 <= i < |found| && found[i].path == file
    {
      WantedIsFollowed(cfg, file);
    }
  }

  /** A pass ships only entries of files of other containers, in the agent's namespace if it has one, and leaves
      the state of every other file alone. */
  lemma {:induction false} PollOnlyWanted(cfg: Config, saved: map<string, Position>, found: seq<Found>,
                                          files: map<string, FileState>, sends: Option<nat>)
    ensures var r := PollSpec(cfg, saved, found, files, sends);
            && (forall e :: e in r.out ==> IsFollowed(cfg, e.file))
            && (forall path :: !IsFollowed(cfg, path) ==> Lookup(r.files, path) == Lookup(files, path))
  {
    hide Wanted, Opened, ReadFileSpec, IsFollowed;
    if found != [] {
      var Found(path, look, done) := found[0];
      WantedIsFollowed(cfg, path);
      if !Wanted(cfg, path) || look.None? {
        PollOnlyWanted(cfg, saved, found[1..], files, sends);
      } else {
        var st := Opened(Lookup(files, path), Lookup(saved, path), look.value.inode, look.value.size);
        var pass := ReadFileSpec(cfg.rules, look.value, st, sends);
        var out := ToEntries(cfg, path, st.inode, pass.out);
        assert forall e :: e in out ==> e.file == path;
        if !EndsPass(pass.end, done) {
          PollOnlyWanted(cfg, saved, found[1..], files[path := FileState(st.inode, pass.at)], Spent(sends, |out|));
        }
      }
    }
  }

  /** A file that cannot be opened while ctx is done ends the pass, wherever it is listed. */
  lemma {:induction false} OpenFailureEndsPass(cfg: Config, saved: map<string, Position>, found: seq<Found>,
                                               files: map<string, FileState>, sends: Option<nat>, i: nat)
    requires i < |found| && IsFollowed(cfg, found[i].path) && found[i].look == None && found[i].done
    ensures PollSpec(cfg, saved, found, files, sends).cancelled
    decreases |found|
  {
    hide Wanted, Opened, ReadFileSpec, IsFollowed;
    var Found(path, look, done) := found[0];
    WantedIsFollowed(cfg, path);
    if i > 0 {
      if !Wanted(cfg, path) || look.None? {
        OpenFailureEndsPass(cfg, saved, found[1..], files, sends, i - 1);
      } else {
        var st := Opened(Lookup(files, path), Lookup(saved, path), look.value.inode, look.value.size);
        var pass := ReadFileSpec(cfg.rules, look.value, st, sends);
        var out := ToEntries(cfg, path, st.inode, pass.out);
        OpenFailureEndsPass(cfg, saved, found[1..], files[path := FileState(st.inode, pass.at)],
                            Spent(sends, |out|), i - 1);
      }
    }
  }

  /** So does a file, seen for the first time, whose first read fails; whatever comes after it is not looked at. */
  lemma ReadFailureEndsPass(cfg: Config, saved: map<string, Position>, found: seq<Found>,
                            files: map<string, FileState>, sends: Option<nat>)
    requires found != [] && IsFollowed(cfg, found[0].path) && found[0].done && found[0].look.Some?
    requires found[0].path !in files && found[0].path !in saved
    requires found[0].look.value.broken == Some(0) && found[0].look.value.size > 0
    ensures var r := PollSpec(cfg, saved, found, files, sends);
            r.cancelled && r.out == [] && r.files == PollSpec(cfg, saved, found[..1], files, sends).files
  {
    WantedIsFollowed(cfg, found[0].path);
    assert found[..1][0] == found[0];
  }
}
