/** The node agent as a whole: files that grow and rotate, the tailer goroutine, the bounded
    channel, the shipper goroutine, positions in memory and on disk, a server that may or may
    not answer, cancellation, crashes and restarts. One action is one atomic step of one of
    them; a run is any interleaving (internal/logagent/agent.go, tailer.go, shipper.go). */
module Pipeline {
  import opened Wrappers
  import opened Cri
  import opened Decoder
  import opened Entities
  import opened Tailing

  // A file's identity: the same path names another file after a rotation.
  datatype Key = Key(path: string, inode: nat)

  // Where Shipper.Run is. final marks the one shutdown attempt.
  datatype Phase =
    | Collecting
    | Sending(final: bool)
    | Committing(final: bool, next: nat)
    | Stopped

  datatype World = World(
    // the node
    contents: map<Key, string>,
    current: map<string, nat>,
    disk: map<string, Position>,
    // the tailer, and the positions both goroutines share
    files: map<string, FileState>,
    reading: Option<string>,
    tailing: bool,
    mem: map<string, Position>,
    cancelled: bool,
    // the channel
    queue: seq<Entry>,
    closed: bool,
    // the shipper
    batch: seq<Entry>,
    phase: Phase,
    // history: given up by flush in this process; receipted ever; every copy that reached the server
    abandoned: seq<Entry>,
    delivered: set<Entry>,
    arrived: seq<Entry>)

  datatype Action =
    // environment
    | Grow(key: Key, bytes: string)
    | Rotate(path: string, inode: nat)
    | Remove(path: string)
    | Cancel
    | Crash
    // tailer
    | Open(path: string)
    | ReadLine
    | DropLine
    | CloseFile
    | EndPass(seen: set<string>)
    | StopTailing
    | CloseChannel
    // shipper
    | Receive
    | Tick
    | Finish
    | SendFailed(reached: nat)
    | Abandon
    | Receipt
    | SetPosition
    | Save(renamed: bool)

  function KeyOf(e: Entry): Key {
    Key(e.file, e.inode)
  }

  function ToSet(es: seq<Entry>): set<Entry> {
    set e | e in es
  }

  // Entries between the tailer and their receipt, oldest first.
  function Pipe(s: World): seq<Entry> {
    s.batch + s.queue
  }

  predicate HasLine(s: World, path: string) {
    && path in s.files
    && var k := Key(path, s.files[path].inode);
    && k in s.contents
    && s.files[path].at.offset <= |s.contents[k]|
    && '\n' in s.contents[k][s.files[path].at.offset..]
  }

  function RawLine(s: World, path: string): (raw: string)
    requires HasLine(s, path)
  {
    var rest := s.contents[Key(path, s.files[path].inode)][s.files[path].at.offset..];
    rest[..IndexOf(rest, '\n')]
  }

  function LineAt(cfg: Config, s: World, path: string): Scanned
    requires HasLine(s, path)
  {
    StepLine(cfg.rules, s.files[path].at, RawLine(s, path))
  }

  // The bytes of the open file that are not read yet.
  function Rest(s: World, path: string): string
    requires path in s.files && Key(path, s.files[path].inode) in s.contents
    requires s.files[path].at.offset <= |s.contents[Key(path, s.files[path].inode)]|
  {
    s.contents[Key(path, s.files[path].inode)][s.files[path].at.offset..]
  }

  // Its next line.
  lemma LineHere(cfg: Config, s: World, path: string, raw: string, rest: string)
    requires path in s.files && Key(path, s.files[path].inode) in s.contents
    requires s.files[path].at.offset <= |s.contents[Key(path, s.files[path].inode)]|
    requires '\n' !in raw && Rest(s, path) == raw + "\n" + rest
    ensures HasLine(s, path) && LineAt(cfg, s, path) == StepLine(cfg.rules, s.files[path].at, raw)
  {
    hide StepLine;
    IndexOfFirst(raw, '\n', rest);
    var t := raw + "\n" + rest;
    assert t[|raw|] == '\n' && t[..|raw|] == raw;
  }

  function Send(n: nat, s: World): World
    requires n <= |s.batch|
  {
    s.(arrived := s.arrived + s.batch[..n])
  }

  predicate Enabled(cfg: Config, a: Action, s: World) {
    match a
    case Grow(_, _) | Rotate(_, _) | Remove(_) | Cancel | Crash => true
    case Open(path) =>
      s.tailing && s.reading == None && Wanted(cfg, path) &&
      path in s.current && Key(path, s.current[path]) in s.contents
    case ReadLine =>
      s.tailing && s.reading.Some? && HasLine(s, s.reading.value) &&
      (LineAt(cfg, s, s.reading.value).out == [] || |s.queue| < cfg.batchSize)
    case DropLine =>
      s.tailing && s.cancelled && s.reading.Some? && HasLine(s, s.reading.value) &&
      LineAt(cfg, s, s.reading.value).out != []
    case CloseFile => s.reading.Some?
    case EndPass(_) => s.tailing && s.reading == None
    case StopTailing => s.tailing && s.cancelled && s.reading == None
    case CloseChannel => !s.tailing
    case Receive => s.phase == Collecting && s.queue != []
    case Tick => s.phase == Collecting && s.batch != [] && !s.cancelled
    case Finish => s.phase == Collecting && s.queue == [] && s.closed
    case SendFailed(reached) => s.phase.Sending? && reached <= |s.batch|
    case Abandon => s.phase == Sending(false) && s.cancelled
    case Receipt => s.phase.Sending?
    case SetPosition => s.phase.Committing? && s.phase.next < |s.batch|
    case Save(_) => s.phase.Committing? && s.phase.next == |s.batch|
  }

  // keep selects the repaired Run, which does not clear a batch that flush gave up on.
  function Apply(cfg: Config, keep: bool, a: Action, s: World): World
    requires Enabled(cfg, a, s)
  {
    match a
    case Grow(key, bytes) =>
      s.(contents := s.contents[key := (if key in s.contents then s.contents[key] else "") + bytes])
    case Rotate(path, inode) =>
      var k := Key(path, inode);
      s.(contents := if k in s.contents then s.contents else s.contents[k := ""], current := s.current[path := inode])
    case Remove(path) => s.(current := s.current - {path})
    case Cancel => s.(cancelled := true)
    case Crash =>
      s.(files := map[], reading := None, tailing := true, mem := s.disk, cancelled := false,
         queue := [], closed := false, batch := [], phase := Collecting, abandoned := [])
    case Open(path) =>
      var inode := s.current[path];
      var st := Opened(Lookup(s.files, path), Lookup(s.mem, path), inode, |s.contents[Key(path, inode)]|);
      s.(files := s.files[path := st], reading := Some(path))
    case ReadLine =>
      var path := s.reading.value;
      var inode, line := s.files[path].inode, LineAt(cfg, s, path);
      s.(files := s.files[path := FileState(inode, line.at)], queue := s.queue + ToEntries(cfg, path, inode, line.out))
    case DropLine =>
      var path := s.reading.value;
      s.(files := s.files[path := FileState(s.files[path].inode, LineAt(cfg, s, path).at)],
         reading := None, tailing := false)
    case CloseFile => s.(reading := None)
    case EndPass(seen) => s.(files := Restrict(s.files, seen), mem := Restrict(s.mem, seen))
    case StopTailing => s.(tailing := false)
    case CloseChannel => s.(closed := true)
    case Receive =>
      var batch := s.batch + [s.queue[0]];
      s.(queue := s.queue[1..], batch := batch,
         phase := if |batch| >= cfg.batchSize && !s.cancelled then Sending(false) else Collecting)
    case Tick => s.(phase := Sending(false))
    case Finish => s.(phase := if s.batch == [] then Stopped else Sending(true))
    case SendFailed(reached) => Send(reached, s).(phase := if s.phase.final then Stopped else s.phase)
    case Abandon =>
      if keep then s.(phase := Collecting)
      else s.(phase := Collecting, batch := [], abandoned := s.abandoned + s.batch)
    case Receipt =>
      Send(|s.batch|, s).(delivered := s.delivered + ToSet(s.batch), phase := Committing(s.phase.final, 0))
    case SetPosition =>
      var e := s.batch[s.phase.next];
      s.(mem := s.mem[e.file := Position(e.inode, e.offset)], phase := Committing(s.phase.final, s.phase.next + 1))
    case Save(renamed) =>
      s.(disk := if renamed then s.mem else s.disk, batch := [], phase := if s.phase.final then Stopped else Collecting)
  }

  // A first start: nothing saved, nothing read, nothing sent.
  ghost predicate Init(s: World) {
    && s.disk == s.mem == map[] && s.files == map[] && s.reading == None
    && s.tailing && !s.cancelled && !s.closed
    && s.queue == s.batch == s.abandoned == s.arrived == [] && s.phase == Collecting && s.delivered == {}
  }

  ghost predicate Run(cfg: Config, keep: bool, states: seq<World>, acts: seq<Action>) {
    && |states| == |acts| + 1 && Init(states[0])
    && forall i :: 0 <= i < |acts| ==>
         Enabled(cfg, acts[i], states[i]) && states[i + 1] == Apply(cfg, keep, acts[i], states[i])
  }

  // Every message of the file that ends at or before the saved offset has been receipted.
  ghost predicate Delivered(cfg: Config, s: World, file: string, pos: Position) {
    var k := Key(file, pos.inode);
    && k in s.contents && pos.offset <= |s.contents[k]|
    && forall m :: m in Decode(cfg.rules, s.contents[k]).out && m.end <= pos.offset ==>
         ToEntry(cfg, file, pos.inode, m) in s.delivered
  }

  // The promise of the agent: no position, in memory or on disk, is ahead of delivery.
  ghost predicate CheckpointsDelivered(cfg: Config, s: World) {
    && (forall file :: file in s.mem ==> Delivered(cfg, s, file, s.mem[file]))
    && (forall file :: file in s.disk ==> Delivered(cfg, s, file, s.disk[file]))
  }
}
