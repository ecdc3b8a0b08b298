/** Duplicates. While saves succeed, ctx is live and files do not vanish, an entry reaches the
    server twice only if it was in the batch in flight at a crash or at a send that failed half-way. */
module ExactlyOnce {
  import opened Decoder
  import opened Entities
  import opened Tailing
  import opened Pipeline
  import opened FifoInvariant
  import opened AtLeastOnce

  // The runs the claim is about: no shutdown, no failed save, no file that goes away, and
  // no inode number used twice at one path.
  ghost predicate Quiet(a: Action, s: World) {
    match a
    case Rotate(path, inode) => Key(path, inode) !in s.contents
    case EndPass(seen) => s.files.Keys <= seen && s.mem.Keys <= seen
    case Save(renamed) => renamed
    case Remove(_) | Cancel => false
    case _ => true
  }

  ghost predicate QuietRun(cfg: Config, keep: bool, states: seq<World>, acts: seq<Action>) {
    && Run(cfg, keep, states, acts)
    && cfg.batchSize > 0
    && forall i :: 0 <= i < |acts| ==> Quiet(acts[i], states[i])
  }

  // An attempt on the batch is interrupted here: by a crash, or by a failure after something arrived.
  predicate Interrupts(a: Action, s: World) {
    (a.Crash? || (a.SendFailed? && a.reached > 0)) && s.phase != Collecting
  }

  // Every entry that was in an interrupted batch during the first n actions.
  ghost function Retried(states: seq<World>, acts: seq<Action>, n: nat): set<Entry>
    requires n <= |acts| < |states|
  {
    if n == 0 then {}
    else
      var a, s := acts[n - 1], states[n - 1];
      Retried(states, acts, n - 1) + (if Interrupts(a, s) then ToSet(s.batch) else {})
  }

  // e belongs to the file its path names now.
  ghost predicate Live(current: map<string, nat>, e: Entry) {
    e.file in current && current[e.file] == e.inode
  }

  // Arrived, and never in an interrupted batch.
  ghost predicate Once(s: World, retried: set<Entry>, e: Entry) {
    e in s.arrived && e !in retried
  }

  ghost predicate Past(s: World, retried: set<Entry>, e: Entry) {
    Once(s, retried, e) && e !in s.batch
  }

  ghost predicate Settled(m: map<string, Position>, e: Entry) {
    e.file in m && m[e.file].inode == e.inode && e.offset <= m[e.file].offset
  }

  ghost predicate Calm(cfg: Config, s: World) {
    && s.tailing && !s.cancelled && !s.closed
    && |s.batch| <= cfg.batchSize && (s.phase == Collecting ==> |s.batch| < cfg.batchSize)
    && s.phase != Stopped
    && (s.phase.Sending? || s.phase.Committing? ==> !s.phase.final)
    && (s.phase.Committing? ==> s.phase.next <= |s.batch|)
  }

  // Of two entries of one path, x comes first: earlier in its file, and live only if y is.
  ghost predicate Ahead(current: map<string, nat>, x: Entry, y: Entry) {
    (x.inode == y.inode ==> x.offset < y.offset) && (Live(current, x) ==> Live(current, y))
  }

  ghost predicate InOrder(current: map<string, nat>, es: seq<Entry>) {
    forall i, j :: 0 <= i < j < |es| && es[i].file == es[j].file ==>
      Ahead(current, es[i], es[j])
  }

  ghost predicate PipeOrder(s: World) {
    InOrder(s.current, Pipe(s))
  }

  // How one sent or queued entry stands to the tailer's state of its file.
  ghost predicate ReadPast(s: World, e: Entry) {
    && KeyOf(e) in s.contents
    && (e.file in s.files ==>
          && (s.files[e.file].inode == e.inode ==> e.offset <= s.files[e.file].at.offset)
          && (Live(s.current, e) ==> s.files[e.file].inode == e.inode))
  }

  ghost predicate PipeRead(s: World) {
    forall i :: 0 <= i < |Pipe(s)| ==> ReadPast(s, Pipe(s)[i]) && Pipe(s)[i].file in s.files
  }

  ghost predicate ArrivedRead(s: World, retried: set<Entry>) {
    forall e :: Once(s, retried, e) ==> ReadPast(s, e)
  }

  // Entries past the batch are behind everything in the pipe, and, while their file is
  // the current one, behind its positions.
  ghost predicate PastBehind(s: World, retried: set<Entry>) {
    forall e, i :: Past(s, retried, e) && 0 <= i < |Pipe(s)| && Pipe(s)[i].file == e.file ==>
      Ahead(s.current, e, Pipe(s)[i])
  }

  ghost predicate PastSettled(s: World, retried: set<Entry>) {
    forall e :: Past(s, retried, e) && Live(s.current, e) ==> Settled(s.disk, e) && Settled(s.mem, e)
  }

  ghost predicate CommittedSettled(s: World) {
    s.phase.Committing? ==>
      forall j :: 0 <= j < s.phase.next <= |s.batch| && Live(s.current, s.batch[j]) ==> Settled(s.mem, s.batch[j])
  }

  // What is in the pipe has not arrived, except the batch being committed.
  ghost predicate PipeNew(s: World, retried: set<Entry>) {
    && (forall i :: 0 <= i < |s.queue| ==> !Once(s, retried, s.queue[i]))
    && (!s.phase.Committing? ==> forall i :: 0 <= i < |s.batch| ==> !Once(s, retried, s.batch[i]))
  }

  ghost predicate Counted(s: World, retried: set<Entry>) {
    && (forall e :: e !in retried ==> multiset(s.arrived)[e] <= 1)
    && (forall e :: e in s.delivered ==> e in s.arrived)
  }

  ghost predicate QuietInv(cfg: Config, s: World, retried: set<Entry>) {
    && Calm(cfg, s) && PipeOrder(s) && PipeRead(s) && ArrivedRead(s, retried)
    && PastBehind(s, retried) && PastSettled(s, retried) && CommittedSettled(s)
    && PipeNew(s, retried) && Counted(s, retried)
  }

  // ---- Steps that leave the pipe and the history alone ----

  lemma GrowStep(cfg: Config, keep: bool, a: Action, s: World, retried: set<Entry>)
    requires QuietInv(cfg, s, retried) && Enabled(cfg, a, s) && (a.Grow? || a.CloseFile?)
    ensures QuietInv(cfg, Apply(cfg, keep, a, s), retried)
  {
    var s' := Apply(cfg, keep, a, s);
    assert Pipe(s') == Pipe(s);
    assert forall e :: Once(s', retried, e) == Once(s, retried, e);
    assert forall e :: Past(s', retried, e) == Past(s, retried, e);
  }

  // A rotation to a fresh inode makes nothing live that was not, and nothing of that path.
  lemma RotateLive(cfg: Config, keep: bool, a: Action, s: World, retried: set<Entry>)
    requires Enabled(cfg, a, s) && a.Rotate? && Quiet(a, s)
    ensures var s' := Apply(cfg, keep, a, s);
            && (forall e :: Once(s', retried, e) == Once(s, retried, e))
            && (forall e :: Past(s', retried, e) == Past(s, retried, e))
            && (forall e: Entry :: KeyOf(e) in s.contents && Live(s'.current, e) ==>
                  Live(s.current, e) && e.file != a.path)
            && (forall e: Entry :: e.file != a.path ==> Live(s'.current, e) == Live(s.current, e))
            && (forall e :: ReadPast(s, e) ==> ReadPast(s', e))
  {
  }

  lemma RotateOrder(cfg: Config, keep: bool, a: Action, s: World, retried: set<Entry>)
    requires PipeOrder(s) && PipeRead(s) && ArrivedRead(s, retried) && PastBehind(s, retried)
    requires Enabled(cfg, a, s) && a.Rotate? && Quiet(a, s)
    ensures var s' := Apply(cfg, keep, a, s);
            PipeOrder(s') && PipeRead(s') && ArrivedRead(s', retried) && PastBehind(s', retried)
  {
    hide Live, Once, Past;
    var s' := Apply(cfg, keep, a, s);
    RotateLive(cfg, keep, a, s, retried);
    assert Pipe(s') == Pipe(s);
    assert forall i :: 0 <= i < |Pipe(s)| ==> ReadPast(s, Pipe(s)[i]);
    assert forall e :: Past(s, retried, e) ==> ReadPast(s, e) by { PastIsOnce(s, retried); }
    hide ReadPast;
    assert forall i :: 0 <= i < |Pipe(s)| ==> KeyOf(Pipe(s)[i]) in s.contents by { KeysRead(s, retried); }
    assert forall e :: Past(s, retried, e) ==> KeyOf(e) in s.contents by { KeysRead(s, retried); }
  }

  lemma PastIsOnce(s: World, retried: set<Entry>)
    ensures forall e :: Past(s, retried, e) ==> Once(s, retried, e)
  {
  }

  lemma KeysRead(s: World, retried: set<Entry>)
    requires PipeRead(s) && ArrivedRead(s, retried)
    ensures forall i :: 0 <= i < |Pipe(s)| ==> KeyOf(Pipe(s)[i]) in s.contents
    ensures forall i :: 0 <= i < |s.batch| ==> KeyOf(s.batch[i]) in s.contents
    ensures forall e :: Past(s, retried, e) ==> KeyOf(e) in s.contents
  {
    assert forall i :: 0 <= i < |s.batch| ==> Pipe(s)[i] == s.batch[i];
  }

  lemma RotateStep(cfg: Config, keep: bool, a: Action, s: World, retried: set<Entry>)
    requires QuietInv(cfg, s, retried) && Enabled(cfg, a, s) && a.Rotate? && Quiet(a, s)
    ensures QuietInv(cfg, Apply(cfg, keep, a, s), retried)
  {
    hide Settled, Live, Once, Past, PipeOrder, PipeRead, ArrivedRead, PastBehind;
    RotateLive(cfg, keep, a, s, retried);
    RotateOrder(cfg, keep, a, s, retried);
    KeysRead(s, retried);
  }

  lemma EndPassStep(cfg: Config, keep: bool, a: Action, s: World, retried: set<Entry>)
    requires QuietInv(cfg, s, retried) && Enabled(cfg, a, s) && a.EndPass? && Quiet(a, s)
    ensures QuietInv(cfg, Apply(cfg, keep, a, s), retried)
  {
    hide QuietInv;
    assert Restrict(s.files, a.seen) == s.files;
    assert Restrict(s.mem, a.seen) == s.mem;
  }

  // ---- Opening a file and reading a line ----

  // Where Open starts is not before anything already read from this file.
  lemma OpenReadPast(cfg: Config, s: World, s': World, path: string, retried: set<Entry>, e: Entry)
    requires QuietInv(cfg, s, retried) && Inv(cfg, s) && Enabled(cfg, Open(path), s)
    requires s' == Apply(cfg, false, Open(path), s)
    requires Once(s, retried, e) || e in Pipe(s)
    ensures ReadPast(s', e)
  {
    hide Inv, Consistent, PipeOrder, PastBehind, CommittedSettled, PipeNew, Counted, Calm;
    assert ReadPast(s, e);
    if e.file == path {
      OffsetInFile(cfg, s, path);
      if path !in s.files && Live(s.current, e) {
        assert e !in Pipe(s);
        assert Past(s, retried, e) by {
          BatchInPipe(s, e);
        }
      }
    }
  }

  lemma OffsetInFile(cfg: Config, s: World, path: string)
    requires Inv(cfg, s)
    ensures path in s.mem ==>
              Key(path, s.mem[path].inode) in s.contents &&
              s.mem[path].offset <= |s.contents[Key(path, s.mem[path].inode)]|
    ensures path in s.files ==>
              Key(path, s.files[path].inode) in s.contents &&
              s.files[path].at.offset <= |s.contents[Key(path, s.files[path].inode)]|
  {
    hide Closed, AllGenuine, UpTo, Decode, Within, FilesWithin;
  }

  lemma BatchInPipe(s: World, e: Entry)
    ensures e in s.batch ==> e in Pipe(s)
    ensures e in s.queue ==> e in Pipe(s)
  {
  }

  // Only the tailer's view of the files changed.
  lemma FilesStep(cfg: Config, s: World, s': World, retried: set<Entry>)
    requires QuietInv(cfg, s, retried)
    requires s' == s.(files := s'.files, reading := s'.reading) && s.files.Keys <= s'.files.Keys
    requires forall e :: Once(s, retried, e) || e in Pipe(s) ==> ReadPast(s', e)
    ensures QuietInv(cfg, s', retried)
  {
    hide ReadPast, Settled;
    assert Pipe(s') == Pipe(s);
    assert forall e :: Once(s', retried, e) == Once(s, retried, e);
    assert forall e :: Past(s', retried, e) == Past(s, retried, e);
    assert forall i :: 0 <= i < |Pipe(s)| ==> Pipe(s)[i] in Pipe(s);
  }

  lemma OpenQuiet(cfg: Config, keep: bool, a: Action, s: World, retried: set<Entry>)
    requires QuietInv(cfg, s, retried) && Inv(cfg, s) && Enabled(cfg, a, s) && a.Open?
    ensures QuietInv(cfg, Apply(cfg, keep, a, s), retried)
  {
    hide QuietInv, Inv, ReadPast, Once;
    var s' := Apply(cfg, keep, a, s);
    forall e | Once(s, retried, e) || e in Pipe(s) ensures ReadPast(s', e) {
      OpenReadPast(cfg, s, s', a.path, retried, e);
    }
    FilesStep(cfg, s, s', retried);
  }

  // One more entry at the end of the channel.
  lemma EmitStep(cfg: Config, s: World, s': World, retried: set<Entry>, e: Entry)
    requires QuietInv(cfg, s, retried)
    requires s' == s.(queue := s.queue + [e])
    requires e.file in s.files && s.files[e.file].inode == e.inode && ReadPast(s, e)
    requires forall x :: (Once(s, retried, x) || x in Pipe(s)) && KeyOf(x) == KeyOf(e) ==> x.offset < e.offset
    ensures QuietInv(cfg, s', retried)
  {
    hide Settled;
    assert Pipe(s') == Pipe(s) + [e];
    assert forall x :: Once(s', retried, x) == Once(s, retried, x);
    assert forall x :: Past(s', retried, x) == Past(s, retried, x);
    assert forall x :: ReadPast(s', x) == ReadPast(s, x);
    assert forall i :: 0 <= i < |Pipe(s)| ==> Pipe(s)[i] in Pipe(s);
    assert !Once(s, retried, e);
  }

  lemma ReadLineQuiet(cfg: Config, keep: bool, s: World, retried: set<Entry>)
    requires QuietInv(cfg, s, retried) && Enabled(cfg, ReadLine, s)
    ensures QuietInv(cfg, Apply(cfg, keep, ReadLine, s), retried)
  {
    hide QuietInv, Once, LineAt, ToEntry;
    var path := s.reading.value;
    var line := LineAt(cfg, s, path);
    var inode := s.files[path].inode;
    LineAdvances(cfg, s, path);
    var mid := s.(files := s.files[path := FileState(inode, line.at)]);
    var s' := Apply(cfg, keep, ReadLine, s);
    forall x | Once(s, retried, x) || x in Pipe(s)
      ensures ReadPast(mid, x) && (x.file == path && x.inode == inode ==> x.offset < line.at.offset)
    {
      KnownReadPast(cfg, s, retried, x);
    }
    FilesStep(cfg, s, mid, retried);
    if line.out == [] {
      assert s' == mid;
    } else {
      var e := ToEntry(cfg, path, inode, line.out[0]);
      EntryFields(cfg, path, inode, line.out[0]);
      assert ToEntries(cfg, path, inode, line.out) == [e];
      assert s' == mid.(queue := mid.queue + [e]);
      assert Pipe(mid) == Pipe(s);
      assert forall x :: Once(mid, retried, x) == Once(s, retried, x) by { OnceSame(s, mid, retried); }
      EmitStep(cfg, mid, s', retried, e);
    }
  }

  lemma OnceSame(s: World, s': World, retried: set<Entry>)
    requires s'.arrived == s.arrived
    ensures forall x :: Once(s', retried, x) == Once(s, retried, x)
  {
  }

  lemma KnownReadPast(cfg: Config, s: World, retried: set<Entry>, x: Entry)
    requires QuietInv(cfg, s, retried) && (Once(s, retried, x) || x in Pipe(s))
    ensures ReadPast(s, x)
  {
    hide ReadPast, PipeOrder, PastBehind, CommittedSettled, PipeNew, Counted, Calm;
  }

  lemma LineAdvances(cfg: Config, s: World, path: string)
    requires HasLine(s, path)
    ensures var line := LineAt(cfg, s, path);
            && line.at.offset > s.files[path].at.offset
            && |line.out| <= 1
            && (line.out != [] ==> line.out[0].end == line.at.offset)
  {
    hide StepLine;
  }

  // ---- The shipper ----

  // Receive and Tick move entries from the channel to the batch, at most.
  lemma CollectFrame(cfg: Config, keep: bool, a: Action, s: World)
    requires Calm(cfg, s) && Enabled(cfg, a, s) && cfg.batchSize > 0 && (a.Receive? || a.Tick?)
    ensures var s' := Apply(cfg, keep, a, s);
            && Calm(cfg, s') && Pipe(s') == Pipe(s) && s.batch <= s'.batch
            && s'.arrived == s.arrived && s'.delivered == s.delivered && s'.mem == s.mem && s'.disk == s.disk
            && s'.contents == s.contents && s'.files == s.files && s'.current == s.current
            && !s.phase.Committing? && !s'.phase.Committing?
  {
    hide HasLine, LineAt, Opened, Wanted;
    if a.Receive? {
      assert s.batch + s.queue == s.batch + [s.queue[0]] + s.queue[1..];
    }
  }

  lemma PipeNewCollected(s: World, s': World, retried: set<Entry>)
    requires PipeNew(s, retried) && s'.arrived == s.arrived && Pipe(s') == Pipe(s) && !s.phase.Committing?
    ensures PipeNew(s', retried)
  {
    hide Once;
    assert forall x :: Once(s', retried, x) == Once(s, retried, x) by { OnceSame(s, s', retried); }
    forall i | 0 <= i < |Pipe(s)| ensures !Once(s, retried, Pipe(s)[i]) {
      assert i < |s.batch| ==> Pipe(s)[i] == s.batch[i];
      assert i >= |s.batch| ==> Pipe(s)[i] == s.queue[i - |s.batch|];
    }
    forall i | 0 <= i < |s'.batch| ensures !Once(s, retried, s'.batch[i]) {
      assert Pipe(s')[i] == s'.batch[i];
    }
    forall i | 0 <= i < |s'.queue| ensures !Once(s, retried, s'.queue[i]) {
      assert Pipe(s')[|s'.batch| + i] == s'.queue[i];
    }
  }

  lemma CollectQuiet(cfg: Config, keep: bool, a: Action, s: World, retried: set<Entry>)
    requires QuietInv(cfg, s, retried) && Enabled(cfg, a, s) && cfg.batchSize > 0 && (a.Receive? || a.Tick?)
    ensures QuietInv(cfg, Apply(cfg, keep, a, s), retried)
  {
    hide Settled, ReadPast, Apply, Enabled, Calm, PipeNew;
    var s' := Apply(cfg, keep, a, s);
    CollectFrame(cfg, keep, a, s);
    PipeNewCollected(s, s', retried);
    assert forall x :: Once(s', retried, x) == Once(s, retried, x);
    assert forall x :: Past(s', retried, x) ==> Past(s, retried, x);
    assert forall x :: ReadPast(s', x) == ReadPast(s, x) by { ReadPastSame(s, s'); }
  }

  lemma ReadPastSame(s: World, s': World)
    requires s'.contents == s.contents && s'.files == s.files && s'.current == s.current
    ensures forall x :: ReadPast(s', x) == ReadPast(s, x)
  {
  }

  // A send that fails before anything arrives changes nothing.
  lemma NothingReached(cfg: Config, keep: bool, s: World, retried: set<Entry>)
    requires QuietInv(cfg, s, retried) && Enabled(cfg, SendFailed(0), s)
    ensures QuietInv(cfg, Apply(cfg, keep, SendFailed(0), s), retried)
  {
    hide PipeOrder, PipeRead, ArrivedRead, PastBehind, PastSettled, CommittedSettled, PipeNew, Counted;
    assert s.arrived + s.batch[..0] == s.arrived;
    assert Apply(cfg, keep, SendFailed(0), s) == s;
  }

  lemma SendFailedQuiet(cfg: Config, keep: bool, a: Action, s: World, retried: set<Entry>)
    requires QuietInv(cfg, s, retried) && Enabled(cfg, a, s) && a.SendFailed?
    ensures QuietInv(cfg, Apply(cfg, keep, a, s), retried + ToSet(s.batch))
  {
    hide Settled, ReadPast;
    var s' := Apply(cfg, keep, a, s);
    var retried' := retried + ToSet(s.batch);
    assert Pipe(s') == Pipe(s);
    assert forall x :: Once(s', retried', x) ==> Once(s, retried, x);
    assert forall x :: Past(s', retried', x) ==> Past(s, retried, x);
    assert forall x :: ReadPast(s', x) == ReadPast(s, x) by { ReadPastSame(s, s'); }
    forall x | x !in retried' ensures multiset(s'.arrived)[x] <= 1 {
      assert x !in s.batch[..a.reached];
      assert multiset(s'.arrived) == multiset(s.arrived) + multiset(s.batch[..a.reached]);
    }
  }

  // What survives a crash without being retried was past the batch.
  lemma CrashLeavesPast(cfg: Config, s: World, retried: set<Entry>)
    requires QuietInv(cfg, s, retried)
    ensures var retried' := retried + (if s.phase != Collecting then ToSet(s.batch) else {});
            forall x :: Once(s, retried', x) ==> Past(s, retried, x)
  {
    hide ReadPast, Settled, PipeOrder, PipeRead, ArrivedRead, PastBehind, PastSettled, CommittedSettled, Counted;
    assert forall i :: 0 <= i < |s.batch| && s.phase == Collecting ==> !Once(s, retried, s.batch[i]);
  }

  lemma CrashQuiet(cfg: Config, keep: bool, s: World, retried: set<Entry>)
    requires QuietInv(cfg, s, retried) && cfg.batchSize > 0
    ensures QuietInv(cfg, Apply(cfg, keep, Crash, s), retried + (if s.phase != Collecting then ToSet(s.batch) else {}))
  {
    hide Settled, Live, PipeOrder, PipeRead, PastBehind, CommittedSettled;
    var s' := Apply(cfg, keep, Crash, s);
    var retried' := retried + (if s.phase != Collecting then ToSet(s.batch) else {});
    CrashLeavesPast(cfg, s, retried);
    OnceSame(s, s', retried');
    assert forall x :: Once(s, retried', x) ==> Once(s, retried, x);
    EmptyProcess(s', retried');
  }

  lemma EmptyProcess(s: World, retried: set<Entry>)
    requires s.batch == [] && s.queue == [] && s.phase == Collecting
    ensures PipeOrder(s) && PipeRead(s) && PastBehind(s, retried) && CommittedSettled(s)
  {
  }

  lemma DistinctBatch(cfg: Config, s: World, retried: set<Entry>)
    requires QuietInv(cfg, s, retried)
    ensures forall x :: multiset(s.batch)[x] <= 1
    ensures forall i :: 0 <= i < |s.queue| ==> s.queue[i] !in s.batch
  {
    hide Settled, ReadPast, Once, Past, PastBehind, PastSettled, PipeNew, Counted, CommittedSettled;
    assert forall i :: 0 <= i < |s.batch| ==> Pipe(s)[i] == s.batch[i];
    assert forall i, j :: 0 <= i < j < |s.batch| ==> Pipe(s)[i] != Pipe(s)[j];
    assert forall i, j :: 0 <= i < j < |s.batch| ==> s.batch[i] != s.batch[j];
    DistinctCount(s.batch);
    forall i | 0 <= i < |s.queue| ensures s.queue[i] !in s.batch {
      assert Pipe(s)[|s.batch| + i] == s.queue[i];
    }
  }

  lemma {:induction false} DistinctCount(es: seq<Entry>)
    requires forall i, j :: 0 <= i < j < |es| ==> es[i] != es[j]
    ensures forall x :: multiset(es)[x] <= 1
  {
    if es != [] {
      var n := |es| - 1;
      DistinctCount(es[..n]);
      assert es == es[..n] + [es[n]];
      assert es[n] !in es[..n];
    }
  }

  lemma ReceiptQuiet(cfg: Config, keep: bool, s: World, retried: set<Entry>)
    requires QuietInv(cfg, s, retried) && Enabled(cfg, Receipt, s)
    ensures QuietInv(cfg, Apply(cfg, keep, Receipt, s), retried)
  {
    hide Settled, ReadPast;
    var s' := Apply(cfg, keep, Receipt, s);
    assert Pipe(s') == Pipe(s);
    assert s.batch[..|s.batch|] == s.batch;
    DistinctBatch(cfg, s, retried);
    assert forall x :: Past(s', retried, x) ==> Past(s, retried, x);
    assert forall x :: Once(s', retried, x) ==> Once(s, retried, x) || x in Pipe(s);
    assert forall x :: ReadPast(s', x) == ReadPast(s, x) by { ReadPastSame(s, s'); }
    forall x | x !in retried ensures multiset(s'.arrived)[x] <= 1 {
      assert multiset(s'.arrived) == multiset(s.arrived) + multiset(s.batch);
      if x in s.batch {
        var i :| 0 <= i < |s.batch| && s.batch[i] == x;
        assert !Once(s, retried, s.batch[i]);
      }
    }
  }

  lemma SetPositionQuiet(cfg: Config, keep: bool, s: World, retried: set<Entry>)
    requires QuietInv(cfg, s, retried) && Enabled(cfg, SetPosition, s)
    ensures QuietInv(cfg, Apply(cfg, keep, SetPosition, s), retried)
  {
    hide ReadPast;
    var s' := Apply(cfg, keep, SetPosition, s);
    assert Pipe(s') == Pipe(s);
    assert forall x :: Once(s', retried, x) == Once(s, retried, x);
    assert forall x :: Past(s', retried, x) == Past(s, retried, x);
    assert forall x :: ReadPast(s', x) == ReadPast(s, x) by { ReadPastSame(s, s'); }
    assert forall i :: 0 <= i < |s.batch| ==> Pipe(s)[i] == s.batch[i];
  }

  // Once a batch is committed, its entries are behind the queue and behind the positions.
  lemma CommittedIsPast(cfg: Config, s: World, retried: set<Entry>, x: Entry)
    requires QuietInv(cfg, s, retried) && s.phase.Committing? && s.phase.next == |s.batch|
    requires Past(s, retried, x) || x in s.batch
    ensures Live(s.current, x) ==> Settled(s.mem, x)
    ensures forall i :: 0 <= i < |s.queue| && s.queue[i].file == x.file ==>
              Ahead(s.current, x, s.queue[i])
  {
    hide ReadPast, Settled, PipeRead, ArrivedRead, PipeNew, Counted, Once;
    assert forall i :: 0 <= i < |s.queue| ==> Pipe(s)[|s.batch| + i] == s.queue[i];
    if x in s.batch {
      var j :| 0 <= j < |s.batch| && s.batch[j] == x;
      assert Pipe(s)[j] == x;
    }
  }

  lemma LaterInOrder(current: map<string, nat>, front: seq<Entry>, rest: seq<Entry>)
    requires InOrder(current, front + rest)
    ensures InOrder(current, rest)
  {
    hide Live;
    var es := front + rest;
    assert forall i :: 0 <= i < |rest| ==> rest[i] == es[|front| + i];
  }

  lemma QueueAfterSave(cfg: Config, s: World, s': World)
    requires PipeOrder(s) && PipeRead(s)
    requires s' == s.(disk := s.mem, batch := [], phase := Collecting)
    ensures PipeOrder(s') && PipeRead(s')
  {
    hide ReadPast, InOrder;
    ReadPastSame(s, s');
    assert Pipe(s') == s.queue;
    LaterInOrder(s.current, s.batch, s.queue);
    assert forall i :: 0 <= i < |s.queue| ==> Pipe(s)[|s.batch| + i] == s.queue[i];
  }

  lemma HistoryAfterSave(cfg: Config, s: World, s': World, retried: set<Entry>)
    requires Calm(cfg, s) && ArrivedRead(s, retried) && PipeNew(s, retried) && Counted(s, retried) && cfg.batchSize > 0
    requires s' == s.(disk := s.mem, batch := [], phase := Collecting)
    ensures Calm(cfg, s') && ArrivedRead(s', retried) && PipeNew(s', retried) && Counted(s', retried)
  {
    hide ReadPast, Once;
    OnceSame(s, s', retried);
    ReadPastSame(s, s');
  }

  lemma SaveQuiet(cfg: Config, keep: bool, a: Action, s: World, retried: set<Entry>)
    requires QuietInv(cfg, s, retried) && Enabled(cfg, a, s) && a.Save? && Quiet(a, s) && cfg.batchSize > 0
    ensures QuietInv(cfg, Apply(cfg, keep, a, s), retried)
  {
    hide PipeOrder, PipeRead, ArrivedRead, PipeNew, Counted, PastBehind, PastSettled, CommittedSettled, Settled,
         Once, Live;
    var s' := Apply(cfg, keep, a, s);
    QueueAfterSave(cfg, s, s');
    HistoryAfterSave(cfg, s, s', retried);
    OnceSame(s, s', retried);
    forall x | Past(s', retried, x)
      ensures Live(s.current, x) ==> Settled(s.mem, x)
      ensures forall i :: 0 <= i < |s.queue| && s.queue[i].file == x.file ==>
                Ahead(s.current, x, s.queue[i])
    {
      assert Past(s, retried, x) || x in s.batch;
      CommittedIsPast(cfg, s, retried, x);
    }
    PastAfterSave(cfg, s', retried);
  }

  lemma PastAfterSave(cfg: Config, s: World, retried: set<Entry>)
    requires s.disk == s.mem && s.batch == [] && !s.phase.Committing?
    requires forall x :: Past(s, retried, x) ==>
               && (Live(s.current, x) ==> Settled(s.mem, x))
               && (forall i :: 0 <= i < |s.queue| && s.queue[i].file == x.file ==>
                     Ahead(s.current, x, s.queue[i]))
    ensures PastBehind(s, retried) && PastSettled(s, retried) && CommittedSettled(s)
  {
    hide Settled, Once;
    assert Pipe(s) == s.queue;
  }

  lemma QuietStep(cfg: Config, keep: bool, a: Action, s: World, retried: set<Entry>)
    requires QuietInv(cfg, s, retried) && Inv(cfg, s) && Enabled(cfg, a, s) && Quiet(a, s) && cfg.batchSize > 0
    ensures QuietInv(cfg, Apply(cfg, keep, a, s), retried + (if Interrupts(a, s) then ToSet(s.batch) else {}))
  {
    hide PipeOrder, PipeRead, ArrivedRead, PastBehind, PastSettled, CommittedSettled, PipeNew, Counted, Apply, Inv;
    assert retried + {} == retried;
    match a
    case Grow(_, _) | CloseFile => GrowStep(cfg, keep, a, s, retried);
    case Rotate(_, _) => RotateStep(cfg, keep, a, s, retried);
    case Open(_) => OpenQuiet(cfg, keep, a, s, retried);
    case ReadLine => ReadLineQuiet(cfg, keep, s, retried);
    case EndPass(_) => EndPassStep(cfg, keep, a, s, retried);
    case Receive | Tick => CollectQuiet(cfg, keep, a, s, retried);
    case SendFailed(reached) =>
      if reached == 0 {
        NothingReached(cfg, keep, s, retried);
      } else {
        SendFailedQuiet(cfg, keep, a, s, retried);
      }
    case Crash => CrashQuiet(cfg, keep, s, retried);
    case Receipt => ReceiptQuiet(cfg, keep, s, retried);
    case SetPosition => SetPositionQuiet(cfg, keep, s, retried);
    case Save(_) => SaveQuiet(cfg, keep, a, s, retried);
    case _ =>
  }

  // ---- Runs ----

  lemma InitQuiet(cfg: Config, s: World)
    requires Init(s) && cfg.batchSize > 0
    ensures QuietInv(cfg, s, {})
  {
    hide Settled, ReadPast;
  }

  lemma {:induction false} QuietRunInv(cfg: Config, keep: bool, states: seq<World>, acts: seq<Action>, n: nat)
    requires QuietRun(cfg, keep, states, acts) && n <= |acts|
    ensures QuietInv(cfg, states[n], Retried(states, acts, n))
    ensures Inv(cfg, states[n]) && states[n].abandoned == []
  {
    hide QuietInv, Inv, Enabled, Apply, Init;
    if n == 0 {
      InitQuiet(cfg, states[0]);
      InitInv(cfg, states[0]);
      InitAbandoned(states[0]);
    } else {
      QuietRunInv(cfg, keep, states, acts, n - 1);
      var a, s := acts[n - 1], states[n - 1];
      assert Enabled(cfg, a, s) && Quiet(a, s);
      QuietStep(cfg, keep, a, s, Retried(states, acts, n - 1));
      StepKeepsInv(cfg, keep, a, s);
      AbandonsNothing(cfg, keep, a, s, Retried(states, acts, n - 1));
    }
  }

  lemma InitAbandoned(s: World)
    requires Init(s)
    ensures s.abandoned == []
  {
  }

  lemma AbandonsNothing(cfg: Config, keep: bool, a: Action, s: World, retried: set<Entry>)
    requires QuietInv(cfg, s, retried) && Enabled(cfg, a, s) && s.abandoned == []
    ensures Apply(cfg, keep, a, s).abandoned == []
  {
    hide PipeOrder, PipeRead, ArrivedRead, PastBehind, PastSettled, CommittedSettled, PipeNew, Counted;
  }

  lemma {:induction false} RetriedWhen(states: seq<World>, acts: seq<Action>, n: nat, e: Entry)
    requires n <= |acts| < |states| && e in Retried(states, acts, n)
    ensures exists i :: 0 <= i < n && Interrupts(acts[i], states[i]) && e in states[i].batch
  {
    if e in Retried(states, acts, n - 1) {
      RetriedWhen(states, acts, n - 1, e);
    }
  }

  /** Duplicates come only from the in-flight batch: whatever reached the server more than once was
      in a batch of at most batchSize entries when a crash or a half-way failure of a send hit it. */
  lemma DuplicatesWereInFlight(cfg: Config, keep: bool, states: seq<World>, acts: seq<Action>, n: nat, e: Entry)
    requires QuietRun(cfg, keep, states, acts) && n <= |acts|
    requires multiset(states[n].arrived)[e] >= 2
    ensures exists i ::
              && 0 <= i < n && Interrupts(acts[i], states[i])
              && e in states[i].batch && |states[i].batch| <= cfg.batchSize
  {
    hide Inv, Enabled, Apply, Init, PipeOrder, PipeRead, ArrivedRead, PastBehind, PastSettled, CommittedSettled,
         PipeNew;
    QuietRunInv(cfg, keep, states, acts, n);
    RetriedWhen(states, acts, n, e);
    var i :| 0 <= i < n && Interrupts(acts[i], states[i]) && e in states[i].batch;
    QuietRunInv(cfg, keep, states, acts, i);
  }

  /** Exactly once: if no batch in flight is interrupted, every message at or before a
      position, in memory or on disk, has reached the server once and only once. */
  lemma ExactlyOnceWhenUndisturbed(cfg: Config, keep: bool, states: seq<World>, acts: seq<Action>, n: nat,
                                   file: string, pos: Position, m: Message)
    requires QuietRun(cfg, keep, states, acts) && n <= |acts|
    requires forall i :: 0 <= i < |acts| ==> !Interrupts(acts[i], states[i])
    requires || (file in states[n].mem && states[n].mem[file] == pos)
             || (file in states[n].disk && states[n].disk[file] == pos)
    requires Key(file, pos.inode) in states[n].contents
    requires m in Decode(cfg.rules, states[n].contents[Key(file, pos.inode)]).out && m.end <= pos.offset
    ensures multiset(states[n].arrived)[ToEntry(cfg, file, pos.inode, m)] == 1
  {
    hide Inv, Enabled, Apply, Init, PipeOrder, PipeRead, ArrivedRead, PastBehind, PastSettled, CommittedSettled,
         PipeNew, Decode, ToEntry;
    QuietRunInv(cfg, keep, states, acts, n);
    InvMeansDelivered(cfg, states[n]);
    var e := ToEntry(cfg, file, pos.inode, m);
    assert Delivered(cfg, states[n], file, pos);
    assert e in states[n].delivered;
    if multiset(states[n].arrived)[e] >= 2 {
      DuplicatesWereInFlight(cfg, keep, states, acts, n, e);
    }
  }
}
