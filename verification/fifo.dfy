/** The invariant behind at-least-once delivery. Positions only ever land just after an F line,
    where nothing is pending, and for every entry in the pipe all earlier messages of its file
    were receipted, given up by flush, or stand ahead of it. */
module FifoInvariant {
  import opened Cri
  import opened Decoder
  import opened Entities
  import opened Tailing
  import opened Pipeline

  type Contents = map<Key, string>

  ghost predicate Consistent(cfg: Config, contents: Contents, k: Key, at: Point) {
    k in contents && at.offset <= |contents[k]| && Decode(cfg.rules, contents[k][..at.offset]).at == at
  }

  // The entries of the first o bytes of a file.
  ghost function UpTo(cfg: Config, contents: Contents, k: Key, o: nat): seq<Entry> {
    if k !in contents || o > |contents[k]| then []
    else ToEntries(cfg, k.path, k.inode, Decode(cfg.rules, contents[k][..o]).out)
  }

  // e is what its file says at its offset.
  ghost predicate Genuine(cfg: Config, contents: Contents, e: Entry) {
    && Consistent(cfg, contents, KeyOf(e), Point(e.offset, ""))
    && var es := UpTo(cfg, contents, KeyOf(e), e.offset);
       es != [] && es[|es| - 1] == e
  }

  ghost function Before(cfg: Config, contents: Contents, e: Entry): seq<Entry> {
    var es := UpTo(cfg, contents, KeyOf(e), e.offset);
    if es == [] then [] else es[..|es| - 1]
  }

  ghost predicate Within(es: seq<Entry>, known: set<Entry>) {
    forall i :: 0 <= i < |es| ==> es[i] in known
  }

  ghost predicate AllGenuine(cfg: Config, contents: Contents, es: seq<Entry>) {
    forall i :: 0 <= i < |es| ==> Genuine(cfg, contents, es[i])
  }

  ghost predicate Closed(cfg: Config, contents: Contents, known: set<Entry>, pipe: seq<Entry>) {
    && AllGenuine(cfg, contents, pipe)
    && forall i :: 0 <= i < |pipe| ==> Within(Before(cfg, contents, pipe[i]), known + ToSet(pipe[..i]))
  }

  ghost predicate FilesConsistent(cfg: Config, contents: Contents, files: map<string, FileState>) {
    forall p :: p in files ==> Consistent(cfg, contents, Key(p, files[p].inode), files[p].at)
  }

  ghost predicate FilesWithin(cfg: Config, contents: Contents, files: map<string, FileState>, known: set<Entry>) {
    forall p :: p in files ==> Within(UpTo(cfg, contents, Key(p, files[p].inode), files[p].at.offset), known)
  }

  ghost predicate PositionsConsistent(cfg: Config, contents: Contents, m: map<string, Position>) {
    forall p :: p in m ==> Consistent(cfg, contents, Key(p, m[p].inode), Point(m[p].offset, ""))
  }

  ghost function Known(s: World): set<Entry> {
    s.delivered + ToSet(s.abandoned)
  }

  ghost predicate PositionsWithin(cfg: Config, contents: Contents, m: map<string, Position>, known: set<Entry>) {
    forall p :: p in m ==> Within(UpTo(cfg, contents, Key(p, m[p].inode), m[p].offset), known)
  }

  ghost predicate PhaseOk(s: World) {
    && (s.phase.Committing? ==> s.phase.next <= |s.batch| && ToSet(s.batch) <= s.delivered)
    && (s.reading.Some? ==> s.reading.value in s.files)
  }

  // Everything that survives a crash.
  ghost predicate DurableInv(cfg: Config, s: World) {
    && PositionsConsistent(cfg, s.contents, s.mem) && PositionsWithin(cfg, s.contents, s.mem, s.delivered)
    && PositionsConsistent(cfg, s.contents, s.disk) && PositionsWithin(cfg, s.contents, s.disk, s.delivered)
  }

  ghost predicate Inv(cfg: Config, s: World) {
    && DurableInv(cfg, s)
    && PhaseOk(s)
    && FilesConsistent(cfg, s.contents, s.files)
    && (s.tailing ==> FilesWithin(cfg, s.contents, s.files, Known(s) + ToSet(Pipe(s))))
    && Closed(cfg, s.contents, Known(s), Pipe(s))
    && AllGenuine(cfg, s.contents, s.abandoned)
  }

  // ---- Growing files ----

  ghost predicate Grows(c: Contents, c': Contents) {
    forall k :: k in c ==> k in c' && c[k] <= c'[k]
  }

  lemma GrowUpTo(cfg: Config, c: Contents, c': Contents, k: Key, at: Point)
    requires Grows(c, c') && Consistent(cfg, c, k, at)
    ensures Consistent(cfg, c', k, at)
    ensures UpTo(cfg, c', k, at.offset) == UpTo(cfg, c, k, at.offset)
  {
    hide Decode;
    assert c'[k][..at.offset] == c[k][..at.offset];
  }

  lemma GrowClosed(cfg: Config, c: Contents, c': Contents, known: set<Entry>, pipe: seq<Entry>)
    requires Grows(c, c') && Closed(cfg, c, known, pipe)
    ensures Closed(cfg, c', known, pipe)
  {
    hide Consistent, UpTo, Grows;
    forall i | 0 <= i < |pipe|
      ensures Genuine(cfg, c', pipe[i]) && Before(cfg, c', pipe[i]) == Before(cfg, c, pipe[i])
    {
      GrowGenuine(cfg, c, c', pipe[i]);
    }
  }

  lemma GrowGenuine(cfg: Config, c: Contents, c': Contents, e: Entry)
    requires Grows(c, c') && Genuine(cfg, c, e)
    ensures Genuine(cfg, c', e) && Before(cfg, c', e) == Before(cfg, c, e)
  {
    hide Consistent, UpTo;
    GrowUpTo(cfg, c, c', KeyOf(e), Point(e.offset, ""));
  }

  lemma GrowAllGenuine(cfg: Config, c: Contents, c': Contents, es: seq<Entry>)
    requires Grows(c, c') && AllGenuine(cfg, c, es)
    ensures AllGenuine(cfg, c', es)
  {
    hide Genuine, Before, Grows;
    forall i | 0 <= i < |es| ensures Genuine(cfg, c', es[i]) {
      GrowGenuine(cfg, c, c', es[i]);
    }
  }

  lemma GrowFiles(cfg: Config, c: Contents, c': Contents, files: map<string, FileState>, known: set<Entry>)
    requires Grows(c, c') && FilesConsistent(cfg, c, files)
    ensures FilesConsistent(cfg, c', files)
    ensures FilesWithin(cfg, c, files, known) ==> FilesWithin(cfg, c', files, known)
  {
    hide Consistent, UpTo, Grows, Within;
    forall p | p in files
      ensures var k, at := Key(p, files[p].inode), files[p].at;
              Consistent(cfg, c', k, at) && UpTo(cfg, c', k, at.offset) == UpTo(cfg, c, k, at.offset)
    {
      GrowUpTo(cfg, c, c', Key(p, files[p].inode), files[p].at);
    }
  }

  lemma GrowPositions(cfg: Config, c: Contents, c': Contents, m: map<string, Position>, known: set<Entry>)
    requires Grows(c, c') && PositionsConsistent(cfg, c, m) && PositionsWithin(cfg, c, m, known)
    ensures PositionsConsistent(cfg, c', m) && PositionsWithin(cfg, c', m, known)
  {
    hide Consistent, UpTo, Grows, Within;
    forall p | p in m
      ensures var k, at := Key(p, m[p].inode), Point(m[p].offset, "");
              Consistent(cfg, c', k, at) && UpTo(cfg, c', k, at.offset) == UpTo(cfg, c, k, at.offset)
    {
      GrowUpTo(cfg, c, c', Key(p, m[p].inode), Point(m[p].offset, ""));
    }
  }

  lemma GrowInv(cfg: Config, s: World, c': Contents, current': map<string, nat>)
    requires Inv(cfg, s) && Grows(s.contents, c')
    ensures Inv(cfg, s.(contents := c', current := current'))
  {
    hide Consistent, UpTo, Grows, Within, Closed, AllGenuine, PositionsWithin, PositionsConsistent,
         FilesConsistent, FilesWithin;
    var c := s.contents;
    GrowFiles(cfg, c, c', s.files, Known(s) + ToSet(Pipe(s)));
    GrowClosed(cfg, c, c', Known(s), Pipe(s));
    GrowPositions(cfg, c, c', s.mem, s.delivered);
    GrowPositions(cfg, c, c', s.disk, s.delivered);
    GrowAllGenuine(cfg, c, c', s.abandoned);
  }

  // ---- More known, entries leaving and entering the pipe ----

  lemma MoreKnownFiles(cfg: Config, c: Contents, files: map<string, FileState>, known: set<Entry>, known': set<Entry>)
    requires FilesConsistent(cfg, c, files) && FilesWithin(cfg, c, files, known) && known <= known'
    ensures FilesWithin(cfg, c, files, known')
  {
    hide Consistent, UpTo;
  }

  lemma MoreKnownPositions(cfg: Config, c: Contents, m: map<string, Position>, known: set<Entry>, known': set<Entry>)
    requires PositionsConsistent(cfg, c, m) && PositionsWithin(cfg, c, m, known) && known <= known'
    ensures PositionsWithin(cfg, c, m, known')
  {
    hide Consistent, UpTo;
  }

  lemma MoreKnown(cfg: Config, c: Contents, known: set<Entry>, known': set<Entry>, pipe: seq<Entry>)
    requires Closed(cfg, c, known, pipe) && known <= known'
    ensures Closed(cfg, c, known', pipe)
  {
    hide Genuine, Before;
  }

  // The front of the pipe leaves it once it is known.
  lemma LeavePipe(cfg: Config, c: Contents, known: set<Entry>, known': set<Entry>, front: seq<Entry>, rest: seq<Entry>)
    requires Closed(cfg, c, known, front + rest) && known + ToSet(front) <= known'
    ensures Closed(cfg, c, known', rest)
  {
    hide Genuine, Before;
    var pipe := front + rest;
    forall i | 0 <= i < |rest|
      ensures Genuine(cfg, c, rest[i]) && Within(Before(cfg, c, rest[i]), known' + ToSet(rest[..i]))
    {
      var j := |front| + i;
      assert pipe[j] == rest[i];
      assert pipe[..j] == front + rest[..i];
      assert ToSet(pipe[..j]) <= ToSet(front) + ToSet(rest[..i]);
    }
  }

  lemma EnterPipe(cfg: Config, c: Contents, known: set<Entry>, pipe: seq<Entry>, e: Entry)
    requires Closed(cfg, c, known, pipe) && Genuine(cfg, c, e) && Within(Before(cfg, c, e), known + ToSet(pipe))
    ensures Closed(cfg, c, known, pipe + [e])
  {
    hide Genuine, Before;
    var pipe' := pipe + [e];
    forall i | 0 <= i < |pipe'|
      ensures Genuine(cfg, c, pipe'[i]) && Within(Before(cfg, c, pipe'[i]), known + ToSet(pipe'[..i]))
    {
      if i < |pipe| {
        assert pipe'[..i] == pipe[..i];
      } else {
        assert pipe'[..i] == pipe;
      }
    }
  }

  // ---- Reading a line ----

  // Reading the next line of a file moves from one consistent point to the next; what it
  // emits is genuine, and what it skips was there before.
  lemma NextLine(cfg: Config, s: World, path: string)
    requires HasLine(s, path) && Consistent(cfg, s.contents, Key(path, s.files[path].inode), s.files[path].at)
    ensures var k, o, line := Key(path, s.files[path].inode), s.files[path].at.offset, LineAt(cfg, s, path);
            && Consistent(cfg, s.contents, k, line.at)
            && UpTo(cfg, s.contents, k, line.at.offset) ==
               UpTo(cfg, s.contents, k, o) + ToEntries(cfg, path, k.inode, line.out)
            && (line.out != [] ==>
                  var e := ToEntry(cfg, path, k.inode, line.out[0]);
                  Genuine(cfg, s.contents, e) && Before(cfg, s.contents, e) == UpTo(cfg, s.contents, k, o))
  {
    hide Decode, StepLine, ToEntry;
    var k, o, line := Key(path, s.files[path].inode), s.files[path].at.offset, LineAt(cfg, s, path);
    var content := s.contents[k];
    var raw := RawLine(s, path);
    var rest := content[o..];
    var i := IndexOf(rest, '\n');
    assert content[..o + i + 1] == content[..o] + (raw + "\n");
    ScanSnoc(cfg.rules, content[..o], raw);
    var before := Decode(cfg.rules, content[..o]).out;
    assert ToEntries(cfg, path, k.inode, before + line.out) ==
           ToEntries(cfg, path, k.inode, before) + ToEntries(cfg, path, k.inode, line.out);
    if line.out != [] {
      var e := ToEntry(cfg, path, k.inode, line.out[0]);
      EntryFields(cfg, path, k.inode, line.out[0]);
      var es := UpTo(cfg, s.contents, k, line.at.offset);
      assert es == UpTo(cfg, s.contents, k, o) + [e];
      assert es[..|es| - 1] == UpTo(cfg, s.contents, k, o);
    }
  }

  lemma EntryFields(cfg: Config, file: string, inode: nat, m: Message)
    ensures var e := ToEntry(cfg, file, inode, m);
            e.file == file && e.inode == inode && e.offset == m.end
  {
  }
}
