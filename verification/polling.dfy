/** Many passes of the tailer: where a cancellation cuts one, and what all of them together send of one file
    (internal/logagent/tailer.go). */
module Polling {
  import opened Wrappers
  import opened Decoder
  import opened Entities
  import opened Chunks
  import opened Tailing

  // ---- Where a cancellation cuts a pass ----

  function FirstN<T>(s: seq<T>, n: nat): seq<T> {
    if n < |s| then s[..n] else s
  }

  lemma FirstNone<T>(n: nat)
    ensures FirstN<T>([], n) == []
  {
  }

  lemma FirstNJoin<T>(a: seq<T>, b: seq<T>, n: nat)
    ensures |a| <= n ==> FirstN(a + b, n) == a + FirstN(b, n - |a|)
    ensures n < |a| ==> FirstN(a + b, n) == FirstN(a, n)
  {
  }

  lemma {:induction false} LinesCut(rules: Rules, s: string, p: Point, broken: Option<nat>, k: nat)
    ensures var all := ReadLines(rules, s, p, broken, None);
            var cut := ReadLines(rules, s, p, broken, Some(k));
            && cut.out == FirstN(all.out, k)
            && (cut.end == Cancelled <==> k < |all.out|)
            && (k >= |all.out| ==> cut == all)
    decreases |s|
  {
    hide StepLine, ReadLines;
    NotCancelled(rules, s, p, broken);
    if broken == Some(0) || '\n' !in s {
      ReadLinesStop(rules, s, p, broken, None);
      ReadLinesStop(rules, s, p, broken, Some(k));
    } else {
      var raw, rest := FirstLine(s);
      var first := StepLine(rules, p, raw);
      ReadLinesLine(rules, raw, rest, p, broken, None);
      ReadLinesLine(rules, raw, rest, p, broken, Some(k));
      if first.out == [] || k > 0 {
        var left := if first.out == [] then k else k - 1;
        LinesCut(rules, rest, first.at, Less(broken), left);
        FirstNJoin(first.out, ReadLines(rules, rest, first.at, Less(broken), None).out, k);
      }
    }
  }

  lemma FileCut(rules: Rules, look: Look, st: FileState, k: nat)
    ensures var all := ReadFileSpec(rules, look, st, None);
            var cut := ReadFileSpec(rules, look, st, Some(k));
            && all.end != Cancelled && cut.out == FirstN(all.out, k)
            && (cut.end == Cancelled <==> k < |all.out|)
            && (k >= |all.out| ==> cut == all)
  {
    hide ReadLines;
    NotCancelled(rules, After(look.content, st.at), st.at, look.broken);
    LinesCut(rules, After(look.content, st.at), st.at, look.broken, k);
  }

  lemma EntriesCut(cfg: Config, file: string, inode: nat, out: seq<Message>, k: nat)
    ensures ToEntries(cfg, file, inode, FirstN(out, k)) == FirstN(ToEntries(cfg, file, inode, out), k)
  {
    hide ToEntry;
  }

  /** Where a cancellation cuts a pass: if the channel takes k entries before ctx is done, the pass sends exactly the
      first k of what it would have sent, and it is cancelled exactly when there were more. */
  lemma {:induction false} CancelCutsPass(cfg: Config, saved: map<string, Position>, found: seq<Found>,
                                          files: map<string, FileState>, k: nat)
    requires forall i :: 0 <= i < |found| ==> !found[i].done
    ensures var all := PollSpec(cfg, saved, found, files, None);
            var cut := PollSpec(cfg, saved, found, files, Some(k));
            && !all.cancelled && cut.out == FirstN(all.out, k)
            && (cut.cancelled <==> k < |all.out|)
            && (k >= |all.out| ==> cut == all)
  {
    hide Wanted, Opened, ReadFileSpec, FirstN, ToEntry;
    if found == [] {
      FirstNone<Entry>(k);
    } else {
      var Found(path, look, done) := found[0];
      assert !done;
      if !Wanted(cfg, path) || look.None? {
        CancelCutsPass(cfg, saved, found[1..], files, k);
      } else {
        var st := Opened(Lookup(files, path), Lookup(saved, path), look.value.inode, look.value.size);
        var pass := ReadFileSpec(cfg.rules, look.value, st, None);
        FileCut(cfg.rules, look.value, st, k);
        EntriesCut(cfg, path, st.inode, pass.out, k);
        var out := ToEntries(cfg, path, st.inode, pass.out);
        var files' := files[path := FileState(st.inode, pass.at)];
        CancelCutsPass(cfg, saved, found[1..], files', if |out| <= k then k - |out| else 0);
        FirstNJoin(out, PollSpec(cfg, saved, found[1..], files', None).out, k);
      }
    }
  }

  // ---- One file over many passes ----

  // What is known of one file after a number of looks at it, and what they emitted. saved is its
  // position when the tailer starts.
  datatype Followed = Followed(known: Option<FileState>, out: seq<Message>)

  function Follow(rules: Rules, looks: seq<Look>, saved: Option<Position>): Followed {
    if looks == [] then Followed(None, [])
    else
      var look := looks[|looks| - 1];
      var before := Follow(rules, looks[..|looks| - 1], saved);
      var st := Opened(before.known, saved, look.inode, look.size);
      var pass := ReadFileSpec(rules, look, st, None);
      Followed(Some(FileState(st.inode, pass.at)), before.out + pass.out)
  }

  // One inode whose content only grows. What Stat reports lies between what the last look read and
  // what this one can read.
  ghost predicate AppendOnly(looks: seq<Look>) {
    && (forall i :: 0 <= i < |looks| ==> looks[i].inode == looks[0].inode && looks[i].size <= |looks[i].content|)
    && (forall i :: 0 < i < |looks| ==>
          looks[i - 1].content <= looks[i].content && |looks[i - 1].content| <= looks[i].size)
  }

  // Where the first look starts.
  function Resumed(look: Look, saved: Option<Position>): nat {
    if saved.Some? && saved.value.inode == look.inode && saved.value.offset <= look.size then saved.value.offset else 0
  }

  // A saved position is just after an F line.
  ghost predicate AtBoundary(rules: Rules, look: Look, saved: Option<Position>) {
    var o := Resumed(look, saved);
    o <= |look.content| && Decode(rules, look.content[..o]).at == Point(o, "")
  }

  // One look at a file whose first at.offset bytes were decoded already.
  lemma LookDecodes(rules: Rules, look: Look, st: FileState, out: seq<Message>)
    requires st.at.offset <= look.size <= |look.content|
    requires Decode(rules, look.content[..st.at.offset]) == Scanned(st.at, out)
    ensures var pass := ReadFileSpec(rules, look, st, None);
            && pass.at.offset <= |look.content|
            && Decode(rules, look.content[..pass.at.offset]) == Scanned(pass.at, out + pass.out)
            && (look.broken == None && look.size == |look.content| ==>
                  Decode(rules, look.content) == Scanned(pass.at, out + pass.out))
  {
    hide Scan, ReadLines;
    var c, at := look.content, st.at;
    assert c[..|c|] == c && out + [] == out;
    if look.size != at.offset {
      var rest := After(c, at);
      NotCancelled(rules, rest, at, look.broken);
      var read := PassIsScan(rules, rest, at, look.broken, None);
      var pass := ReadLines(rules, rest, at, look.broken, None);
      assert read == rest[..|read|];
      DecodeExtend(rules, c, at.offset, pass.at.offset - at.offset);
      if look.broken == None {
        DecodeExtend(rules, c, at.offset, |c| - at.offset);
        assert rest[..|c| - at.offset] == rest;
      }
    }
  }

  lemma {:induction false} FollowDecodes(rules: Rules, looks: seq<Look>, saved: Option<Position>)
    requires AppendOnly(looks) && looks != [] && AtBoundary(rules, looks[0], saved)
    ensures var r := Follow(rules, looks, saved);
            var last := looks[|looks| - 1];
            var skipped := Decode(rules, looks[0].content[..Resumed(looks[0], saved)]).out;
            && r.known.Some? && r.known.value.inode == looks[0].inode
            && var at := r.known.value.at;
            && at.offset <= |last.content|
            && Decode(rules, last.content[..at.offset]) == Scanned(at, skipped + r.out)
            && (last.broken == None && last.size == |last.content| ==>
                  Decode(rules, last.content) == Scanned(at, skipped + r.out))
    decreases |looks|
  {
    hide Scan, ReadFileSpec;
    var n := |looks| - 1;
    var look := looks[n];
    var skipped := Decode(rules, looks[0].content[..Resumed(looks[0], saved)]).out;
    var before := Follow(rules, looks[..n], saved);
    var st := Opened(before.known, saved, look.inode, look.size);
    var pass := ReadFileSpec(rules, look, st, None);
    if n == 0 {
      FirstOpened(rules, look, saved);
      assert skipped + [] == skipped && [] + pass.out == pass.out;
      LookDecodes(rules, look, st, skipped);
    } else {
      FollowDecodes(rules, looks[..n], saved);
      assert look.content[..st.at.offset] == looks[n - 1].content[..st.at.offset];
      LookDecodes(rules, look, st, skipped + before.out);
      assert (skipped + before.out) + pass.out == skipped + (before.out + pass.out);
    }
  }

  lemma FirstOpened(rules: Rules, look: Look, saved: Option<Position>)
    requires AtBoundary(rules, look, saved)
    ensures Opened(None, saved, look.inode, look.size) ==
            FileState(look.inode, Decode(rules, look.content[..Resumed(look, saved)]).at)
  {
    hide Scan;
  }

  /** Incremental decoding refines one-shot decoding. However a file grows between looks, and while it is being read,
      however many passes there are, wherever reads fail, and whatever boundary the tailer resumed
      from: its point is Decode's point on the bytes it consumed, and the messages before the
      resume point together with what it emitted are what Decode emits on them; after a
      look that reaches the end that is Decode of the whole content. */
  lemma PassesRefineDecode(rules: Rules, looks: seq<Look>, saved: Option<Position>)
    requires AppendOnly(looks) && looks != [] && AtBoundary(rules, looks[0], saved)
    ensures var r := Follow(rules, looks, saved);
            var last := looks[|looks| - 1];
            var skipped := Decode(rules, looks[0].content[..Resumed(looks[0], saved)]).out;
            && r.known.Some? && r.known.value.at.offset <= |last.content|
            && var at := r.known.value.at;
            && Decode(rules, last.content[..at.offset]) == Scanned(at, skipped + r.out)
            && (last.broken == None && last.size == |last.content| ==>
                  Decode(rules, last.content) == Scanned(at, skipped + r.out))
  {
    hide Follow, Decode, Resumed;
    FollowDecodes(rules, looks, saved);
  }

  lemma FromTheTop(rules: Rules, look: Look)
    ensures AtBoundary(rules, look, None) && Decode(rules, look.content[..Resumed(look, None)]).out == []
  {
    assert look.content[..0] == "";
    ScanStop(rules, "", START);
  }

  /** Chunked messages survive any poll schedule: passes over growing prefixes of the printed
      file, the last one over all of it, emit exactly the messages in order. */
  lemma RoundTripUnderPolling(rules: Rules, ms: seq<Printed>, trailing: seq<string>, looks: seq<Look>)
    requires forall i :: 0 <= i < |ms| ==> WellCut(ms[i])
    requires AllPrintable(rules, PiecesOf(ms)) && AllMalformed(rules, trailing)
    requires AppendOnly(looks) && looks != []
    requires var last := looks[|looks| - 1];
             && last.content == PrintPieces(PiecesOf(ms)) + PrintJunk(trailing)
             && last.broken == None && last.size == |last.content|
    ensures ToBare(Follow(rules, looks, None).out) == Kept(rules, ms)
  {
    hide Follow, Decode, PiecesOf, PrintPieces, PrintJunk, AtBoundary, Resumed, AppendOnly;
    FromTheTop(rules, looks[0]);
    PassesRefineDecode(rules, looks, None);
    var r := Follow(rules, looks, None);
    assert [] + r.out == r.out;
    ChunkingRoundTrip(rules, ms, trailing);
  }

  // ---- Run against Decode ----

  // The entries of one file, in order.
  function OfFile(es: seq<Entry>, file: string): seq<Entry> {
    if es == [] then [] else (if es[0].file == file then [es[0]] else []) + OfFile(es[1..], file)
  }

  lemma OfFileFirst(e: Entry, es: seq<Entry>, file: string)
    ensures OfFile([e] + es, file) == (if e.file == file then [e] else []) + OfFile(es, file)
  {
    assert ([e] + es)[1..] == es;
  }

  lemma {:induction false} OfFileJoin(a: seq<Entry>, b: seq<Entry>, file: string)
    ensures OfFile(a + b, file) == OfFile(a, file) + OfFile(b, file)
  {
    hide OfFile;
    if a == [] {
      NoEntries(file);
      assert a + b == b && [] + OfFile(b, file) == OfFile(b, file);
    } else {
      var first := if a[0].file == file then [a[0]] else [];
      assert a == [a[0]] + a[1..] && a + b == [a[0]] + (a[1..] + b);
      OfFileFirst(a[0], a[1..], file);
      OfFileFirst(a[0], a[1..] + b, file);
      OfFileJoin(a[1..], b, file);
      assert first + (OfFile(a[1..], file) + OfFile(b, file)) == (first + OfFile(a[1..], file)) + OfFile(b, file);
    }
  }

  lemma {:induction false} OfFileAll(es: seq<Entry>, file: string, other: string)
    requires forall i :: 0 <= i < |es| ==> es[i].file == other
    ensures OfFile(es, file) == if other == file then es else []
  {
    if es != [] {
      OfFileAll(es[1..], file, other);
      assert [es[0]] + es[1..] == es;
    }
  }

  // Glob lists each path once.
  ghost predicate Distinct(found: seq<Found>) {
    forall i, j :: 0 <= i < j < |found| ==> found[i].path != found[j].path
  }

  function LookAt(found: seq<Found>, path: string): Option<Look> {
    if found == [] then None
    else if found[0].path == path then found[0].look
    else LookAt(found[1..], path)
  }

  lemma {:induction false} NotListed(found: seq<Found>, path: string)
    requires forall i :: 0 <= i < |found| ==> found[i].path != path
    ensures LookAt(found, path) == None
  {
    if found != [] {
      NotListed(found[1..], path);
    }
  }

  // A pass did to one file exactly what readFile does to it alone.
  ghost predicate Projects(cfg: Config, saved: map<string, Position>, look: Option<Look>,
                           files: map<string, FileState>, r: Polled, path: string) {
    match look
    case None => Lookup(r.files, path) == Lookup(files, path) && OfFile(r.out, path) == []
    case Some(look) =>
      var st := Opened(Lookup(files, path), Lookup(saved, path), look.inode, look.size);
      var pass := ReadFileSpec(cfg.rules, look, st, None);
      && Lookup(r.files, path) == Some(FileState(st.inode, pass.at))
      && OfFile(r.out, path) == ToEntries(cfg, path, st.inode, pass.out)
  }

  // The first file of a pass, then the others.
  lemma FirstProjects(cfg: Config, saved: map<string, Position>, other: string, look: Look, found: seq<Found>,
                      files: map<string, FileState>, later: Polled, path: string)
    requires var st := Opened(Lookup(files, other), Lookup(saved, other), look.inode, look.size);
             var at := ReadFileSpec(cfg.rules, look, st, None).at;
             Projects(cfg, saved, LookAt(found, path), files[other := FileState(st.inode, at)], later, path)
    requires other == path ==> LookAt(found, path) == None
    ensures var st := Opened(Lookup(files, other), Lookup(saved, other), look.inode, look.size);
            var out := ToEntries(cfg, other, st.inode, ReadFileSpec(cfg.rules, look, st, None).out);
            Projects(cfg, saved, if other == path then Some(look) else LookAt(found, path), files,
                     Polled(later.files, out + later.out, later.cancelled), path)
  {
    hide Opened, ReadFileSpec, OfFile, ToEntry, LookAt;
    var st := Opened(Lookup(files, other), Lookup(saved, other), look.inode, look.size);
    var pass := ReadFileSpec(cfg.rules, look, st, None);
    var out := ToEntries(cfg, other, st.inode, pass.out);
    EntriesOfFile(cfg, other, st.inode, pass.out);
    OfFileAll(out, path, other);
    OfFileJoin(out, later.out, path);
    assert out + [] == out && [] + OfFile(later.out, path) == OfFile(later.out, path);
  }

  lemma {:induction false} PollProjects(cfg: Config, saved: map<string, Position>, found: seq<Found>,
                                        files: map<string, FileState>, path: string)
    requires Wanted(cfg, path) && Distinct(found) && forall i :: 0 <= i < |found| ==> !found[i].done
    ensures var r := PollSpec(cfg, saved, found, files, None);
            !r.cancelled && Projects(cfg, saved, LookAt(found, path), files, r, path)
  {
    hide Wanted, Opened, ReadFileSpec, Projects;
    if found == [] {
      NothingProjects(cfg, saved, files, path);
    } else {
      var Found(other, look, done) := found[0];
      assert !done;
      if other == path {
        NotListed(found[1..], path);
      }
      if !Wanted(cfg, other) || look.None? {
        PollProjects(cfg, saved, found[1..], files, path);
      } else {
        var st := Opened(Lookup(files, other), Lookup(saved, other), look.value.inode, look.value.size);
        var pass := ReadFileSpec(cfg.rules, look.value, st, None);
        FileCut(cfg.rules, look.value, st, 0);
        var files' := files[other := FileState(st.inode, pass.at)];
        PollProjects(cfg, saved, found[1..], files', path);
        var later := PollSpec(cfg, saved, found[1..], files', None);
        FirstProjects(cfg, saved, other, look.value, found[1..], files, later, path);
      }
    }
  }

  lemma NothingProjects(cfg: Config, saved: map<string, Position>, files: map<string, FileState>, path: string)
    ensures Projects(cfg, saved, None, files, Polled(files, [], false), path)
  {
  }

  lemma NoEntries(file: string)
    ensures OfFile([], file) == []
  {
  }

  lemma EntriesOfFile(cfg: Config, file: string, inode: nat, out: seq<Message>)
    ensures forall i :: 0 <= i < |out| ==> ToEntries(cfg, file, inode, out)[i].file == file
  {
  }

  function LooksOf(rounds: seq<Round>, path: string): seq<Look> {
    if rounds == [] then []
    else
      var look := LookAt(rounds[|rounds| - 1].found, path);
      LooksOf(rounds[..|rounds| - 1], path) + if look.Some? then [look.value] else []
  }

  // A live Run that goes on listing path: opening it may fail at any time. Before its first look the
  // shipper has nothing of it to save.
  ghost predicate Listing(cfg: Config, rounds: seq<Round>, path: string) {
    forall i :: 0 <= i < |rounds| ==>
      && Distinct(rounds[i].found) && rounds[i].sends == None && !rounds[i].stop && path in Seen(cfg, rounds[i].found)
      && (forall j :: 0 <= j < |rounds[i].found| ==> !rounds[i].found[j].done)
      && (path in rounds[i].shipped ==> LooksOf(rounds[..i], path) != [])
  }

  lemma FewerLooks(looks: seq<Look>)
    requires looks != [] && AppendOnly(looks)
    ensures AppendOnly(looks[..|looks| - 1])
  {
  }

  lemma ListingBefore(cfg: Config, rounds: seq<Round>, path: string)
    requires rounds != [] && Listing(cfg, rounds, path)
    ensures Listing(cfg, rounds[..|rounds| - 1], path)
  {
    hide LooksOf, Seen, Distinct;
    var before := rounds[..|rounds| - 1];
    forall i | 0 <= i < |before| ensures before[i] == rounds[i] && before[..i] == rounds[..i] {
    }
  }

  // What is saved matters only at the first look.
  lemma OpenedAgain(known: Option<FileState>, saved: Option<Position>, saved': Option<Position>, inode: nat, size: nat)
    requires known.Some? || saved == saved'
    ensures Opened(known, saved, inode, size) == Opened(known, saved', inode, size)
    ensures Opened(known, saved, inode, size).inode == inode
  {
  }

  // The state of Run agrees with Follow on one file.
  ghost predicate Agrees(cfg: Config, t: Tailed, m: map<string, Position>, looks: seq<Look>, path: string) {
    var r := Follow(cfg.rules, looks, Lookup(m, path));
    && !t.ended && Lookup(t.files, path) == r.known
    && (looks == [] ==> Lookup(t.m, path) == Lookup(m, path) && OfFile(t.out, path) == [])
    && (looks != [] ==> r.known.Some? && OfFile(t.out, path) == ToEntries(cfg, path, looks[0].inode, r.out))
  }

  lemma RoundAgrees(cfg: Config, t: Tailed, m: map<string, Position>, looks: seq<Look>, round: Round, path: string)
    requires Wanted(cfg, path) && Agrees(cfg, t, m, looks, path) && Distinct(round.found)
    requires round.sends == None && !round.stop && path in Seen(cfg, round.found)
    requires forall j :: 0 <= j < |round.found| ==> !round.found[j].done
    requires path in round.shipped ==> looks != []
    requires LookAt(round.found, path).Some? && looks != [] ==> LookAt(round.found, path).value.inode == looks[0].inode
    ensures var look := LookAt(round.found, path);
            Agrees(cfg, RoundSpec(cfg, t, round), m, if look.Some? then looks + [look.value] else looks, path)
  {
    hide Wanted, Opened, ReadFileSpec, PollSpec, OfFile, ToEntry, Distinct, Seen, LookAt;
    var saved := t.m + round.shipped;
    var r := PollSpec(cfg, saved, round.found, t.files, None);
    PollProjects(cfg, saved, round.found, t.files, path);
    OfFileJoin(t.out, r.out, path);
    var look := LookAt(round.found, path);
    assert OfFile(t.out, path) + [] == OfFile(t.out, path);
    if look.Some? {
      var all := looks + [look.value];
      assert all[..|looks|] == looks;
      var before := Follow(cfg.rules, looks, Lookup(m, path));
      OpenedAgain(before.known, Lookup(saved, path), Lookup(m, path), look.value.inode, look.value.size);
      var st := Opened(before.known, Lookup(m, path), look.value.inode, look.value.size);
      var pass := ReadFileSpec(cfg.rules, look.value, st, None);
      EntriesJoin(cfg, path, st.inode, before.out, pass.out);
      assert [] + ToEntries(cfg, path, st.inode, pass.out) == ToEntries(cfg, path, st.inode, [] + pass.out);
    }
  }

  lemma {:induction false} RunFollows(cfg: Config, m: map<string, Position>, rounds: seq<Round>, path: string)
    requires Wanted(cfg, path) && Listing(cfg, rounds, path) && AppendOnly(LooksOf(rounds, path))
    ensures Agrees(cfg, RunSpec(cfg, Tailed(map[], m, [], false), rounds), m, LooksOf(rounds, path), path)
    decreases |rounds|
  {
    hide Agrees, RoundSpec, LookAt, AppendOnly, Listing;
    if rounds == [] {
      NothingSent(cfg, m, path);
    } else {
      var n := |rounds| - 1;
      var look := LookAt(rounds[n].found, path);
      var looks, all := LooksOf(rounds[..n], path), LooksOf(rounds, path);
      ListingBefore(cfg, rounds, path);
      if look.Some? {
        FewerLooks(all);
        assert all[..|all| - 1] == looks;
        SameInode(all);
        assert all == looks + [look.value] && all[|all| - 1] == look.value;
        assert looks != [] ==> all[0] == looks[0];
      } else {
        assert all == looks;
      }
      RunFollows(cfg, m, rounds[..n], path);
      LastListing(cfg, rounds, path);
      RoundAgrees(cfg, RunSpec(cfg, Tailed(map[], m, [], false), rounds[..n]), m, looks, rounds[n], path);
      NotEnded(cfg, RunSpec(cfg, Tailed(map[], m, [], false), rounds[..n]), m, looks, path);
    }
  }

  lemma NothingSent(cfg: Config, m: map<string, Position>, path: string)
    ensures Agrees(cfg, Tailed(map[], m, [], false), m, [], path)
  {
  }

  lemma SameInode(looks: seq<Look>)
    requires AppendOnly(looks)
    ensures forall i :: 0 <= i < |looks| ==> looks[i].inode == looks[0].inode
  {
  }

  lemma LastListing(cfg: Config, rounds: seq<Round>, path: string)
    requires rounds != [] && Listing(cfg, rounds, path)
    ensures var round := rounds[|rounds| - 1];
            && Distinct(round.found) && round.sends == None && !round.stop && path in Seen(cfg, round.found)
            && (forall j :: 0 <= j < |round.found| ==> !round.found[j].done)
            && (path in round.shipped ==> LooksOf(rounds[..|rounds| - 1], path) != [])
  {
    hide LooksOf, Seen, Distinct;
  }

  lemma NotEnded(cfg: Config, t: Tailed, m: map<string, Position>, looks: seq<Look>, path: string)
    requires Agrees(cfg, t, m, looks, path)
    ensures !t.ended
  {
    hide Follow;
  }

  /** What Run sends of one file is what the file says. While ctx is live, over any number of polls of any other files,
      with opens and reads of this one failing at will and the shipper saving positions in between,
      the entries of a growing file are, in order and without gap or repetition, the messages
      that Decode emits on the bytes read, from where the tailer resumed. */
  lemma RunSendsTheFile(cfg: Config, m: map<string, Position>, rounds: seq<Round>, path: string)
    requires Wanted(cfg, path) && Listing(cfg, rounds, path)
    requires var looks := LooksOf(rounds, path);
             AppendOnly(looks) && looks != [] && AtBoundary(cfg.rules, looks[0], Lookup(m, path))
    ensures var t := RunSpec(cfg, Tailed(map[], m, [], false), rounds);
            var looks := LooksOf(rounds, path);
            var last := looks[|looks| - 1];
            var skipped := Decode(cfg.rules, looks[0].content[..Resumed(looks[0], Lookup(m, path))]).out;
            && path in t.files && t.files[path].at.offset <= |last.content|
            && var all := Decode(cfg.rules, last.content[..t.files[path].at.offset]);
            && all.at == t.files[path].at && skipped <= all.out
            && OfFile(t.out, path) == ToEntries(cfg, path, looks[0].inode, all.out[|skipped|..])
            && ShipsAll(cfg, path, looks[0].inode, all.out[|skipped|..], OfFile(t.out, path))
            && (last.broken == None && last.size == |last.content| ==> all == Decode(cfg.rules, last.content))
  {
    hide RunSpec, Follow, Decode, LooksOf, AppendOnly, Listing, OfFile, ToEntry, ShipsAll;
    RunFollows(cfg, m, rounds, path);
    var looks := LooksOf(rounds, path);
    PassesRefineDecode(cfg.rules, looks, Lookup(m, path));
    var r := Follow(cfg.rules, looks, Lookup(m, path));
    var skipped := Decode(cfg.rules, looks[0].content[..Resumed(looks[0], Lookup(m, path))]).out;
    assert (skipped + r.out)[|skipped|..] == r.out;
    EntriesShip(cfg, path, looks[0].inode, r.out);
  }

  lemma {:induction false} ListedAt(found: seq<Found>, i: nat)
    requires i < |found| && Distinct(found)
    ensures LookAt(found, found[i].path) == found[i].look
  {
    if i > 0 {
      assert Distinct(found[1..]);
      ListedAt(found[1..], i - 1);
    }
  }

  /** Every file that should be shipped is: a live pass over distinct paths sends, of each listed file of another
      container in the agent's namespace that it can read, all messages that were not read yet, each with its own text,
      time, level, container and offset. before are those read earlier, as remembered or saved. */
  lemma ListedFileIsSent(cfg: Config, saved: map<string, Position>, found: seq<Found>, files: map<string, FileState>,
                         i: nat, before: seq<Message>)
    requires Distinct(found) && forall j :: 0 <= j < |found| ==> !found[j].done
    requires i < |found| && IsFollowed(cfg, found[i].path) && found[i].look.Some?
    requires found[i].look.value.broken == None && found[i].look.value.size == |found[i].look.value.content|
    requires var Found(path, look, _) := found[i];
             var st := Opened(Lookup(files, path), Lookup(saved, path), look.value.inode, look.value.size);
             st.at.offset <= look.value.size &&
             Decode(cfg.rules, look.value.content[..st.at.offset]) == Scanned(st.at, before)
    ensures var Found(path, look, _) := found[i];
            var r := PollSpec(cfg, saved, found, files, None);
            var all := Decode(cfg.rules, look.value.content).out;
            && !r.cancelled && before <= all
            && ShipsAll(cfg, path, look.value.inode, all[|before|..], OfFile(r.out, path))
  {
    hide ReadFileSpec, Decode, PollSpec, OfFile, ToEntry, ShipsAll, LookAt, Distinct;
    var path, look := found[i].path, found[i].look.value;
    WantedIsFollowed(cfg, path);
    ListedAt(found, i);
    PollProjects(cfg, saved, found, files, path);
    var st := Opened(Lookup(files, path), Lookup(saved, path), look.inode, look.size);
    LookDecodes(cfg.rules, look, st, before);
    var pass := ReadFileSpec(cfg.rules, look, st, None);
    assert (before + pass.out)[|before|..] == pass.out;
    EntriesShip(cfg, path, look.inode, pass.out);
  }

  // What an entry says on the wire.
  function OnTheWire(es: seq<Entry>): (b: seq<Bare>)
    ensures |b| == |es|
  {
    seq(|es|, i requires 0 <= i < |es| => Bare(es[i].log.timestamp, es[i].log.message))
  }

  lemma ShippedTexts(cfg: Config, file: string, inode: nat, out: seq<Message>, es: seq<Entry>)
    requires ShipsAll(cfg, file, inode, out, es)
    ensures OnTheWire(es) == ToBare(out)
    ensures forall i :: 0 <= i < |es| ==>
              && es[i].log.level == cfg.level(es[i].log.message)
              && (cfg.parseFileName(file).Some? ==> es[i].log.service == cfg.parseFileName(file).value.container)
  {
    forall i | 0 <= i < |es| ensures OnTheWire(es)[i] == ToBare(out)[i] {
      assert Ships(cfg, file, inode, out[i], es[i]);
    }
  }

  // The whole of a file read from the top.
  lemma FirstLookDecodes(rules: Rules, look: Look)
    requires look.broken == None && look.size == |look.content|
    ensures var st := Opened(None, None, look.inode, look.size);
            && st == FileState(look.inode, START) && Decode(rules, look.content[..st.at.offset]) == Scanned(START, [])
            && ReadFileSpec(rules, look, st, None).out == Decode(rules, look.content).out
  {
    hide ReadFileSpec;
    assert look.content[..0] == "";
    ScanStop(rules, "", START);
    var st := FileState(look.inode, START);
    LookDecodes(rules, look, st, []);
    var out := ReadFileSpec(rules, look, st, None).out;
    assert [] + out == out;
  }

  /** What goes over the wire is what the application printed. For a file of chunked messages, printed with malformed
      lines anywhere and read for the first time, the entries that readFile sends carry exactly the messages not
      excluded, in order, each with the time of its last line, the level of its text and the container of
      its file. es is any result that the promise of Tailer.ReadFile allows. */
  lemma FirstReadShips(cfg: Config, path: string, look: Look, ms: seq<Printed>, trailing: seq<string>, es: seq<Entry>)
    requires forall i :: 0 <= i < |ms| ==> WellCut(ms[i])
    requires AllPrintable(cfg.rules, PiecesOf(ms)) && AllMalformed(cfg.rules, trailing)
    requires look.content == PrintPieces(PiecesOf(ms)) + PrintJunk(trailing)
    requires look.broken == None && look.size == |look.content|
    requires var st := Opened(None, None, look.inode, look.size);
             ShipsAll(cfg, path, st.inode, ReadFileSpec(cfg.rules, look, st, None).out, es)
    ensures OnTheWire(es) == Kept(cfg.rules, ms)
    ensures forall i :: 0 <= i < |es| ==>
              && es[i].log.level == cfg.level(es[i].log.message) && es[i].file == path && es[i].inode == look.inode
              && (cfg.parseFileName(path).Some? ==> es[i].log.service == cfg.parseFileName(path).value.container)
  {
    hide ReadFileSpec, Decode, Opened, PiecesOf, PrintPieces, PrintJunk, Kept, OnTheWire;
    FirstLookDecodes(cfg.rules, look);
    ShippedTexts(cfg, path, look.inode, Decode(cfg.rules, look.content).out, es);
    ChunkingRoundTrip(cfg.rules, ms, trailing);
    forall i | 0 <= i < |es| ensures es[i].file == path && es[i].inode == look.inode {
      assert Ships(cfg, path, look.inode, Decode(cfg.rules, look.content).out[i], es[i]);
    }
  }

  /** The same through a whole pass: a live one over distinct paths that lists such a file of another container for the
      first time sends of it exactly what was printed. */
  lemma FirstPassShips(cfg: Config, found: seq<Found>, i: nat, saved: map<string, Position>,
                       files: map<string, FileState>, ms: seq<Printed>, trailing: seq<string>)
    requires Distinct(found) && forall j :: 0 <= j < |found| ==> !found[j].done
    requires i < |found| && IsFollowed(cfg, found[i].path) && found[i].look.Some?
    requires found[i].path !in files && found[i].path !in saved
    requires forall k :: 0 <= k < |ms| ==> WellCut(ms[k])
    requires AllPrintable(cfg.rules, PiecesOf(ms)) && AllMalformed(cfg.rules, trailing)
    requires var look := found[i].look.value;
             && look.content == PrintPieces(PiecesOf(ms)) + PrintJunk(trailing)
             && look.broken == None && look.size == |look.content|
    ensures var es := OfFile(PollSpec(cfg, saved, found, files, None).out, found[i].path);
            && OnTheWire(es) == Kept(cfg.rules, ms)
            && forall k :: 0 <= k < |es| ==>
                 && es[k].log.level == cfg.level(es[k].log.message)
                 && Some(es[k].log.service) == ContainerOf(cfg, found[i].path)
  {
    hide Decode, PollSpec, OfFile, PiecesOf, PrintPieces, PrintJunk, Kept, OnTheWire, ShipsAll, Distinct, Printable;
    var path, look := found[i].path, found[i].look.value;
    FirstLookDecodes(cfg.rules, look);
    ListedFileIsSent(cfg, saved, found, files, i, []);
    var all := Decode(cfg.rules, look.content).out;
    assert all[0..] == all;
    ShippedTexts(cfg, path, look.inode, all, OfFile(PollSpec(cfg, saved, found, files, None).out, path));
    ChunkingRoundTrip(cfg.rules, ms, trailing);
  }

  // The container a file name tells.
  function ContainerOf(cfg: Config, path: string): Option<string> {
    match cfg.parseFileName(path)
    case None => None
    case Some(src) => Some(src.container)
  }
}
