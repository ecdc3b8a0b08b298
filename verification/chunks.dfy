/** Chunked messages: the runtime cuts a long message into P lines ending in an F line.
    A file is printed piece by piece, then read back with Scan. */
module Chunks {
  import opened Cri
  import opened Decoder

  // One well-formed line, preceded by any number of lines that do not parse.
  datatype Piece = Piece(junk: seq<string>, line: Line)

  // What a reader gets out of a file, without offsets.
  datatype Bare = Bare(time: string, text: string)

  ghost predicate Malformed(rules: Rules, raw: string) {
    '\n' !in raw && ParseLine(rules.validTime, raw).Err?
  }

  ghost predicate AllMalformed(rules: Rules, junk: seq<string>) {
    forall i :: 0 <= i < |junk| ==> Malformed(rules, junk[i])
  }

  ghost predicate Printable(rules: Rules, p: Piece) {
    && AllMalformed(rules, p.junk)
    && Writable(rules.validTime, p.line)
    && '\n' !in p.line.time && '\n' !in p.line.message
  }

  ghost predicate AllPrintable(rules: Rules, ps: seq<Piece>) {
    forall i :: 0 <= i < |ps| ==> Printable(rules, ps[i])
  }

  function PrintJunk(junk: seq<string>): string {
    if junk == [] then "" else junk[0] + "\n" + PrintJunk(junk[1..])
  }

  function PrintPiece(p: Piece): string {
    PrintJunk(p.junk) + (Format(p.line) + "\n")
  }

  function PrintPieces(ps: seq<Piece>): string {
    if ps == [] then "" else PrintPiece(ps[0]) + PrintPieces(ps[1..])
  }

  function ToBare(out: seq<Message>): (b: seq<Bare>)
    ensures |b| == |out|
  {
    seq(|out|, i requires 0 <= i < |out| => Bare(out[i].time, out[i].text))
  }

  datatype Assembled = Assembled(out: seq<Bare>, pending: string)

  // Joining pieces without any bytes or offsets: one buffer for the whole file.
  function AssembleOne(rules: Rules, line: Line, pending: string): Assembled {
    var text := pending + line.message;
    if line.partial then Assembled([], text)
    else Assembled(if rules.excluded(text) then [] else [Bare(line.time, text)], "")
  }

  function Assemble(rules: Rules, ps: seq<Piece>, pending: string): Assembled {
    if ps == [] then Assembled([], pending)
    else
      var first := AssembleOne(rules, ps[0].line, pending);
      var rest := Assemble(rules, ps[1..], first.pending);
      Assembled(first.out + rest.out, rest.pending)
  }

  lemma {:induction false} ScanJunk(rules: Rules, junk: seq<string>, rest: string, p: Point)
    requires AllMalformed(rules, junk)
    ensures Scan(rules, PrintJunk(junk) + rest, p) == Scan(rules, rest, Point(p.offset + |PrintJunk(junk)|, p.pending))
  {
    hide Scan, ParseLine;
    if junk == [] {
      assert PrintJunk(junk) + rest == rest;
    } else {
      var raw, more := junk[0], PrintJunk(junk[1..]);
      var first := StepLine(rules, p, raw);
      assert Malformed(rules, raw);
      ScanLine(rules, raw, more + rest, p);
      assert PrintJunk(junk) + rest == raw + "\n" + (more + rest);
      var r := Scan(rules, more + rest, first.at);
      assert [] + r.out == r.out;
      ScanJunk(rules, junk[1..], rest, first.at);
    }
  }

  lemma FormatHasNoNewline(l: Line)
    requires '\n' !in l.time && '\n' !in l.message && (l.stream == "stdout" || l.stream == "stderr")
    ensures '\n' !in Format(l)
  {
    assert '\n' !in l.stream && '\n' !in Tag(l) && '\n' !in " ";
  }

  lemma StepFormatted(rules: Rules, line: Line, p: Point)
    requires Writable(rules.validTime, line)
    ensures var step := StepLine(rules, p, Format(line));
            var one := AssembleOne(rules, line, p.pending);
            step.at == Point(p.offset + |Format(line)| + 1, one.pending) && ToBare(step.out) == one.out
  {
    hide ParseLine, Format;
    PrintedParses(rules.validTime, line);
  }

  lemma ToBareConcat(a: seq<Message>, b: seq<Message>)
    ensures ToBare(a + b) == ToBare(a) + ToBare(b)
  {
  }

  lemma PieceText(piece: Piece, rest: string)
    ensures PrintPiece(piece) + rest == PrintJunk(piece.junk) + (Format(piece.line) + "\n" + rest)
    ensures |PrintPiece(piece)| == |PrintJunk(piece.junk)| + |Format(piece.line)| + 1
  {
    hide Format, PrintJunk;
  }

  lemma ScanFormatted(rules: Rules, line: Line, rest: string, p: Point)
    requires Writable(rules.validTime, line) && '\n' !in line.time && '\n' !in line.message
    ensures var one := AssembleOne(rules, line, p.pending);
            var later := Scan(rules, rest, Point(p.offset + |Format(line)| + 1, one.pending));
            var r := Scan(rules, Format(line) + "\n" + rest, p);
            r.at == later.at && ToBare(r.out) == one.out + ToBare(later.out)
  {
    hide Scan, StepLine, Format, AssembleOne, ToBare;
    var raw := Format(line);
    FormatHasNoNewline(line);
    ScanLine(rules, raw, rest, p);
    StepFormatted(rules, line, p);
    var step := StepLine(rules, p, raw);
    ToBareConcat(step.out, Scan(rules, rest, step.at).out);
  }

  lemma ScanPiece(rules: Rules, piece: Piece, rest: string, p: Point)
    requires Printable(rules, piece)
    ensures var one := AssembleOne(rules, piece.line, p.pending);
            var later := Scan(rules, rest, Point(p.offset + |PrintPiece(piece)|, one.pending));
            var r := Scan(rules, PrintPiece(piece) + rest, p);
            r.at == later.at && ToBare(r.out) == one.out + ToBare(later.out)
  {
    hide Scan, ParseLine, Format, AssembleOne, PrintJunk, PrintPiece, ToBare, AllMalformed, Writable;
    var q := Point(p.offset + |PrintJunk(piece.junk)|, p.pending);
    var tail := Format(piece.line) + "\n" + rest;
    PieceText(piece, rest);
    ScanJunk(rules, piece.junk, tail, p);
    assert Scan(rules, PrintPiece(piece) + rest, p) == Scan(rules, tail, q);
    ScanFormatted(rules, piece.line, rest, q);
    assert q.offset + |Format(piece.line)| + 1 == p.offset + |PrintPiece(piece)|;
  }

  // Reading back printed pieces assembles them, whatever malformed lines stand between.
  lemma {:induction false} ScanPieces(rules: Rules, ps: seq<Piece>, trailing: seq<string>, p: Point)
    requires AllPrintable(rules, ps) && AllMalformed(rules, trailing)
    ensures var file := PrintPieces(ps) + PrintJunk(trailing);
            var r := Scan(rules, file, p);
            var all := Assemble(rules, ps, p.pending);
            r.at == Point(p.offset + |file|, all.pending) && ToBare(r.out) == all.out
  {
    hide Scan, AssembleOne, PrintPiece, PrintJunk;
    if ps == [] {
      assert PrintJunk(trailing) + "" == PrintJunk(trailing) == PrintPieces(ps) + PrintJunk(trailing);
      ScanJunk(rules, trailing, "", p);
      ScanStop(rules, "", Point(p.offset + |PrintJunk(trailing)|, p.pending));
    } else {
      assert Printable(rules, ps[0]);
      var rest := PrintPieces(ps[1..]) + PrintJunk(trailing);
      assert PrintPieces(ps) + PrintJunk(trailing) == PrintPiece(ps[0]) + rest;
      ScanPiece(rules, ps[0], rest, p);
      var one := AssembleOne(rules, ps[0].line, p.pending);
      ScanPieces(rules, ps[1..], trailing, Point(p.offset + |PrintPiece(ps[0])|, one.pending));
    }
  }

  // A message as it was printed: its P pieces, then its F piece.
  datatype Printed = Printed(partials: seq<Piece>, last: Piece)

  ghost predicate WellCut(m: Printed) {
    (forall i :: 0 <= i < |m.partials| ==> m.partials[i].line.partial) && !m.last.line.partial
  }

  function ConcatTexts(ps: seq<Piece>): string {
    if ps == [] then "" else ps[0].line.message + ConcatTexts(ps[1..])
  }

  // The message the application wrote.
  function TextOf(m: Printed): string {
    ConcatTexts(m.partials) + m.last.line.message
  }

  function PiecesOf(ms: seq<Printed>): seq<Piece> {
    if ms == [] then [] else ms[0].partials + [ms[0].last] + PiecesOf(ms[1..])
  }

  // Every message not excluded, in order.
  function Kept(rules: Rules, ms: seq<Printed>): seq<Bare> {
    if ms == [] then []
    else
      var text := TextOf(ms[0]);
      (if rules.excluded(text) then [] else [Bare(ms[0].last.line.time, text)]) + Kept(rules, ms[1..])
  }

  lemma AssemblePartial(rules: Rules, p: Piece, more: seq<Piece>, pending: string)
    requires p.line.partial
    ensures Assemble(rules, [p] + more, pending) == Assemble(rules, more, pending + p.line.message)
  {
    assert ([p] + more)[1..] == more;
    var rest := Assemble(rules, more, pending + p.line.message);
    assert [] + rest.out == rest.out;
  }

  lemma {:induction false} AssemblePartials(rules: Rules, ps: seq<Piece>, more: seq<Piece>, pending: string)
    requires forall i :: 0 <= i < |ps| ==> ps[i].line.partial
    ensures Assemble(rules, ps + more, pending) == Assemble(rules, more, pending + ConcatTexts(ps))
  {
    hide Assemble;
    if ps == [] {
      assert ps + more == more && pending + "" == pending;
    } else {
      assert ps + more == [ps[0]] + (ps[1..] + more);
      AssemblePartial(rules, ps[0], ps[1..] + more, pending);
      AssemblePartials(rules, ps[1..], more, pending + ps[0].line.message);
      assert pending + ps[0].line.message + ConcatTexts(ps[1..]) == pending + ConcatTexts(ps);
    }
  }

  lemma {:induction false} AssembleMessages(rules: Rules, ms: seq<Printed>)
    requires forall i :: 0 <= i < |ms| ==> WellCut(ms[i])
    ensures Assemble(rules, PiecesOf(ms), "") == Assembled(Kept(rules, ms), "")
  {
    if ms != [] {
      var m := ms[0];
      assert WellCut(m);
      var more := [m.last] + PiecesOf(ms[1..]);
      assert PiecesOf(ms) == m.partials + more;
      AssemblePartials(rules, m.partials, more, "");
      assert "" + ConcatTexts(m.partials) == ConcatTexts(m.partials);
      assert more[1..] == PiecesOf(ms[1..]);
      AssembleMessages(rules, ms[1..]);
    }
  }

  /** Chunking round trip: any messages, each cut anywhere into P lines ending in an F line and
      printed contiguously, with malformed lines anywhere, decode to exactly those messages in
      order, minus the excluded ones; nothing stays pending and every byte is consumed. */
  lemma ChunkingRoundTrip(rules: Rules, ms: seq<Printed>, trailing: seq<string>)
    requires forall i :: 0 <= i < |ms| ==> WellCut(ms[i])
    requires AllPrintable(rules, PiecesOf(ms)) && AllMalformed(rules, trailing)
    ensures var file := PrintPieces(PiecesOf(ms)) + PrintJunk(trailing);
            var r := Decode(rules, file);
            ToBare(r.out) == Kept(rules, ms) && r.at == Point(|file|, "")
  {
    AssembleMessages(rules, ms);
    ScanPieces(rules, PiecesOf(ms), trailing, START);
  }

  // ---- Two streams in one file ----

  // Joining with one buffer per stream, as the runtime cut them.
  function PerStream(ps: seq<Piece>, stdout: string, stderr: string): seq<Bare> {
    if ps == [] then []
    else
      var line := ps[0].line;
      if line.stream == "stdout" then
        if line.partial then PerStream(ps[1..], stdout + line.message, stderr)
        else [Bare(line.time, stdout + line.message)] + PerStream(ps[1..], "", stderr)
      else
        if line.partial then PerStream(ps[1..], stdout, stderr + line.message)
        else [Bare(line.time, stderr + line.message)] + PerStream(ps[1..], stdout, "")
  }

  // No F line arrives while the other stream has text waiting for its own F line.
  predicate NeverInterleaved(ps: seq<Piece>, stdout: string, stderr: string) {
    ps == [] ||
    var line := ps[0].line;
    if line.stream == "stdout" then
      if line.partial then NeverInterleaved(ps[1..], stdout + line.message, stderr)
      else stderr == "" && NeverInterleaved(ps[1..], "", stderr)
    else
      if line.partial then NeverInterleaved(ps[1..], stdout, stderr + line.message)
      else stdout == "" && NeverInterleaved(ps[1..], stdout, "")
  }

  // The shared buffer holds the text of both streams.
  ghost predicate Holds(pending: string, stdout: string, stderr: string) {
    && |pending| == |stdout| + |stderr|
    && (stderr == "" ==> pending == stdout)
    && (stdout == "" ==> pending == stderr)
  }

  // The agent without its exclusion pattern.
  function Unfiltered(rules: Rules): Rules {
    rules.(excluded := _ => false)
  }

  // What an exclusion pattern leaves.
  function Remaining(rules: Rules, out: seq<Bare>): seq<Bare> {
    if out == [] then []
    else (if rules.excluded(out[0].text) then [] else [out[0]]) + Remaining(rules, out[1..])
  }

  // Exclusion comes after joining: it filters what the agent without a pattern emits.
  lemma {:induction false} ExclusionFilters(rules: Rules, ps: seq<Piece>, pending: string)
    ensures Assemble(rules, ps, pending).out == Remaining(rules, Assemble(Unfiltered(rules), ps, pending).out)
  {
    if ps != [] {
      var text := pending + ps[0].line.message;
      var all := Assemble(Unfiltered(rules), ps, pending).out;
      if ps[0].line.partial {
        ExclusionFilters(rules, ps[1..], text);
        assert all == Assemble(Unfiltered(rules), ps[1..], text).out;
      } else {
        ExclusionFilters(rules, ps[1..], "");
        assert all[1..] == Assemble(Unfiltered(rules), ps[1..], "").out;
      }
    }
  }

  lemma {:induction false} SharedBufferExact(rules: Rules, ps: seq<Piece>, pending: string, stdout: string,
      stderr: string)
    requires Holds(pending, stdout, stderr)
    ensures Assemble(Unfiltered(rules), ps, pending).out == PerStream(ps, stdout, stderr) <==>
            NeverInterleaved(ps, stdout, stderr)
  {
    if ps != [] {
      var line := ps[0].line;
      var x := line.message;
      var all := Unfiltered(rules);
      var first := AssembleOne(all, line, pending);
      var rest := Assemble(all, ps[1..], first.pending).out;
      if line.partial {
        assert [] + rest == rest;
        if line.stream == "stdout" {
          SharedBufferExact(rules, ps[1..], pending + x, stdout + x, stderr);
        } else {
          SharedBufferExact(rules, ps[1..], pending + x, stdout, stderr + x);
        }
      } else {
        var mine, other := if line.stream == "stdout" then stdout else stderr,
                           if line.stream == "stdout" then stderr else stdout;
        assert (first.out + rest)[0] == Bare(line.time, pending + x);
        if other == "" {
          assert pending == mine;
          SharedBufferExact(rules, ps[1..], "", "", "");
          assert (first.out + rest)[1..] == rest;
          var ideal := PerStream(ps, stdout, stderr);
          assert ideal[1..] == PerStream(ps[1..], "", "");
        } else {
          assert |pending + x| > |mine + x|;
          assert PerStream(ps, stdout, stderr)[0] == Bare(line.time, mine + x);
        }
      }
    }
  }

  /** The buffer of P chunks is one per file, not one per stream. Before exclusion, the decoder recovers what each
      stream wrote exactly when no F line arrives while the other stream has text pending; then
      an exclusion pattern leaves what it leaves of what the streams wrote. */
  lemma OneBufferPerFile(rules: Rules, ps: seq<Piece>)
    requires AllPrintable(rules, ps)
    ensures var all := ToBare(Decode(Unfiltered(rules), PrintPieces(ps)).out);
            && (all == PerStream(ps, "", "") <==> NeverInterleaved(ps, "", ""))
            && ToBare(Decode(rules, PrintPieces(ps)).out) == Remaining(rules, all)
    ensures NeverInterleaved(ps, "", "") ==>
              ToBare(Decode(rules, PrintPieces(ps)).out) == Remaining(rules, PerStream(ps, "", ""))
  {
    hide Assemble, PrintPieces, Decode;
    SharedBufferExact(rules, ps, "", "", "");
    ExclusionFilters(rules, ps, "");
    DecodePieces(rules, ps);
    UnfilteredPrintable(rules, ps);
    DecodePieces(Unfiltered(rules), ps);
  }

  lemma DecodePieces(rules: Rules, ps: seq<Piece>)
    requires AllPrintable(rules, ps)
    ensures ToBare(Decode(rules, PrintPieces(ps)).out) == Assemble(rules, ps, "").out
  {
    hide Assemble, Scan, AllPrintable;
    ScanPieces(rules, ps, [], START);
    assert PrintPieces(ps) + PrintJunk([]) == PrintPieces(ps);
  }

  lemma UnfilteredPrintable(rules: Rules, ps: seq<Piece>)
    requires AllPrintable(rules, ps)
    ensures AllPrintable(Unfiltered(rules), ps)
  {
    hide ParseLine;
    forall i | 0 <= i < |ps| ensures Printable(Unfiltered(rules), ps[i]) {
      assert Printable(rules, ps[i]);
      assert forall j :: 0 <= j < |ps[i].junk| ==>
          Malformed(rules, ps[i].junk[j]) ==> Malformed(Unfiltered(rules), ps[i].junk[j]);
    }
  }

  /** The failing input: a non-empty chunk on stdout, then a full line on stderr. The decoder reports stdout's text
      as the beginning of stderr's message; what the streams wrote is left by the exclusion
      pattern only if it excludes both readings. */
  lemma StderrTakesStdoutsText(rules: Rules, chunk: Line, full: Line)
    requires Writable(rules.validTime, chunk) && chunk.stream == "stdout" && chunk.partial && chunk.message != ""
    requires Writable(rules.validTime, full) && full.stream == "stderr" && !full.partial
    requires '\n' !in chunk.time && '\n' !in chunk.message && '\n' !in full.time && '\n' !in full.message
    ensures var ps := [Piece([], chunk), Piece([], full)];
            var file := PrintPieces(ps);
            && AllPrintable(rules, ps) && !NeverInterleaved(ps, "", "")
            && ToBare(Decode(Unfiltered(rules), file).out) == [Bare(full.time, chunk.message + full.message)]
            && PerStream(ps, "", "") == [Bare(full.time, full.message)]
            && (ToBare(Decode(rules, file).out) == Remaining(rules, PerStream(ps, "", "")) <==>
                  rules.excluded(chunk.message + full.message) && rules.excluded(full.message))
  {
    hide Decode, PrintPieces;
    var first, last := Piece([], chunk), Piece([], full);
    var ps := [first, last];
    assert ps[1..] == [last] && [last][1..] == [];
    OneBufferPerFile(rules, ps);
    UnfilteredPrintable(rules, ps);
    DecodePieces(Unfiltered(rules), ps);
    assert "" + chunk.message == chunk.message;
    assert Assemble(Unfiltered(rules), [last], chunk.message).out == [Bare(full.time, chunk.message + full.message)];
    assert PerStream([last], "" + chunk.message, "") == [Bare(full.time, "" + full.message)];
    assert "" + full.message == full.message;
    assert |chunk.message + full.message| > |full.message|;
    OneRemains(rules, Bare(full.time, chunk.message + full.message));
    OneRemains(rules, Bare(full.time, full.message));
  }

  lemma OneRemains(rules: Rules, b: Bare)
    ensures Remaining(rules, [b]) == if rules.excluded(b.text) then [] else [b]
  {
  }
}
