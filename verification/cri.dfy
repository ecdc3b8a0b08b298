/** The CRI log line format (internal/logagent/cri.go): one physical line is
    "<time> <stream> <tag> <message>", tag F for a full line, P for a partial one.
    Which strings are timestamps is a parameter. Strings are sequences of bytes. */
module Cri {
  import opened Wrappers

  datatype Line = Line(time: string, stream: string, partial: bool, message: string)

  datatype LineError = NotCri | BadTimestamp | UnknownStream | UnknownTag

  // First index of c in s, or |s|.
  function IndexOf(s: string, c: char): (i: nat)
    ensures i <= |s| && forall k :: 0 <= k < i ==> s[k] != c
    ensures i < |s| ==> s[i] == c
  {
    if s == "" || s[0] == c then 0 else 1 + IndexOf(s[1..], c)
  }

  lemma IndexOfFirst(a: string, c: char, rest: string)
    requires c !in a
    ensures IndexOf(a + [c] + rest, c) == |a|
  {
    var s := a + [c] + rest;
    assert s[|a|] == c;
    assert forall k :: 0 <= k < |a| ==> s[k] == a[k];
  }

  lemma IndexOfAbsent(s: string, c: char)
    requires c !in s
    ensures IndexOf(s, c) == |s|
  {
  }

  // strings.SplitN(s, " ", n): at most n pieces, the last one unsplit.
  function SplitN(s: string, n: nat): (parts: seq<string>)
    requires n > 0
    ensures 1 <= |parts| <= n
  {
    var i := IndexOf(s, ' ');
    if n == 1 || i == |s| then [s] else [s[..i]] + SplitN(s[i + 1..], n - 1)
  }

  lemma SplitNFirst(a: string, rest: string, n: nat)
    requires n > 1 && ' ' !in a
    ensures SplitN(a + " " + rest, n) == [a] + SplitN(rest, n - 1)
  {
    IndexOfFirst(a, ' ', rest);
    var s := a + " " + rest;
    assert s[..|a|] == a && s[|a| + 1..] == rest;
  }

  function ParseLine(validTime: string -> bool, raw: string): Result<Line, LineError> {
    var parts := SplitN(raw, 4);
    if |parts| < 3 then Err(NotCri)
    else if !validTime(parts[0]) then Err(BadTimestamp)
    else if parts[1] != "stdout" && parts[1] != "stderr" then Err(UnknownStream)
    else if parts[2] != "F" && parts[2] != "P" then Err(UnknownTag)
    else Ok(Line(parts[0], parts[1], parts[2] == "P", if |parts| == 4 then parts[3] else ""))
  }

  // What a container runtime can write.
  ghost predicate Writable(validTime: string -> bool, l: Line) {
    validTime(l.time) && ' ' !in l.time && (l.stream == "stdout" || l.stream == "stderr")
  }

  function Tag(l: Line): string {
    if l.partial then "P" else "F"
  }

  function ShortForm(l: Line): string {
    l.time + " " + l.stream + " " + Tag(l)
  }

  function Format(l: Line): string {
    ShortForm(l) + " " + l.message
  }

  lemma SplitNWhole(s: string, n: nat)
    requires n > 0 && (n == 1 || ' ' !in s)
    ensures SplitN(s, n) == [s]
  {
  }

  lemma SplitThree(a: string, b: string, c: string)
    requires ' ' !in a && ' ' !in b && ' ' !in c
    ensures SplitN(a + " " + b + " " + c, 4) == [a, b, c]
  {
    hide SplitN;
    assert a + " " + b + " " + c == a + " " + (b + " " + c);
    SplitNFirst(a, b + " " + c, 4);
    SplitNFirst(b, c, 3);
    SplitNWhole(c, 2);
  }

  lemma SplitFour(a: string, b: string, c: string, d: string)
    requires ' ' !in a && ' ' !in b && ' ' !in c
    ensures SplitN(a + " " + b + " " + c + " " + d, 4) == [a, b, c, d]
  {
    hide SplitN;
    assert a + " " + b + " " + c + " " + d == a + " " + (b + " " + (c + " " + d));
    SplitNFirst(a, b + " " + (c + " " + d), 4);
    SplitNFirst(b, c + " " + d, 3);
    SplitNFirst(c, d, 2);
    SplitNWhole(d, 1);
  }

  // SplitN loses nothing: gluing the pieces back gives the input.
  function Glue(parts: seq<string>): string
    requires |parts| > 0
  {
    if |parts| == 1 then parts[0] else parts[0] + " " + Glue(parts[1..])
  }

  // SplitN unfolded at the first space.
  lemma SplitNStep(s: string, n: nat) returns (first: string, rest: string)
    requires n > 1 && ' ' in s
    ensures ' ' !in first && s == first + " " + rest && SplitN(s, n) == [first] + SplitN(rest, n - 1)
  {
    hide SplitN;
    var i := IndexOf(s, ' ');
    first, rest := s[..i], s[i + 1..];
    assert s == s[..i] + [s[i]] + s[i + 1..];
    SplitNFirst(first, rest, n);
  }

  lemma GlueFirst(first: string, parts: seq<string>)
    requires |parts| > 0
    ensures Glue([first] + parts) == first + " " + Glue(parts)
  {
    assert ([first] + parts)[1..] == parts;
  }

  lemma {:induction false} GlueSplit(s: string, n: nat)
    requires n > 0
    ensures Glue(SplitN(s, n)) == s
    ensures forall i :: 0 <= i < |SplitN(s, n)| && i < n - 1 ==> ' ' !in SplitN(s, n)[i]
    decreases n
  {
    hide SplitN, IndexOf, Glue;
    if n == 1 || ' ' !in s {
      SplitNWhole(s, n);
      GlueOne(s);
    } else {
      var first, rest := SplitNStep(s, n);
      GlueSplit(rest, n - 1);
      GlueFirst(first, SplitN(rest, n - 1));
    }
  }

  lemma GlueOne(s: string)
    ensures Glue([s]) == s
  {
  }

  lemma GlueThree(a: string, b: string, c: string)
    ensures Glue([a, b, c]) == a + " " + b + " " + c
  {
    assert [a, b, c][1..] == [b, c] && [b, c][1..] == [c];
    assert Glue([b, c]) == b + " " + Glue([c]) && Glue([c]) == c;
    assert a + " " + (b + " " + c) == a + " " + b + " " + c;
  }

  lemma GlueFour(a: string, b: string, c: string, d: string)
    ensures Glue([a, b, c, d]) == a + " " + b + " " + c + " " + d
  {
    assert [a, b, c, d][1..] == [b, c, d];
    GlueThree(b, c, d);
    assert a + " " + (b + " " + c + " " + d) == a + " " + b + " " + c + " " + d;
  }

  // What parses was printed by a runtime.
  lemma ParsedIsPrinted(validTime: string -> bool, raw: string, l: Line)
    requires ParseLine(validTime, raw) == Ok(l)
    ensures Writable(validTime, l) && (raw == Format(l) || (l.message == "" && raw == ShortForm(l)))
  {
    hide SplitN, Glue;
    var parts := SplitN(raw, 4);
    GlueSplit(raw, 4);
    if |parts| == 4 {
      assert parts == [l.time, l.stream, Tag(l), l.message];
      GlueFour(l.time, l.stream, Tag(l), l.message);
    } else {
      assert parts == [l.time, l.stream, Tag(l)];
      GlueThree(l.time, l.stream, Tag(l));
    }
  }

  lemma PrintedParses(validTime: string -> bool, l: Line)
    requires Writable(validTime, l)
    ensures ParseLine(validTime, Format(l)) == Ok(l)
    ensures l.message == "" ==> ParseLine(validTime, ShortForm(l)) == Ok(l)
  {
    hide SplitN;
    SplitFour(l.time, l.stream, Tag(l), l.message);
    SplitThree(l.time, l.stream, Tag(l));
  }

  /** The parser inverts the printer and accepts nothing else: a raw line parses to l
      exactly when it is l printed, or l printed without the trailing space of an
      empty message. */
  lemma ParseExactlyPrinted(validTime: string -> bool, raw: string, l: Line)
    ensures ParseLine(validTime, raw) == Ok(l) <==>
            Writable(validTime, l) && (raw == Format(l) || (l.message == "" && raw == ShortForm(l)))
  {
    hide ParseLine, Format, ShortForm;
    if ParseLine(validTime, raw) == Ok(l) {
      ParsedIsPrinted(validTime, raw, l);
    }
    if Writable(validTime, l) {
      PrintedParses(validTime, l);
    }
  }

  /** The two tags and the two streams, spelled out: F is a full line, P a partial one, and nothing else is either. What
      is wrong is reported for the first part that is. */
  lemma TagsAndStreams(validTime: string -> bool, time: string, stream: string, tag: string, message: string)
    requires ' ' !in time && ' ' !in stream && ' ' !in tag
    ensures ParseLine(validTime, time + " " + stream + " " + tag + " " + message) ==
            if !validTime(time) then Err(BadTimestamp)
            else if stream != "stdout" && stream != "stderr" then Err(UnknownStream)
            else if tag == "F" then Ok(Line(time, stream, false, message))
            else if tag == "P" then Ok(Line(time, stream, true, message))
            else Err(UnknownTag)
    ensures ParseLine(validTime, time) == ParseLine(validTime, time + " " + stream) == Err(NotCri)
  {
    hide SplitN;
    SplitFour(time, stream, tag, message);
    SplitNWhole(time, 4);
    SplitNFirst(time, stream, 4);
    SplitNWhole(stream, 3);
  }
}
