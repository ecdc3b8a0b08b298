/** The meaning of a log file: what one uninterrupted reader of its complete lines
    would emit. Everything the tailer does is measured against Scan. */
module Decoder {
  import opened Cri

  // What decoding depends on: the timestamp grammar and the exclusion pattern.
  datatype Rules = Rules(validTime: string -> bool, excluded: string -> bool)

  // How far a file has been read, and the P chunks still waiting for their F line.
  datatype Point = Point(offset: nat, pending: string)

  // One complete message and the offset just after its F line.
  datatype Message = Message(time: string, text: string, end: nat)

  datatype Scanned = Scanned(at: Point, out: seq<Message>)

  const START := Point(0, "")

  // One physical line, without its newline.
  function StepLine(rules: Rules, p: Point, raw: string): (r: Scanned)
    ensures r.at.offset == p.offset + |raw| + 1
    ensures |r.out| <= 1
    ensures r.out != [] ==> r.at.pending == "" && r.out[0].end == r.at.offset
  {
    var offset := p.offset + |raw| + 1;
    match ParseLine(rules.validTime, raw)
    case Err(_) => Scanned(Point(offset, p.pending), [])
    case Ok(line) =>
      if line.partial then Scanned(Point(offset, p.pending + line.message), [])
      else
        var text := p.pending + line.message;
        Scanned(Point(offset, ""), if rules.excluded(text) then [] else [Message(line.time, text, offset)])
  }

  function Scan(rules: Rules, s: string, p: Point): Scanned {
    var i := IndexOf(s, '\n');
    if i == |s| then Scanned(p, [])
    else
      var first := StepLine(rules, p, s[..i]);
      var rest := Scan(rules, s[i + 1..], first.at);
      Scanned(rest.at, first.out + rest.out)
  }

  function Decode(rules: Rules, s: string): Scanned {
    Scan(rules, s, START)
  }

  lemma ScanStop(rules: Rules, s: string, p: Point)
    requires '\n' !in s
    ensures Scan(rules, s, p) == Scanned(p, [])
  {
    IndexOfAbsent(s, '\n');
  }

  lemma ScanLine(rules: Rules, raw: string, rest: string, p: Point)
    requires '\n' !in raw
    ensures var first := StepLine(rules, p, raw);
            var r := Scan(rules, rest, first.at);
            Scan(rules, raw + "\n" + rest, p) == Scanned(r.at, first.out + r.out)
  {
    hide StepLine;
    var s := raw + "\n" + rest;
    IndexOfFirst(raw, '\n', rest);
    assert s[..|raw|] == raw && s[|raw| + 1..] == rest;
  }

  lemma FirstLine(s: string) returns (raw: string, rest: string)
    requires '\n' in s
    ensures '\n' !in raw && s == raw + "\n" + rest
  {
    var i := IndexOf(s, '\n');
    raw, rest := s[..i], s[i + 1..];
    assert s == s[..i] + [s[i]] + s[i + 1..];
  }

  // Messages end inside what was consumed, at strictly increasing offsets.
  ghost predicate Ordered(out: seq<Message>, lo: nat, hi: nat) {
    && (forall i :: 0 <= i < |out| ==> lo < out[i].end <= hi)
    && (forall i, j :: 0 <= i < j < |out| ==> out[i].end < out[j].end)
  }

  lemma OrderedJoin(a: seq<Message>, b: seq<Message>, lo: nat, mid: nat, hi: nat)
    requires lo <= mid <= hi && Ordered(a, lo, mid) && Ordered(b, mid, hi)
    ensures Ordered(a + b, lo, hi)
  {
    var out := a + b;
    forall i | 0 <= i < |out| ensures lo < out[i].end <= hi && (i >= |a| ==> mid < out[i].end) {
      assert i < |a| ==> out[i] == a[i];
      assert i >= |a| ==> out[i] == b[i - |a|];
    }
    forall i, j | 0 <= i < j < |out| ensures out[i].end < out[j].end {
      if j < |a| {
        assert out[i] == a[i] && out[j] == a[j];
      } else if i >= |a| {
        assert out[i] == b[i - |a|] && out[j] == b[j - |a|];
      } else {
        assert out[i] == a[i];
      }
    }
  }

  lemma LineOrdered(rules: Rules, p: Point, raw: string)
    ensures var first := StepLine(rules, p, raw);
            p.offset < first.at.offset && Ordered(first.out, p.offset, first.at.offset)
  {
    hide StepLine;
  }

  lemma {:induction false} ScanBounds(rules: Rules, s: string, p: Point)
    ensures var r := Scan(rules, s, p);
            p.offset <= r.at.offset <= p.offset + |s| && Ordered(r.out, p.offset, r.at.offset)
    decreases |s|
  {
    hide StepLine, Scan, Ordered;
    if '\n' !in s {
      ScanStop(rules, s, p);
      NoneOrdered(p.offset, p.offset);
    } else {
      var raw, rest := FirstLine(s);
      var first := StepLine(rules, p, raw);
      ScanLine(rules, raw, rest, p);
      LineOrdered(rules, p, raw);
      ScanBounds(rules, rest, first.at);
      var later := Scan(rules, rest, first.at);
      OrderedJoin(first.out, later.out, p.offset, first.at.offset, later.at.offset);
    }
  }

  lemma NoneOrdered(lo: nat, hi: nat)
    ensures Ordered([], lo, hi)
  {
  }

  // The bytes of s a scan from p leaves unread: an unfinished last line.
  function Unread(rules: Rules, s: string, p: Point): (left: string)
    ensures |left| <= |s| && left == s[|s| - |left|..]
    ensures Scan(rules, s, p).at.offset == p.offset + |s| - |left|
  {
    ScanBounds(rules, s, p);
    s[Scan(rules, s, p).at.offset - p.offset..]
  }

  /** Decoding is incremental: scanning s and then, from where that stopped, whatever of s
      is left together with newly written bytes t, is scanning s + t. */
  lemma {:induction false} ScanGrow(rules: Rules, s: string, t: string, p: Point)
    ensures var r := Scan(rules, s, p);
            var r2 := Scan(rules, Unread(rules, s, p) + t, r.at);
            Scan(rules, s + t, p) == Scanned(r2.at, r.out + r2.out)
    decreases |s|
  {
    hide StepLine, Scan;
    if '\n' !in s {
      ScanStop(rules, s, p);
      assert Unread(rules, s, p) == s;
      var r2 := Scan(rules, s + t, p);
      assert [] + r2.out == r2.out;
    } else {
      var raw, rest := FirstLine(s);
      var first := StepLine(rules, p, raw);
      ScanLine(rules, raw, rest, p);
      ScanLine(rules, raw, rest + t, p);
      assert s + t == raw + "\n" + (rest + t);
      ScanGrow(rules, rest, t, first.at);
      assert Unread(rules, s, p) == Unread(rules, rest, first.at);
      var r := Scan(rules, rest, first.at);
      var r2 := Scan(rules, Unread(rules, s, p) + t, r.at);
      assert first.out + (r.out + r2.out) == (first.out + r.out) + r2.out;
    }
  }

  lemma {:induction false} UnreadHasNoNewline(rules: Rules, s: string, p: Point)
    ensures '\n' !in Unread(rules, s, p)
    decreases |s|
  {
    hide StepLine, Scan;
    if '\n' !in s {
      ScanStop(rules, s, p);
      assert Unread(rules, s, p) == s;
    } else {
      var raw, rest := FirstLine(s);
      ScanLine(rules, raw, rest, p);
      UnreadHasNoNewline(rules, rest, StepLine(rules, p, raw).at);
      assert Unread(rules, s, p) == Unread(rules, rest, StepLine(rules, p, raw).at);
    }
  }

  // Nothing after the last newline matters.
  lemma ScanConsumed(rules: Rules, s: string, p: Point)
    ensures var n := |s| - |Unread(rules, s, p)|;
            Scan(rules, s[..n], p) == Scan(rules, s, p)
  {
    hide StepLine, Scan;
    var left := Unread(rules, s, p);
    var n := |s| - |left|;
    UnreadHasNoNewline(rules, s, p);
    ScanBounds(rules, s[..n], p);
    UnreadHasNoNewline(rules, s[..n], p);
    var left' := Unread(rules, s[..n], p);
    assert s == s[..n] + left;
    ScanGrow(rules, s[..n], left, p);
    ScanStop(rules, left' + left, Scan(rules, s[..n], p).at);
  }

  // One more line at a point every byte before which has been consumed.
  lemma ScanSnoc(rules: Rules, s: string, raw: string)
    requires Decode(rules, s).at.offset == |s| && '\n' !in raw
    ensures var r := Decode(rules, s);
            var next := StepLine(rules, r.at, raw);
            Decode(rules, s + (raw + "\n")) == Scanned(next.at, r.out + next.out)
  {
    hide StepLine, Scan;
    var t := raw + "\n";
    var r := Decode(rules, s);
    ScanGrow(rules, s, t, START);
    assert Unread(rules, s, START) + t == t == raw + "\n" + "";
    ScanLine(rules, raw, "", r.at);
    var next := StepLine(rules, r.at, raw);
    ScanStop(rules, "", next.at);
    assert next.out + [] == next.out;
  }

  lemma LateEnds(rules: Rules, left: string, t: string, p: Point)
    requires '\n' !in left
    ensures forall i :: 0 <= i < |Scan(rules, left + t, p).out| ==>
            Scan(rules, left + t, p).out[i].end > p.offset + |left|
  {
    hide StepLine, Scan;
    var s := left + t;
    if '\n' !in s {
      ScanStop(rules, s, p);
    } else {
      var raw, rest := FirstLine(s);
      assert |raw| >= |left| by {
        assert forall k :: 0 <= k < |left| ==> s[k] == left[k];
        assert s[|raw|] == '\n';
      }
      var first := StepLine(rules, p, raw);
      ScanLine(rules, raw, rest, p);
      ScanBounds(rules, rest, first.at);
    }
  }

  // The messages of a content that end within n are exactly those of its first n bytes.
  lemma DecodeWithin(rules: Rules, s: string, n: nat)
    requires n <= |s|
    ensures Decode(rules, s[..n]).out <= Decode(rules, s).out
    ensures forall m :: m in Decode(rules, s[..n]).out <==> m in Decode(rules, s).out && m.end <= n
  {
    hide StepLine, Scan;
    var a := Decode(rules, s[..n]);
    assert s == s[..n] + s[n..];
    ScanGrow(rules, s[..n], s[n..], START);
    ScanBounds(rules, s[..n], START);
    UnreadHasNoNewline(rules, s[..n], START);
    var left := Unread(rules, s[..n], START);
    LateEnds(rules, left, s[n..], a.at);
  }

  // Cut s just after the F line of its i-th message.
  lemma {:induction false} CutAt(rules: Rules, s: string, p: Point, i: nat) returns (before: string, after: string)
    requires i < |Scan(rules, s, p).out|
    ensures s == before + after && 0 < |before|
    ensures var r := Scan(rules, s, p);
            r.out[i].end == p.offset + |before| &&
            Scan(rules, before, p) == Scanned(Point(p.offset + |before|, ""), r.out[..i + 1])
    decreases |s|
  {
    hide StepLine, Scan;
    if '\n' !in s {
      ScanStop(rules, s, p);
    }
    var raw, rest := FirstLine(s);
    var first := StepLine(rules, p, raw);
    ScanLine(rules, raw, rest, p);
    var later := Scan(rules, rest, first.at).out;
    if i < |first.out| {
      before, after := raw + "\n" + "", rest;
      ScanLine(rules, raw, "", p);
      ScanStop(rules, "", first.at);
      assert (first.out + later)[..1] == first.out + [];
    } else {
      var j := i - |first.out|;
      var inner;
      inner, after := CutAt(rules, rest, first.at, j);
      before := raw + "\n" + inner;
      ScanLine(rules, raw, inner, p);
      assert (first.out + later)[..i + 1] == first.out + later[..j + 1];
      assert s == before + after;
    }
  }

  /** Restart composability: at the end of any message nothing is pending, the bytes up to
      there decode to exactly the messages up to and including it, and resuming there
      yields the uninterrupted continuation. */
  lemma MessageEndsAtBoundary(rules: Rules, s: string, i: nat)
    requires i < |Decode(rules, s).out|
    ensures var all := Decode(rules, s);
            var o := all.out[i].end;
            && 0 < o <= |s|
            && Decode(rules, s[..o]) == Scanned(Point(o, ""), all.out[..i + 1])
            && var later := Scan(rules, s[o..], Point(o, ""));
               all == Scanned(later.at, all.out[..i + 1] + later.out)
  {
    hide StepLine, Scan;
    var before, after := CutAt(rules, s, START, i);
    var o := |before|;
    assert s[..o] == before && s[o..] == after;
    ScanGrow(rules, before, after, START);
    assert Unread(rules, before, START) + after == after;
  }

  function Shift(r: Scanned, base: nat): Scanned {
    Scanned(Point(r.at.offset + base, r.at.pending),
            seq(|r.out|, i requires 0 <= i < |r.out| => Message(r.out[i].time, r.out[i].text, r.out[i].end + base)))
  }

  lemma StepLineShift(rules: Rules, p: Point, raw: string, base: nat)
    ensures StepLine(rules, Point(p.offset + base, p.pending), raw) == Shift(StepLine(rules, p, raw), base)
  {
    hide ParseLine;
  }

  /** Resuming at a boundary is a fresh scan of the remaining bytes, relocated. */
  lemma {:induction false} ResumeIsFreshScan(rules: Rules, s: string, p: Point, base: nat)
    ensures Scan(rules, s, Point(p.offset + base, p.pending)) == Shift(Scan(rules, s, p), base)
    decreases |s|
  {
    hide StepLine, Scan;
    var p' := Point(p.offset + base, p.pending);
    if '\n' !in s {
      ScanStop(rules, s, p);
      ScanStop(rules, s, p');
    } else {
      var raw, rest := FirstLine(s);
      var first := StepLine(rules, p, raw);
      ScanLine(rules, raw, rest, p);
      ScanLine(rules, raw, rest, p');
      StepLineShift(rules, p, raw, base);
      ResumeIsFreshScan(rules, rest, first.at, base);
    }
  }
}
