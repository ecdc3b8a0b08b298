// The email value object (internal/domain/email.go), over ASCII text.
module Email {
  import opened Wrappers
  import opened Cri

  datatype Invalid = InvalidEmail

  predicate IsSpace(c: char) {
    c == ' ' || c == '\t' || c == '\n' || c == '\r' || c as int == 11 || c as int == 12
  }

  function Lower(c: char): char {
    if 'A' <= c <= 'Z' then (c as int + 32) as char else c
  }

  function ToLower(s: string): (r: string)
    ensures |r| == |s| && forall i :: 0 <= i < |s| ==> r[i] == Lower(s[i])
  {
    seq(|s|, i requires 0 <= i < |s| => Lower(s[i]))
  }

  function TrimLeft(s: string): string {
    if s != "" && IsSpace(s[0]) then TrimLeft(s[1..]) else s
  }

  function TrimRight(s: string): string {
    if s != "" && IsSpace(s[|s| - 1]) then TrimRight(s[..|s| - 1]) else s
  }

  function TrimSpace(s: string): string {
    TrimRight(TrimLeft(s))
  }

  function Normal(raw: string): string {
    ToLower(TrimSpace(raw))
  }

  function NewEmail(raw: string): Result<string, Invalid> {
    var v := Normal(raw);
    var at := IndexOf(v, '@');
    if v == "" then Err(InvalidEmail)
    else if at == |v| || at == 0 || at == |v| - 1 || ' ' in v || '\t' in v then Err(InvalidEmail)
    else Ok(v)
  }

  ghost predicate Trimmed(s: string) {
    s == "" || (!IsSpace(s[0]) && !IsSpace(s[|s| - 1]))
  }

  lemma {:induction false} TrimRightEnds(s: string)
    ensures TrimRight(s) <= s
    ensures TrimRight(s) == "" || !IsSpace(TrimRight(s)[|TrimRight(s)| - 1])
  {
    if s != "" && IsSpace(s[|s| - 1]) {
      TrimRightEnds(s[..|s| - 1]);
    }
  }

  lemma {:induction false} TrimLeftStarts(s: string)
    ensures TrimLeft(s) == "" || !IsSpace(TrimLeft(s)[0])
  {
    if s != "" && IsSpace(s[0]) {
      TrimLeftStarts(s[1..]);
    }
  }

  lemma TrimSpaceTrims(s: string)
    ensures Trimmed(TrimSpace(s))
    ensures Trimmed(s) ==> TrimSpace(s) == s
  {
    TrimLeftStarts(s);
    TrimRightEnds(TrimLeft(s));
  }

  lemma LowerKeepsSpaces(c: char)
    ensures IsSpace(Lower(c)) == IsSpace(c) && Lower(Lower(c)) == Lower(c)
  {
  }

  // The normal form is its own normal form.
  lemma NormalIsFixed(raw: string)
    ensures Normal(Normal(raw)) == Normal(raw)
  {
    hide TrimSpace, IsSpace, Lower;
    var t := TrimSpace(raw);
    var v := ToLower(t);
    TrimSpaceTrims(raw);
    forall i | 0 <= i < |t| ensures IsSpace(v[i]) == IsSpace(t[i]) && Lower(v[i]) == v[i] {
      LowerKeepsSpaces(t[i]);
    }
    TrimSpaceTrims(v);
    assert ToLower(v) == v;
  }

  /** An email is its own normal form, so normalising it again changes nothing. */
  lemma NewEmailIsIdempotent(raw: string)
    requires NewEmail(raw).Ok?
    ensures NewEmail(NewEmail(raw).value) == NewEmail(raw)
  {
    hide Normal;
    NormalIsFixed(raw);
  }

  ghost predicate Shaped(v: string, local: string, host: string) {
    && v == local + "@" + host && local != "" && host != ""
    && '@' !in local && ' ' !in local + host && '\t' !in local + host
  }

  lemma AcceptedIsShaped(raw: string) returns (local: string, host: string)
    requires NewEmail(raw).Ok?
    ensures Shaped(Normal(raw), local, host)
  {
    hide Normal;
    var v := Normal(raw);
    var at := IndexOf(v, '@');
    local, host := v[..at], v[at + 1..];
    assert v == local + "@" + host;
    assert forall c :: c in local + host ==> c in v;
  }

  lemma ShapedIsAccepted(raw: string, local: string, host: string)
    requires Shaped(Normal(raw), local, host)
    ensures NewEmail(raw).Ok?
  {
    hide Normal;
    var v := Normal(raw);
    IndexOfFirst(local, '@', host);
    assert forall i :: 0 <= i < |local| ==> v[i] == (local + host)[i];
    assert forall i :: |local| < i < |v| ==> v[i] == (local + host)[i - 1];
  }

  lemma NormalShape(raw: string)
    ensures NewEmail(raw).Ok? <==> exists local, host :: Shaped(Normal(raw), local, host)
  {
    hide Normal, NewEmail, Shaped;
    if NewEmail(raw).Ok? {
      var local, host := AcceptedIsShaped(raw);
    }
    if local, host :| Shaped(Normal(raw), local, host) {
      ShapedIsAccepted(raw, local, host);
    }
  }

  // ---- What normalising means, in character codes ----

  // Tab, line feed, vertical tab, form feed, carriage return, space.
  ghost predicate Blank(c: char) {
    9 <= c as int <= 13 || c as int == 32
  }

  ghost predicate AllBlank(s: string) {
    forall i :: 0 <= i < |s| ==> Blank(s[i])
  }

  // a is s without the blanks around it.
  ghost predicate Core(s: string, pre: string, a: string, post: string) {
    && s == pre + a + post && AllBlank(pre) && AllBlank(post)
    && (a != "" ==> !Blank(a[0]) && !Blank(a[|a| - 1]))
  }

  // The same character, or the two cases of one letter, whose codes are 32 apart.
  ghost predicate SameLetter(a: char, b: char) {
    || a == b
    || (65 <= a as int <= 90 && b as int == a as int + 32)
    || (65 <= b as int <= 90 && a as int == b as int + 32)
  }

  ghost predicate SameButCase(a: string, b: string) {
    |a| == |b| && forall i :: 0 <= i < |a| ==> SameLetter(a[i], b[i])
  }

  // Two texts that differ in letter case and in the blanks around them, at most.
  ghost predicate SameAddress(x: string, y: string) {
    exists pre, a, post, pre', b, post' :: Core(x, pre, a, post) && Core(y, pre', b, post') && SameButCase(a, b)
  }

  lemma {:induction false} LeftBlanksGo(pre: string, rest: string)
    requires AllBlank(pre)
    ensures TrimLeft(pre + rest) == TrimLeft(rest)
  {
    if pre == "" {
      assert pre + rest == rest;
    } else {
      assert Blank(pre[0]);
      assert (pre + rest)[1..] == pre[1..] + rest;
      LeftBlanksGo(pre[1..], rest);
    }
  }

  lemma {:induction false} RightBlanksGo(rest: string, post: string)
    requires AllBlank(post)
    ensures TrimRight(rest + post) == TrimRight(rest)
    decreases |post|
  {
    var n := |post| - 1;
    if post == "" {
      assert rest + post == rest;
    } else {
      assert Blank(post[n]);
      assert (rest + post)[..|rest| + n] == rest + post[..n];
      RightBlanksGo(rest, post[..n]);
    }
  }

  // A text with no blank around it is its own trimmed form.
  lemma BareStays(a: string, post: string)
    requires a != "" && !Blank(a[0]) && !Blank(a[|a| - 1])
    ensures TrimLeft(a + post) == a + post && TrimRight(a) == a
  {
    assert (a + post)[0] == a[0];
  }

  lemma BlanksVanish(post: string)
    requires AllBlank(post)
    ensures TrimLeft(post) == ""
  {
    hide AllBlank;
    assert post + "" == post;
    LeftBlanksGo(post, "");
  }

  lemma TrimIsCore(s: string, pre: string, a: string, post: string)
    requires Core(s, pre, a, post)
    ensures TrimSpace(s) == a
  {
    hide AllBlank, Blank, TrimLeft, TrimRight;
    assert s == pre + (a + post);
    LeftBlanksGo(pre, a + post);
    if a == "" {
      assert a + post == post;
      BlanksVanish(post);
      RightTrimmedEmpty();
    } else {
      BareStays(a, post);
      RightBlanksGo(a, post);
    }
  }

  lemma RightTrimmedEmpty()
    ensures TrimRight("") == ""
  {
  }

  lemma {:induction false} LeftTrimmed(s: string) returns (pre: string)
    ensures AllBlank(pre) && s == pre + TrimLeft(s)
  {
    pre := "";
    if s != "" && IsSpace(s[0]) {
      var more := LeftTrimmed(s[1..]);
      pre := [s[0]] + more;
      assert s == [s[0]] + s[1..];
    }
  }

  lemma {:induction false} RightTrimmed(s: string) returns (post: string)
    ensures AllBlank(post) && s == TrimRight(s) + post
  {
    post := "";
    if s != "" && IsSpace(s[|s| - 1]) {
      var more := RightTrimmed(s[..|s| - 1]);
      post := more + [s[|s| - 1]];
      assert s == s[..|s| - 1] + [s[|s| - 1]];
    }
  }

  lemma TrimSplits(s: string) returns (pre: string, post: string)
    ensures Core(s, pre, TrimSpace(s), post)
  {
    hide AllBlank, TrimLeft, TrimRight, Core;
    pre := LeftTrimmed(s);
    post := RightTrimmed(TrimLeft(s));
    TrimSpaceTrims(s);
    assert s == pre + TrimSpace(s) + post;
    CoreOf(s, pre, TrimSpace(s), post);
  }

  lemma CoreOf(s: string, pre: string, a: string, post: string)
    requires s == pre + a + post && AllBlank(pre) && AllBlank(post) && Trimmed(a)
    ensures Core(s, pre, a, post)
  {
  }

  lemma LowerIsCaseless(a: string, b: string)
    ensures ToLower(a) == ToLower(b) <==> SameButCase(a, b)
  {
    if ToLower(a) == ToLower(b) {
      forall i | 0 <= i < |a| ensures SameLetter(a[i], b[i]) {
        assert ToLower(a)[i] == ToLower(b)[i];
      }
    }
    if SameButCase(a, b) {
      forall i | 0 <= i < |a| ensures ToLower(a)[i] == ToLower(b)[i] {
        assert SameLetter(a[i], b[i]);
      }
    }
  }

  /** Case and surrounding blanks do not matter, to acceptance or to the email that results. */
  lemma CaseAndBlanksIgnored(pre: string, a: string, post: string, b: string)
    requires Core(pre + a + post, pre, a, post) && Core(b, "", b, "") && SameButCase(a, b)
    ensures NewEmail(pre + a + post) == NewEmail(b)
  {
    hide NewEmail, TrimSpace, ToLower, SameButCase, Core;
    TrimIsCore(pre + a + post, pre, a, post);
    TrimIsCore(b, "", b, "");
    LowerIsCaseless(a, b);
    SameNormal(pre + a + post, b);
  }

  lemma SameNormal(x: string, y: string)
    requires Normal(x) == Normal(y)
    ensures NewEmail(x) == NewEmail(y)
  {
    hide Normal;
  }

  lemma AcceptedIsNormal(raw: string)
    requires NewEmail(raw).Ok?
    ensures NewEmail(raw).value == Normal(raw)
  {
    hide Normal;
  }

  /** Two accepted texts give the same email exactly when they differ in letter case and surrounding blanks at most. */
  lemma SameEmailExactly(x: string, y: string)
    requires NewEmail(x).Ok?
    ensures NewEmail(x) == NewEmail(y) <==> SameAddress(x, y)
  {
    hide NewEmail, TrimSpace, ToLower, SameButCase, Core;
    if NewEmail(x) == NewEmail(y) {
      AcceptedIsNormal(x);
      AcceptedIsNormal(y);
      var pre, post := TrimSplits(x);
      var pre', post' := TrimSplits(y);
      LowerIsCaseless(TrimSpace(x), TrimSpace(y));
    }
    if pre, a, post, pre', b, post' :| Core(x, pre, a, post) && Core(y, pre', b, post') && SameButCase(a, b) {
      TrimIsCore(x, pre, a, post);
      TrimIsCore(y, pre', b, post');
      LowerIsCaseless(a, b);
      SameNormal(x, y);
    }
  }

  lemma LowerIsLow(c: char)
    ensures !('A' <= Lower(c) <= 'Z') && Blank(Lower(c)) == IsSpace(c)
  {
  }

  lemma IsCoreOfItself(v: string)
    requires v != "" ==> !Blank(v[0]) && !Blank(v[|v| - 1])
    ensures Core(v, "", v, "")
  {
    assert "" + v + "" == v;
  }

  // A normal form is in lower case, with no blank around it.
  lemma NormalIsBare(raw: string)
    ensures var v := Normal(raw);
            Core(v, "", v, "") && forall i :: 0 <= i < |v| ==> !('A' <= v[i] <= 'Z')
  {
    hide TrimSpace, Lower, IsSpace, Blank, Core;
    TrimSpaceTrims(raw);
    var t, v := TrimSpace(raw), Normal(raw);
    forall i | 0 <= i < |v| ensures !('A' <= v[i] <= 'Z') && Blank(v[i]) == IsSpace(t[i]) {
      LowerIsLow(t[i]);
    }
    IsCoreOfItself(v);
  }

  /** An accepted email is the text itself, but for letter case and surrounding blanks; it has no upper-case letter and
      no blank around it. */
  lemma AcceptedIsTheText(raw: string)
    requires NewEmail(raw).Ok?
    ensures var v := NewEmail(raw).value;
            && SameAddress(raw, v) && Core(v, "", v, "")
            && forall i :: 0 <= i < |v| ==> !('A' <= v[i] <= 'Z')
  {
    hide NewEmail, Normal, SameAddress, Core;
    AcceptedIsNormal(raw);
    NormalIsBare(raw);
    NewEmailIsIdempotent(raw);
    SameEmailExactly(raw, NewEmail(raw).value);
  }

  lemma ShapeIsCaseless(a: string, v: string, local: string, host: string)
    requires SameButCase(a, v) && Shaped(v, local, host)
    ensures exists local', host' :: Shaped(a, local', host')
  {
    var n := |local|;
    assert v[n] == '@' && SameLetter(a[n], v[n]);
    var local', host' := a[..n], a[n + 1..];
    assert a == local' + "@" + host';
    forall i | 0 <= i < |local' + host'|
      ensures (local' + host')[i] != ' ' && (local' + host')[i] != '\t' && (i < n ==> local'[i] != '@')
    {
      var k := if i < n then i else i + 1;
      assert (local' + host')[i] == a[k] && (local + host)[i] == v[k] && SameLetter(a[k], v[k]);
    }
    assert Shaped(a, local', host');
  }

  /** Accepted are exactly the texts that, without the blanks around them, have something before their first '@',
      something after it, and no space or tab. */
  lemma AcceptedShape(raw: string, pre: string, a: string, post: string)
    requires Core(raw, pre, a, post)
    ensures NewEmail(raw).Ok? <==> exists local, host :: Shaped(a, local, host)
  {
    hide NewEmail, TrimSpace, ToLower, SameButCase, Core, Shaped;
    NormalShape(raw);
    TrimIsCore(raw, pre, a, post);
    var v := Normal(raw);
    AlreadyLower(a);
    LowerIsCaseless(a, v);
    LowerIsCaseless(v, a);
    if local, host :| Shaped(v, local, host) {
      ShapeIsCaseless(a, v, local, host);
    }
    if local, host :| Shaped(a, local, host) {
      ShapeIsCaseless(v, a, local, host);
    }
  }

  lemma AlreadyLower(a: string)
    ensures ToLower(ToLower(a)) == ToLower(a)
  {
  }

  // A text of blanks only is what is left empty.
  lemma BlankIsEmpty(s: string)
    ensures TrimSpace(s) == "" <==> AllBlank(s)
  {
    hide TrimSpace;
    if AllBlank(s) {
      assert s == s + "" + "";
      TrimIsCore(s, s, "", "");
    }
    if TrimSpace(s) == "" {
      var pre, post := TrimSplits(s);
      assert s == pre + "" + post;
    }
  }
}
