/** The PEM re-formatter that runs before every JWT verification. */
module Pem {
  import opened Text

  const BEGIN := "-----BEGIN PUBLIC KEY-----"
  const END := "-----END PUBLIC KEY-----"
  const LINE := 64

  // ---- Specification ---------------------------------------------------

  /** Backslash-n pairs become newlines. */
  function Expand(s: string): string {
    ReplaceAll(s, "\\n", "\n")
  }

  function Wrap(body: string): string {
    if |body| <= LINE then body else body[..LINE] + "\n" + Wrap(body[LINE..])
  }

  function BreakAt(s: string, begin: string, end: string): string {
    ReplaceAll(ReplaceAll(s, begin + " ", begin + "\n"), " " + end, "\n" + end)
  }

  function BreakMarkers(s: string): string {
    BreakAt(s, BEGIN, END)
  }

  /** The second of at least three lines is the key body and is wrapped. */
  function WrapSecondLine(s: string): string {
    var lines := Split(s, '\n');
    if |lines| < 3 then s else Join(lines[1 := Wrap(lines[1])], "\n")
  }

  function Format(key: string): string {
    var s := Expand(key);
    if Free(s, '\n') then WrapSecondLine(BreakMarkers(s)) else s
  }

  // ---- The code, step by step -------------------------------------------

  /** The chunk loop: a builder receives 64 bytes at a time. */
  method WrapBody(keyData: string) returns (formatted: string)
    requires keyData != ""
    ensures formatted == Wrap(keyData)
  {
    formatted := "";
    var i := 0;
    while i < |keyData|
      invariant 0 <= i
      invariant i < |keyData| ==> formatted + Wrap(keyData[i..]) == Wrap(keyData)
      invariant i >= |keyData| ==> formatted == Wrap(keyData)
    {
      var end := i + 64;
      if end > |keyData| {
        end := |keyData|;
      }
      ghost var rest := keyData[i..];
      assert keyData[i..end] == rest[..end - i];
      formatted := formatted + keyData[i..end];
      if end < |keyData| {
        assert rest[LINE..] == keyData[i + 64..];
        formatted := formatted + "\n";
      }
      i := i + 64;
    }
  }

  method FormatVerificationKey(key: string) returns (formatted: string)
    ensures formatted == Format(key)
  {
    formatted := ReplaceAll(key, "\\n", "\n");
    if Free(formatted, '\n') {
      formatted := ReplaceAll(formatted, BEGIN + " ", BEGIN + "\n");
      formatted := ReplaceAll(formatted, " " + END, "\n" + END);
      var lines := Split(formatted, '\n');
      JoinSplit(formatted, '\n');
      if |lines| >= 3 {
        var keyData := lines[1];
        if |keyData| > 64 {
          var wrapped := WrapBody(keyData);
          lines := lines[1 := wrapped];
          formatted := Join(lines, "\n");
        } else {
          assert lines[1 := keyData] == lines;
        }
      }
    }
  }

  // ---- Reflowing: what the re-formatter may do to a text -----------------

  /** u is t with some spaces turned into newlines and some newlines inserted. */
  predicate Reflow(t: string, u: string)
    decreases u
  {
    if u == "" then t == ""
    else
      || (t != "" && t[0] == u[0] && Reflow(t[1..], u[1..]))
      || (u[0] == '\n' && t != "" && t[0] == ' ' && Reflow(t[1..], u[1..]))
      || (u[0] == '\n' && Reflow(t, u[1..]))
  }

  lemma {:induction false} ReflowSame(t: string)
    ensures Reflow(t, t)
  {
    if t != "" {
      ReflowSame(t[1..]);
    }
  }

  lemma {:induction false} ReflowConcat(a: string, c: string, b: string, d: string)
    requires Reflow(a, c) && Reflow(b, d)
    ensures Reflow(a + b, c + d)
    decreases c
  {
    if c == "" {
      assert a + b == b && c + d == d;
    } else {
      assert (c + d)[1..] == c[1..] + d;
      if a != "" && (a[0] == c[0] || (c[0] == '\n' && a[0] == ' ')) && Reflow(a[1..], c[1..]) {
        assert (a + b)[1..] == a[1..] + b;
        ReflowConcat(a[1..], c[1..], b, d);
      } else {
        ReflowConcat(a, c[1..], b, d);
      }
    }
  }

  lemma {:induction false} ReplaceReflows(s: string, pat: string, rep: string)
    requires pat != "" && Reflow(pat, rep)
    ensures Reflow(s, ReplaceAll(s, pat, rep))
  {
    if s == "" {
    } else if pat <= s {
      ReplaceReflows(s[|pat|..], pat, rep);
      ReflowConcat(pat, rep, s[|pat|..], ReplaceAll(s[|pat|..], pat, rep));
      assert s == pat + s[|pat|..];
    } else {
      ReplaceReflows(s[1..], pat, rep);
    }
  }

  lemma {:induction false} WrapReflows(body: string)
    ensures Reflow(body, Wrap(body))
  {
    if |body| <= LINE {
      ReflowSame(body);
    } else {
      ReflowSame(body[..LINE]);
      WrapReflows(body[LINE..]);
      assert Reflow(body[LINE..], "\n" + Wrap(body[LINE..])) by {
        assert ("\n" + Wrap(body[LINE..]))[1..] == Wrap(body[LINE..]);
      }
      ReflowConcat(body[..LINE], body[..LINE], body[LINE..], "\n" + Wrap(body[LINE..]));
      assert body == body[..LINE] + body[LINE..];
      assert Wrap(body) == body[..LINE] + ("\n" + Wrap(body[LINE..]));
    }
  }

  lemma WrapSecondLineReflows(s: string)
    ensures Reflow(s, WrapSecondLine(s))
  {
    var lines := Split(s, '\n');
    JoinSplit(s, '\n');
    ReflowSame(s);
    if |lines| >= 3 {
      var tail := "\n" + Join(lines[2..], "\n");
      var head := lines[0] + "\n";
      var wrapped := lines[1 := Wrap(lines[1])];
      assert lines[1..][1..] == lines[2..] && wrapped[1..][1..] == lines[2..];
      assert s == head + (lines[1] + tail);
      assert Join(wrapped, "\n") == head + (Wrap(lines[1]) + tail);
      ReflowSame(head);
      ReflowSame(tail);
      WrapReflows(lines[1]);
      ReflowConcat(lines[1], Wrap(lines[1]), tail, tail);
      ReflowConcat(head, head, lines[1] + tail, Wrap(lines[1]) + tail);
    }
  }

  /** Text without its spaces and newlines. */
  function Compact(s: string): string {
    if s == "" then ""
    else if s[0] == ' ' || s[0] == '\n' then Compact(s[1..])
    else [s[0]] + Compact(s[1..])
  }

  ghost predicate HasEscape(s: string) {
    exists i :: 0 <= i < |s| - 1 && s[i] == '\\' && s[i + 1] == 'n'
  }

  lemma {:induction false} ReflowKeeps(t: string, u: string)
    requires Reflow(t, u)
    ensures Compact(t) == Compact(u)
    ensures HasEscape(u) ==> HasEscape(t)
    decreases u
  {
    if u != "" {
      var inserted := !(t != "" && (t[0] == u[0] || (u[0] == '\n' && t[0] == ' ')) && Reflow(t[1..], u[1..]));
      var t' := if inserted then t else t[1..];
      ReflowKeeps(t', u[1..]);
      if HasEscape(u) {
        var i :| 0 <= i < |u| - 1 && u[i] == '\\' && u[i + 1] == 'n';
        if i > 0 {
          assert u[1..][i - 1] == '\\' && u[1..][i] == 'n';
          var j :| 0 <= j < |t'| - 1 && t'[j] == '\\' && t'[j + 1] == 'n';
          assert inserted || (t[j + 1] == '\\' && t[j + 2] == 'n');
        } else {
          assert u[1..][0] == 'n' && Reflow(t[1..], u[1..]);
          assert t[0] == '\\' && t[1..][0] == 'n';
        }
      }
    }
  }

  // ---- Escape expansion ----------------------------------------------------

  lemma {:induction false} ExpandLeavesNone(s: string)
    ensures !HasEscape(Expand(s))
    ensures s != "" ==> Expand(s) != "" && (Expand(s)[0] == s[0] || Expand(s)[0] == '\n')
  {
    if s == "" {
    } else if "\\n" <= s {
      ExpandLeavesNone(s[2..]);
      NoEscapeCons('\n', Expand(s[2..]));
      assert Expand(s) == ['\n'] + Expand(s[2..]);
    } else {
      ExpandLeavesNone(s[1..]);
      NoHeadEscape(s);
      NoEscapeCons(s[0], Expand(s[1..]));
    }
  }

  lemma NoHeadEscape(s: string)
    requires s != ""
    ensures s[0] == '\\' && s[1..] != "" && s[1..][0] == 'n' ==> "\\n" <= s
  {
    assert |s| > 1 ==> s[..2] == [s[0], s[1]];
  }

  lemma NoEscapeCons(c: char, s: string)
    requires !HasEscape(s)
    requires !(c == '\\' && s != "" && s[0] == 'n')
    ensures !HasEscape([c] + s)
  {
    var t := [c] + s;
    forall i | 0 <= i < |t| - 1 ensures !(t[i] == '\\' && t[i + 1] == 'n') {
      if i > 0 {
        assert t[i] == s[i - 1] && t[i + 1] == s[i];
      }
    }
  }

  lemma ExpandIdle(s: string)
    requires !HasEscape(s)
    ensures Expand(s) == s
  {
    forall i | 0 <= i < |s| ensures !("\\n" <= s[i..]) {
      NoPrefix("\\n", s, i, if s[i] == '\\' then 1 else 0);
    }
    ReplaceNothing(s, "\\n", "\n");
  }

  // ---- Idempotence and content, for every input -----------------------------

  lemma BreakAtReflows(s: string, begin: string, end: string)
    ensures Compact(BreakAt(s, begin, end)) == Compact(s)
    ensures HasEscape(BreakAt(s, begin, end)) ==> HasEscape(s)
  {
    ReflowSame(begin);
    ReflowSame(end);
    assert Reflow(" ", "\n") by { assert " "[1..] == "" == "\n"[1..]; }
    ReflowConcat(begin, begin, " ", "\n");
    ReflowConcat(" ", "\n", end, end);
    var s1 := ReplaceAll(s, begin + " ", begin + "\n");
    ReplaceReflows(s, begin + " ", begin + "\n");
    ReplaceReflows(s1, " " + end, "\n" + end);
    ReflowKeeps(s, s1);
    ReflowKeeps(s1, BreakAt(s, begin, end));
  }

  /** Nothing but spacing changes, and no escape is left behind. */
  lemma FormatKeepsContent(key: string)
    ensures Compact(Format(key)) == Compact(Expand(key))
    ensures !HasEscape(Format(key))
  {
    var s := Expand(key);
    ExpandLeavesNone(key);
    if Free(s, '\n') {
      BreakAtReflows(s, BEGIN, END);
      WrapSecondLineReflows(BreakMarkers(s));
      ReflowKeeps(BreakMarkers(s), WrapSecondLine(BreakMarkers(s)));
    }
  }

  lemma {:induction false} NewlineFreeSplit(s: string)
    requires Free(s, '\n')
    ensures WrapSecondLine(s) == s
  {
    SplitPrefix(s, "", '\n');
  }

  lemma {:induction false} NewlineSurvives(s: string)
    requires !Free(s, '\n')
    ensures !Free(WrapSecondLine(s), '\n')
  {
    var lines := Split(s, '\n');
    if |lines| >= 3 {
      var wrapped := lines[1 := Wrap(lines[1])];
      var u := Join(wrapped, "\n");
      assert u == wrapped[0] + "\n" + Join(wrapped[1..], "\n");
      assert u[|wrapped[0]|] == '\n';
    }
  }

  lemma {:induction false} ReplaceChangesOnlyByNewline(s: string, pat: string, rep: string)
    requires pat != "" && !Free(rep, '\n')
    ensures ReplaceAll(s, pat, rep) == s || !Free(ReplaceAll(s, pat, rep), '\n')
  {
    if s == "" {
    } else if pat <= s {
      var i :| 0 <= i < |rep| && rep[i] == '\n';
      assert ReplaceAll(s, pat, rep)[i] == '\n';
    } else {
      ReplaceChangesOnlyByNewline(s[1..], pat, rep);
      var rest := ReplaceAll(s[1..], pat, rep);
      if rest != s[1..] {
        var i :| 0 <= i < |rest| && rest[i] == '\n';
        assert ReplaceAll(s, pat, rep)[i + 1] == '\n';
      }
    }
  }

  lemma BreakAtIdleOrBreaks(s: string, begin: string, end: string)
    requires Free(s, '\n')
    ensures BreakAt(s, begin, end) == s || !Free(BreakAt(s, begin, end), '\n')
  {
    var s1 := ReplaceAll(s, begin + " ", begin + "\n");
    assert (begin + "\n")[|begin|] == '\n';
    assert ("\n" + end)[0] == '\n';
    ReplaceChangesOnlyByNewline(s, begin + " ", begin + "\n");
    ReplaceChangesOnlyByNewline(s1, " " + end, "\n" + end);
  }

  /** Formatting an already formatted key changes nothing. */
  lemma FormatIdempotent(key: string)
    ensures Format(Format(key)) == Format(key)
  {
    var s := Expand(key);
    var f := Format(key);
    FormatKeepsContent(key);
    ExpandIdle(f);
    if Free(s, '\n') {
      var m := BreakMarkers(s);
      BreakAtIdleOrBreaks(s, BEGIN, END);
      if m == s {
        NewlineFreeSplit(s);
      } else {
        NewlineSurvives(m);
      }
    }
  }

  // ---- Shape and confluence ---------------------------------------------------

  predicate IsBase64Char(c: char) {
    'A' <= c <= 'Z' || 'a' <= c <= 'z' || '0' <= c <= '9' || c == '+' || c == '/' || c == '='
  }

  predicate IsBase64(s: string) {
    forall i | 0 <= i < |s| :: IsBase64Char(s[i])
  }

  function Concat(lines: seq<string>): string {
    if lines == [] then "" else lines[0] + Concat(lines[1..])
  }

  /** The body lines of section 2 of RFC 7468: 64 characters each, except a last one of 1 to 64. */
  predicate BodyLines(lines: seq<string>) {
    && lines != []
    && (forall i | 0 <= i < |lines| - 1 :: |lines[i]| == 64)
    && 1 <= |lines[|lines| - 1]| <= 64
    && forall i | 0 <= i < |lines| :: IsBase64(lines[i])
  }

  /** The text of a key whose line breaks are written as `sep`. */
  function PemText(lines: seq<string>, sep: string): string {
    "-----BEGIN PUBLIC KEY-----" + sep + (Join(lines, sep) + sep + "-----END PUBLIC KEY-----")
  }

  function OneLineText(body: string): string {
    "-----BEGIN PUBLIC KEY-----" + " " + (body + " " + "-----END PUBLIC KEY-----")
  }

  lemma {:induction false} BodyOf(lines: seq<string>)
    requires BodyLines(lines)
    ensures Concat(lines) != "" && IsBase64(Concat(lines))
    ensures Wrap(Concat(lines)) == Join(lines, "\n")
    ensures |Concat(lines)| <= LINE <==> |lines| == 1
  {
    if |lines| == 1 {
      assert Concat(lines[1..]) == "";
      assert Concat(lines) == lines[0];
    } else {
      var rest := lines[1..];
      assert rest[|rest| - 1] == lines[|lines| - 1];
      BodyOf(rest);
      var body := Concat(lines);
      assert body == lines[0] + Concat(rest);
      assert body[..LINE] == lines[0] && body[LINE..] == Concat(rest);
    }
  }

  /** What the two markers must be like for the replacements to hit only them. */
  predicate Markers(begin: string, end: string) {
    && begin != "" && end != "" && begin[0] == '-' && end[0] == '-' && |end| <= |begin|
    && (forall i | 0 <= i < |begin| - 1 :: begin[i] == ' ' ==> begin[i + 1] != '-')
    && begin[|begin| - 1] != ' '
  }

  lemma MarkerFacts()
    ensures Markers(BEGIN, END)
    ensures Free(BEGIN, '\\') && Free(BEGIN, '\n') && Free(END, '\\') && Free(END, '\n')
  {
  }

  /** The text between the markers cannot be mistaken for the first one ... */
  lemma BreakBegin(body: string, begin: string, end: string)
    requires Markers(begin, end) && Free(body, '-')
    ensures ReplaceAll(begin + " " + (body + " " + end), begin + " ", begin + "\n") == begin + "\n" + (body + " " + end)
  {
    var pat := begin + " ";
    var rest := body + " " + end;
    ReplaceHits(pat, rest, begin + "\n");
    forall i | 0 <= i < |rest| ensures !(pat <= rest[i..]) {
      NoPrefix(pat, rest, i, if i <= |body| then 0 else |pat| - 1);
    }
    ReplaceNothing(rest, pat, begin + "\n");
  }

  /** ... nor, once that is on its own line, for the second. */
  lemma BreakEnd(body: string, begin: string, end: string)
    requires Markers(begin, end) && Free(body, '-')
    ensures ReplaceAll(begin + "\n" + body + (" " + end), " " + end, "\n" + end) == begin + "\n" + body + ("\n" + end)
  {
    var pat, rep := " " + end, "\n" + end;
    var front := begin + "\n" + body;
    forall i | 0 <= i < |front| ensures !(pat <= (front + pat)[i..]) {
      NoPrefix(pat, front + pat, i, if front[i] == ' ' then 1 else 0);
    }
    ReplaceSkips(front, pat, pat, rep);
    assert pat + "" == pat && rep + "" == rep;
    ReplaceHits(pat, "", rep);
  }

  lemma Regroup(a: string, b: string, c: string, d: string, e: string)
    ensures a + b + (c + d + e) == a + b + c + (d + e)
  {
  }

  lemma BreakOneLine(body: string, begin: string, end: string)
    requires Markers(begin, end) && Free(body, '-')
    ensures BreakAt(begin + " " + (body + " " + end), begin, end) == begin + "\n" + (body + "\n" + end)
  {
    BreakBegin(body, begin, end);
    BreakEnd(body, begin, end);
    Regroup(begin, "\n", body, " ", end);
    Regroup(begin, "\n", body, "\n", end);
  }

  lemma NoEscapeWithoutBackslash(s: string)
    requires Free(s, '\\')
    ensures !HasEscape(s)
  {
  }

  /** A three-line text has its second line, and nothing else, wrapped. */
  lemma WrapThreeLines(begin: string, body: string, end: string)
    requires Free(begin, '\n') && Free(body, '\n') && Free(end, '\n')
    ensures WrapSecondLine(begin + "\n" + (body + "\n" + end)) == begin + "\n" + (Wrap(body) + "\n" + end)
  {
    var lines := [begin, body, end];
    assert lines[1..] == [body, end] && lines[1..][1..] == [end];
    assert Join(lines[1..], "\n") == body + "\n" + end;
    SplitJoin(lines, '\n');
    var wrapped := lines[1 := Wrap(body)];
    assert wrapped[1..] == [Wrap(body), end] && wrapped[1..][1..] == [end];
    assert Join(wrapped[1..], "\n") == Wrap(body) + "\n" + end;
  }

  lemma FormatOneLine(body: string)
    requires Free(body, '-') && Free(body, '\\') && Free(body, '\n')
    ensures Format(OneLineText(body)) == BEGIN + "\n" + (Wrap(body) + "\n" + END)
  {
    var s := OneLineText(body);
    MarkerFacts();
    assert Free(s, '\\') && Free(s, '\n');
    NoEscapeWithoutBackslash(s);
    ExpandIdle(s);
    BreakOneLine(body, BEGIN, END);
    WrapThreeLines(BEGIN, body, END);
  }

  lemma {:induction false} ExpandJoin(parts: seq<string>)
    requires forall i | 0 <= i < |parts| :: Free(parts[i], '\\')
    ensures Expand(Join(parts, "\\n")) == Join(parts, "\n")
  {
    if |parts| == 0 {
    } else if |parts| == 1 {
      NoEscapeWithoutBackslash(parts[0]);
      ExpandIdle(parts[0]);
    } else {
      ExpandJoin(parts[1..]);
      var rest := Join(parts[1..], "\\n");
      var tail := "\\n" + rest;
      assert Join(parts, "\\n") == parts[0] + tail;
      forall i | 0 <= i < |parts[0]| ensures !("\\n" <= (parts[0] + tail)[i..]) {
        assert (parts[0] + tail)[i..][0] == parts[0][i];
      }
      ReplaceSkips(parts[0], tail, "\\n", "\n");
      ReplaceHits("\\n", rest, "\n");
      assert parts[0] + ("\n" + Expand(rest)) == Join(parts, "\n");
    }
  }

  lemma PemTextIsJoin(lines: seq<string>, sep: string)
    requires lines != []
    ensures PemText(lines, sep) == Join([BEGIN] + lines + [END], sep)
  {
    JoinAppend([BEGIN], lines + [END], sep);
    JoinAppend(lines, [END], sep);
    assert [BEGIN] + lines + [END] == [BEGIN] + (lines + [END]);
  }

  /**
   * All three ways of storing one key lead to the same PEM text: the text itself, the text with
   * escaped newlines, and the markers and unwrapped body separated by spaces.
   */
  lemma FormatConfluence(lines: seq<string>)
    requires BodyLines(lines)
    ensures Format(PemText(lines, "\n")) == PemText(lines, "\n")
    ensures Format(PemText(lines, "\\n")) == PemText(lines, "\n")
    ensures Format(OneLineText(Concat(lines))) == PemText(lines, "\n")
  {
    var pem := PemText(lines, "\n");
    assert pem[|BEGIN|] == '\n';
    var parts := [BEGIN] + lines + [END];
    forall i | 0 <= i < |parts| ensures Free(parts[i], '\\') {
      assert i == 0 || i == |parts| - 1 || parts[i] == lines[i - 1];
      assert i != 0 && i != |parts| - 1 ==> IsBase64(parts[i]);
    }
    PemTextIsJoin(lines, "\n");
    PemTextIsJoin(lines, "\\n");
    ExpandJoin(parts);
    assert Expand(pem) == pem by {
      ExpandLeavesNone(PemText(lines, "\\n"));
      ExpandIdle(pem);
    }
    BodyOf(lines);
    FormatOneLine(Concat(lines));
  }

  /** The lines of a formatted key are forced: no other split of the body has this shape. */
  lemma {:induction false} BodyLinesUnique(lines: seq<string>, lines': seq<string>)
    requires BodyLines(lines) && BodyLines(lines') && Concat(lines) == Concat(lines')
    ensures lines == lines'
  {
    BodyOf(lines);
    BodyOf(lines');
    forall i | 0 <= i < |lines| ensures Free(lines[i], '\n') {
      assert IsBase64(lines[i]);
    }
    forall i | 0 <= i < |lines'| ensures Free(lines'[i], '\n') {
      assert IsBase64(lines'[i]);
    }
    SplitJoin(lines, '\n');
    SplitJoin(lines', '\n');
  }

  /** Every non-empty base64 body has such lines. */
  lemma {:induction false} BodyLinesExist(body: string)
    requires body != "" && IsBase64(body)
    ensures exists lines :: BodyLines(lines) && Concat(lines) == body
  {
    if |body| <= LINE {
      var lines := [body];
      assert Concat(lines[1..]) == "";
      assert BodyLines(lines) && Concat(lines) == body;
    } else {
      BodyLinesExist(body[LINE..]);
      var rest :| BodyLines(rest) && Concat(rest) == body[LINE..];
      var lines := [body[..LINE]] + rest;
      assert lines[1..] == rest;
      assert lines[|lines| - 1] == rest[|rest| - 1];
      assert BodyLines(lines) && Concat(lines) == body;
    }
  }

  /** So every one-line key with a base64 body becomes a PEM text with lines of that shape. */
  lemma OneLineKeyShape(body: string)
    requires body != "" && IsBase64(body)
    ensures exists lines :: BodyLines(lines) && Concat(lines) == body && Format(OneLineText(body)) == PemText(lines, "\n")
  {
    BodyLinesExist(body);
    var lines :| BodyLines(lines) && Concat(lines) == body;
    FormatConfluence(lines);
  }

  lemma {:induction false} SpacedBody(lines: seq<string>)
    requires BodyLines(lines)
    ensures Free(Join(lines, " "), '-') && Free(Join(lines, " "), '\\') && Free(Join(lines, " "), '\n')
    ensures |lines| > 1 ==> |Join(lines, " ")| > LINE + 1 && Join(lines, " ")[LINE] == ' '
  {
    assert IsBase64(lines[0]);
    if |lines| > 1 {
      var rest := lines[1..];
      assert rest[|rest| - 1] == lines[|lines| - 1];
      SpacedBody(rest);
      assert Join(rest, " ") != "" by {
        assert |rest| == 1 || |Join(rest, " ")| > LINE;
      }
    }
  }

  /**
   * A PEM text whose line breaks were turned into spaces is restored exactly when its body
   * fits one line; a longer body is cut every 64 bytes with its spaces counted in.
   */
  lemma SpacedLinesRestored(lines: seq<string>)
    requires BodyLines(lines)
    ensures Format(PemText(lines, " ")) == PemText(lines, "\n") <==> |lines| == 1
  {
    var body := Join(lines, " ");
    SpacedBody(lines);
    assert PemText(lines, " ") == OneLineText(body);
    FormatOneLine(body);
    BodyOf(lines);
    if |lines| == 1 {
      assert body == lines[0];
    } else {
      var got := Format(PemText(lines, " "));
      var want := PemText(lines, "\n");
      var w := Wrap(body);
      assert w == body[..LINE] + "\n" + Wrap(body[LINE..]);
      assert body[LINE..][0] == ' ';
      assert Wrap(body[LINE..])[0] == ' ';
      var at := |BEGIN| + 1 + LINE + 1;
      assert got[at] == w[LINE + 1] == ' ';
      var j := Join(lines, "\n");
      assert j == lines[0] + "\n" + Join(lines[1..], "\n");
      assert IsBase64(lines[1]);
      assert |lines[1]| > 0;
      assert Join(lines[1..], "\n")[0] == lines[1][0];
      assert want[at] == j[LINE + 1] == lines[1][0];
    }
  }

  // ---- What a decoder sees that skips white space in the body --------------------

  /** A formatted key around this body. */
  function KeyText(body: string): string {
    BEGIN + "\n" + (body + "\n" + END)
  }

  lemma {:induction false} CompactAppend(a: string, b: string)
    ensures Compact(a + b) == Compact(a) + Compact(b)
  {
    if a == "" {
      assert a + b == b;
    } else {
      CompactAppend(a[1..], b);
      assert (a + b)[1..] == a[1..] + b;
    }
  }

  lemma {:induction false} CompactBase64(s: string)
    requires IsBase64(s)
    ensures Compact(s) == s
  {
    if s != "" {
      assert IsBase64Char(s[0]);
      CompactBase64(s[1..]);
    }
  }

  lemma CompactAround(a: string, sep: string, b: string)
    requires sep == " " || sep == "\n"
    ensures Compact(a + sep + b) == Compact(a) + Compact(b)
  {
    CompactAppend(a, sep + b);
    assert a + sep + b == a + (sep + b);
    assert (sep + b)[1..] == b;
  }

  lemma {:induction false} CompactJoin(lines: seq<string>, sep: string)
    requires sep == " " || sep == "\n"
    requires forall i | 0 <= i < |lines| :: IsBase64(lines[i])
    ensures Compact(Join(lines, sep)) == Concat(lines)
  {
    if lines != [] {
      var first, rest := lines[0], lines[1..];
      CompactBase64(first);
      CompactJoin(rest, sep);
      if rest == [] {
        assert Concat(lines) == first;
      } else {
        CompactAround(first, sep, Join(rest, sep));
      }
    }
  }

  /** The form with spaces for line breaks, formatted, differs from the PEM text in the body's white space only. */
  lemma SpacedDiffersInSpaces(lines: seq<string>) returns (body: string)
    requires BodyLines(lines)
    ensures Format(PemText(lines, " ")) == KeyText(body) && PemText(lines, "\n") == KeyText(Join(lines, "\n"))
    ensures Compact(body) == Compact(Join(lines, "\n")) == Concat(lines)
  {
    var spaced := Join(lines, " ");
    body := Wrap(spaced);
    SpacedBody(lines);
    assert PemText(lines, " ") == OneLineText(spaced);
    FormatOneLine(spaced);
    WrapReflows(spaced);
    ReflowKeeps(spaced, body);
    CompactJoin(lines, " ");
    CompactJoin(lines, "\n");
  }
}
