/**
 * The callout text engine of src/utils/getCalloutBodyText.ts: the header matcher
 * `/^((?:> )+)\[!.+\]/`, the two line extractors that strip the callout's own indent from the
 * lines after its header, and the normalisation of the rendered plain text.
 */
module CalloutBodyText {
  import opened Wrappers
  import opened JsString

  // =============================================================================================
  // Header matcher

  /** The two-character quote marker a callout indent is made of. */
  const QuoteMarker: string := "> "

  /** `(?:> )*`: zero or more quote markers and nothing else. */
  predicate QuoteMarkers(p: string)
    decreases |p|
  {
    |p| == 0 || (StartsWith(p, QuoteMarker) && QuoteMarkers(p[2..]))
  }

  /** A callout indent: one or more quote markers. */
  predicate IsCalloutIndent(p: string)
  {
    |p| > 0 && QuoteMarkers(p)
  }

  /** Length of the greedy `(?:> )+` run at the start of `line` (0 when there is none). */
  function QuoteRun(line: string): (n: nat)
    ensures n <= |line|
    ensures QuoteMarkers(line[..n])
    ensures !StartsWith(line[n..], QuoteMarker)
    decreases |line|
  {
    if StartsWith(line, QuoteMarker) then
      var m := QuoteRun(line[2..]);
      assert line[..2 + m][..2] == QuoteMarker && line[..2 + m][2..] == line[2..][..m];
      assert line[2 + m..] == line[2..][m..];
      2 + m
    else
      assert line[..0] == "" && line[0..] == line;
      0
  }

  /** `.*\]` at the start of `t`, matched with backtracking. */
  predicate AnyThenBracket(t: string)
    decreases |t|
  {
    |t| > 0 && (t[0] == ']' || (!IsLineTerminator(t[0]) && AnyThenBracket(t[1..])))
  }

  /** `.+\]` at the start of `t`. */
  predicate TagClosesMatcher(t: string)
  {
    |t| > 0 && !IsLineTerminator(t[0]) && AnyThenBracket(t[1..])
  }

  /**
   * What `.+\]` means: some `]` at position 1 or later, with no line terminator before it.
   * This is the reference the matcher above is proved against.
   */
  ghost predicate TagCloses(t: string)
  {
    exists j :: 1 <= j < |t| && t[j] == ']' && NoLineTerminatorBefore(t, j)
  }

  ghost predicate NoLineTerminatorBefore(t: string, j: nat)
    requires j <= |t|
  {
    forall k :: 0 <= k < j ==> !IsLineTerminator(t[k])
  }

  /**
   * The capture group of the header regex applied to `line`: the callout's indent, or `None`
   * when the line does not open a callout.
   */
  function HeaderIndent(line: string): (indent: Option<string>)
    ensures indent.Some? ==> IsCalloutIndent(indent.value) && StartsWith(line, indent.value + "[!")
  {
    var n := QuoteRun(line);
    if n > 0 && StartsWith(line[n..], "[!") && TagClosesMatcher(line[n + 2..]) then
      assert line[..n + 2] == line[..n] + line[n..][..2];
      Some(line[..n])
    else
      None
  }

  /**
   * What the header regex accepts, stated declaratively: `line` is `indent`, then `[!`, then a
   * tag closed by `]` on the same line.
   */
  ghost predicate MatchesHeader(line: string, indent: string)
  {
    && IsCalloutIndent(indent)
    && StartsWith(line, indent + "[!")
    && TagCloses(line[|indent| + 2..])
  }

  lemma {:induction false} AnyThenBracketSpec(t: string)
    ensures AnyThenBracket(t) <==> exists j :: 0 <= j < |t| && t[j] == ']' && NoLineTerminatorBefore(t, j)
    decreases |t|
  {
    if |t| > 0 {
      AnyThenBracketSpec(t[1..]);
      if AnyThenBracket(t) && t[0] != ']' {
        var j :| 0 <= j < |t[1..]| && t[1..][j] == ']' && NoLineTerminatorBefore(t[1..], j);
        assert t[j + 1] == ']' && NoLineTerminatorBefore(t, j + 1);
      }
      if j :| 0 <= j < |t| && t[j] == ']' && NoLineTerminatorBefore(t, j) {
        if j > 0 {
          assert t[1..][j - 1] == ']' && NoLineTerminatorBefore(t[1..], j - 1);
        }
      }
    }
  }

  /** The matcher for `.+\]` agrees with its declarative reading. */
  lemma TagClosesMatcherSpec(t: string)
    ensures TagClosesMatcher(t) <==> TagCloses(t)
  {
    if |t| > 0 {
      AnyThenBracketSpec(t[1..]);
      if TagClosesMatcher(t) {
        var j :| 0 <= j < |t[1..]| && t[1..][j] == ']' && NoLineTerminatorBefore(t[1..], j);
        assert t[j + 1] == ']' && NoLineTerminatorBefore(t, j + 1);
      }
      if TagCloses(t) {
        var j :| 1 <= j < |t| && t[j] == ']' && NoLineTerminatorBefore(t, j);
        assert t[1..][j - 1] == ']' && NoLineTerminatorBefore(t[1..], j - 1);
      }
    }
  }

  /** A run of quote markers followed by something that is not a marker is the whole greedy run. */
  lemma {:induction false} QuoteRunOfMarkers(line: string, p: string)
    requires QuoteMarkers(p) && StartsWith(line, p)
    requires !StartsWith(line[|p|..], QuoteMarker)
    ensures QuoteRun(line) == |p|
    decreases |p|
  {
    if |p| > 0 {
      assert line[..2] == p[..2];
      assert line[2..][..|p| - 2] == p[2..];
      assert line[2..][|p| - 2..] == line[|p|..];
      QuoteRunOfMarkers(line[2..], p[2..]);
    } else {
      assert line[0..] == line;
    }
  }

  /**
   * The header regex, both directions: `line` yields `indent` exactly when it is `indent`
   * (one or more quote markers), `[!`, a same-line tag and `]`. Because what follows the indent
   * is `[`, the captured indent is the maximal marker run.
   */
  lemma HeaderIndentSpec(line: string, indent: string)
    ensures HeaderIndent(line) == Some(indent) <==> MatchesHeader(line, indent)
  {
    var n := QuoteRun(line);
    if HeaderIndent(line) == Some(indent) {
      TagClosesMatcherSpec(line[n + 2..]);
    }
    if MatchesHeader(line, indent) {
      StartsWithConcat(line, indent, "[!");
      QuoteRunOfMarkers(line, indent);
      TagClosesMatcherSpec(line[n + 2..]);
    }
  }

  /** A line yields no indent exactly when no indent makes it a header. */
  lemma HeaderIndentNone(line: string)
    ensures HeaderIndent(line).None? <==> forall indent :: !MatchesHeader(line, indent)
  {
    if HeaderIndent(line).Some? {
      HeaderIndentSpec(line, HeaderIndent(line).value);
    }
    forall indent | MatchesHeader(line, indent)
      ensures HeaderIndent(line).Some?
    {
      HeaderIndentSpec(line, indent);
    }
  }

  /** Of two quote-marker strings, the shorter is a prefix of the longer (the rest is markers too). */
  lemma {:induction false} MarkersPrefix(p: string, q: string)
    requires QuoteMarkers(p) && QuoteMarkers(q) && |p| <= |q|
    ensures q[..|p|] == p && QuoteMarkers(q[|p|..])
    decreases |p|
  {
    if |p| > 0 {
      MarkersPrefix(p[2..], q[2..]);
      assert q[..|p|] == q[..2] + q[2..][..|p| - 2];
      assert q[|p|..] == q[2..][|p| - 2..];
    } else {
      assert q[0..] == q;
    }
  }

  /**
   * Stripping an enclosing callout's indent from a nested header gives a header again, whose
   * indent is what remains of the nested one; stripping a same-depth indent gives a line that
   * no longer opens a callout.
   */
  lemma StripIndentFromHeader(line: string, outer: string, q: string)
    requires IsCalloutIndent(outer) && HeaderIndent(line) == Some(q)
    requires |outer| <= |q|
    ensures StartsWith(line, outer)
    ensures |outer| < |q| ==> HeaderIndent(line[|outer|..]) == Some(q[|outer|..])
    ensures |outer| == |q| ==> HeaderIndent(line[|outer|..]).None?
  {
    var n := QuoteRun(line);
    assert q == line[..n] && StartsWith(line[n..], "[!") && TagClosesMatcher(line[n + 2..]);
    MarkersPrefix(outer, q);
    var rest := line[|outer|..];
    var q' := q[|outer|..];
    assert rest[..|q'|] == q';
    assert rest[|q'|..] == line[n..];
    QuoteRunOfMarkers(rest, q');
    assert rest[|q'| + 2..] == line[n + 2..];
  }

  // =============================================================================================
  // Line extractors

  /**
   * The lines a callout with indent `indent` takes from `lines`: the leading lines that start
   * with the indent, each with exactly the indent removed, up to the first line without it.
   */
  function StripIndented(lines: seq<string>, indent: string): (body: seq<string>)
    ensures |body| <= |lines|
    decreases |lines|
  {
    if |lines| == 0 || !StartsWith(lines[0], indent) then []
    else [lines[0][|indent|..]] + StripIndented(lines[1..], indent)
  }

  /**
   * Strip-and-rejoin identity and stop rule: every body line is its source line with exactly
   * the indent removed, and the first line not taken does not start with the indent.
   */
  lemma {:induction false} StripIndentedSpec(lines: seq<string>, indent: string)
    ensures var body := StripIndented(lines, indent);
      && (forall k :: 0 <= k < |body| ==> indent + body[k] == lines[k])
      && (|body| < |lines| ==> !StartsWith(lines[|body|], indent))
    decreases |lines|
  {
    if |lines| > 0 && StartsWith(lines[0], indent) {
      StripIndentedSpec(lines[1..], indent);
      var body := StripIndented(lines, indent);
      var rest := StripIndented(lines[1..], indent);
      assert indent + lines[0][|indent|..] == lines[0];
      forall k | 1 <= k < |body|
        ensures indent + body[k] == lines[k]
      {
        assert body[k] == rest[k - 1] && lines[k] == lines[1..][k - 1];
      }
      if |body| < |lines| {
        assert lines[|body|] == lines[1..][|rest|];
      }
    }
  }

  /** The three properties of `StripIndented` determine its result. */
  lemma {:induction false} StripIndentedUnique(lines: seq<string>, indent: string, body: seq<string>)
    requires |body| <= |lines|
    requires forall k :: 0 <= k < |body| ==> indent + body[k] == lines[k]
    requires |body| < |lines| ==> !StartsWith(lines[|body|], indent)
    ensures body == StripIndented(lines, indent)
    decreases |lines|
  {
    if |body| > 0 {
      assert lines[0][..|indent|] == indent && lines[0][|indent|..] == body[0];
      forall k | 0 <= k < |body[1..]|
        ensures indent + body[1..][k] == lines[1..][k]
      {
        assert indent + body[k + 1] == lines[k + 1];
      }
      StripIndentedUnique(lines[1..], indent, body[1..]);
      assert body == [body[0]] + body[1..];
    }
  }

  /** One step of the extraction loop: a line that carries the indent contributes its remainder. */
  lemma StripIndentedStep(lines: seq<string>, indent: string, i: nat)
    requires i < |lines|
    ensures StartsWith(lines[i], indent) ==>
              StripIndented(lines[i..], indent) == [lines[i][|indent|..]] + StripIndented(lines[i + 1..], indent)
    ensures !StartsWith(lines[i], indent) ==> StripIndented(lines[i..], indent) == []
  {
    assert lines[i..][0] == lines[i] && lines[i..][1..] == lines[i + 1..];
  }

  /** `lines[n..]`, or nothing when `n` is past the end. */
  function Drop<T>(xs: seq<T>, n: nat): (r: seq<T>)
    ensures |r| == if n <= |xs| then |xs| - n else 0
    ensures forall k :: 0 <= k < |r| ==> r[k] == xs[n + k]
  {
    if n <= |xs| then xs[n..] else []
  }

  /**
   * `getCalloutBodyLines`: walks the document (line `i` is `doc[i - 1]`) from `bodyStartLine`,
   * with no end bound, keeping each line that starts with the indent, indent removed, and
   * returning at the first line that does not.
   */
  method GetCalloutBodyLines(doc: seq<string>, calloutIndent: string, bodyStartLine: int)
    returns (calloutBodyLines: seq<string>)
    requires bodyStartLine >= 1
    ensures calloutBodyLines == StripIndented(Drop(doc, bodyStartLine - 1), calloutIndent)
    ensures BodyLinesAt(doc, calloutIndent, bodyStartLine - 1, calloutBodyLines)
  {
    ghost var all := StripIndented(Drop(doc, bodyStartLine - 1), calloutIndent);
    calloutBodyLines := [];
    if bodyStartLine > |doc| + 1 {
      assert Drop(doc, bodyStartLine - 1) == [];
    }
    var i := bodyStartLine;
    while i <= |doc|
      invariant bodyStartLine <= i
      invariant i <= |doc| + 1 ==> all == calloutBodyLines + StripIndented(doc[i - 1..], calloutIndent)
      invariant i > |doc| + 1 ==> all == [] && calloutBodyLines == []
    {
      var maybeBodyLineWithIndent := doc[i - 1];
      StripIndentedStep(doc, calloutIndent, i - 1);
      if !StartsWith(maybeBodyLineWithIndent, calloutIndent) {
        assert calloutBodyLines + [] == calloutBodyLines;
        DropBody(doc, calloutIndent, bodyStartLine - 1);
        return;
      }
      var calloutBodyLineText := maybeBodyLineWithIndent[|calloutIndent|..];
      ghost var rest := StripIndented(doc[i..], calloutIndent);
      assert calloutBodyLines + ([calloutBodyLineText] + rest) == (calloutBodyLines + [calloutBodyLineText]) + rest;
      calloutBodyLines := calloutBodyLines + [calloutBodyLineText];
      i := i + 1;
    }
    assert i <= |doc| + 1 ==> doc[i - 1..] == [];
    assert calloutBodyLines + [] == calloutBodyLines;
    DropBody(doc, calloutIndent, bodyStartLine - 1);
  }

  /**
   * `body` is a callout body read from line index `n` on: each of its lines is the document
   * line at that position without the indent, and the line just after it (if any) lacks the
   * indent. Past the end of the document the body is empty.
   */
  predicate BodyLinesAt(doc: seq<string>, indent: string, n: nat, body: seq<string>)
  {
    && |body| <= (if n <= |doc| then |doc| - n else 0)
    && (forall k :: 0 <= k < |body| ==> indent + body[k] == doc[n + k])
    && (n + |body| < |doc| ==> !StartsWith(doc[n + |body|], indent))
  }

  /** The body taken from line index `n` on, stated at the document's own indices. */
  lemma DropBody(doc: seq<string>, indent: string, n: nat)
    ensures BodyLinesAt(doc, indent, n, StripIndented(Drop(doc, n), indent))
  {
    var tail := Drop(doc, n);
    var body := StripIndented(tail, indent);
    StripIndentedSpec(tail, indent);
    if n + |body| < |doc| {
      assert tail[|body|] == doc[n + |body|];
    }
    forall k | 0 <= k < |body|
      ensures indent + body[k] == doc[n + k]
    {
      assert tail[k] == doc[n + k];
    }
  }

  /** `text.split("\n")`: the lines of a section's source text. */
  function SectionLines(text: string): (lines: seq<string>)
    ensures |lines| >= 1
  {
    Split(text, '\n')
  }

  /**
   * What `getCalloutBodyLinesFromSectionInfo` returns: `None` when `lineStart` is not an index
   * of the line array or that line is not a callout header; otherwise the lines strictly after
   * the header and before `slice`'s end `lineEnd + 1`, indent-stripped, up to the first line
   * without the indent.
   */
  function SectionBodyLines(text: string, lineStart: int, lineEnd: int): (body: Option<seq<string>>)
  {
    var allLines := SectionLines(text);
    if lineStart < 0 || lineStart >= |allLines| then None
    else
      match HeaderIndent(allLines[lineStart])
      case None => None
      case Some(indent) => Some(StripIndented(Slice(allLines, lineStart + 1, lineEnd + 1), indent))
  }

  /** `null` exactly when `lineStart` is out of bounds or its line is not a callout header. */
  lemma SectionBodyLinesNone(text: string, lineStart: int, lineEnd: int)
    ensures var allLines := SectionLines(text);
      SectionBodyLines(text, lineStart, lineEnd).None? <==>
        (lineStart < 0 || lineStart >= |allLines| || HeaderIndent(allLines[lineStart]).None?)
  {
  }

  /**
   * On success the body lines are the indent-stripped lines strictly after the header and
   * before the slice end (so never the header, and at most up to `lineEnd` when that is not a
   * negative relative index), stopping only at a line without the indent.
   */
  lemma SectionBodyLinesBounds(text: string, lineStart: int, lineEnd: int)
    requires SectionBodyLines(text, lineStart, lineEnd).Some?
    ensures
      var body := SectionBodyLines(text, lineStart, lineEnd).value;
      var allLines := SectionLines(text);
      var indent := HeaderIndent(allLines[lineStart]).value;
      var end := RelativeIndex(lineEnd + 1, |allLines|);
      && (forall k :: 0 <= k < |body| ==>
            && lineStart < lineStart + 1 + k < end
            && (lineEnd >= -1 ==> lineStart + 1 + k <= lineEnd)
            && indent + body[k] == allLines[lineStart + 1 + k])
      && (lineStart + 1 + |body| < end ==> !StartsWith(allLines[lineStart + 1 + |body|], indent))
  {
    var allLines := SectionLines(text);
    var indent := HeaderIndent(allLines[lineStart]).value;
    var window := Slice(allLines, lineStart + 1, lineEnd + 1);
    var body := StripIndented(window, indent);
    var end := RelativeIndex(lineEnd + 1, |allLines|);
    StripIndentedSpec(window, indent);
    assert |window| == if lineStart + 1 < end then end - (lineStart + 1) else 0;
    forall k | 0 <= k < |body|
      ensures lineStart < lineStart + 1 + k < end && indent + body[k] == allLines[lineStart + 1 + k]
    {
      assert window[k] == allLines[lineStart + 1 + k];
    }
    if lineStart + 1 + |body| < end {
      assert window[|body|] == allLines[lineStart + 1 + |body|];
    }
  }

  /**
   * `getCalloutBodyLinesFromSectionInfo`: splits the section text, re-derives the indent from
   * the header line, then walks `allLines.slice(lineStart + 1, lineEnd + 1)`.
   */
  method GetCalloutBodyLinesFromSectionInfo(text: string, lineStart: int, lineEnd: int)
    returns (calloutBodyLines: Option<seq<string>>)
    ensures calloutBodyLines == SectionBodyLines(text, lineStart, lineEnd)
  {
    var allLines := Split(text, '\n');
    if lineStart < 0 || lineStart >= |allLines| {
      // Line start is out of bounds
      return None;
    }
    var headerLine := allLines[lineStart];
    var calloutIndent := HeaderIndent(headerLine);
    if calloutIndent.None? {
      // Line does not match callout header regex
      return None;
    }
    var indent := calloutIndent.value;
    var window := Slice(allLines, lineStart + 1, lineEnd + 1);
    assert SectionBodyLines(text, lineStart, lineEnd) == Some(StripIndented(window, indent));
    var lines: seq<string> := [];
    var j := 0;
    while j < |window|
      invariant 0 <= j <= |window|
      invariant StripIndented(window, indent) == lines + StripIndented(window[j..], indent)
    {
      var maybeBodyLineWithIndent := window[j];
      StripIndentedStep(window, indent, j);
      if !StartsWith(maybeBodyLineWithIndent, indent) {
        assert lines + [] == lines;
        return Some(lines);
      }
      lines := lines + [maybeBodyLineWithIndent[|indent|..]];
      j := j + 1;
    }
    assert window[j..] == [] && lines + [] == lines;
    return Some(lines);
  }

  /** What `getCalloutBodyTextFromSectionInfo` returns: `None` passed through, else the lines joined. */
  function SectionBodyText(text: string, lineStart: int, lineEnd: int): Option<string>
  {
    match SectionBodyLines(text, lineStart, lineEnd)
    case None => None
    case Some(lines) => Some(Join(lines, "\n"))
  }

  /** `getCalloutBodyTextFromSectionInfo`. */
  method GetCalloutBodyTextFromSectionInfo(text: string, lineStart: int, lineEnd: int)
    returns (calloutBodyText: Option<string>)
    ensures calloutBodyText == SectionBodyText(text, lineStart, lineEnd)
    ensures calloutBodyText.None? <==> SectionBodyLines(text, lineStart, lineEnd).None?
  {
    var calloutBodyLines := GetCalloutBodyLinesFromSectionInfo(text, lineStart, lineEnd);
    if calloutBodyLines.None? {
      return None;
    }
    return Some(Join(calloutBodyLines.value, "\n"));
  }

  /**
   * The joined body text splits back into exactly the body lines, so the join loses nothing
   * (as long as there is at least one body line: no body line and one empty body line both
   * give the empty string).
   */
  lemma SectionBodyTextSplits(text: string, lineStart: int, lineEnd: int)
    requires SectionBodyLines(text, lineStart, lineEnd).Some?
    requires |SectionBodyLines(text, lineStart, lineEnd).value| >= 1
    ensures SectionBodyText(text, lineStart, lineEnd).Some?
    ensures Split(SectionBodyText(text, lineStart, lineEnd).value, '\n') == SectionBodyLines(text, lineStart, lineEnd).value
  {
    var allLines := SectionLines(text);
    var body := SectionBodyLines(text, lineStart, lineEnd).value;
    var indent := HeaderIndent(allLines[lineStart]).value;
    SectionBodyLinesBounds(text, lineStart, lineEnd);
    forall k | 0 <= k < |body|
      ensures '\n' !in body[k]
    {
      var i := lineStart + 1 + k;
      assert indent + body[k] == allLines[i];
      assert '\n' !in allLines[i];
      assert forall c :: c in body[k] ==> c in allLines[i];
    }
    SplitJoin(body, '\n');
  }

  // =============================================================================================
  // Plain text

  /** No three consecutive line feeds. */
  predicate NoTripleNewline(s: string)
  {
    forall i :: 0 <= i < |s| - 2 ==> !(s[i] == '\n' && s[i + 1] == '\n' && s[i + 2] == '\n')
  }

  /** Length of the run of line feeds at the start of `s`. */
  function NewlineRun(s: string): (n: nat)
    ensures n <= |s|
    ensures forall k :: 0 <= k < n ==> s[k] == '\n'
    ensures n < |s| ==> s[n] != '\n'
    decreases |s|
  {
    if |s| == 0 || s[0] != '\n' then 0 else 1 + NewlineRun(s[1..])
  }

  /**
   * `s.replace(/\n\n\n+/g, "\n\n")`: each maximal run of three or more line feeds becomes two;
   * everything else is kept.
   */
  function CollapseBlankLines(s: string): (r: string)
    ensures NoTripleNewline(r)
    ensures |r| <= |s|
    ensures |s| > 0 && s[0] != '\n' ==> |r| > 0 && r[0] == s[0]
    decreases |s|
  {
    if |s| == 0 then ""
    else if s[0] != '\n' then
      var rest := CollapseBlankLines(s[1..]);
      NoTripleAfterPrefix([s[0]], rest);
      [s[0]] + rest
    else
      var n := NewlineRun(s);
      var run := if n >= 3 then "\n\n" else s[..n];
      var rest := CollapseBlankLines(s[n..]);
      NoTripleAfterPrefix(run, rest);
      run + rest
  }

  /** `k` line feeds. */
  function Newlines(k: nat): (s: string)
    ensures |s| == k
    ensures forall i :: 0 <= i < k ==> s[i] == '\n'
  {
    seq(k, _ => '\n')
  }

  /** A run of `k` line feeds followed by anything else is a maximal run of length `k`. */
  lemma {:induction false} NewlineRunOfNewlines(k: nat, rest: string)
    requires |rest| == 0 || rest[0] != '\n'
    ensures NewlineRun(Newlines(k) + rest) == k
    decreases k
  {
    if k > 0 {
      assert (Newlines(k) + rest)[1..] == Newlines(k - 1) + rest;
      NewlineRunOfNewlines(k - 1, rest);
    } else {
      assert Newlines(k) + rest == rest;
    }
  }

  /**
   * A maximal run of `k` line feeds becomes exactly two line feeds when `k` is three or more and
   * is kept as it is otherwise; the text after the run is collapsed on its own.
   */
  lemma CollapseNewlineRun(k: nat, rest: string)
    requires |rest| == 0 || rest[0] != '\n'
    ensures CollapseBlankLines(Newlines(k) + rest)
              == (if k >= 3 then "\n\n" else Newlines(k)) + CollapseBlankLines(rest)
  {
    var s := Newlines(k) + rest;
    if k == 0 {
      assert s == rest;
    } else {
      NewlineRunOfNewlines(k, rest);
      assert s[0] == '\n';
      assert s[..k] == Newlines(k) && s[k..] == rest;
    }
  }

  /** A character other than a line feed is kept, and the text after it is collapsed on its own. */
  lemma CollapseOtherChar(c: char, rest: string)
    requires c != '\n'
    ensures CollapseBlankLines([c] + rest) == [c] + CollapseBlankLines(rest)
  {
    assert ([c] + rest)[1..] == rest;
  }

  /**
   * A prefix of at most two characters keeps a string free of triple line feeds when either
   * the prefix has no line feed or the string does not start with one.
   */
  lemma NoTripleAfterPrefix(run: string, rest: string)
    requires |run| <= 2 && NoTripleNewline(rest)
    requires (|run| == 1 && run[0] != '\n') || (|rest| > 0 ==> rest[0] != '\n')
    ensures NoTripleNewline(run + rest)
  {
    var t := run + rest;
    forall i | 0 <= i < |t| - 2
      ensures !(t[i] == '\n' && t[i + 1] == '\n' && t[i + 2] == '\n')
    {
      if i >= |run| {
        assert t[i] == rest[i - |run|] && t[i + 1] == rest[i - |run| + 1] && t[i + 2] == rest[i - |run| + 2];
      } else if |run| == 1 {
        assert t[i] == run[0];
      } else {
        assert t[2] == rest[0];
      }
    }
  }

  /** The line feeds removed from a string: used to say that collapsing keeps all other text. */
  function WithoutNewlines(s: string): string
    decreases |s|
  {
    if |s| == 0 then "" else (if s[0] == '\n' then "" else [s[0]]) + WithoutNewlines(s[1..])
  }

  lemma {:induction false} WithoutNewlinesAppend(a: string, b: string)
    ensures WithoutNewlines(a + b) == WithoutNewlines(a) + WithoutNewlines(b)
    decreases |a|
  {
    if |a| > 0 {
      assert (a + b)[1..] == a[1..] + b;
      WithoutNewlinesAppend(a[1..], b);
    } else {
      assert a + b == b;
    }
  }

  lemma {:induction false} WithoutNewlinesOfNewlines(s: string)
    requires forall k :: 0 <= k < |s| ==> s[k] == '\n'
    ensures WithoutNewlines(s) == ""
    decreases |s|
  {
    if |s| > 0 {
      WithoutNewlinesOfNewlines(s[1..]);
    }
  }

  /** Collapsing blank lines only ever removes line feeds. */
  lemma {:induction false} CollapseKeepsText(s: string)
    ensures WithoutNewlines(CollapseBlankLines(s)) == WithoutNewlines(s)
    decreases |s|
  {
    if |s| > 0 {
      if s[0] != '\n' {
        CollapseKeepsText(s[1..]);
        WithoutNewlinesAppend([s[0]], CollapseBlankLines(s[1..]));
      } else {
        var n := NewlineRun(s);
        var run := if n >= 3 then "\n\n" else s[..n];
        CollapseKeepsText(s[n..]);
        WithoutNewlinesAppend(run, CollapseBlankLines(s[n..]));
        WithoutNewlinesAppend(s[..n], s[n..]);
        assert s[..n] + s[n..] == s;
        WithoutNewlinesOfNewlines(run);
        WithoutNewlinesOfNewlines(s[..n]);
      }
    }
  }

  /** A suffix of a string without triple line feeds has none either. */
  lemma NoTripleNewlineSuffix(s: string, n: nat)
    requires NoTripleNewline(s) && n <= |s|
    ensures NoTripleNewline(s[n..])
  {
    forall i | 0 <= i < |s[n..]| - 2
      ensures !(s[n..][i] == '\n' && s[n..][i + 1] == '\n' && s[n..][i + 2] == '\n')
    {
      assert s[n..][i] == s[n + i] && s[n..][i + 1] == s[n + i + 1] && s[n..][i + 2] == s[n + i + 2];
    }
  }

  /** Collapsing changes exactly the strings that hold three consecutive line feeds. */
  lemma {:induction false} CollapseFixpoint(s: string)
    ensures CollapseBlankLines(s) == s <==> NoTripleNewline(s)
    decreases |s|
  {
    if NoTripleNewline(s) && |s| > 0 {
      if s[0] != '\n' {
        NoTripleNewlineSuffix(s, 1);
        CollapseFixpoint(s[1..]);
        assert [s[0]] + s[1..] == s;
      } else {
        var n := NewlineRun(s);
        assert n < 3 by {
          assert |s| >= 3 ==> !(s[0] == '\n' && s[1] == '\n' && s[2] == '\n');
        }
        NoTripleNewlineSuffix(s, n);
        CollapseFixpoint(s[n..]);
        assert s[..n] + s[n..] == s;
      }
    }
  }

  /** `trim` keeps a string free of triple line feeds, since it only cuts off both ends. */
  lemma TrimKeepsNoTripleNewline(s: string)
    requires NoTripleNewline(s)
    ensures NoTripleNewline(Trim(s))
  {
    TrimIsSlice(s);
    var a, b :| 0 <= a <= b <= |s| && Trim(s) == s[a..b];
    NoTripleSlice(s, a, b);
  }

  /** Every slice of a string without triple line feeds is without them too. */
  lemma NoTripleSlice(s: string, a: nat, b: nat)
    requires a <= b <= |s| && NoTripleNewline(s)
    ensures NoTripleNewline(s[a..b])
  {
    var t := s[a..b];
    forall i | 0 <= i < |t| - 2
      ensures !(t[i] == '\n' && t[i + 1] == '\n' && t[i + 2] == '\n')
    {
      assert t[i] == s[a + i] && t[i + 1] == s[a + i + 1] && t[i + 2] == s[a + i + 2];
    }
  }

  /** The normalisation `getCalloutBodyPlainText` applies: collapse blank lines, then trim. */
  function NormalizeBody(s: string): (r: string)
    ensures NoTripleNewline(r)
    ensures Trimmed(r)
    ensures WhiteSpaceCut(CollapseBlankLines(s), r, LeadingWhiteSpace(CollapseBlankLines(s)))
  {
    var collapsed := CollapseBlankLines(s);
    TrimKeepsNoTripleNewline(collapsed);
    Trim(collapsed)
  }

  /**
   * The normal form is determined: cutting white space off both ends of the collapsed text so
   * that a trimmed string is left gives exactly `NormalizeBody(s)`.
   */
  lemma NormalizeBodyUnique(s: string, t: string, a: nat)
    requires WhiteSpaceCut(CollapseBlankLines(s), t, a) && Trimmed(t)
    ensures t == NormalizeBody(s)
  {
    TrimUnique(CollapseBlankLines(s), t, a);
  }

  /** Normalising twice is normalising once. */
  lemma NormalizeIdempotent(s: string)
    ensures NormalizeBody(NormalizeBody(s)) == NormalizeBody(s)
  {
    var t := NormalizeBody(s);
    CollapseFixpoint(t);
    TrimFixpoint(t);
  }

  /**
   * `getCalloutBodyPlainText`, with the host's rendered text as inputs: the `innerText` of the
   * `div.callout-content` child when there is one, and the `innerText` of the callout node.
   * Without a content div it drops the first (header) line of the node's text.
   */
  function GetCalloutBodyPlainText(contentDivInnerText: Option<string>, calloutInnerText: string): (r: string)
    ensures NoTripleNewline(r)
    ensures Trimmed(r)
  {
    var calloutBodyContent :=
      if contentDivInnerText.Some? then contentDivInnerText.value
      else Join(Split(calloutInnerText, '\n')[1..], "\n");
    NormalizeBody(calloutBodyContent)
  }

  /** With a content div, its text is used as it is, only normalised. */
  lemma PlainTextPrefersContentDiv(contentDivInnerText: string, calloutInnerText: string)
    ensures GetCalloutBodyPlainText(Some(contentDivInnerText), calloutInnerText) == NormalizeBody(contentDivInnerText)
  {
  }

  /** Without a content div, exactly the first line of the node's text is dropped. */
  lemma PlainTextDropsFirstLine(header: string, rest: string)
    requires '\n' !in header
    ensures GetCalloutBodyPlainText(None, header + "\n" + rest) == NormalizeBody(rest)
  {
    SplitAtFirst(header, '\n', rest);
    assert ([header] + Split(rest, '\n'))[1..] == Split(rest, '\n');
    JoinSplit(rest, '\n');
  }

  /** Without a content div, a single-line text has an empty body. */
  lemma PlainTextSingleLine(calloutInnerText: string)
    requires '\n' !in calloutInnerText
    ensures GetCalloutBodyPlainText(None, calloutInnerText) == ""
  {
    SplitWithoutSeparator(calloutInnerText, '\n');
  }

  // =============================================================================================
  // Worked examples

  /** Extraction stops before the first line without the indent. */
  lemma StopsAtUnindentedLine()
    ensures StripIndented(["> line1", "> line2", "not indented"], "> ") == ["line1", "line2"]
  {
    var lines := ["> line1", "> line2", "not indented"];
    assert StartsWith(lines[0], "> ") && lines[0][2..] == "line1";
    assert lines[1..][0] == "> line2" && lines[1..][1..] == ["not indented"];
    assert StartsWith(lines[1], "> ") && lines[1][2..] == "line2";
    assert "not indented"[..2][0] == 'n';
    assert StripIndented(["not indented"], "> ") == [];
  }

  /**
   * Nesting: a depth-1 callout takes the nested header and body as raw lines with only its own
   * indent removed (continuing through `> > ` lines); the depth-2 callout, extracted on its own,
   * takes only its own lines, stripped by its deeper indent.
   */
  lemma NestedCalloutExtraction()
    ensures StripIndented(["> > [!tip] b", "> > inner", "> back"], "> ") == ["> [!tip] b", "> inner", "back"]
    ensures StripIndented(["> > inner", "> back"], "> > ") == ["inner"]
  {
    var outer := ["> > [!tip] b", "> > inner", "> back"];
    assert StartsWith(outer[0], "> ") && outer[0][2..] == "> [!tip] b";
    assert outer[1..] == ["> > inner", "> back"];
    assert StartsWith("> > inner", "> ") && "> > inner"[2..] == "> inner";
    assert ["> > inner", "> back"][1..] == ["> back"];
    assert StartsWith("> back", "> ") && "> back"[2..] == "back";
    assert ["> back"][1..] == [];
    assert StartsWith("> > inner", "> > ") && "> > inner"[4..] == "inner";
    assert "> back"[..4][2] == 'b';
    assert StripIndented(["> back"], "> > ") == [];
  }

  /** The header of the section example opens a callout at depth one. */
  lemma NoteHeaderExample()
    ensures HeaderIndent("> [!note]") == Some("> ")
  {
    var header := "> [!note]";
    assert StartsWith(header, QuoteMarker) && header[2..] == "[!note]";
    assert "[!note]"[..2][0] == '[';
    assert QuoteRun(header) == 2;
    assert header[2..][..2] == "[!" && header[4..] == "note]";
    assert AnyThenBracket("]");
    assert AnyThenBracket("e]") by { assert "e]"[1..] == "]"; }
    assert AnyThenBracket("te]") by { assert "te]"[1..] == "e]"; }
    assert AnyThenBracket("ote]") by { assert "ote]"[1..] == "te]"; }
    assert TagClosesMatcher("note]") by { assert "note]"[1..] == "ote]"; }
    assert header[..2] == "> ";
  }

  /** Three lines, each ended by a line feed, split into the three lines and a final empty one. */
  lemma SplitThreeTerminatedLines(a: string, b: string, c: string)
    requires '\n' !in a && '\n' !in b && '\n' !in c
    ensures Split(a + "\n" + (b + "\n" + (c + "\n")), '\n') == [a, b, c, ""]
  {
    SplitAtFirst(a, '\n', b + "\n" + (c + "\n"));
    SplitAtFirst(b, '\n', c + "\n");
    assert c + "\n" == c + "\n" + "";
    SplitAtFirst(c, '\n', "");
  }

  /** The section text of the example splits into its three lines and a final empty one. */
  lemma SectionExampleLines(text: string)
    requires text == "> [!note]\n> hello\n> world\n"
    ensures SectionLines(text) == ["> [!note]", "> hello", "> world", ""]
  {
    var header: string, hello: string, world: string := "> [!note]", "> hello", "> world";
    assert text == header + "\n" + (hello + "\n" + (world + "\n"));
    SplitThreeTerminatedLines(header, hello, world);
  }

  /** The two lines after the example's header, stripped of its indent. */
  lemma SectionExampleWindow(allLines: seq<string>)
    requires allLines == ["> [!note]", "> hello", "> world", ""]
    ensures StripIndented(Slice(allLines, 1, 3), "> ") == ["hello", "world"]
  {
    var hello: string, world: string := "> hello", "> world";
    var window := [hello, world];
    assert Slice(allLines, 1, 3) == window;
    assert StartsWith(hello, "> ") && hello[2..] == "hello";
    assert StartsWith(world, "> ") && world[2..] == "world";
    assert window[1..] == [world];
    assert |[world][1..]| == 0;
  }

  /** The section example's body lines: `> [!note]`, `> hello`, `> world` give `hello`, `world`. */
  lemma SectionLinesExample(text: string)
    requires text == "> [!note]\n> hello\n> world\n"
    ensures SectionBodyLines(text, 0, 2) == Some(["hello", "world"])
  {
    SectionExampleLines(text);
    NoteHeaderExample();
    SectionExampleWindow(SectionLines(text));
  }

  lemma JoinTwoLines(a: string, b: string)
    ensures Join([a, b], "\n") == a + "\n" + b
  {
    assert [a, b][1..] == [b];
  }

  /** The same example as text: the body lines joined with a line feed. */
  lemma SectionTextExample(text: string)
    requires text == "> [!note]\n> hello\n> world\n"
    ensures SectionBodyText(text, 0, 2) == Some("hello\nworld")
  {
    SectionLinesExample(text);
    JoinTwoLines("hello", "world");
    assert "hello" + "\n" + "world" == "hello\nworld";
  }

  /** Two newline-free pieces joined by one line feed hold no run of three line feeds. */
  lemma OneNewlineNoTriple(a: string, b: string)
    requires '\n' !in a && '\n' !in b
    ensures NoTripleNewline(a + "\n" + b)
  {
    var s := a + "\n" + b;
    forall i | 0 <= i < |s| - 2
      ensures !(s[i] == '\n' && s[i + 1] == '\n' && s[i + 2] == '\n')
    {
      if i < |a| {
        assert s[i] == a[i];
      } else {
        assert s[i + 1] == b[i - |a|];
      }
    }
  }

  /** Normalising leaves an already normal body as it is. */
  lemma NormalizeKeepsNormal(s: string)
    requires NoTripleNewline(s) && Trimmed(s)
    ensures NormalizeBody(s) == s
  {
    CollapseFixpoint(s);
    TrimFixpoint(s);
  }

  /** The example's callout text, without a content div, comes down to normalising its body. */
  lemma PlainTextExampleBody(innerText: string, body: string)
    requires innerText == "NOTE\nhello\nworld" && body == "hello\nworld"
    ensures GetCalloutBodyPlainText(None, innerText) == NormalizeBody(body)
  {
    assert innerText == "NOTE" + "\n" + body;
    PlainTextDropsFirstLine("NOTE", body);
  }

  /** The example's body is already normal. */
  lemma PlainTextExampleNormal(body: string)
    requires body == "hello\nworld"
    ensures NormalizeBody(body) == body
  {
    assert body == "hello" + "\n" + "world";
    OneNewlineNoTriple("hello", "world");
    NormalizeKeepsNormal(body);
  }

  /** The rendered-text example on the path without a content div. */
  lemma PlainTextExample(innerText: string)
    requires innerText == "NOTE\nhello\nworld"
    ensures GetCalloutBodyPlainText(None, innerText) == "hello\nworld"
  {
    PlainTextExampleBody(innerText, "hello\nworld");
    PlainTextExampleNormal("hello\nworld");
  }
}
