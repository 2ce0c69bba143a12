/**
 * The editor view plugin: it scans every line of the document, and for each line that opens a
 * callout it places a zero-width copy-button widget at the start of that line, carrying the
 * callout's body text.
 */
module ViewPlugin {
  import opened Wrappers
  import opened JsString
  import opened CalloutBodyText
  import opened EditorDoc

  /** The line at index `i` opens a callout (the header regex matches it). */
  predicate IsHeaderLine(doc: seq<string>, i: nat)
    requires i < |doc|
  {
    HeaderIndent(doc[i]).Some?
  }

  /** What the header regex says about each line: the indent of every line that opens a callout. */
  function Headers(doc: seq<string>): (hs: seq<Option<string>>)
    ensures |hs| == |doc|
  {
    seq(|doc|, i requires 0 <= i < |doc| => HeaderIndent(doc[i]))
  }

  /**
   * The body text of the callout whose header at line index `i` has indent `indent`: the lines
   * that follow it, stripped of the indent, up to the first line without the indent or the end
   * of the document.
   */
  function BodyTextWith(doc: seq<string>, i: nat, indent: string): string
    requires i < |doc|
  {
    Join(StripIndented(Drop(doc, i + 1), indent), "\n")
  }

  /** The widget decoration for a header at line index `i` with indent `indent`. */
  function Widget(doc: seq<string>, i: nat, indent: string): (deco: Decoration)
    requires i < |doc|
    ensures ZeroWidth(deco) && deco.side == 1 && deco.from == LineStart(doc, i)
    ensures deco.calloutLine.None?
  {
    var from := LineStart(doc, i);
    Decoration(from, from, 1, BodyTextWith(doc, i, indent), None)
  }

  /**
   * The decorations the scan has added after the first `n` lines, in line order, when `hs`
   * holds the header regex's verdict on each line.
   */
  function WidgetsUpTo(doc: seq<string>, hs: seq<Option<string>>, n: nat): (decos: seq<Decoration>)
    requires |hs| == |doc| && n <= |doc|
    ensures |decos| <= n
    decreases n
  {
    if n == 0 then []
    else WidgetsUpTo(doc, hs, n - 1) + (if hs[n - 1].Some? then [Widget(doc, n - 1, hs[n - 1].value)] else [])
  }

  /** The decoration set `buildDecorations` produces for the whole document. */
  function Decorations(doc: seq<string>): seq<Decoration>
  {
    WidgetsUpTo(doc, Headers(doc), |doc|)
  }

  /** The body text of the callout whose header is line index `i`. */
  function BodyText(doc: seq<string>, i: nat): string
    requires i < |doc| && IsHeaderLine(doc, i)
  {
    BodyTextWith(doc, i, HeaderIndent(doc[i]).value)
  }

  /** The widget decoration for the header at line index `i`. */
  function DecorationFor(doc: seq<string>, i: nat): (deco: Decoration)
    requires i < |doc| && IsHeaderLine(doc, i)
    ensures ZeroWidth(deco) && deco.side == 1 && deco.from == LineStart(doc, i)
    ensures deco.calloutLine.None? && deco.text == BodyText(doc, i)
  {
    Widget(doc, i, HeaderIndent(doc[i]).value)
  }

  /** The decorations for the first `n` lines start before line `n`, in strictly increasing order. */
  lemma {:induction false} WidgetsUpToAscending(doc: seq<string>, hs: seq<Option<string>>, n: nat)
    requires |hs| == |doc| && n <= |doc|
    ensures StrictlyAscending(WidgetsUpTo(doc, hs, n))
    ensures forall k :: 0 <= k < |WidgetsUpTo(doc, hs, n)| ==> WidgetsUpTo(doc, hs, n)[k].from < LineStart(doc, n)
    decreases n
  {
    if n > 0 {
      WidgetsUpToAscending(doc, hs, n - 1);
      var prev := WidgetsUpTo(doc, hs, n - 1);
      var decos := WidgetsUpTo(doc, hs, n);
      LineStartIncreasing(doc, n - 1, n);
      forall k | 0 <= k < |decos|
        ensures decos[k].from < LineStart(doc, n)
      {
        if k < |prev| {
          assert decos[k] == prev[k];
        } else {
          assert decos[k] == Widget(doc, n - 1, hs[n - 1].value);
        }
      }
      forall k, l | 0 <= k < l < |decos|
        ensures decos[k].from < decos[l].from
      {
        assert decos[k] == prev[k];
        if l < |prev| {
          assert decos[l] == prev[l];
        } else {
          assert decos[l] == Widget(doc, n - 1, hs[n - 1].value);
        }
      }
    }
  }

  /** `deco` is the widget of one of the headers among the first `n` lines. */
  ghost predicate IsWidgetOf(doc: seq<string>, hs: seq<Option<string>>, n: nat, deco: Decoration)
    requires |hs| == |doc| && n <= |doc|
  {
    exists i :: 0 <= i < n && hs[i].Some? && deco == Widget(doc, i, hs[i].value)
  }

  /** Every decoration for the first `n` lines is the widget of a header among them. */
  lemma {:induction false} WidgetsUpToSound(doc: seq<string>, hs: seq<Option<string>>, n: nat)
    requires |hs| == |doc| && n <= |doc|
    ensures forall k :: 0 <= k < |WidgetsUpTo(doc, hs, n)| ==> IsWidgetOf(doc, hs, n, WidgetsUpTo(doc, hs, n)[k])
    decreases n
  {
    if n > 0 {
      WidgetsUpToSound(doc, hs, n - 1);
      var prev := WidgetsUpTo(doc, hs, n - 1);
      var decos := WidgetsUpTo(doc, hs, n);
      forall k | 0 <= k < |decos|
        ensures IsWidgetOf(doc, hs, n, decos[k])
      {
        if k < |prev| {
          var i :| 0 <= i < n - 1 && hs[i].Some? && prev[k] == Widget(doc, i, hs[i].value);
          assert decos[k] == prev[k];
        } else {
          assert hs[n - 1].Some? && decos[k] == Widget(doc, n - 1, hs[n - 1].value);
        }
      }
    }
  }

  /** Every header among the first `n` lines has its widget in the set. */
  lemma {:induction false} WidgetsUpToComplete(doc: seq<string>, hs: seq<Option<string>>, n: nat, i: nat)
    requires |hs| == |doc| && i < n <= |doc| && hs[i].Some?
    ensures Widget(doc, i, hs[i].value) in WidgetsUpTo(doc, hs, n)
    decreases n
  {
    if i < n - 1 {
      WidgetsUpToComplete(doc, hs, n - 1, i);
    }
  }

  /** Exactly one decoration is emitted for a header line: no other one starts at that line. */
  lemma OneDecorationPerHeader(doc: seq<string>, i: nat)
    requires i < |doc| && IsHeaderLine(doc, i)
    ensures exists k :: 0 <= k < |Decorations(doc)| && Decorations(doc)[k] == DecorationFor(doc, i)
              && forall l :: 0 <= l < |Decorations(doc)| && Decorations(doc)[l].from == LineStart(doc, i) ==> l == k
  {
    var hs := Headers(doc);
    var decos := WidgetsUpTo(doc, hs, |doc|);
    assert hs[i] == HeaderIndent(doc[i]);
    WidgetsUpToAscending(doc, hs, |doc|);
    WidgetsUpToComplete(doc, hs, |doc|, i);
    var w := Widget(doc, i, hs[i].value);
    assert w == DecorationFor(doc, i);
    var k :| 0 <= k < |decos| && decos[k] == w;
    forall l | 0 <= l < |decos| && decos[l].from == LineStart(doc, i)
      ensures l == k
    {
      AscendingFromUnique(decos, k, l);
    }
    assert Decorations(doc) == decos;
  }

  /** No decoration is emitted at the start of a line that does not open a callout. */
  lemma NoDecorationForOtherLines(doc: seq<string>, i: nat)
    requires i < |doc| && !IsHeaderLine(doc, i)
    ensures forall k :: 0 <= k < |Decorations(doc)| ==> Decorations(doc)[k].from != LineStart(doc, i)
  {
    var hs := Headers(doc);
    var decos := WidgetsUpTo(doc, hs, |doc|);
    WidgetsUpToSound(doc, hs, |doc|);
    assert hs[i] == HeaderIndent(doc[i]);
    forall k | 0 <= k < |decos|
      ensures decos[k].from != LineStart(doc, i)
    {
      assert IsWidgetOf(doc, hs, |doc|, decos[k]);
      var j :| 0 <= j < |doc| && hs[j].Some? && decos[k] == Widget(doc, j, hs[j].value);
      if j < i {
        LineStartIncreasing(doc, j, i);
      } else {
        LineStartIncreasing(doc, i, j);
      }
    }
  }

  /** The whole set is in strictly increasing offset order, each entry zero-width on side 1. */
  lemma DecorationsOrdered(doc: seq<string>)
    ensures StrictlyAscending(Decorations(doc))
    ensures forall k :: 0 <= k < |Decorations(doc)| ==>
              ZeroWidth(Decorations(doc)[k]) && Decorations(doc)[k].side == 1
  {
    var hs := Headers(doc);
    WidgetsUpToAscending(doc, hs, |doc|);
    WidgetsUpToSound(doc, hs, |doc|);
  }

  /**
   * The bound text is the body lines joined with line breaks, where the body lines are the
   * following lines carrying the header's indent, each without it, up to the first line that
   * lacks the indent or the end of the document (there is no end bound).
   */
  lemma BodyTextSpec(doc: seq<string>, i: nat)
    requires i < |doc| && IsHeaderLine(doc, i)
    ensures exists body: seq<string> ::
        && BodyText(doc, i) == Join(body, "\n")
        && i + 1 + |body| <= |doc|
        && BodyLinesAt(doc, HeaderIndent(doc[i]).value, i + 1, body)
  {
    var indent := HeaderIndent(doc[i]).value;
    DropBody(doc, indent, i + 1);
    var body := StripIndented(Drop(doc, i + 1), indent);
    assert BodyText(doc, i) == Join(body, "\n");
    assert i + 1 + |body| <= |doc| && BodyLinesAt(doc, indent, i + 1, body);
  }

  /**
   * A header nested directly under another one is the first line of the enclosing callout's
   * body, still a header there (with the remaining, shallower indent); it also gets its own
   * decoration.
   */
  lemma NestedHeaderInEnclosingBody(doc: seq<string>, i: nat)
    requires i + 1 < |doc| && IsHeaderLine(doc, i) && IsHeaderLine(doc, i + 1)
    requires |HeaderIndent(doc[i]).value| < |HeaderIndent(doc[i + 1]).value|
    ensures var p := HeaderIndent(doc[i]).value;
      var q := HeaderIndent(doc[i + 1]).value;
      var body := StripIndented(Drop(doc, i + 1), p);
      && |body| >= 1
      && body[0] == doc[i + 1][|p|..]
      && HeaderIndent(body[0]) == Some(q[|p|..])
    ensures exists k :: 0 <= k < |Decorations(doc)| && Decorations(doc)[k] == DecorationFor(doc, i + 1)
  {
    var p := HeaderIndent(doc[i]).value;
    var q := HeaderIndent(doc[i + 1]).value;
    StripIndentFromHeader(doc[i + 1], p, q);
    var rest := Drop(doc, i + 1);
    assert rest[0] == doc[i + 1];
    var hs := Headers(doc);
    assert hs[i + 1] == HeaderIndent(doc[i + 1]);
    WidgetsUpToComplete(doc, hs, |doc|, i + 1);
    var decos := Decorations(doc);
    var k :| 0 <= k < |decos| && decos[k] == DecorationFor(doc, i + 1);
  }

  /** `> [!tip] t` opens a callout at depth one. */
  lemma TipHeaderExample(line: string)
    requires line == "> [!tip] t"
    ensures HeaderIndent(line) == Some("> ")
  {
    assert StartsWith(line, QuoteMarker) && line[2..] == "[!tip] t";
    assert "[!tip] t"[..2][0] == '[';
    assert QuoteRun(line) == 2;
    assert line[2..][..2] == "[!" && line[4..] == "tip] t";
    assert AnyThenBracket("] t");
    assert AnyThenBracket("p] t") by { assert "p] t"[1..] == "] t"; }
    assert AnyThenBracket("ip] t") by { assert "ip] t"[1..] == "p] t"; }
    assert TagClosesMatcher("tip] t") by { assert "tip] t"[1..] == "ip] t"; }
    assert line[..2] == "> ";
  }

  /** Neither a quoted body line nor a plain line opens a callout. */
  lemma NonHeaderExamples(body: string, plain: string)
    requires body == "> body" && plain == "plain"
    ensures HeaderIndent(body).None? && HeaderIndent(plain).None?
  {
    assert StartsWith(body, QuoteMarker) && body[2..] == "body";
    assert "body"[..2][0] == 'b';
    assert QuoteRun(body) == 2;
    assert plain[..2][0] == 'p';
    assert QuoteRun(plain) == 0;
  }

  /** The body of the example callout is its one quoted line. */
  lemma BodyTextExample(doc: seq<string>)
    requires doc == ["> [!tip] t", "> body", "plain"]
    ensures IsHeaderLine(doc, 0) && BodyText(doc, 0) == "body"
  {
    TipHeaderExample(doc[0]);
    var rest := Drop(doc, 1);
    assert rest == ["> body", "plain"];
    assert StartsWith(rest[0], "> ") && rest[0][2..] == "body";
    assert rest[1..] == ["plain"];
    assert "plain"[..2][0] == 'p';
    assert StripIndented(["plain"], "> ") == [];
    assert StripIndented(rest, "> ") == ["body"];
  }

  /** A three-line document with one callout gets one widget, at offset 0, copying `body`. */
  lemma DecorationsExample(doc: seq<string>)
    requires doc == ["> [!tip] t", "> body", "plain"]
    ensures Decorations(doc) == [Decoration(0, 0, 1, "body", None)]
  {
    TipHeaderExample(doc[0]);
    NonHeaderExamples(doc[1], doc[2]);
    BodyTextExample(doc);
    var hs := Headers(doc);
    assert hs[0] == Some("> ") && hs[1].None? && hs[2].None?;
    var w := Widget(doc, 0, "> ");
    assert w == Decoration(0, 0, 1, "body", None);
    assert WidgetsUpTo(doc, hs, 1) == [w];
    assert WidgetsUpTo(doc, hs, 2) == WidgetsUpTo(doc, hs, 1);
  }

  /** The editor-side plugin: it holds the current decoration set. */
  class CalloutCopyButtonViewPlugin {
    var decorations: seq<Decoration>

    /** The plugin builds its decorations for the document it starts with. */
    constructor(doc: seq<string>)
      ensures decorations == Decorations(doc)
    {
      new;
      decorations := BuildDecorations(doc);
    }

    /** The set is rebuilt exactly when the document or the viewport changed. */
    method Update(update: ViewUpdate)
      modifies this
      ensures update.docChanged || update.viewportChanged ==> decorations == Decorations(update.doc)
      ensures !(update.docChanged || update.viewportChanged) ==> decorations == old(decorations)
    {
      if update.docChanged || update.viewportChanged {
        decorations := BuildDecorations(update.doc);
      }
    }

    /** The scan over every line `1..doc.lines`, feeding a range-set builder. */
    method BuildDecorations(doc: seq<string>) returns (builder: seq<Decoration>)
      ensures builder == Decorations(doc)
    {
      builder := [];
      var line := 1;
      while line <= |doc|
        invariant 1 <= line <= |doc| + 1
        invariant builder == WidgetsUpTo(doc, Headers(doc), line - 1)
      {
        var lineText := doc[line - 1];
        var calloutIndent := HeaderIndent(lineText);
        assert Headers(doc)[line - 1] == calloutIndent;
        if calloutIndent.None? {
          line := line + 1;
          continue;
        }
        var deco := HeaderWidget(doc, line, calloutIndent.value);
        builder := builder + [deco];
        line := line + 1;
      }
    }

    /** The widget for the header on (1-based) line `line`, whose indent is `calloutIndent`. */
    method HeaderWidget(doc: seq<string>, line: nat, calloutIndent: string) returns (deco: Decoration)
      requires 1 <= line <= |doc|
      ensures deco == Widget(doc, line - 1, calloutIndent)
    {
      var calloutBodyLines := GetCalloutBodyLines(doc, calloutIndent, line + 1);
      var calloutBodyText := Join(calloutBodyLines, "\n");
      var from := LineStart(doc, line - 1);
      deco := Decoration(from, from, 1, calloutBodyText, None);
    }
  }
}
