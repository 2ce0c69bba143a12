/**
 * The older editor view plugin: it decorates only lines that literally start with `> [!`, and
 * its widget carries the header line itself together with a `data-callout-line` attribute.
 */
module LegacyViewPlugin {
  import opened Wrappers
  import opened JsString
  import opened CalloutBodyText
  import opened EditorDoc

  /** The literal prefix the older plugin looks for. */
  const CalloutPrefix: string := "> [!"

  predicate IsCalloutLine(doc: seq<string>, i: nat)
    requires i < |doc|
  {
    StartsWith(doc[i], CalloutPrefix)
  }

  /**
   * The decoration for the callout line at index `i`: zero-width at the line's start, on side 1,
   * copying the raw line, with the 1-based line number as `data-callout-line`.
   */
  function DecorationFor(doc: seq<string>, i: nat): (deco: Decoration)
    requires i < |doc|
    ensures ZeroWidth(deco) && deco.side == 1 && deco.from == LineStart(doc, i)
    ensures deco.text == doc[i] && deco.calloutLine == Some(i + 1)
  {
    var from := LineStart(doc, i);
    Decoration(from, from, 1, doc[i], Some(i + 1))
  }

  /** The decorations for the first `n` lines, in line order. */
  function DecorationsUpTo(doc: seq<string>, n: nat): (decos: seq<Decoration>)
    requires n <= |doc|
    ensures |decos| <= n
    decreases n
  {
    if n == 0 then []
    else DecorationsUpTo(doc, n - 1) + (if IsCalloutLine(doc, n - 1) then [DecorationFor(doc, n - 1)] else [])
  }

  function Decorations(doc: seq<string>): seq<Decoration>
  {
    DecorationsUpTo(doc, |doc|)
  }

  /** The decorations for the first `n` lines start before line `n`, in strictly increasing order. */
  lemma {:induction false} DecorationsUpToAscending(doc: seq<string>, n: nat)
    requires n <= |doc|
    ensures StrictlyAscending(DecorationsUpTo(doc, n))
    ensures forall k :: 0 <= k < |DecorationsUpTo(doc, n)| ==> DecorationsUpTo(doc, n)[k].from < LineStart(doc, n)
    decreases n
  {
    if n > 0 {
      DecorationsUpToAscending(doc, n - 1);
      var prev := DecorationsUpTo(doc, n - 1);
      var decos := DecorationsUpTo(doc, n);
      LineStartIncreasing(doc, n - 1, n);
      assert |decos| <= |prev| + 1;
      forall k | 0 <= k < |decos|
        ensures decos[k].from < LineStart(doc, n)
      {
        if k < |prev| {
          assert decos[k] == prev[k];
        }
      }
      forall k, l | 0 <= k < l < |decos|
        ensures decos[k].from < decos[l].from
      {
        assert decos[k] == prev[k];
        if l < |prev| {
          assert decos[l] == prev[l];
        } else {
          assert decos[l] == DecorationFor(doc, n - 1);
        }
      }
    }
  }

  /** `deco` is the decoration of one of the callout lines among the first `n`. */
  ghost predicate IsCalloutDecoration(doc: seq<string>, n: nat, deco: Decoration)
    requires n <= |doc|
  {
    exists i :: 0 <= i < n && IsCalloutLine(doc, i) && deco == DecorationFor(doc, i)
  }

  /** Every decoration belongs to a line starting with `> [!`. */
  lemma {:induction false} DecorationsUpToSound(doc: seq<string>, n: nat)
    requires n <= |doc|
    ensures forall k :: 0 <= k < |DecorationsUpTo(doc, n)| ==> IsCalloutDecoration(doc, n, DecorationsUpTo(doc, n)[k])
    decreases n
  {
    if n > 0 {
      DecorationsUpToSound(doc, n - 1);
      var prev := DecorationsUpTo(doc, n - 1);
      var decos := DecorationsUpTo(doc, n);
      forall k | 0 <= k < |decos|
        ensures IsCalloutDecoration(doc, n, decos[k])
      {
        if k < |prev| {
          var i :| 0 <= i < n - 1 && IsCalloutLine(doc, i) && prev[k] == DecorationFor(doc, i);
          assert decos[k] == prev[k];
        } else {
          assert IsCalloutLine(doc, n - 1) && decos[k] == DecorationFor(doc, n - 1);
        }
      }
    }
  }

  /** Every line starting with `> [!` has its decoration in the set. */
  lemma {:induction false} DecorationsUpToComplete(doc: seq<string>, n: nat, i: nat)
    requires i < n <= |doc| && IsCalloutLine(doc, i)
    ensures exists k :: 0 <= k < |DecorationsUpTo(doc, n)| && DecorationsUpTo(doc, n)[k] == DecorationFor(doc, i)
    decreases n
  {
    var prev := DecorationsUpTo(doc, n - 1);
    var decos := DecorationsUpTo(doc, n);
    if i == n - 1 {
      assert decos[|prev|] == DecorationFor(doc, i);
    } else {
      DecorationsUpToComplete(doc, n - 1, i);
      var k :| 0 <= k < |prev| && prev[k] == DecorationFor(doc, i);
      assert decos[k] == prev[k];
    }
  }

  /**
   * A line is decorated exactly when it starts with `> [!`; the set is strictly ascending, and
   * each decoration copies its own line and names its 1-based line number.
   */
  lemma DecorationsSpec(doc: seq<string>)
    ensures StrictlyAscending(Decorations(doc))
    ensures forall k :: 0 <= k < |Decorations(doc)| ==> IsCalloutDecoration(doc, |doc|, Decorations(doc)[k])
    ensures forall i :: 0 <= i < |doc| && IsCalloutLine(doc, i) ==>
              exists k :: 0 <= k < |Decorations(doc)| && Decorations(doc)[k] == DecorationFor(doc, i)
  {
    DecorationsUpToAscending(doc, |doc|);
    DecorationsUpToSound(doc, |doc|);
    forall i | 0 <= i < |doc| && IsCalloutLine(doc, i)
      ensures exists k :: 0 <= k < |Decorations(doc)| && Decorations(doc)[k] == DecorationFor(doc, i)
    {
      DecorationsUpToComplete(doc, |doc|, i);
      var k :| 0 <= k < |DecorationsUpTo(doc, |doc|)| && DecorationsUpTo(doc, |doc|)[k] == DecorationFor(doc, i);
      assert Decorations(doc)[k] == DecorationFor(doc, i);
    }
  }

  /**
   * Against the header regex: every top-level header (indent `> `) starts with `> [!`, and a
   * line starting with `> [!` is either a top-level header or no header at all.
   */
  lemma PrefixAgainstHeaderRegex(line: string)
    ensures HeaderIndent(line) == Some(QuoteMarker) ==> StartsWith(line, CalloutPrefix)
    ensures StartsWith(line, CalloutPrefix) ==> HeaderIndent(line).None? || HeaderIndent(line) == Some(QuoteMarker)
  {
    if HeaderIndent(line) == Some(QuoteMarker) {
      assert StartsWith(line, QuoteMarker + "[!");
      assert QuoteMarker + "[!" == CalloutPrefix;
    }
    if StartsWith(line, CalloutPrefix) {
      assert CalloutPrefix == QuoteMarker + "[!";
      StartsWithConcat(line, QuoteMarker, "[!");
      assert line[2..][0] == '[';
      assert QuoteMarkers(line[..2]) by {
        assert line[..2][2..] == "";
      }
      QuoteRunOfMarkers(line, line[..2]);
    }
  }

  /**
   * Nested headers (indent deeper than `> `) and lines with leading white space are not
   * decorated, although the former are callout headers for the regex.
   */
  lemma NestedAndIndentedLinesSkipped(line: string)
    ensures HeaderIndent(line).Some? && |HeaderIndent(line).value| > 2 ==> !StartsWith(line, CalloutPrefix)
    ensures |line| > 0 && IsWhiteSpace(line[0]) ==> !StartsWith(line, CalloutPrefix)
  {
    if HeaderIndent(line).Some? && |HeaderIndent(line).value| > 2 {
      var q := HeaderIndent(line).value;
      assert QuoteMarkers(q[2..]) && |q[2..]| > 0;
      assert StartsWith(q[2..], QuoteMarker);
      assert q[2] == q[2..][..2][0] == '>';
      assert StartsWith(line, q + "[!");
      StartsWithConcat(line, q, "[!");
      assert line[2] == line[..|q|][2] == '>';
      assert CalloutPrefix[2] == '[';
    }
    if |line| > 0 && StartsWith(line, CalloutPrefix) {
      assert line[0] == '>';
    }
  }

  /** The older plugin: it holds the current decoration set. */
  class CalloutCopyButtonViewPlugin {
    var decorations: seq<Decoration>

    constructor(doc: seq<string>)
      ensures decorations == Decorations(doc)
    {
      new;
      decorations := BuildDecorations(doc);
    }

    /** The set is rebuilt exactly when the document or the viewport changed. */
    method Update(update: ViewUpdate)
      modifies this
      ensures update.docChanged || update.viewportChanged ==> decorations == Decorations(update.doc)
      ensures !(update.docChanged || update.viewportChanged) ==> decorations == old(decorations)
    {
      if update.docChanged || update.viewportChanged {
        decorations := BuildDecorations(update.doc);
      }
    }

    /** The scan over line indices `0..doc.lines - 1`, feeding a range-set builder. */
    method BuildDecorations(doc: seq<string>) returns (builder: seq<Decoration>)
      ensures builder == Decorations(doc)
    {
      builder := [];
      var line := 0;
      while line < |doc|
        invariant 0 <= line <= |doc|
        invariant builder == DecorationsUpTo(doc, line)
      {
        var text := doc[line];
        if StartsWith(text, CalloutPrefix) {
          var from := LineStart(doc, line);
          builder := builder + [Decoration(from, from, 1, text, Some(line + 1))];
        }
        line := line + 1;
      }
    }
  }
}
