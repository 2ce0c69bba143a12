/**
 * The editor document as the view plugins see it: a sequence of lines (CodeMirror's `Text`,
 * without the line breaks), the start offset `doc.line(n).from` of each line, the widget
 * decorations the plugins emit and the view updates they react to.
 *
 * Lines are indexed from 0 here; CodeMirror's `doc.line(n)` is line index `n - 1`.
 */
module EditorDoc {
  import opened Wrappers
  import opened JsString

  /** A zero- or more-width widget decoration: its range, its side and what the widget carries. */
  datatype Decoration = Decoration(
    from: nat,
    to: nat,
    side: int,
    /** The text the widget's copy button writes to the clipboard. */
    text: string,
    /** The `data-callout-line` attribute, when the decoration has one. */
    calloutLine: Option<nat>)

  /** What a `ViewUpdate` tells a plugin: the new document and what changed. */
  datatype ViewUpdate = ViewUpdate(doc: seq<string>, docChanged: bool, viewportChanged: bool)

  /**
   * The offset of the start of line index `i` in the document's text: each earlier line
   * contributes its length plus one for its line break.
   */
  function LineStart(doc: seq<string>, i: nat): (from: nat)
    requires i <= |doc|
    decreases i
  {
    if i == 0 then 0 else LineStart(doc, i - 1) + |doc[i - 1]| + 1
  }

  /** The document's text: its lines joined with line breaks. */
  function DocText(doc: seq<string>): string
  {
    Join(doc, "\n")
  }

  /** Later lines start strictly later. */
  lemma {:induction false} LineStartIncreasing(doc: seq<string>, i: nat, j: nat)
    requires i < j <= |doc|
    ensures LineStart(doc, i) + |doc[i]| < LineStart(doc, j)
    decreases j
  {
    if j > i + 1 {
      LineStartIncreasing(doc, i, j - 1);
    }
  }

  /** Removing the first line moves every later line start back by that line and its break. */
  lemma {:induction false} LineStartTail(doc: seq<string>, i: nat)
    requires 1 <= i <= |doc|
    ensures LineStart(doc, i) == |doc[0]| + 1 + LineStart(doc[1..], i - 1)
    decreases i
  {
    if i > 1 {
      LineStartTail(doc, i - 1);
      assert doc[1..][i - 2] == doc[i - 1];
    }
  }

  /** `doc.line(i + 1).from` locates that line in the document's text. */
  lemma {:induction false} LineStartLocatesLine(doc: seq<string>, i: nat)
    requires i < |doc|
    ensures LineStart(doc, i) + |doc[i]| <= |DocText(doc)|
    ensures DocText(doc)[LineStart(doc, i)..LineStart(doc, i) + |doc[i]|] == doc[i]
    decreases |doc|
  {
    if |doc| == 1 {
      assert DocText(doc) == doc[0];
    } else {
      var text := DocText(doc);
      var rest := DocText(doc[1..]);
      assert text == doc[0] + "\n" + rest;
      if i == 0 {
        assert text[..|doc[0]|] == doc[0];
      } else {
        LineStartLocatesLine(doc[1..], i - 1);
        LineStartTail(doc, i);
        var a := LineStart(doc[1..], i - 1);
        assert text[|doc[0]| + 1..] == rest;
        assert text[|doc[0]| + 1 + a..|doc[0]| + 1 + a + |doc[i]|] == rest[a..a + |doc[i]|];
      }
    }
  }

  /** Decorations in strictly increasing start order, as `RangeSetBuilder.add` requires. */
  predicate StrictlyAscending(decos: seq<Decoration>)
  {
    forall k, l :: 0 <= k < l < |decos| ==> decos[k].from < decos[l].from
  }

  /** In a strictly ascending set, a start offset identifies its decoration. */
  lemma AscendingFromUnique(decos: seq<Decoration>, k: nat, l: nat)
    requires StrictlyAscending(decos)
    requires k < |decos| && l < |decos| && decos[k].from == decos[l].from
    ensures k == l
  {
  }

  /** A widget decoration at a single position: it covers no text. */
  predicate ZeroWidth(deco: Decoration)
  {
    deco.from == deco.to
  }
}
