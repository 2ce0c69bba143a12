/**
 * The `classnames` helper the widgets and the settings use: it keeps the truthy entries, in
 * argument order, and joins their names with single spaces. A string argument is truthy when it
 * is non-empty; an object argument contributes each key whose value is truthy.
 */
module Classnames {
  import opened JsString

  datatype ClassEntry = ClassEntry(name: string, on: bool)

  /** A plain string argument: it counts when it is not the empty string. */
  function Arg(name: string): ClassEntry
  {
    ClassEntry(name, name != "")
  }

  /** The names of the truthy entries, in order. */
  function TruthyNames(entries: seq<ClassEntry>): (names: seq<string>)
    ensures |names| <= |entries|
    decreases |entries|
  {
    if |entries| == 0 then []
    else if entries[0].on then [entries[0].name] + TruthyNames(entries[1..])
    else TruthyNames(entries[1..])
  }

  /** What one entry contributes: its name when it is truthy, nothing otherwise. */
  function Contribution(entry: ClassEntry): seq<string>
  {
    if entry.on then [entry.name] else []
  }

  /** Four entries contribute in argument order. */
  lemma TruthyNamesOfFour(a: ClassEntry, b: ClassEntry, c: ClassEntry, d: ClassEntry)
    ensures TruthyNames([a, b, c, d]) == Contribution(a) + (Contribution(b) + (Contribution(c) + Contribution(d)))
  {
    var e1, e2, e3 := [b, c, d], [c, d], [d];
    assert [a, b, c, d][1..] == e1 && e1[1..] == e2 && e2[1..] == e3 && e3[1..] == [];
    assert TruthyNames(e3) == Contribution(d);
    assert TruthyNames(e2) == Contribution(c) + TruthyNames(e3);
    assert TruthyNames(e1) == Contribution(b) + TruthyNames(e2);
    assert TruthyNames([a, b, c, d]) == Contribution(a) + TruthyNames(e1);
  }

  /** Four entries with pairwise different names contribute no name twice. */
  lemma ContributionsOfFourDistinct(a: ClassEntry, b: ClassEntry, c: ClassEntry, d: ClassEntry)
    requires a.name != b.name && a.name != c.name && a.name != d.name
    requires b.name != c.name && b.name != d.name && c.name != d.name
    ensures forall k, l :: 0 <= k < l < |Contribution(a) + (Contribution(b) + (Contribution(c) + Contribution(d)))| ==>
              (Contribution(a) + (Contribution(b) + (Contribution(c) + Contribution(d))))[k] !=
              (Contribution(a) + (Contribution(b) + (Contribution(c) + Contribution(d))))[l]
  {
    var t2 := Contribution(c) + Contribution(d);
    var t1 := Contribution(b) + t2;
    var t0 := Contribution(a) + t1;
    assert forall k :: 0 <= k < |t2| ==> t2[k] == c.name || t2[k] == d.name;
    assert forall k :: 0 <= k < |t1| ==> t1[k] == b.name || t1[k] == c.name || t1[k] == d.name;
    forall k, l | 0 <= k < l < |t0|
      ensures t0[k] != t0[l]
    {
      if |Contribution(a)| == 1 && k == 0 {
        assert t0[l] == t1[l - 1];
      } else {
        var k', l' := k - |Contribution(a)|, l - |Contribution(a)|;
        assert t0[k] == t1[k'] && t0[l] == t1[l'];
        if |Contribution(b)| == 1 && k' == 0 {
          assert t1[l'] == t2[l' - 1];
        } else {
          assert t1[k'] == t2[k' - |Contribution(b)|] && t1[l'] == t2[l' - |Contribution(b)|];
        }
      }
    }
  }

  function ClassNames(entries: seq<ClassEntry>): string
  {
    Join(TruthyNames(entries), " ")
  }

  /** The ASCII white space that separates the tokens of a class attribute. */
  predicate IsAsciiWhiteSpace(c: char)
  {
    c == ' ' || c == '\t' || c == '\n' || c == '\U{000C}' || c == '\r'
  }

  /** A class name `classList.add` accepts as one token: non-empty, without ASCII white space. */
  predicate IsToken(name: string)
  {
    name != "" && forall k :: 0 <= k < |name| ==> !IsAsciiWhiteSpace(name[k])
  }

  /** Two tokens written one after the other form one token. */
  lemma TokenConcat(a: string, b: string)
    requires IsToken(a) && IsToken(b)
    ensures IsToken(a + b)
  {
    forall k | 0 <= k < |a + b|
      ensures !IsAsciiWhiteSpace((a + b)[k])
    {
      if k >= |a| {
        assert (a + b)[k] == b[k - |a|];
      }
    }
  }

  /** A class string whose every space-separated piece is one token, as `addClassNames` needs. */
  predicate IsTokenList(s: string)
  {
    forall k :: 0 <= k < |Split(s, ' ')| ==> IsToken(Split(s, ' ')[k])
  }

  /** A single token splits into itself alone. */
  lemma TokenSplitsToItself(name: string)
    requires IsToken(name)
    ensures Split(name, ' ') == [name]
    ensures IsTokenList(name)
  {
    assert ' ' !in name;
    SplitWithoutSeparator(name, ' ');
  }

  /**
   * When every truthy entry is a single token, the class string splits back into exactly the
   * truthy names, in order; with no truthy entry it is the empty string.
   */
  lemma ClassNamesTokens(entries: seq<ClassEntry>)
    requires forall j :: 0 <= j < |entries| && entries[j].on ==> IsToken(entries[j].name)
    ensures ClassNames(entries) == "" <==> TruthyNames(entries) == []
    ensures TruthyNames(entries) != [] ==> Split(ClassNames(entries), ' ') == TruthyNames(entries)
  {
    var names := TruthyNames(entries);
    TruthyNamesAreTokens(entries);
    if names != [] {
      SplitJoin(names, ' ');
      assert names[0] != "";
      assert |Split(ClassNames(entries), ' ')| >= 1;
    }
  }

  lemma {:induction false} TruthyNamesAreTokens(entries: seq<ClassEntry>)
    requires forall j :: 0 <= j < |entries| && entries[j].on ==> IsToken(entries[j].name)
    ensures forall k :: 0 <= k < |TruthyNames(entries)| ==> IsToken(TruthyNames(entries)[k])
    decreases |entries|
  {
    if |entries| > 0 {
      TruthyNamesAreTokens(entries[1..]);
    }
  }
}
