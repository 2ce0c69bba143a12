/**
 * The JavaScript string and array built-ins the callout code relies on:
 * `startsWith`, `split` on a one-character separator, `join`, `Array.prototype.slice`
 * with its relative (negative) indices, and `trim`.
 */
module JsString {

  /** `s.startsWith(p)`. */
  predicate StartsWith(s: string, p: string)
  {
    |p| <= |s| && s[..|p|] == p
  }

  /** Starting with `p + q` is starting with `p`, then with `q` after it. */
  lemma StartsWithConcat(s: string, p: string, q: string)
    ensures StartsWith(s, p + q) <==> StartsWith(s, p) && StartsWith(s[|p|..], q)
  {
    if StartsWith(s, p + q) {
      assert s[..|p|] == s[..|p + q|][..|p|];
      assert s[|p|..][..|q|] == s[..|p + q|][|p|..];
    }
    if StartsWith(s, p) && StartsWith(s[|p|..], q) {
      assert s[..|p + q|] == s[..|p|] + s[|p|..][..|q|];
    }
  }

  /** Characters that ECMAScript counts as line terminators (and that regex `.` refuses). */
  predicate IsLineTerminator(c: char)
  {
    c == '\n' || c == '\r' || c == '\U{2028}' || c == '\U{2029}'
  }

  /** ECMAScript WhiteSpace (tab, VT, FF, space, NBSP, BOM, the Zs category) or LineTerminator. */
  predicate IsWhiteSpace(c: char)
  {
    || c == '\t' || c == '\U{000B}' || c == '\U{000C}' || c == ' ' || c == '\U{00A0}'
    || c == '\U{FEFF}' || c == '\U{1680}' || ('\U{2000}' <= c <= '\U{200A}')
    || c == '\U{202F}' || c == '\U{205F}' || c == '\U{3000}' || IsLineTerminator(c)
  }

  // ---------------------------------------------------------------------------------------------
  // split / join

  /** `s.split(sep)` for a one-character separator: never empty, pieces never hold `sep`. */
  function Split(s: string, sep: char): (pieces: seq<string>)
    ensures |pieces| >= 1
    ensures forall k :: 0 <= k < |pieces| ==> sep !in pieces[k]
    decreases |s|
  {
    if |s| == 0 then [""]
    else
      var rest := Split(s[1..], sep);
      if s[0] == sep then [""] + rest
      else [[s[0]] + rest[0]] + rest[1..]
  }

  /** `parts.join(sep)`. */
  function Join(parts: seq<string>, sep: string): string
    decreases |parts|
  {
    if |parts| == 0 then ""
    else if |parts| == 1 then parts[0]
    else parts[0] + sep + Join(parts[1..], sep)
  }

  /** Splitting at the first separator: the piece before it, then the split of the rest. */
  lemma {:induction false} SplitAtFirst(head: string, sep: char, rest: string)
    requires sep !in head
    ensures Split(head + [sep] + rest, sep) == [head] + Split(rest, sep)
    decreases |head|
  {
    if |head| == 0 {
      assert head + [sep] + rest == [sep] + rest;
      assert ([sep] + rest)[1..] == rest;
    } else {
      var s := head + [sep] + rest;
      assert s[0] == head[0] && s[1..] == head[1..] + [sep] + rest;
      SplitAtFirst(head[1..], sep, rest);
      assert [head[0]] + head[1..] == head;
    }
  }

  /** A string without the separator splits into itself alone. */
  lemma {:induction false} SplitWithoutSeparator(s: string, sep: char)
    requires sep !in s
    ensures Split(s, sep) == [s]
    decreases |s|
  {
    if |s| > 0 {
      SplitWithoutSeparator(s[1..], sep);
      assert [s[0]] + s[1..] == s;
    }
  }

  lemma {:induction false} JoinCons(head: string, tail: seq<string>, sep: string)
    requires |tail| >= 1
    ensures Join([head] + tail, sep) == head + sep + Join(tail, sep)
  {
    assert ([head] + tail)[1..] == tail;
  }

  /** Round trip: joining the pieces of a split with the separator gives back the string. */
  lemma {:induction false} JoinSplit(s: string, sep: char)
    ensures Join(Split(s, sep), [sep]) == s
    decreases |s|
  {
    if |s| > 0 {
      var rest := Split(s[1..], sep);
      JoinSplit(s[1..], sep);
      if s[0] == sep {
        assert Split(s, sep) == [""] + rest;
        JoinCons("", rest, [sep]);
        assert [sep] + s[1..] == s;
      } else {
        var pieces := [[s[0]] + rest[0]] + rest[1..];
        assert Split(s, sep) == pieces;
        if |rest| == 1 {
          assert pieces == [[s[0]] + rest[0]];
          assert [s[0]] + s[1..] == s;
        } else {
          JoinCons(rest[0], rest[1..], [sep]);
          assert [rest[0]] + rest[1..] == rest;
          JoinCons([s[0]] + rest[0], rest[1..], [sep]);
          assert [s[0]] + s[1..] == s;
        }
      }
    }
  }

  /** Round trip the other way: pieces free of the separator survive join-then-split. */
  lemma {:induction false} SplitJoin(parts: seq<string>, sep: char)
    requires |parts| >= 1
    requires forall k :: 0 <= k < |parts| ==> sep !in parts[k]
    ensures Split(Join(parts, [sep]), sep) == parts
    decreases |parts|
  {
    if |parts| == 1 {
      SplitWithoutSeparator(parts[0], sep);
    } else {
      SplitJoin(parts[1..], sep);
      SplitAtFirst(parts[0], sep, Join(parts[1..], [sep]));
      assert [parts[0]] + parts[1..] == parts;
    }
  }

  /** Joining a last part that is itself a join with the same separator flattens it. */
  lemma {:induction false} JoinFlattenLast(parts: seq<string>, inner: seq<string>, sep: string)
    requires |inner| >= 1
    ensures Join(parts + [Join(inner, sep)], sep) == Join(parts + inner, sep)
    decreases |parts|
  {
    if |parts| > 0 {
      JoinFlattenLast(parts[1..], inner, sep);
      assert parts + [Join(inner, sep)] == [parts[0]] + (parts[1..] + [Join(inner, sep)]);
      assert parts + inner == [parts[0]] + (parts[1..] + inner);
      JoinCons(parts[0], parts[1..] + [Join(inner, sep)], sep);
      JoinCons(parts[0], parts[1..] + inner, sep);
    } else {
      assert parts + inner == inner;
    }
  }

  // ---------------------------------------------------------------------------------------------
  // Array.prototype.slice

  /** How `slice` turns a relative index into an absolute one for a sequence of length `len`. */
  function RelativeIndex(k: int, len: nat): (r: nat)
    ensures r <= len
    ensures 0 <= k <= len ==> r == k
    ensures k > len ==> r == len
    ensures k < 0 ==> r == (if len + k < 0 then 0 else len + k)
  {
    if k < 0 then (if len + k < 0 then 0 else len + k)
    else if k > len then len
    else k
  }

  /** `xs.slice(start, end)`. */
  function Slice<T>(xs: seq<T>, start: int, end: int): (r: seq<T>)
    ensures |r| <= |xs|
    ensures RelativeIndex(start, |xs|) < RelativeIndex(end, |xs|) ==>
              r == xs[RelativeIndex(start, |xs|)..RelativeIndex(end, |xs|)]
    ensures RelativeIndex(end, |xs|) <= RelativeIndex(start, |xs|) ==> r == []
  {
    var a := RelativeIndex(start, |xs|);
    var b := RelativeIndex(end, |xs|);
    if a < b then xs[a..b] else []
  }

  // ---------------------------------------------------------------------------------------------
  // String.prototype.trim

  /** Length of the leading run of white space. */
  function LeadingWhiteSpace(s: string): (n: nat)
    ensures n <= |s|
    ensures forall k :: 0 <= k < n ==> IsWhiteSpace(s[k])
    ensures n < |s| ==> !IsWhiteSpace(s[n])
    decreases |s|
  {
    if |s| == 0 || !IsWhiteSpace(s[0]) then 0 else 1 + LeadingWhiteSpace(s[1..])
  }

  /** Length of the trailing run of white space. */
  function TrailingWhiteSpace(s: string): (n: nat)
    ensures n <= |s|
    ensures forall k :: |s| - n <= k < |s| ==> IsWhiteSpace(s[k])
    ensures n < |s| ==> !IsWhiteSpace(s[|s| - 1 - n])
    decreases |s|
  {
    if |s| == 0 || !IsWhiteSpace(s[|s| - 1]) then 0 else 1 + TrailingWhiteSpace(s[..|s| - 1])
  }

  /** `s.trim()`: a string is trimmed when it neither starts nor ends with white space. */
  predicate Trimmed(s: string)
  {
    |s| == 0 || (!IsWhiteSpace(s[0]) && !IsWhiteSpace(s[|s| - 1]))
  }

  /** `r` is `s` with the white space before index `a` and some white-space suffix cut off. */
  predicate WhiteSpaceCut(s: string, r: string, a: nat)
  {
    && a + |r| <= |s| && r == s[a..a + |r|]
    && (forall k :: 0 <= k < a ==> IsWhiteSpace(s[k]))
    && (forall k :: a + |r| <= k < |s| ==> IsWhiteSpace(s[k]))
  }

  /** Cutting the trailing white space of `s[a..]` keeps a slice of `s` and cuts only white space. */
  lemma CutOfTrailing(s: string, a: nat, b: nat)
    requires a <= |s| && b <= |s| - a
    requires forall k :: 0 <= k < a ==> IsWhiteSpace(s[k])
    requires forall k :: b <= k < |s| - a ==> IsWhiteSpace(s[a..][k])
    ensures WhiteSpaceCut(s, s[a..][..b], a)
  {
    forall k | a + b <= k < |s|
      ensures IsWhiteSpace(s[k])
    {
      assert s[k] == s[a..][k - a];
    }
  }

  /** `s.trim()`: the leading white-space run and a white-space suffix are cut, leaving a trimmed string. */
  function Trim(s: string): (r: string)
    ensures Trimmed(r)
    ensures WhiteSpaceCut(s, r, LeadingWhiteSpace(s))
    ensures r == "" <==> forall k :: 0 <= k < |s| ==> IsWhiteSpace(s[k])
  {
    var a := LeadingWhiteSpace(s);
    var t := s[a..];
    var r := t[..|t| - TrailingWhiteSpace(t)];
    CutOfTrailing(s, a, |t| - TrailingWhiteSpace(t));
    assert r != "" ==> r[0] == s[a];
    r
  }

  /** `trim` removes only a prefix and a suffix, both white space: its result is a slice of its input. */
  lemma TrimIsSlice(s: string)
    ensures exists a, b :: 0 <= a <= b <= |s| && Trim(s) == s[a..b]
              && (forall k :: 0 <= k < a ==> IsWhiteSpace(s[k]))
              && (forall k :: b <= k < |s| ==> IsWhiteSpace(s[k]))
  {
    var a := LeadingWhiteSpace(s);
    var b := a + |Trim(s)|;
    assert Trim(s) == s[a..b];
  }

  /**
   * `trim` is the only way to cut white space off both ends of `s` and be left with a trimmed
   * string: any such cut gives `Trim(s)`.
   */
  lemma TrimUnique(s: string, t: string, a: nat)
    requires WhiteSpaceCut(s, t, a) && Trimmed(t)
    ensures t == Trim(s)
  {
    var r := Trim(s);
    var l := LeadingWhiteSpace(s);
    if t == "" {
      assert forall k :: 0 <= k < |s| ==> IsWhiteSpace(s[k]) by {
        forall k | 0 <= k < |s|
          ensures IsWhiteSpace(s[k])
        {
          if k >= a {
            assert a + |t| <= k;
          }
        }
      }
    } else {
      assert s[a] == t[0];
      assert !IsWhiteSpace(s[a]);
      assert a == l;
      assert r != "";
      assert s[a + |t| - 1] == t[|t| - 1] && s[a + |r| - 1] == r[|r| - 1];
      assert !IsWhiteSpace(s[a + |t| - 1]) && !IsWhiteSpace(s[a + |r| - 1]);
      assert |t| == |r|;
    }
  }

  /** `trim` changes exactly the strings that are not already trimmed. */
  lemma {:induction false} TrimFixpoint(s: string)
    ensures Trim(s) == s <==> Trimmed(s)
  {
    if Trimmed(s) && |s| > 0 {
      assert LeadingWhiteSpace(s) == 0;
      assert s[0..] == s;
      assert TrailingWhiteSpace(s) == 0;
    }
  }
}
