/**
 * The copy button and its click state machine.
 *
 * A button shows the copy icon until a clipboard write it started succeeds; then it shows the
 * checkmark, gains the `just-copied` class and the `disabled` attribute, and a 3000 ms timer
 * puts all three back. The clipboard promise and the timer are modelled as events that the
 * environment delivers: a click starts a write, a write later resolves or rejects, and a
 * resolved write arms a timer that later fires.
 */
module CopyButton {
  import opened Wrappers
  import opened JsString
  import opened Classnames

  const CopyButtonClass: string := "callout-copy-button"
  const JustCopiedClass: string := "just-copied"
  /** The classes every editor widget's button starts with. */
  const WidgetClass: string := CopyButtonClass + "-widget"
  const MarkdownClass: string := CopyButtonClass + "-markdown"
  const WidgetClasses: seq<string> := [CopyButtonClass, WidgetClass, MarkdownClass]
  const MarkdownLabel: string := "Copy (Markdown)"

  datatype Icon = CopyIcon | CheckmarkIcon

  /** Where a click takes the text to copy from. */
  datatype TextSource =
    | /** `getCalloutBodyText()`, called at click time. */ Supplier
    | /** The widget's constructor argument. */ Fixed(text: string)

  /** What a click does that the page can observe. */
  datatype Effect = PropagationStopped | BodyTextRead | ClipboardWrite(text: string)

  /** What the environment delivers to the button. */
  datatype Event =
    | /** A click; `supplied` is what the text supplier returns at that moment. */ Click(supplied: string)
    | WriteResolved
    | WriteRejected
    | TimerFired

  /** The observable state of a button element and the writes and timers it has in flight. */
  datatype ButtonState = ButtonState(
    icon: Icon,
    classes: seq<string>,
    ariaLabel: string,
    disabled: bool,
    pendingWrites: nat,
    pendingTimers: nat,
    effects: seq<Effect>)

  // ---------------------------------------------------------------------------------------------
  // DOMTokenList

  /** `classList.add(name)`: appends the name unless it is already there. */
  function AddClass(classes: seq<string>, name: string): (r: seq<string>)
    ensures name in r
    ensures forall c :: c in r <==> c in classes || c == name
    ensures name !in classes ==> r == classes + [name]
    ensures name in classes ==> r == classes
  {
    if name in classes then classes else classes + [name]
  }

  /** `classList.add(...names)`. */
  function AddClasses(classes: seq<string>, names: seq<string>): (r: seq<string>)
    ensures forall c :: c in r <==> c in classes || c in names
    decreases |names|
  {
    if |names| == 0 then classes else AddClasses(AddClass(classes, names[0]), names[1..])
  }

  /** `classList.remove(name)`: drops every occurrence, keeping the order of the others. */
  function RemoveClass(classes: seq<string>, name: string): (r: seq<string>)
    ensures forall c :: c in r <==> c in classes && c != name
    ensures |r| <= |classes|
    decreases |classes|
  {
    if |classes| == 0 then []
    else if classes[0] == name then RemoveClass(classes[1..], name)
    else [classes[0]] + RemoveClass(classes[1..], name)
  }

  /** A list with no repeated class. */
  predicate Distinct(names: seq<string>)
  {
    forall i, j :: 0 <= i < j < |names| ==> names[i] != names[j]
  }

  /** Removing a class that is not there changes nothing. */
  lemma {:induction false} RemoveAbsentClass(classes: seq<string>, name: string)
    requires name !in classes
    ensures RemoveClass(classes, name) == classes
    decreases |classes|
  {
    if |classes| > 0 {
      RemoveAbsentClass(classes[1..], name);
      assert [classes[0]] + classes[1..] == classes;
    }
  }

  /** Adding then removing a class that was not there gives back the original list. */
  lemma AddThenRemove(classes: seq<string>, name: string)
    requires name !in classes
    ensures RemoveClass(AddClass(classes, name), name) == classes
  {
    RemoveAbsentClass(classes, name);
    RemoveAppendOne(classes, name);
  }

  lemma {:induction false} RemoveAppendOne(classes: seq<string>, name: string)
    ensures RemoveClass(classes + [name], name) == RemoveClass(classes, name)
    decreases |classes|
  {
    if |classes| == 0 {
      assert [] + [name] == [name];
      assert [name][1..] == [];
    } else {
      assert (classes + [name])[1..] == classes[1..] + [name];
      RemoveAppendOne(classes[1..], name);
    }
  }

  /** Adding distinct new classes appends them in order. */
  /** None of `names` is among `classes`. */
  predicate NoneIn(names: seq<string>, classes: seq<string>)
  {
    forall i :: 0 <= i < |names| ==> names[i] !in classes
  }

  lemma {:induction false} AddDistinctClasses(classes: seq<string>, names: seq<string>)
    requires Distinct(names) && NoneIn(names, classes)
    ensures AddClasses(classes, names) == classes + names
    decreases |names|
  {
    if |names| > 0 {
      var next := classes + [names[0]];
      assert names[0] !in classes;
      assert AddClass(classes, names[0]) == next;
      DistinctTail(classes, names);
      AddDistinctClasses(next, names[1..]);
      assert next + names[1..] == classes + names;
    }
  }

  /** After adding the first of distinct new names, the rest are still distinct and new. */
  lemma DistinctTail(classes: seq<string>, names: seq<string>)
    requires |names| > 0 && Distinct(names) && NoneIn(names, classes)
    ensures Distinct(names[1..]) && NoneIn(names[1..], classes + [names[0]])
  {
    var later := names[1..];
    forall i | 0 <= i < |later|
      ensures later[i] !in classes + [names[0]]
    {
      assert later[i] == names[i + 1] != names[0];
    }
    forall i, j | 0 <= i < j < |later|
      ensures later[i] != later[j]
    {
      assert later[i] == names[i + 1] && later[j] == names[j + 1];
    }
  }

  /** The three widget classes are distinct. */
  lemma WidgetClassesDistinct()
    ensures Distinct(WidgetClasses)
  {
    assert |WidgetClasses[0]| == 19 && |WidgetClasses[1]| == 26 && |WidgetClasses[2]| == 28;
  }

  lemma CopyButtonClassIsToken()
    ensures IsToken(CopyButtonClass)
  {
  }

  /** The base class followed by a suffix token is one token. */
  lemma SuffixedClassIsToken(suffix: string)
    requires IsToken(suffix)
    ensures IsToken(CopyButtonClass + suffix)
  {
    CopyButtonClassIsToken();
    TokenConcat(CopyButtonClass, suffix);
  }

  /** The classes every editor widget's button starts with are single tokens. */
  lemma BaseWidgetClassesAreTokens()
    ensures forall k :: 0 <= k < |WidgetClasses| ==> IsToken(WidgetClasses[k])
  {
    CopyButtonClassIsToken();
    SuffixedClassIsToken("-widget");
    SuffixedClassIsToken("-markdown");
  }

  // ---------------------------------------------------------------------------------------------
  // The state machine

  /** The feedback invariant: `just-copied`, `disabled` and the checkmark go together. */
  predicate Consistent(s: ButtonState)
  {
    && (JustCopiedClass in s.classes <==> s.disabled)
    && (s.disabled <==> s.icon == CheckmarkIcon)
  }

  /** A button at rest: copy icon, enabled, nothing in flight. */
  predicate Idle(s: ButtonState)
  {
    s.icon == CopyIcon && !s.disabled && JustCopiedClass !in s.classes && s.pendingWrites == 0 && s.pendingTimers == 0
  }

  /** An event can only be delivered for a write or timer that is in flight. */
  predicate CanHappen(s: ButtonState, e: Event)
  {
    match e
    case Click(_) => true
    case WriteResolved => s.pendingWrites > 0
    case WriteRejected => s.pendingWrites > 0
    case TimerFired => s.pendingTimers > 0
  }

  /** The click listener: the supplier variant guards before anything; the widgets stop propagation first. */
  function ClickStep(source: TextSource, s: ButtonState, supplied: string): ButtonState
  {
    match source
    case Supplier =>
      if s.disabled then s
      else s.(pendingWrites := s.pendingWrites + 1,
              effects := s.effects + [PropagationStopped, BodyTextRead, ClipboardWrite(supplied)])
    case Fixed(text) =>
      if s.disabled then s.(effects := s.effects + [PropagationStopped])
      else s.(pendingWrites := s.pendingWrites + 1,
              effects := s.effects + [PropagationStopped, ClipboardWrite(text)])
  }

  /** The write resolved: checkmark, `just-copied`, `disabled`, and the reset timer is armed. */
  function ResolvedStep(s: ButtonState): ButtonState
    requires s.pendingWrites > 0
  {
    s.(icon := CheckmarkIcon, classes := AddClass(s.classes, JustCopiedClass), disabled := true,
       pendingWrites := s.pendingWrites - 1, pendingTimers := s.pendingTimers + 1)
  }

  /** The reset timer fired: copy icon, no `just-copied`, no `disabled`. */
  function TimerStep(s: ButtonState): ButtonState
    requires s.pendingTimers > 0
  {
    s.(icon := CopyIcon, classes := RemoveClass(s.classes, JustCopiedClass), disabled := false,
       pendingTimers := s.pendingTimers - 1)
  }

  /**
   * One event. Every step keeps the invariant, keeps every class other than `just-copied`,
   * keeps the label, and only ever adds to the effects.
   */
  function Step(source: TextSource, s: ButtonState, e: Event): (r: ButtonState)
    requires CanHappen(s, e)
    ensures Consistent(s) ==> Consistent(r)
    ensures forall c :: c != JustCopiedClass ==> (c in r.classes <==> c in s.classes)
    ensures r.ariaLabel == s.ariaLabel
    ensures |s.effects| <= |r.effects| && r.effects[..|s.effects|] == s.effects
  {
    match e
    case Click(supplied) => ClickStep(source, s, supplied)
    case WriteResolved => ResolvedStep(s)
    case WriteRejected => s.(pendingWrites := s.pendingWrites - 1)
    case TimerFired => TimerStep(s)
  }

  /** A sequence of events, or `None` when one of them cannot be delivered. */
  function Run(source: TextSource, s: ButtonState, events: seq<Event>): Option<ButtonState>
    decreases |events|
  {
    if |events| == 0 then Some(s)
    else if !CanHappen(s, events[0]) then None
    else Run(source, Step(source, s, events[0]), events[1..])
  }

  /** The invariant holds in every state reachable from a consistent one. */
  lemma {:induction false} RunKeepsConsistent(source: TextSource, s: ButtonState, events: seq<Event>)
    requires Consistent(s)
    ensures Run(source, s, events).Some? ==> Consistent(Run(source, s, events).value)
    decreases |events|
  {
    if |events| > 0 && CanHappen(s, events[0]) {
      RunKeepsConsistent(source, Step(source, s, events[0]), events[1..]);
    }
  }

  /** A click on a disabled button starts no write and reads no text; only the widgets stop propagation. */
  lemma DisabledClickWritesNothing(source: TextSource, s: ButtonState, supplied: string)
    requires s.disabled
    ensures var r := Step(source, s, Click(supplied));
      && r.(effects := s.effects) == s
      && r.effects == s.effects + (if source.Supplier? then [] else [PropagationStopped])
  {
  }

  /**
   * A click on an enabled button writes the text: the supplier's value at click time, or the
   * widget's fixed text. It does not touch icon, classes or `disabled` yet.
   */
  lemma EnabledClickWrites(source: TextSource, s: ButtonState, supplied: string)
    requires !s.disabled
    ensures var r := Step(source, s, Click(supplied));
      && r.icon == s.icon && r.classes == s.classes && r.disabled == s.disabled
      && r.pendingWrites == s.pendingWrites + 1
      && r.effects == s.effects + (match source
           case Supplier => [PropagationStopped, BodyTextRead, ClipboardWrite(supplied)]
           case Fixed(text) => [PropagationStopped, ClipboardWrite(text)])
  {
  }

  /** A failed write only drops the pending write; nothing visible changes. */
  lemma FailedWriteChangesNothing(source: TextSource, s: ButtonState)
    requires s.pendingWrites > 0
    ensures Step(source, s, WriteRejected) == s.(pendingWrites := s.pendingWrites - 1)
  {
  }

  /**
   * `disabled` is set only when a write resolves: a second click before that is not blocked,
   * and both clicks start a write.
   */
  lemma SecondClickNotBlocked(source: TextSource, s: ButtonState, first: string, second: string)
    requires !s.disabled
    ensures var r := Run(source, s, [Click(first), Click(second)]);
      && r.Some? && r.value.pendingWrites == s.pendingWrites + 2 && !r.value.disabled
  {
    var s1 := Step(source, s, Click(first));
    assert [Click(first), Click(second)][1..] == [Click(second)];
    assert Run(source, s, [Click(first), Click(second)]) == Run(source, s1, [Click(second)]);
  }

  /**
   * The copy cycle from rest: click, write resolves (checkmark, `just-copied`, disabled), timer
   * fires (everything back as it was except the effects, which record the one write).
   */
  lemma CopyCycle(source: TextSource, s: ButtonState, supplied: string)
    requires Idle(s)
    ensures var s1 := Step(source, s, Click(supplied));
      var s2 := Step(source, s1, WriteResolved);
      var s3 := Step(source, s2, TimerFired);
      && s2.icon == CheckmarkIcon && JustCopiedClass in s2.classes && s2.disabled && s2.pendingTimers == 1
      && s3.(effects := s.effects) == s
      && s3.effects == s1.effects
  {
    var s1 := Step(source, s, Click(supplied));
    var s2 := Step(source, s1, WriteResolved);
    assert s1.classes == s.classes;
    AddThenRemove(s.classes, JustCopiedClass);
  }

  /** While `just-copied` shows, any click is swallowed: no write starts. */
  lemma NoWriteWhileJustCopied(source: TextSource, s: ButtonState, events: seq<Event>, supplied: string)
    requires Consistent(s)
    requires Run(source, s, events).Some?
    requires JustCopiedClass in Run(source, s, events).value.classes
    ensures var r := Run(source, s, events).value;
      Step(source, r, Click(supplied)).pendingWrites == r.pendingWrites
  {
    RunKeepsConsistent(source, s, events);
  }

  /** Every clipboard write in `effects` writes `text`. */
  predicate WritesOnly(effects: seq<Effect>, text: string)
  {
    forall k :: 0 <= k < |effects| && effects[k].ClipboardWrite? ==> effects[k].text == text
  }

  /** A button with a fixed text never writes anything else, whatever events arrive. */
  lemma {:induction false} FixedTextIsAllItWrites(text: string, s: ButtonState, events: seq<Event>)
    requires WritesOnly(s.effects, text)
    ensures Run(Fixed(text), s, events).Some? ==> WritesOnly(Run(Fixed(text), s, events).value.effects, text)
    decreases |events|
  {
    if |events| > 0 && CanHappen(s, events[0]) {
      var next := Step(Fixed(text), s, events[0]);
      assert WritesOnly(next.effects, text) by {
        forall k | 0 <= k < |next.effects| && next.effects[k].ClipboardWrite?
          ensures next.effects[k].text == text
        {
          if k < |s.effects| {
            assert next.effects[k] == next.effects[..|s.effects|][k];
          }
        }
      }
      FixedTextIsAllItWrites(text, next, events[1..]);
    }
  }

  // ---------------------------------------------------------------------------------------------
  // The element

  /** A copy-button `div` with its click listener and the callbacks it has scheduled. */
  class CopyButtonElement {
    const source: TextSource
    var icon: Icon
    var classes: seq<string>
    var ariaLabel: string
    var disabled: bool
    var pendingWrites: nat
    var pendingTimers: nat
    var effects: seq<Effect>

    function State(): ButtonState
      reads this
    {
      ButtonState(icon, classes, ariaLabel, disabled, pendingWrites, pendingTimers, effects)
    }

    /** A fresh `div` with the given classes and label, showing the copy icon. */
    constructor(source: TextSource, classes: seq<string>, ariaLabel: string)
      ensures this.source == source
      ensures State() == ButtonState(CopyIcon, classes, ariaLabel, false, 0, 0, [])
    {
      this.source := source;
      this.icon := CopyIcon;
      this.classes := classes;
      this.ariaLabel := ariaLabel;
      this.disabled := false;
      this.pendingWrites := 0;
      this.pendingTimers := 0;
      this.effects := [];
    }

    /** The click listener; `supplied` is what the text supplier returns now. */
    method Click(supplied: string)
      modifies this
      ensures State() == Step(source, old(State()), Event.Click(supplied))
    {
      match source
      case Supplier =>
        if disabled {
          return;
        }
        effects := effects + [PropagationStopped];
        var calloutBodyText := supplied;
        effects := effects + [BodyTextRead];
        effects := effects + [ClipboardWrite(calloutBodyText)];
        pendingWrites := pendingWrites + 1;
      case Fixed(text) =>
        effects := effects + [PropagationStopped];
        if disabled {
          return;
        }
        effects := effects + [ClipboardWrite(text)];
        pendingWrites := pendingWrites + 1;
    }

    /** The write's `then` callback. */
    method WriteSucceeded()
      requires pendingWrites > 0
      modifies this
      ensures State() == Step(source, old(State()), WriteResolved)
    {
      pendingWrites := pendingWrites - 1;
      icon := CheckmarkIcon;
      classes := AddClass(classes, JustCopiedClass);
      disabled := true;
      pendingTimers := pendingTimers + 1;
    }

    /** The write's `catch` callback: it only logs. */
    method WriteFailed()
      requires pendingWrites > 0
      modifies this
      ensures State() == Step(source, old(State()), WriteRejected)
    {
      pendingWrites := pendingWrites - 1;
    }

    /** The reset timer's callback. */
    method TimerFired()
      requires pendingTimers > 0
      modifies this
      ensures State() == Step(source, old(State()), Event.TimerFired)
    {
      pendingTimers := pendingTimers - 1;
      icon := CopyIcon;
      classes := RemoveClass(classes, JustCopiedClass);
      disabled := false;
    }
  }

  // ---------------------------------------------------------------------------------------------
  // Creation

  /** The class names the two callers of `createCopyButton` combine. */
  const LivePreviewClass: string := CopyButtonClass + "-live-preview"
  const ReadingModeClass: string := CopyButtonClass + "-reading-mode"
  const PlainTextClass: string := CopyButtonClass + "-plain-text"

  /** What `classList.add` throws for a name that is not one class token. */
  datatype AddClassError = SyntaxError | InvalidCharacterError

  /** A class list after adding names, or the exception that stopped the adding. */
  datatype ClassListResult = Added(classes: seq<string>) | Threw(error: AddClassError)

  /**
   * The initial class list of `createCopyButton` as written: `addClass` of the base class, then
   * `addClass` of the whole `className` string as one name, which `classList.add` rejects with
   * `SyntaxError` when it is empty and with `InvalidCharacterError` when it holds white space.
   */
  function CreatedClassesAsWritten(className: Option<string>): (r: ClassListResult)
    ensures r.Added? <==> className.None? || IsToken(className.value)
    ensures r.Added? ==> r.classes == CreatedClasses(className)
    ensures r.Threw? ==> (r.error == SyntaxError <==> className == Some(""))
  {
    var base := AddClass([], CopyButtonClass);
    if className.None? then Added(base)
    else if className.value == "" then Threw(SyntaxError)
    else if IsToken(className.value) then
      TokenSplitsToItself(className.value);
      assert [className.value][1..] == [];
      assert CreatedClasses(className) == AddClasses(AddClass(base, className.value), []);
      Added(AddClass(base, className.value))
    else Threw(InvalidCharacterError)
  }

  /**
   * Both callers pass `classNames(modeClass, buttonClassName)`; once a button class name is
   * given that is two tokens joined by a space, and the as-written `addClass` throws on it.
   */
  lemma CallerClassNameThrowsAsWritten(modeClass: string, buttonClass: string)
    requires IsToken(modeClass) && IsToken(buttonClass)
    ensures CreatedClassesAsWritten(Some(ClassNames([Arg(modeClass), Arg(buttonClass)]))) == Threw(InvalidCharacterError)
  {
    var className := ClassNames([Arg(modeClass), Arg(buttonClass)]);
    TwoClassNames(modeClass, buttonClass);
    assert className[|modeClass|] == ' ';
  }

  /** The reading-mode caller with the plain-text button class: the as-written button throws. */
  lemma ReadingModePlainTextThrowsAsWritten()
    ensures CreatedClassesAsWritten(Some(ClassNames([Arg(ReadingModeClass), Arg(PlainTextClass)]))) == Threw(InvalidCharacterError)
  {
    CallerClassesAreTokens();
    CallerClassNameThrowsAsWritten(ReadingModeClass, PlainTextClass);
  }

  /** `classNames(a, b)` of two tokens is `a`, a space, then `b`. */
  lemma TwoClassNames(a: string, b: string)
    requires IsToken(a) && IsToken(b)
    ensures ClassNames([Arg(a), Arg(b)]) == a + " " + b
  {
    assert [Arg(a), Arg(b)][1..] == [Arg(b)];
    assert TruthyNames([Arg(a), Arg(b)]) == [a, b];
    JoinCons(a, [b], " ");
    assert [a] + [b] == [a, b];
  }

  /** `classNames(a, b)` of two tokens splits back into `a` and `b`. */
  lemma TwoClassNamesSplit(a: string, b: string)
    requires IsToken(a) && IsToken(b)
    ensures Split(ClassNames([Arg(a), Arg(b)]), ' ') == [a, b]
  {
    TwoClassNames(a, b);
    TokenSplitsToItself(a);
    TokenSplitsToItself(b);
    SplitAtFirst(a, ' ', b);
  }

  lemma CallerClassesAreTokens()
    ensures IsToken(LivePreviewClass) && IsToken(ReadingModeClass)
    ensures IsToken(PlainTextClass) && IsToken(MarkdownClass)
  {
    SuffixedClassIsToken("-live-preview");
    SuffixedClassIsToken("-reading-mode");
    SuffixedClassIsToken("-plain-text");
    SuffixedClassIsToken("-markdown");
  }

  /**
   * The initial class list of `createCopyButton`, each space-separated name of `className` added
   * on its own, as `addClassNames` does for the editor widgets.
   */
  function CreatedClasses(className: Option<string>): (classes: seq<string>)
    ensures forall c :: c in classes <==> c == CopyButtonClass || (className.Some? && c in Split(className.value, ' '))
  {
    var base := AddClass([], CopyButtonClass);
    if className.Some? then AddClasses(base, Split(className.value, ' ')) else base
  }

  /**
   * With the button class name given, either caller's class string adds the base class, the
   * mode class and the button class, in that order.
   */
  lemma CallerClassNameCreated(modeClass: string, buttonClass: string)
    requires IsToken(modeClass) && IsToken(buttonClass)
    requires modeClass != buttonClass && CopyButtonClass != modeClass && CopyButtonClass != buttonClass
    ensures IsTokenList(ClassNames([Arg(modeClass), Arg(buttonClass)]))
    ensures CreatedClasses(Some(ClassNames([Arg(modeClass), Arg(buttonClass)]))) == [CopyButtonClass, modeClass, buttonClass]
  {
    var names := [modeClass, buttonClass];
    TwoClassNamesSplit(modeClass, buttonClass);
    assert AddClass([], CopyButtonClass) == [CopyButtonClass];
    AddDistinctClasses([CopyButtonClass], names);
  }

  /** The reading-mode caller with the plain-text button class, corrected: all three classes. */
  lemma ReadingModePlainTextCreated()
    ensures CreatedClasses(Some(ClassNames([Arg(ReadingModeClass), Arg(PlainTextClass)])))
              == [CopyButtonClass, ReadingModeClass, PlainTextClass]
  {
    CallerClassesAreTokens();
    assert |CopyButtonClass| == 19 && |ReadingModeClass| == 32 && |PlainTextClass| == 30;
    CallerClassNameCreated(ReadingModeClass, PlainTextClass);
  }

  /**
   * `createCopyButton`: a button that reads the body text through its supplier at click time,
   * labelled "Copy", with the base class and the names of the optional class string. It starts at
   * rest, and consistent unless one of those names is `just-copied` itself.
   */
  method CreateCopyButton(className: Option<string>) returns (copyButton: CopyButtonElement)
    requires className.Some? ==> IsTokenList(className.value)
    ensures fresh(copyButton)
    ensures copyButton.source == Supplier
    ensures copyButton.State() == ButtonState(CopyIcon, CreatedClasses(className), "Copy", false, 0, 0, [])
    ensures (className.None? || JustCopiedClass !in Split(className.value, ' ')) ==>
              Idle(copyButton.State()) && Consistent(copyButton.State())
  {
    var classes := AddClass([], CopyButtonClass);
    if className.Some? {
      classes := AddClasses(classes, Split(className.value, ' '));
    }
    copyButton := new CopyButtonElement(Supplier, classes, "Copy");
  }
}
