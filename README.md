# Callout copy buttons, modelled in Dafny

A model of the core of the Obsidian plugin *callout-copy-buttons*. The plugin puts a copy
button on every callout block (a Markdown block quote whose first line reads `> [!type] …`).
In the editor the button is a CodeMirror widget. In reading mode it is a DOM button. Clicking
it writes the callout's body to the clipboard, and then shows a checkmark for three seconds.

The model covers four parts of the plugin.

- **The callout text engine** (`CalloutBodyText`):
  - the header regex `^((?:> )+)\[!.+\]`, given as a function (`HeaderIndent`) and proved
    equal to an independent declarative reading of the regex (`MatchesHeader`);
  - body-line extraction from an editor document (`GetCalloutBodyLines`, a loop);
  - body-line extraction from a section's text (`GetCalloutBodyLinesFromSectionInfo`), with
    both `null` paths and JavaScript's `slice` semantics for negative and out-of-range bounds;
  - the plain-text normalisation: collapse runs of three or more line feeds to two, then
    trim.
- **The decoration builders**:
  - the current view plugin (`ViewPlugin`), which maps every header line to a widget carrying
    the callout's body;
  - the older one (`LegacyViewPlugin`), which maps every line starting with `> [!` to a widget
    carrying that line and its 1-based line number.

  Both are classes that rebuild their decoration set in a loop, proved equal to a
  specification function. Lemmas about that function state that the set is strictly ordered,
  that every header gets exactly one widget, and that no other line gets one.
- **The copy-button state machine** (`CopyButton` and the two widget modules):
  - icon, class list, `aria-label` and the `disabled` attribute;
  - the clipboard writes and reset timers still in flight;
  - an effect log that records what the button did to the outside world.

  Events model the click, the write promise settling either way, and the timer firing.
  `CopyButtonElement` is a class whose methods update these fields. Its contract is the step
  function `Step`, and lemmas show that reachable states keep the `just-copied` ⇔ `disabled`
  ⇔ checkmark invariant.
- **The settings** (`Settings`, with `Classnames` for the `classnames` package):
  - the settings record and its defaults;
  - the deep clone;
  - the manager object with its load, get and set operations, where the storage writes are an
    append-only log;
  - the settings class string, and how the view-plugin widget turns it into its class list.

JavaScript string primitives (`split`, `join`, `slice`, `trim`, `startsWith`) and the
ECMAScript white-space and line-terminator sets are in `JsString`.

Where the prose description of the plugin and the code disagree, the model follows the code:

- A failed clipboard write only logs. The button shows no error state.
- The reset timer does not check whether the button is still attached.
- The source-mode body text has no end bound: `getCalloutBodyLines` runs to the end of the
  document.
- A callout whose text is `"NOTE\nhello\nworld"` gives `"hello\nworld"` only on the path with
  no `.callout-content` child; with that child, its text is used as it is.

## Model

| member | source | states |
|---|---|---|
| CalloutBodyText.QuoteRun | src/utils/getCalloutBodyText.ts:4 | the greedy `(?:> )+` run: a sequence of quote markers, with no further marker after it |
| CalloutBodyText.HeaderIndent | src/utils/getCalloutBodyText.ts:4 | a captured indent is a non-empty run of `> ` markers, and the line starts with it followed by `[!` |
| CalloutBodyText.AnyThenBracketSpec | src/utils/getCalloutBodyText.ts:4 | the backtracking `.*\]` matcher accepts iff some `]` occurs with no line terminator before it |
| CalloutBodyText.TagClosesMatcherSpec | src/utils/getCalloutBodyText.ts:4 | the executable tail matcher agrees with the declarative reading of `\[!.+\]` |
| CalloutBodyText.QuoteRunOfMarkers | src/utils/getCalloutBodyText.ts:4 | the greedy run equals any marker prefix that no further marker follows |
| CalloutBodyText.HeaderIndentSpec | src/utils/getCalloutBodyText.ts:4 | `HeaderIndent(line) == Some(indent)` iff the regex matches `line` with capture group `indent` |
| CalloutBodyText.HeaderIndentNone | src/utils/getCalloutBodyText.ts:4 | no capture iff the regex matches the line with no indent at all, i.e. does not match it |
| CalloutBodyText.MarkersPrefix | src/utils/getCalloutBodyText.ts:4 | a shorter marker run is a prefix of a longer one, and what remains is a marker run |
| CalloutBodyText.StripIndentFromHeader | src/utils/getCalloutBodyText.ts:4 | stripping an outer indent from a nested header leaves a header with the remaining indent, or no header when the indents are equal |
| CalloutBodyText.StripIndentedSpec | src/utils/getCalloutBodyText.ts:37-45 | the stripped lines are exactly the leading lines carrying the indent, each without it, and the first line after them lacks the indent |
| CalloutBodyText.StripIndentedUnique | src/utils/getCalloutBodyText.ts:37-45 | any sequence meeting that description is the stripped result |
| CalloutBodyText.StripIndentedStep | src/utils/getCalloutBodyText.ts:39-43 | one loop step: an indented line is pushed without its indent, and an unindented line ends the body |
| CalloutBodyText.Drop | src/utils/getCalloutBodyText.ts:37 | the lines from a given index on; empty past the end |
| CalloutBodyText.GetCalloutBodyLines | src/utils/getCalloutBodyText.ts:25-46 | the result is the document's lines from `bodyStartLine` on that carry the indent, stripped of it, stopping at the first line without it; empty when `bodyStartLine` is past the last line (`BodyLinesAt`) |
| CalloutBodyText.DropBody | src/utils/getCalloutBodyText.ts:37-45 | the stripped lines from index `n` on are, with the indent put back, the document lines there; the line after them lacks the indent; past the end they are empty |
| CalloutBodyText.SectionLines | src/utils/getCalloutBodyText.ts:62 | `text.split("\n")` gives at least one line |
| CalloutBodyText.SectionBodyLinesNone | src/utils/getCalloutBodyText.ts:61-72 | the result is `null` iff `lineStart` is out of bounds or that line is not a callout header |
| CalloutBodyText.SectionBodyLinesBounds | src/utils/getCalloutBodyText.ts:73-81 | the body lines are the lines after the header and inside `slice(lineStart + 1, lineEnd + 1)`, each stripped of the indent, ending at the first line without it |
| CalloutBodyText.GetCalloutBodyLinesFromSectionInfo | src/utils/getCalloutBodyText.ts:58-82 | the loop's result equals the specification `SectionBodyLines` |
| CalloutBodyText.GetCalloutBodyTextFromSectionInfo | src/utils/getCalloutBodyText.ts:48-56 | `null` exactly when the body lines are `null`, otherwise the lines joined with `\n` |
| CalloutBodyText.SectionBodyTextSplits | src/utils/getCalloutBodyText.ts:55 | splitting the joined body text at `\n` gives back the body lines |
| CalloutBodyText.NewlineRun | src/utils/getCalloutBodyText.ts:18 | the maximal run of line feeds at the start of the string |
| CalloutBodyText.CollapseBlankLines | src/utils/getCalloutBodyText.ts:18 | `replace(/\n\n\n+/g, "\n\n")` leaves no three consecutive line feeds and never lengthens the string |
| CalloutBodyText.NewlineRunOfNewlines | src/utils/getCalloutBodyText.ts:18 | `k` line feeds followed by the end or by another character form a maximal run of length `k` |
| CalloutBodyText.CollapseNewlineRun | src/utils/getCalloutBodyText.ts:18 | a maximal run of `k` line feeds becomes exactly `\n\n` when `k >= 3` and is kept as it is when `k <= 2`; the text after it is collapsed on its own |
| CalloutBodyText.CollapseOtherChar | src/utils/getCalloutBodyText.ts:18 | a character other than a line feed is kept, and the text after it is collapsed on its own |
| CalloutBodyText.CollapseKeepsText | src/utils/getCalloutBodyText.ts:18 | collapsing removes only line feeds: every other character is kept, in order |
| CalloutBodyText.CollapseFixpoint | src/utils/getCalloutBodyText.ts:18 | collapsing leaves the string unchanged iff it has no triple line feed |
| CalloutBodyText.TrimKeepsNoTripleNewline | src/utils/getCalloutBodyText.ts:18 | trimming cannot create a triple line feed |
| CalloutBodyText.NoTripleSlice | src/utils/getCalloutBodyText.ts:18 | no slice of a string without triple line feeds has one |
| CalloutBodyText.NoTripleAfterPrefix | src/utils/getCalloutBodyText.ts:18 | the pieces the replacement emits (one character, or at most two line feeds before a non-line-feed) keep the result free of triple line feeds |
| CalloutBodyText.NormalizeBody | src/utils/getCalloutBodyText.ts:18 | the normalised body has no triple line feed, is trimmed, and is the collapsed text with its leading white-space run and a white-space suffix cut off |
| CalloutBodyText.NormalizeBodyUnique | src/utils/getCalloutBodyText.ts:18 | any trimmed string left by cutting white space off both ends of the collapsed text is the normalised body |
| CalloutBodyText.NormalizeIdempotent | src/utils/getCalloutBodyText.ts:18 | normalising twice equals normalising once |
| CalloutBodyText.NormalizeKeepsNormal | src/utils/getCalloutBodyText.ts:18 | an already normal string is unchanged |
| CalloutBodyText.GetCalloutBodyPlainText | src/utils/getCalloutBodyText.ts:13-19 | the plain text is always normal: no triple line feed, trimmed |
| CalloutBodyText.PlainTextPrefersContentDiv | src/utils/getCalloutBodyText.ts:14-17 | when the `.callout-content` div exists its text is used, and the callout's own text is ignored |
| CalloutBodyText.PlainTextDropsFirstLine | src/utils/getCalloutBodyText.ts:17 | without that div, the first line of the callout's text is dropped and the rest is normalised |
| CalloutBodyText.PlainTextSingleLine | src/utils/getCalloutBodyText.ts:17 | without that div, a one-line callout text gives the empty string |
| CalloutBodyText.PlainTextExample | src/utils/getCalloutBodyText.ts:13-19 | `"NOTE\nhello\nworld"` with no content div gives `"hello\nworld"` |
| CalloutBodyText.StopsAtUnindentedLine | src/utils/getCalloutBodyText.ts:39-41 | extraction stops at the first line without the indent |
| CalloutBodyText.NestedCalloutExtraction | src/utils/getCalloutBodyText.ts:37-45 | with an outer indent a nested callout is kept with one marker stripped; with its own indent only its inner lines are kept |
| CalloutBodyText.NoteHeaderExample | src/utils/getCalloutBodyText.ts:4 | `> [!note]` captures the indent `> ` |
| CalloutBodyText.SectionLinesExample | src/utils/getCalloutBodyText.ts:58-82 | a three-line note section with `lineEnd` 2 gives the lines `hello` and `world` |
| CalloutBodyText.SectionTextExample | src/utils/getCalloutBodyText.ts:48-56 | the same section gives the text `"hello\nworld"` |
| JsString.StartsWithConcat | src/utils/getCalloutBodyText.ts:39 | a string starts with `p + q` iff it starts with `p` and the rest starts with `q` |
| JsString.Split | src/utils/getCalloutBodyText.ts:62 | `split` with a one-character separator: at least one piece, none containing the separator |
| JsString.JoinSplit | src/utils/getCalloutBodyText.ts:17 | joining the pieces of a split gives back the string |
| JsString.SplitJoin | src/utils/getCalloutBodyText.ts:55 | splitting a join of separator-free parts gives back the parts |
| JsString.RelativeIndex | src/utils/getCalloutBodyText.ts:74 | `slice`'s index rule: negative indices count from the end, and indices are clamped to `[0, len]` |
| JsString.Slice | src/utils/getCalloutBodyText.ts:74 | `slice(start, end)` is the elements between the two resolved indices, or empty when they cross |
| JsString.LeadingWhiteSpace | src/utils/getCalloutBodyText.ts:18 | the length of the maximal leading white-space run |
| JsString.TrailingWhiteSpace | src/utils/getCalloutBodyText.ts:18 | the length of the maximal trailing white-space run |
| JsString.Trim | src/utils/getCalloutBodyText.ts:18 | `trim` cuts off exactly the leading white-space run and a white-space suffix, leaving a trimmed string; it is empty iff the input is all white space |
| JsString.TrimIsSlice | src/utils/getCalloutBodyText.ts:18 | `trim`'s result is a slice `s[a..b]` of its input where everything before `a` and from `b` on is white space |
| JsString.TrimUnique | src/utils/getCalloutBodyText.ts:18 | cutting white space off both ends so that a trimmed string is left can only give `trim`'s result |
| JsString.TrimFixpoint | src/utils/getCalloutBodyText.ts:18 | `trim` leaves a string unchanged iff it is already trimmed |
| EditorDoc.LineStartIncreasing | src/viewPlugin/viewPlugin.ts:50 | `doc.line(n).from` is strictly increasing, past the end of every earlier line |
| EditorDoc.LineStartLocatesLine | src/viewPlugin/viewPlugin.ts:50 | the document text at `doc.line(n).from` is that line's text |
| EditorDoc.AscendingFromUnique | src/viewPlugin/viewPlugin.ts:51 | in an ordered range set a start offset identifies one decoration |
| ViewPlugin.Headers | src/viewPlugin/viewPlugin.ts:39-40 | the header regex's verdict on each line of the document, one per line |
| ViewPlugin.Widget | src/viewPlugin/viewPlugin.ts:46-51 | each widget is zero-width at the header line's start, on side 1, with no line attribute |
| ViewPlugin.DecorationFor | src/viewPlugin/viewPlugin.ts:44-51 | the widget of a header line carries that callout's body text, at the line's start, zero-width on side 1 |
| ViewPlugin.WidgetsUpTo | src/viewPlugin/viewPlugin.ts:37-52 | at most one widget per scanned line |
| ViewPlugin.WidgetsUpToAscending | src/viewPlugin/viewPlugin.ts:51 | the scan adds decorations in strictly increasing `from` order, as `RangeSetBuilder.add` demands, all before the next unscanned line |
| ViewPlugin.WidgetsUpToSound | src/viewPlugin/viewPlugin.ts:39-43 | every decoration is the widget of a scanned line the header regex matched, built with that line's indent |
| ViewPlugin.WidgetsUpToComplete | src/viewPlugin/viewPlugin.ts:39-51 | every matched line among the scanned ones has its widget in the set |
| ViewPlugin.OneDecorationPerHeader | src/viewPlugin/viewPlugin.ts:37-52 | a header line has exactly one widget at its start |
| ViewPlugin.NoDecorationForOtherLines | src/viewPlugin/viewPlugin.ts:40-43 | no widget starts at a non-header line |
| ViewPlugin.DecorationsOrdered | src/viewPlugin/viewPlugin.ts:46-54 | the finished set is strictly ascending, and every widget is zero-width on side 1 |
| ViewPlugin.BodyTextSpec | src/viewPlugin/viewPlugin.ts:44-45 | a widget's text is the following indented lines, stripped and joined with `\n`, up to the first unindented line or the end of the document |
| ViewPlugin.NestedHeaderInEnclosingBody | src/viewPlugin/viewPlugin.ts:37-52 | a nested header appears, still a header, as the first body line of its enclosing callout, and also gets its own widget |
| ViewPlugin.TipHeaderExample | src/viewPlugin/viewPlugin.ts:14 | `> [!tip] t` is a top-level header |
| ViewPlugin.NonHeaderExamples | src/viewPlugin/viewPlugin.ts:14 | a quoted body line and a plain line are not headers |
| ViewPlugin.BodyTextExample | src/viewPlugin/viewPlugin.ts:44-45 | the body of `> [!tip] t` followed by `> body` and `plain` is `body` |
| ViewPlugin.DecorationsExample | src/viewPlugin/viewPlugin.ts:33-55 | that document gets exactly one widget, at offset 0, carrying `body` |
| ViewPlugin.CalloutCopyButtonViewPlugin.constructor | src/viewPlugin/viewPlugin.ts:19-21 | the plugin starts with the decorations of the initial document |
| ViewPlugin.CalloutCopyButtonViewPlugin.Update | src/viewPlugin/viewPlugin.ts:23-27 | the set is rebuilt iff the document or the viewport changed, and otherwise kept |
| ViewPlugin.CalloutCopyButtonViewPlugin.BuildDecorations | src/viewPlugin/viewPlugin.ts:33-55 | the loop's builder equals the specification `Decorations(doc)` |
| ViewPlugin.CalloutCopyButtonViewPlugin.HeaderWidget | src/viewPlugin/viewPlugin.ts:44-51 | the widget built in the loop for a header line is the specification's widget for that line and indent |
| LegacyViewPlugin.DecorationFor | src/viewPlugin.ts:39-50 | each widget is zero-width at the line's start, on side 1, carries the raw line, and names its 1-based line |
| LegacyViewPlugin.DecorationsUpTo | src/viewPlugin.ts:34-60 | at most one widget per scanned line |
| LegacyViewPlugin.DecorationsUpToAscending | src/viewPlugin.ts:58 | the decorations are added in strictly increasing `from` order |
| LegacyViewPlugin.DecorationsUpToSound | src/viewPlugin.ts:37 | every decoration belongs to a line starting with `> [!` |
| LegacyViewPlugin.DecorationsUpToComplete | src/viewPlugin.ts:37-58 | every line starting with `> [!` gets its widget |
| LegacyViewPlugin.DecorationsSpec | src/viewPlugin.ts:30-63 | the set is ordered, and a line is decorated iff it starts with `> [!` |
| LegacyViewPlugin.PrefixAgainstHeaderRegex | src/viewPlugin.ts:37 | every top-level regex header starts with `> [!`, and a line with that prefix is a top-level header or no header |
| LegacyViewPlugin.NestedAndIndentedLinesSkipped | src/viewPlugin.ts:37 | nested headers and lines with leading white space get no widget |
| LegacyViewPlugin.CalloutCopyButtonViewPlugin.constructor | src/viewPlugin.ts:16-18 | the plugin starts with the decorations of the initial document |
| LegacyViewPlugin.CalloutCopyButtonViewPlugin.Update | src/viewPlugin.ts:20-24 | the set is rebuilt iff the document or the viewport changed |
| LegacyViewPlugin.CalloutCopyButtonViewPlugin.BuildDecorations | src/viewPlugin.ts:30-63 | the loop's builder equals the specification `Decorations(doc)` |
| Classnames.TruthyNames | src/settings.ts:192-197 | `classnames` keeps at most the given entries |
| Classnames.ClassNamesTokens | src/settings.ts:192-197 | the class string is empty iff no entry is on; otherwise splitting it at spaces gives the names that are on, in order |
| Classnames.TruthyNamesOfFour | src/settings.ts:192-197 | the names kept from four entries are each entry's name if it is on, in order |
| Classnames.ContributionsOfFourDistinct | src/settings.ts:192-197 | four entries with different names give a class string without repeated names |
| Classnames.TruthyNamesAreTokens | src/settings.ts:192-197 | the names kept are each valid class tokens |
| Classnames.TokenConcat | src/settings.ts:193-196 | two tokens written one after the other form one token |
| Classnames.TokenSplitsToItself | src/utils/addClassNames.ts:5 | a single token splits at spaces into itself alone, so `addClasses` adds just that name |
| CopyButton.AddClass | src/copyButton.ts:19-20 | `classList.add` adds the name once: appended when absent, nothing when present |
| CopyButton.AddClasses | src/copyButtonWidget.ts:11-15 | `addClasses` makes the list hold exactly the old classes and the new names |
| CopyButton.RemoveClass | src/copyButton.ts:51 | `classList.remove` removes exactly the name and nothing else |
| CopyButton.RemoveAbsentClass | src/copyButton.ts:51 | removing an absent class changes nothing |
| CopyButton.AddThenRemove | src/copyButton.ts:47-51 | adding then removing `just-copied` restores the class list |
| CopyButton.AddDistinctClasses | src/copyButtonWidget.ts:11-15 | adding distinct fresh names appends them in order |
| CopyButton.DistinctTail | src/copyButtonWidget.ts:11-15 | after the first of distinct fresh names is added, the rest are still distinct and fresh |
| CopyButton.WidgetClassesDistinct | src/copyButtonWidget.ts:11-15 | the three widget classes are distinct |
| CopyButton.Step | src/copyButton.ts:23-57 | every event keeps the `just-copied`/`disabled`/checkmark invariant, every other class, the label, and only adds effects |
| CopyButton.RunKeepsConsistent | src/copyButton.ts:44-53 | every state reachable from a consistent state is consistent |
| CopyButton.DisabledClickWritesNothing | src/copyButton.ts:24 | a click on a disabled button changes nothing; only the widgets record the stopped propagation |
| CopyButton.EnabledClickWrites | src/copyButton.ts:39-43 | a click on an enabled button stops propagation, reads the body text and writes it (the widgets write their fixed text) |
| CopyButton.FailedWriteChangesNothing | src/copyButton.ts:55-57 | a rejected write changes nothing visible |
| CopyButton.SecondClickNotBlocked | src/copyButton.ts:40-48 | `disabled` is set only on success, so two quick clicks both write |
| CopyButton.CopyCycle | src/copyButton.ts:41-53 | click, success, timer: checkmark, `just-copied` and disabled in between, then everything back except the one recorded write |
| CopyButton.NoWriteWhileJustCopied | src/copyButton.ts:24 | while `just-copied` is shown, a click starts no write |
| CopyButton.FixedTextIsAllItWrites | src/copyButtonWidget.ts:20-24 | a widget's button writes only its fixed text, whatever events arrive |
| CopyButton.CopyButtonClassIsToken | src/copyButton.ts:19 | the base class is a single class token |
| CopyButton.BaseWidgetClassesAreTokens | src/copyButtonWidget.ts:11-15 | the three widget classes are single class tokens |
| CopyButton.CreatedClassesAsWritten | src/copyButton.ts:18-20 | as written: the class list is built iff no class name is given or it is one token, and then it is the corrected list; otherwise `classList.add` throws, `SyntaxError` exactly for the empty name |
| CopyButton.TwoClassNames | src/utils/addCopyButtonToCallout.ts:78 | `classNames` of two tokens is the first, a space, then the second |
| CopyButton.TwoClassNamesSplit | src/utils/addCopyButtonToCallout.ts:78 | that string splits at spaces back into the two tokens |
| CopyButton.CallerClassesAreTokens | src/utils/addCopyButtonToCallout.ts:78 | the live-preview, reading-mode, plain-text and Markdown class names are single tokens |
| CopyButton.CallerClassNameThrowsAsWritten | src/utils/addCopyButtonToCallout.ts:76-80 | with a button class name given, the callers' class string makes the as-written `createCopyButton` throw `InvalidCharacterError` |
| CopyButton.ReadingModePlainTextThrowsAsWritten | src/utils/addCopyButtonToCallout.ts:119-123 | the reading-mode caller with the plain-text button class makes the as-written button throw |
| CopyButton.CreatedClasses | src/copyButton.ts:19-20 | corrected: the button's classes are exactly `callout-copy-button` and each space-separated name of the class string |
| CopyButton.CallerClassNameCreated | src/utils/addCopyButtonToCallout.ts:76-80 | corrected: the callers' two-token class string is a valid token list and gives the base, mode and button classes in that order |
| CopyButton.ReadingModePlainTextCreated | src/utils/addCopyButtonToCallout.ts:119-123 | corrected: the reading-mode plain-text button gets the base, reading-mode and plain-text classes |
| CopyButton.CreateCopyButton | src/copyButton.ts:11-28 | a fresh button with copy icon, the corrected classes, label `Copy`, enabled, nothing pending; at rest and consistent unless `just-copied` is among the names |
| CopyButton.CopyButtonElement.constructor | src/copyButton.ts:18-22 | a new element starts with the copy icon, enabled, nothing in flight, no effects |
| CopyButton.CopyButtonElement.Click | src/copyButton.ts:23-43 | the element's new state is `Step` of the old one for the click |
| CopyButton.CopyButtonElement.WriteSucceeded | src/copyButton.ts:44-53 | the new state is `Step` for a resolved write |
| CopyButton.CopyButtonElement.WriteFailed | src/copyButton.ts:55-57 | the new state is `Step` for a rejected write |
| CopyButton.CopyButtonElement.TimerFired | src/copyButton.ts:49-53 | the new state is `Step` for the fired timer |
| LegacyCopyButtonWidget.CopyButtonWidget.constructor | src/copyButtonWidget.ts:5-7 | the widget keeps its text |
| LegacyCopyButtonWidget.CopyButtonWidget.ToDOM | src/copyButtonWidget.ts:9-42 | a fresh button writing the widget's text, with the three widget classes, label `Copy (Markdown)`, at rest and consistent |
| LegacyCopyButtonWidget.CopyButtonWidget.IgnoreEvent | src/copyButtonWidget.ts:44-47 | the widget ignores editor events |
| ViewPluginCopyButtonWidget.WidgetClassNameSplits | src/utils/addClassNames.ts:4-6 | splitting the widget's class string at spaces gives the three widget classes then the enabled settings classes |
| ViewPluginCopyButtonWidget.WidgetClassesAreTokens | src/viewPlugin/copyButtonWidget.ts:14-19 | the widget classes and the enabled settings classes are valid class tokens |
| ViewPluginCopyButtonWidget.TruthyNamesOfWidget | src/viewPlugin/copyButtonWidget.ts:14-19 | the `classnames` entries that are on are the three widget classes, then the settings class string when it is not empty |
| ViewPluginCopyButtonWidget.WidgetClassesNotSettingsClasses | src/viewPlugin/copyButtonWidget.ts:14-19 | no widget class is a settings class |
| ViewPluginCopyButtonWidget.JustCopiedNotAWidgetClass | src/viewPlugin/copyButtonWidget.ts:14-19 | `just-copied` is neither a widget class nor a settings class |
| ViewPluginCopyButtonWidget.WidgetAndSettingsClassesDistinct | src/viewPlugin/copyButtonWidget.ts:14-19 | those class names are all distinct |
| ViewPluginCopyButtonWidget.WidgetClassList | src/viewPlugin/copyButtonWidget.ts:14-20 | the element's class list is exactly the widget classes followed by the enabled settings classes, without `just-copied` |
| ViewPluginCopyButtonWidget.CopyButtonWidget.constructor | src/viewPlugin/copyButtonWidget.ts:8-10 | the widget keeps its text and settings manager |
| ViewPluginCopyButtonWidget.CopyButtonWidget.ToDOM | src/viewPlugin/copyButtonWidget.ts:12-47 | a fresh button writing the widget's text, with the class list above, label `Copy (Markdown)`, at rest and consistent |
| ViewPluginCopyButtonWidget.CopyButtonWidget.IgnoreEvent | src/viewPlugin/copyButtonWidget.ts:49-52 | the widget ignores editor events |
| Settings.DefaultSettingsValues | src/settings.ts:32-42 | the defaults: version `1.0.0`, no format indicators, no hover-only, both reading-mode buttons |
| Settings.DeepCloneSettings | src/settings.ts:25-30 | the clone equals the settings, field by field |
| Settings.GetSettingOf | src/settings.ts:75-77 | reading a key gives a value of that key's type |
| Settings.GetAfterSet | src/settings.ts:79-85 | after setting a key, reading it gives the new value, and every other key is unchanged |
| Settings.SetToCurrentValue | src/settings.ts:79-85 | setting a key to its current value changes nothing |
| Settings.ReadingModeSetterKeepsSibling | src/settings.ts:95-101 | the spread update sets the chosen reading-mode flag and keeps its sibling |
| Settings.SourceModeSetterSetsFlag | src/settings.ts:87-93 | the spread update sets the source-mode flag |
| Settings.LoadedSettings | src/settings.ts:56-69 | the stored settings when there are any, the defaults otherwise |
| Settings.EnabledSettingsClasses | src/settings.ts:192-197 | each settings class is present iff its setting is on, in declaration order |
| Settings.SettingsClassNameSpec | src/settings.ts:183-198 | the class string is empty iff no setting is on; otherwise it splits into the enabled classes |
| Settings.SettingsTruthyNames | src/settings.ts:192-197 | the `classnames` entries that are on are the enabled classes |
| Settings.EnabledSettingsClassesDistinct | src/settings.ts:192-197 | the enabled settings classes have no repeats |
| Settings.SettingsClassesAreTokens | src/settings.ts:193-196 | the four class names are valid class tokens |
| Settings.DefaultClassName | src/settings.ts:32-42 | under the defaults the enabled classes are the two reading-mode classes |
| Settings.PluginSettingsManager.constructor | src/settings.ts:45-49 | the manager starts with the defaults, having stored nothing |
| Settings.PluginSettingsManager.SetupSettingsTab | src/settings.ts:51-54 | the manager's settings become the loaded settings |
| Settings.PluginSettingsManager.LoadSettings | src/settings.ts:56-69 | returns the stored settings, or stores and returns the defaults when there are none |
| Settings.PluginSettingsManager.GetSetting | src/settings.ts:75-77 | reading a key gives a value of that key's type |
| Settings.PluginSettingsManager.SetSetting | src/settings.ts:79-85 | the key takes the value, every other key is unchanged, and the new settings are saved |
| Settings.PluginSettingsManager.SetSourceModeSetting | src/settings.ts:87-93 | the source-mode record gets the flag, and the result is saved |
| Settings.PluginSettingsManager.SetReadingModeSetting | src/settings.ts:95-101 | the reading-mode record gets the flag, and the result is saved |
| Settings.GetCopyButtonSettingsClassName | src/settings.ts:183-198 | the manager's class string is that of its current settings |

## Left out

- DOM construction and injection are not part of this model: reading-mode buttons
  (`addCopyButtonToCallout.ts`, `markdownPostProcessor.ts`, `DOMObserver.ts`, `cleanupDOM.ts`),
  and the plugin's start-up in `main.ts`.
- `innerText` and `getSectionInfo` come from Obsidian and the browser. They enter the model as
  inputs: the optional content-div text, the callout text, and the section's text and bounds.
- The clipboard, the three-second timer and the promises are events delivered in any order,
  and the model keeps no clock. The effect log records the writes. The console logging is left
  out.
- The SVG markup of the two icons is the `Icon` enumeration rather than the literal strings.
- Offsets and lengths count Dafny characters, where JavaScript counts UTF-16 code units. They
  agree on text without astral characters.
- Object identity is not modelled. The deep clone is equality of values, so the aliasing it
  prevents is out of scope.
- `loadData` and `saveData` are the `loaded` parameter and the append-only `savedData` log.
  Their asynchrony and failure are left out.
- The settings tab UI (`display` and its helpers, `addSettingTab`) is left out, because it is
  Obsidian UI wiring. The toggles' handlers are the three setter methods.
- The regex helpers in `regexUtils.ts` are not imported by any of the files modelled here, so
  they are left out.
- The view plugin constructs its widget as `new CopyButtonWidget(text)` with one argument,
  while the widget class takes a settings manager. The model keeps the two files separate: the
  decoration carries the text, and the widget takes the manager as a parameter.
- `data-callout-line` is a natural number in the model, where the source has its decimal
  string.
- `pluginVersion` is a `string` in the model. The source's type pins it to `"1.0.0"`, but
  stored data is not checked against that type.
- CalloutBodyText.GetCalloutBodyLines: requires `bodyStartLine >= 1`, as the source does. Its
  callers pass a header line plus one, and `doc.line(0)` would throw.
- CopyButton.CreateCopyButton: models the corrected creation of the finding below, which adds
  each space-separated name on its own. It requires every such name to be a valid class token,
  since `classList.add` throws otherwise; the callers' strings meet this. Its at-rest and
  consistency guarantee excludes the name `just-copied`, which would start the button in a
  state that mixes the two.
- CopyButton.CreatedClassesAsWritten: assumes that Obsidian's `addClass` hands its argument to
  `classList.add` unsplit. The host's code is not part of this model.
- Settings.LoadedSettings: stored data is assumed to be a complete settings record. `loadData` may return older or partial data, which
  the source uses without merging in the defaults; such data cannot be expressed here. With
  `readingModeSettings` missing, for instance, `getSetting` returns `undefined` and the
  destructuring in `getCopyButtonSettingsClassName` (src/settings.ts:188-191) throws.
- Settings.PluginSettingsManager.LoadSettings: returns `LoadedSettings`, so it makes the same
  assumption about stored data.

## Findings

| source | as written | input that shows it | evidently intended | confidence | as-written member | corrected member |
|---|---|---|---|---|---|---|
| src/copyButton.ts:20 | `copyButton.addClass(className)` adds the whole class string as one name | `classNames("callout-copy-button-reading-mode", "callout-copy-button-plain-text")`, as src/utils/addCopyButtonToCallout.ts:119-123 passes it: the name holds a space, so `classList.add` throws `InvalidCharacterError` | add each space-separated name on its own, as `addClassNames` does (src/utils/addClassNames.ts:5) | not executed; assumes the host's `addClass` does not split its argument, and the callers also pass a `tooltipText` that this version of `createCopyButton` does not take | CopyButton.CreatedClassesAsWritten, CopyButton.ReadingModePlainTextThrowsAsWritten | CopyButton.CreatedClasses, CopyButton.ReadingModePlainTextCreated |
