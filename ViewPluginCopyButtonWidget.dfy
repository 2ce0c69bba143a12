/**
 * The copy-button widget of the editor plugin: it copies the text it was built with, and its
 * class list is the three widget classes followed by the classes the display settings enable.
 */
module ViewPluginCopyButtonWidget {
  import opened JsString
  import opened Classnames
  import opened CopyButton
  import opened Settings

  /** The `classnames` call of `toDOM`: the three widget classes, then the settings class string. */
  function WidgetClassName(settingsClassName: string): string
  {
    ClassNames([Arg(CopyButtonClass), Arg(WidgetClass), Arg(MarkdownClass), Arg(settingsClassName)])
  }

  /** Every widget class and every settings class is a single class token. */
  lemma WidgetClassesAreTokens(settings: PluginSettings)
    ensures forall k :: 0 <= k < |WidgetClasses + EnabledSettingsClasses(settings)| ==>
              IsToken((WidgetClasses + EnabledSettingsClasses(settings))[k])
  {
    var enabled := EnabledSettingsClasses(settings);
    var all := WidgetClasses + enabled;
    SettingsClassesAreTokens();
    BaseWidgetClassesAreTokens();
    forall k | 0 <= k < |all|
      ensures IsToken(all[k])
    {
      if k >= 3 {
        assert all[k] == enabled[k - 3];
      } else {
        assert all[k] == WidgetClasses[k];
      }
    }
  }

  /** The widget's class string splits into the widget classes followed by the enabled settings classes. */
  lemma WidgetClassNameSplits(settings: PluginSettings)
    ensures Split(WidgetClassName(SettingsClassName(settings)), ' ') == WidgetClasses + EnabledSettingsClasses(settings)
  {
    var enabled := EnabledSettingsClasses(settings);
    var settingsClassName := SettingsClassName(settings);
    SettingsClassNameSpec(settings);
    TruthyNamesOfWidget(settingsClassName);
    WidgetClassesAreTokens(settings);
    var all := WidgetClasses + enabled;
    if enabled == [] {
      assert all == WidgetClasses;
    } else {
      JoinSplit(settingsClassName, ' ');
      JoinFlattenLast(WidgetClasses, enabled, " ");
    }
    SplitJoin(all, ' ');
  }

  /** The truthy arguments of the widget's `classnames` call. */
  lemma TruthyNamesOfWidget(settingsClassName: string)
    ensures var entries := [Arg(CopyButtonClass), Arg(WidgetClass), Arg(MarkdownClass), Arg(settingsClassName)];
      TruthyNames(entries) == WidgetClasses + (if settingsClassName == "" then [] else [settingsClassName])
  {
    TruthyNamesOfFour(Arg(CopyButtonClass), Arg(WidgetClass), Arg(MarkdownClass), Arg(settingsClassName));
    assert CopyButtonClass != "" && WidgetClass != "" && MarkdownClass != "";
  }

  /** No widget class is a settings class: their lengths differ. */
  lemma WidgetClassesNotSettingsClasses(settings: PluginSettings)
    ensures forall i, k :: 0 <= i < |WidgetClasses| && 0 <= k < |EnabledSettingsClasses(settings)| ==>
              WidgetClasses[i] != EnabledSettingsClasses(settings)[k]
  {
    assert |FormatIndicatorsClass| == 27 && |LineHoverClass| == 47;
    assert |MarkdownButtonsClass| == 39 && |PlainTextButtonsClass| == 41;
    assert |WidgetClasses[0]| == 19 && |WidgetClasses[1]| == 26 && |WidgetClasses[2]| == 28;
  }

  /** The settings classes never repeat and never clash with the widget classes. */
  lemma WidgetAndSettingsClassesDistinct(settings: PluginSettings)
    ensures Distinct(WidgetClasses + EnabledSettingsClasses(settings))
  {
    var enabled := EnabledSettingsClasses(settings);
    var all := WidgetClasses + enabled;
    WidgetClassesDistinct();
    WidgetClassesNotSettingsClasses(settings);
    EnabledSettingsClassesDistinct(settings);
    forall i, j | 0 <= i < j < |all|
      ensures all[i] != all[j]
    {
      if j >= 3 {
        assert all[j] == enabled[j - 3];
        if i >= 3 {
          assert all[i] == enabled[i - 3];
        }
      }
    }
  }

  /** `just-copied` is neither a widget class nor a settings class. */
  lemma JustCopiedNotAWidgetClass(settings: PluginSettings)
    ensures JustCopiedClass !in WidgetClasses + EnabledSettingsClasses(settings)
  {
    var enabled := EnabledSettingsClasses(settings);
    var all := WidgetClasses + enabled;
    assert |JustCopiedClass| == 11;
    assert |CopyButtonClass| > 11 && |WidgetClass| > 11 && |MarkdownClass| > 11;
    assert |FormatIndicatorsClass| > 11 && |LineHoverClass| > 11;
    assert |MarkdownButtonsClass| > 11 && |PlainTextButtonsClass| > 11;
    forall k | 0 <= k < |all|
      ensures |all[k]| > 11
    {
      if k >= 3 {
        assert all[k] == enabled[k - 3];
      }
    }
  }

  /** `addClassNames` on a fresh element: the widget classes, then the enabled settings classes. */
  lemma WidgetClassList(settings: PluginSettings)
    ensures AddClasses([], Split(WidgetClassName(SettingsClassName(settings)), ' ')) ==
              WidgetClasses + EnabledSettingsClasses(settings)
    ensures JustCopiedClass !in WidgetClasses + EnabledSettingsClasses(settings)
  {
    WidgetClassNameSplits(settings);
    WidgetAndSettingsClassesDistinct(settings);
    AddDistinctClasses([], WidgetClasses + EnabledSettingsClasses(settings));
    JustCopiedNotAWidgetClass(settings);
  }

  class CopyButtonWidget {
    /** The text every click copies, fixed at construction. */
    const text: string
    const pluginSettingsManager: PluginSettingsManager

    constructor(text: string, pluginSettingsManager: PluginSettingsManager)
      ensures this.text == text && this.pluginSettingsManager == pluginSettingsManager
    {
      this.text := text;
      this.pluginSettingsManager := pluginSettingsManager;
    }

    /**
     * `toDOM`: a button whose classes are the three widget classes followed by the enabled
     * settings classes, labelled "Copy (Markdown)", showing the copy icon, copying this
     * widget's text.
     */
    method ToDOM() returns (copyButton: CopyButtonElement)
      ensures fresh(copyButton)
      ensures copyButton.source == Fixed(text)
      ensures copyButton.State() ==
        ButtonState(CopyIcon, WidgetClasses + EnabledSettingsClasses(pluginSettingsManager.settings), MarkdownLabel, false, 0, 0, [])
      ensures Idle(copyButton.State()) && Consistent(copyButton.State())
    {
      var className := WidgetClassName(GetCopyButtonSettingsClassName(pluginSettingsManager));
      var classes := AddClasses([], Split(className, ' '));
      WidgetClassList(pluginSettingsManager.settings);
      copyButton := new CopyButtonElement(Fixed(text), classes, MarkdownLabel);
    }

    /** Clicks on the widget are not interpreted by the editor. */
    function IgnoreEvent(): (ignored: bool)
      ensures ignored
    {
      true
    }
  }
}
