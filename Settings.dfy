/**
 * The plugin's settings record, its defaults, the per-key getters and setters of the settings
 * manager, the load-or-initialise step, and the class string the copy buttons get from the
 * display flags.
 */
module Settings {
  import opened Wrappers
  import opened JsString
  import opened Classnames

  datatype SourceModeSettings = SourceModeSettings(showCopyButtonOnlyOnLineHover: bool)

  datatype ReadingModeSettings = ReadingModeSettings(showCopyMarkdownButton: bool, showCopyPlainTextButton: bool)

  datatype PluginSettings = PluginSettings(
    pluginVersion: string,
    showCopyFormatIndicators: bool,
    sourceModeSettings: SourceModeSettings,
    readingModeSettings: ReadingModeSettings)

  const PluginVersion: string := "1.0.0"

  const DefaultSettings: PluginSettings :=
    PluginSettings(PluginVersion, false, SourceModeSettings(false), ReadingModeSettings(true, true))

  /** The defaults: no format indicators, no hover-only buttons, both reading-mode buttons. */
  lemma DefaultSettingsValues()
    ensures DefaultSettings.pluginVersion == "1.0.0"
    ensures !DefaultSettings.showCopyFormatIndicators
    ensures !DefaultSettings.sourceModeSettings.showCopyButtonOnlyOnLineHover
    ensures DefaultSettings.readingModeSettings.showCopyMarkdownButton
    ensures DefaultSettings.readingModeSettings.showCopyPlainTextButton
  {
  }

  /** `deepCloneSettings`: a copy of the top-level record and of each nested record. */
  function DeepCloneSettings(settings: PluginSettings): (clone: PluginSettings)
    ensures clone == settings
  {
    var clone := settings;
    var clone := clone.(sourceModeSettings :=
      SourceModeSettings(settings.sourceModeSettings.showCopyButtonOnlyOnLineHover));
    clone.(readingModeSettings :=
      ReadingModeSettings(settings.readingModeSettings.showCopyMarkdownButton,
                          settings.readingModeSettings.showCopyPlainTextButton))
  }

  // ---------------------------------------------------------------------------------------------
  // Keys and values

  /** The top-level keys of the record. */
  datatype SettingKey = PluginVersionKey | ShowCopyFormatIndicatorsKey | SourceModeSettingsKey | ReadingModeSettingsKey

  /** A value stored under a top-level key. */
  datatype SettingValue =
    | VersionValue(version: string)
    | FlagValue(flag: bool)
    | SourceModeValue(sourceMode: SourceModeSettings)
    | ReadingModeValue(readingMode: ReadingModeSettings)

  /** The value has the type its key declares. */
  predicate Fits(key: SettingKey, value: SettingValue)
  {
    match key
    case PluginVersionKey => value.VersionValue?
    case ShowCopyFormatIndicatorsKey => value.FlagValue?
    case SourceModeSettingsKey => value.SourceModeValue?
    case ReadingModeSettingsKey => value.ReadingModeValue?
  }

  /** `settings[key]`. */
  function GetSettingOf(settings: PluginSettings, key: SettingKey): (value: SettingValue)
    ensures Fits(key, value)
  {
    match key
    case PluginVersionKey => VersionValue(settings.pluginVersion)
    case ShowCopyFormatIndicatorsKey => FlagValue(settings.showCopyFormatIndicators)
    case SourceModeSettingsKey => SourceModeValue(settings.sourceModeSettings)
    case ReadingModeSettingsKey => ReadingModeValue(settings.readingModeSettings)
  }

  /** `settings[key] = value`. */
  function WithSetting(settings: PluginSettings, key: SettingKey, value: SettingValue): PluginSettings
    requires Fits(key, value)
  {
    match key
    case PluginVersionKey => settings.(pluginVersion := value.version)
    case ShowCopyFormatIndicatorsKey => settings.(showCopyFormatIndicators := value.flag)
    case SourceModeSettingsKey => settings.(sourceModeSettings := value.sourceMode)
    case ReadingModeSettingsKey => settings.(readingModeSettings := value.readingMode)
  }

  /** After setting a key, reading it gives the value, and every other key is unchanged. */
  lemma GetAfterSet(settings: PluginSettings, key: SettingKey, value: SettingValue, other: SettingKey)
    requires Fits(key, value)
    ensures GetSettingOf(WithSetting(settings, key, value), key) == value
    ensures other != key ==> GetSettingOf(WithSetting(settings, key, value), other) == GetSettingOf(settings, other)
  {
  }

  /** Writing back what is there changes nothing. */
  lemma SetToCurrentValue(settings: PluginSettings, key: SettingKey)
    ensures WithSetting(settings, key, GetSettingOf(settings, key)) == settings
  {
  }

  /** The one key of the source-mode record. */
  datatype SourceModeKey = ShowCopyButtonOnlyOnLineHover

  /** The keys of the reading-mode record. */
  datatype ReadingModeKey = ShowCopyMarkdownButton | ShowCopyPlainTextButton

  /** `{ ...settings.sourceModeSettings, [modeKey]: value }`. */
  function WithSourceMode(mode: SourceModeSettings, modeKey: SourceModeKey, value: bool): SourceModeSettings
  {
    match modeKey
    case ShowCopyButtonOnlyOnLineHover => mode.(showCopyButtonOnlyOnLineHover := value)
  }

  /** `{ ...settings.readingModeSettings, [modeKey]: value }`. */
  function WithReadingMode(mode: ReadingModeSettings, modeKey: ReadingModeKey, value: bool): ReadingModeSettings
  {
    match modeKey
    case ShowCopyMarkdownButton => mode.(showCopyMarkdownButton := value)
    case ShowCopyPlainTextButton => mode.(showCopyPlainTextButton := value)
  }

  function ReadingModeFlag(mode: ReadingModeSettings, modeKey: ReadingModeKey): bool
  {
    match modeKey
    case ShowCopyMarkdownButton => mode.showCopyMarkdownButton
    case ShowCopyPlainTextButton => mode.showCopyPlainTextButton
  }

  /** The reading-mode setter changes the named flag and keeps its sibling. */
  lemma ReadingModeSetterKeepsSibling(mode: ReadingModeSettings, modeKey: ReadingModeKey, value: bool, other: ReadingModeKey)
    ensures ReadingModeFlag(WithReadingMode(mode, modeKey, value), modeKey) == value
    ensures other != modeKey ==> ReadingModeFlag(WithReadingMode(mode, modeKey, value), other) == ReadingModeFlag(mode, other)
  {
  }

  /** The source-mode setter changes its one flag. */
  lemma SourceModeSetterSetsFlag(mode: SourceModeSettings, modeKey: SourceModeKey, value: bool)
    ensures WithSourceMode(mode, modeKey, value).showCopyButtonOnlyOnLineHover == value
  {
  }

  /**
   * `loadSettings`: whatever `loadData` returned is used as it is, and only when it returned
   * nothing are the defaults copied. Stored data is a complete settings record here.
   */
  function LoadedSettings(loaded: Option<PluginSettings>): (settings: PluginSettings)
    ensures loaded.Some? ==> settings == loaded.value
    ensures loaded.None? ==> settings == DefaultSettings
  {
    if loaded.Some? then loaded.value else DeepCloneSettings(DefaultSettings)
  }

  // ---------------------------------------------------------------------------------------------
  // The class string

  // Each name is spelled in short pieces, each of which is checked as a token on its own.
  const FormatIndicatorsClass: string := "show-copy-format" + "-indicators"
  const LineHoverClass: string := "show-source-mode" + "-copy-button" + "-only-on-line" + "-hover"
  const MarkdownButtonsClass: string := "show-reading-mode" + "-copy-markdown" + "-buttons"
  const PlainTextButtonsClass: string := "show-reading-mode" + "-copy-plain-text" + "-buttons"

  /** The `classnames` object argument: the four class names keyed by their flags, in order. */
  function SettingsClassEntries(settings: PluginSettings): seq<ClassEntry>
  {
    [ ClassEntry(FormatIndicatorsClass, settings.showCopyFormatIndicators),
      ClassEntry(LineHoverClass, settings.sourceModeSettings.showCopyButtonOnlyOnLineHover),
      ClassEntry(MarkdownButtonsClass, settings.readingModeSettings.showCopyMarkdownButton),
      ClassEntry(PlainTextButtonsClass, settings.readingModeSettings.showCopyPlainTextButton) ]
  }

  /** `getCopyButtonSettingsClassName` on the settings the manager holds. */
  function SettingsClassName(settings: PluginSettings): string
  {
    ClassNames(SettingsClassEntries(settings))
  }

  /** The class names whose flag is on, in declaration order. */
  function EnabledSettingsClasses(settings: PluginSettings): (names: seq<string>)
    ensures FormatIndicatorsClass in names <==> settings.showCopyFormatIndicators
    ensures LineHoverClass in names <==> settings.sourceModeSettings.showCopyButtonOnlyOnLineHover
    ensures MarkdownButtonsClass in names <==> settings.readingModeSettings.showCopyMarkdownButton
    ensures PlainTextButtonsClass in names <==> settings.readingModeSettings.showCopyPlainTextButton
    ensures forall k :: 0 <= k < |names| ==>
              names[k] in {FormatIndicatorsClass, LineHoverClass, MarkdownButtonsClass, PlainTextButtonsClass}
  {
    assert |FormatIndicatorsClass| == 27 && |LineHoverClass| == 47;
    assert |MarkdownButtonsClass| == 39 && |PlainTextButtonsClass| == 41;
    (if settings.showCopyFormatIndicators then [FormatIndicatorsClass] else [])
    + ((if settings.sourceModeSettings.showCopyButtonOnlyOnLineHover then [LineHoverClass] else [])
    + ((if settings.readingModeSettings.showCopyMarkdownButton then [MarkdownButtonsClass] else [])
    + (if settings.readingModeSettings.showCopyPlainTextButton then [PlainTextButtonsClass] else [])))
  }

  /** No settings class is enabled twice. */
  lemma EnabledSettingsClassesDistinct(settings: PluginSettings)
    ensures forall k, l :: 0 <= k < l < |EnabledSettingsClasses(settings)| ==>
              EnabledSettingsClasses(settings)[k] != EnabledSettingsClasses(settings)[l]
  {
    var entries := SettingsClassEntries(settings);
    assert |FormatIndicatorsClass| == 27 && |LineHoverClass| == 47;
    assert |MarkdownButtonsClass| == 39 && |PlainTextButtonsClass| == 41;
    ContributionsOfFourDistinct(entries[0], entries[1], entries[2], entries[3]);
  }

  /**
   * The class string holds exactly the enabled class names, in declaration order, separated by
   * single spaces; with every flag off it is the empty string.
   */
  lemma SettingsClassNameSpec(settings: PluginSettings)
    ensures SettingsClassName(settings) == "" <==> EnabledSettingsClasses(settings) == []
    ensures EnabledSettingsClasses(settings) != [] ==>
              Split(SettingsClassName(settings), ' ') == EnabledSettingsClasses(settings)
  {
    var entries := SettingsClassEntries(settings);
    SettingsTruthyNames(settings);
    SettingsClassesAreTokens();
    assert forall j :: 0 <= j < |entries| ==> IsToken(entries[j].name);
    ClassNamesTokens(entries);
  }

  /** The truthy entries are the enabled classes. */
  lemma SettingsTruthyNames(settings: PluginSettings)
    ensures TruthyNames(SettingsClassEntries(settings)) == EnabledSettingsClasses(settings)
  {
    var entries := SettingsClassEntries(settings);
    TruthyNamesOfFour(entries[0], entries[1], entries[2], entries[3]);
    assert entries == [entries[0], entries[1], entries[2], entries[3]];
  }

  /** Each settings class is a single class token. */
  lemma SettingsClassesAreTokens()
    ensures IsToken(FormatIndicatorsClass) && IsToken(LineHoverClass)
    ensures IsToken(MarkdownButtonsClass) && IsToken(PlainTextButtonsClass)
  {
    FormatIndicatorsClassIsToken();
    LineHoverClassIsToken();
    MarkdownButtonsClassIsToken();
    PlainTextButtonsClassIsToken();
  }

  lemma FormatIndicatorsClassIsToken()
    ensures IsToken(FormatIndicatorsClass)
  {
    TokenConcat("show-copy-format", "-indicators");
  }

  lemma LineHoverClassIsToken()
    ensures IsToken(LineHoverClass)
  {
    TokenConcat("show-source-mode", "-copy-button");
    TokenConcat("show-source-mode" + "-copy-button", "-only-on-line");
    TokenConcat("show-source-mode" + "-copy-button" + "-only-on-line", "-hover");
  }

  lemma MarkdownButtonsClassIsToken()
    ensures IsToken(MarkdownButtonsClass)
  {
    TokenConcat("show-reading-mode", "-copy-markdown");
    TokenConcat("show-reading-mode" + "-copy-markdown", "-buttons");
  }

  lemma PlainTextButtonsClassIsToken()
    ensures IsToken(PlainTextButtonsClass)
  {
    TokenConcat("show-reading-mode", "-copy-plain-text");
    TokenConcat("show-reading-mode" + "-copy-plain-text", "-buttons");
  }

  /** With the defaults the buttons get both reading-mode classes. */
  lemma DefaultClassName()
    ensures EnabledSettingsClasses(DefaultSettings) == [MarkdownButtonsClass, PlainTextButtonsClass]
  {
  }

  // ---------------------------------------------------------------------------------------------
  // The manager

  /** The settings tab's state: the current settings and what was handed to `saveData`. */
  class PluginSettingsManager {
    var settings: PluginSettings
    /** Every record passed to `saveData`, oldest first. */
    var savedData: seq<PluginSettings>

    /** The manager starts with a copy of the defaults. */
    constructor()
      ensures settings == DefaultSettings && savedData == []
    {
      settings := DeepCloneSettings(DefaultSettings);
      savedData := [];
    }

    /**
     * `setupSettingsTab`: `loaded` is what `loadData` returned. Stored data is taken verbatim;
     * without it the defaults are saved and used.
     */
    method SetupSettingsTab(loaded: Option<PluginSettings>)
      modifies this
      ensures settings == LoadedSettings(loaded)
      ensures savedData == old(savedData) + (if loaded.None? then [DefaultSettings] else [])
    {
      settings := LoadSettings(loaded);
    }

    /** `loadSettings`, with `initializeSettings` on the fallback path. */
    method LoadSettings(loaded: Option<PluginSettings>) returns (result: PluginSettings)
      modifies this
      ensures result == LoadedSettings(loaded)
      ensures settings == old(settings)
      ensures savedData == old(savedData) + (if loaded.None? then [DefaultSettings] else [])
    {
      if loaded.Some? {
        return loaded.value;
      }
      var initial := DeepCloneSettings(DefaultSettings);
      savedData := savedData + [initial];
      return initial;
    }

    function GetSetting(key: SettingKey): (value: SettingValue)
      reads this
      ensures Fits(key, value)
    {
      GetSettingOf(settings, key)
    }

    /** `setSetting`: store the value under the key, then save the whole record. */
    method SetSetting(key: SettingKey, value: SettingValue)
      requires Fits(key, value)
      modifies this
      ensures settings == WithSetting(old(settings), key, value)
      ensures GetSetting(key) == value
      ensures forall other :: other != key ==> GetSetting(other) == old(GetSetting(other))
      ensures savedData == old(savedData) + [settings]
    {
      settings := WithSetting(settings, key, value);
      savedData := savedData + [settings];
    }

    /** `setSourceModeSetting`: a new source-mode record with one key changed, through `setSetting`. */
    method SetSourceModeSetting(modeKey: SourceModeKey, value: bool)
      modifies this
      ensures settings == old(settings).(sourceModeSettings := WithSourceMode(old(settings).sourceModeSettings, modeKey, value))
      ensures savedData == old(savedData) + [settings]
    {
      var newSourceModeSettings := WithSourceMode(settings.sourceModeSettings, modeKey, value);
      SetSetting(SourceModeSettingsKey, SourceModeValue(newSourceModeSettings));
    }

    /** `setReadingModeSetting`: a new reading-mode record with one key changed, through `setSetting`. */
    method SetReadingModeSetting(modeKey: ReadingModeKey, value: bool)
      modifies this
      ensures settings == old(settings).(readingModeSettings := WithReadingMode(old(settings).readingModeSettings, modeKey, value))
      ensures savedData == old(savedData) + [settings]
    {
      var newReadingModeSettings := WithReadingMode(settings.readingModeSettings, modeKey, value);
      SetSetting(ReadingModeSettingsKey, ReadingModeValue(newReadingModeSettings));
    }
  }

  /** `getCopyButtonSettingsClassName(pluginSettingsManager)`. */
  function GetCopyButtonSettingsClassName(pluginSettingsManager: PluginSettingsManager): (className: string)
    reads pluginSettingsManager
    ensures className == SettingsClassName(pluginSettingsManager.settings)
  {
    var showCopyFormatIndicators := pluginSettingsManager.GetSetting(ShowCopyFormatIndicatorsKey).flag;
    var sourceMode := pluginSettingsManager.GetSetting(SourceModeSettingsKey).sourceMode;
    var readingMode := pluginSettingsManager.GetSetting(ReadingModeSettingsKey).readingMode;
    ClassNames([
      ClassEntry(FormatIndicatorsClass, showCopyFormatIndicators),
      ClassEntry(LineHoverClass, sourceMode.showCopyButtonOnlyOnLineHover),
      ClassEntry(MarkdownButtonsClass, readingMode.showCopyMarkdownButton),
      ClassEntry(PlainTextButtonsClass, readingMode.showCopyPlainTextButton)])
  }
}
