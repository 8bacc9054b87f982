/** The plugin's settings record, its defaults, and how stored settings are
    merged over the defaults when the plugin loads. */
module Settings {
  import opened Wrappers

  /** The two format strings of `dateFormat`; its parse callback is not modelled. */
  datatype DateFormat = DateFormat(input: string, display: string)

  datatype PluginSettings = PluginSettings(
    apiKey: string,
    apiEndpoint: string,
    ollamaModel: string,
    openaiModel: string,
    reportLocation: string,
    excludedFolders: seq<string>,
    promptTemplate: string,
    dateFormat: DateFormat)

  const DefaultPromptTemplate: string :=
    "Please summarize the main content of today's notes:\n\n{{notes}}"

  const DefaultSettings: PluginSettings := PluginSettings(
    apiKey := "",
    apiEndpoint := "",
    ollamaModel := "",
    openaiModel := "gpt-4o-mini",
    reportLocation := "/",
    excludedFolders := [],
    promptTemplate := DefaultPromptTemplate,
    dateFormat := DateFormat("YYYY-MM-DD", "YYYY-MM-DD"))

  /** The object the host's `loadData()` returns: each field either stored or
      absent. Nothing stored at all (a first run) is every field absent. */
  datatype StoredSettings = StoredSettings(
    apiKey: Option<string>,
    apiEndpoint: Option<string>,
    ollamaModel: Option<string>,
    openaiModel: Option<string>,
    reportLocation: Option<string>,
    excludedFolders: Option<seq<string>>,
    promptTemplate: Option<string>,
    dateFormat: Option<DateFormat>)

  const NothingStored: StoredSettings :=
    StoredSettings(None, None, None, None, None, None, None, None)

  /** A stored field wins over its default. */
  function Override<T>(stored: Option<T>, default: T): T {
    match stored
    case Some(v) => v
    case None => default
  }

  /** `loadSettings`: a shallow field-by-field merge of the stored fields over
      the defaults, after which an empty prompt template is replaced by the
      default one. */
  function LoadSettings(stored: StoredSettings): (s: PluginSettings)
    ensures s.promptTemplate != ""
    ensures stored.promptTemplate == Some("") || stored.promptTemplate == None
      ==> s.promptTemplate == DefaultPromptTemplate
    ensures stored.promptTemplate.Some? && stored.promptTemplate.value != ""
      ==> s.promptTemplate == stored.promptTemplate.value
  {
    var merged := PluginSettings(
      Override(stored.apiKey, DefaultSettings.apiKey),
      Override(stored.apiEndpoint, DefaultSettings.apiEndpoint),
      Override(stored.ollamaModel, DefaultSettings.ollamaModel),
      Override(stored.openaiModel, DefaultSettings.openaiModel),
      Override(stored.reportLocation, DefaultSettings.reportLocation),
      Override(stored.excludedFolders, DefaultSettings.excludedFolders),
      Override(stored.promptTemplate, DefaultSettings.promptTemplate),
      Override(stored.dateFormat, DefaultSettings.dateFormat));
    if merged.promptTemplate == "" then merged.(promptTemplate := DefaultPromptTemplate)
    else merged
  }

  /** What `saveSettings` stores: every field of the record. */
  function Store(s: PluginSettings): StoredSettings {
    StoredSettings(Some(s.apiKey), Some(s.apiEndpoint), Some(s.ollamaModel),
      Some(s.openaiModel), Some(s.reportLocation), Some(s.excludedFolders),
      Some(s.promptTemplate), Some(s.dateFormat))
  }

  /** Saving then loading gives the saved settings back, except that an
      empty template comes back as the default one. */
  lemma StoreLoadRoundTrip(s: PluginSettings)
    ensures LoadSettings(Store(s))
      == if s.promptTemplate == "" then s.(promptTemplate := DefaultPromptTemplate) else s
  {
  }

  /** On a first run every field takes its default, and the defaults select
      the hosted chat model `gpt-4o-mini` and write reports at the vault root. */
  lemma FirstRunGivesDefaults()
    ensures LoadSettings(NothingStored) == DefaultSettings
    ensures DefaultSettings.ollamaModel == "" && DefaultSettings.openaiModel == "gpt-4o-mini"
    ensures DefaultSettings.reportLocation == "/" && DefaultSettings.excludedFolders == []
  {
  }

  /** Each stored field overrides its own default and nothing else: loading
      from two stored records that differ only in one field gives settings
      that differ only in that field. For the template this holds when the
      stored template is not empty; an empty one loads as the default. */
  lemma StoredFieldIsolated(stored: StoredSettings, key: string, endpoint: string, model: string,
                            chatModel: string, location: string, folders: seq<string>,
                            template: string, format: DateFormat)
    ensures var a := LoadSettings(stored);
      LoadSettings(stored.(apiKey := Some(key))) == a.(apiKey := key)
    ensures var a := LoadSettings(stored);
      LoadSettings(stored.(apiEndpoint := Some(endpoint))) == a.(apiEndpoint := endpoint)
    ensures var a := LoadSettings(stored);
      LoadSettings(stored.(ollamaModel := Some(model))) == a.(ollamaModel := model)
    ensures var a := LoadSettings(stored);
      LoadSettings(stored.(openaiModel := Some(chatModel))) == a.(openaiModel := chatModel)
    ensures var a := LoadSettings(stored);
      LoadSettings(stored.(reportLocation := Some(location))) == a.(reportLocation := location)
    ensures var a := LoadSettings(stored);
      LoadSettings(stored.(excludedFolders := Some(folders))) == a.(excludedFolders := folders)
    ensures var a := LoadSettings(stored);
      template != "" ==> LoadSettings(stored.(promptTemplate := Some(template))) == a.(promptTemplate := template)
    ensures var a := LoadSettings(stored);
      LoadSettings(stored.(dateFormat := Some(format))) == a.(dateFormat := format)
  {
  }
}
