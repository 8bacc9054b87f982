/** What `logError` leaves in the vault for a failure: an entry saying when,
    where and what, with a snapshot of the connection settings in which the
    key is only reported as set or not set, appended to the debug log of the
    report folder. */
module ErrorRecorder {
  import opened Strings
  import opened Settings
  import opened Vault
  import opened Paths

  const NotSet: string := "Not set"
  const Rule: string := "-------------------"

  /** `a || 'Not set'` for a string `a`. */
  function OrNotSet(a: string): string {
    if a == "" then NotSet else a
  }

  /** The line about the model exactly as the template writes it: the
      `|| 'Not set'}` after the substitution is plain text, so no fallback
      happens. */
  function ModelLineAsWritten(s: PluginSettings): string {
    "- model: " + s.ollamaModel + " || 'Not set'}"
  }

  /** The line about the model with the fallback applied, as done for the
      endpoint on the line above it. */
  function ModelLine(s: PluginSettings): string {
    "- model: " + OrNotSet(s.ollamaModel)
  }

  /** The four lines of the configuration snapshot, with `modelLine` as the
      line about the model. */
  function Snapshot(s: PluginSettings, modelLine: string): string {
    "API configuration: \n"
    + "- endpoint: " + OrNotSet(s.apiEndpoint) + "\n"
    + modelLine + "\n"
    + "- apiKey: " + (if s.apiKey != "" then "Set" else NotSet) + "\n"
  }

  /** The whole entry for an error with `message` and `stack`, raised in
      `context` at `time`. */
  function EntryWith(time: string, context: string, message: string, stack: string, s: PluginSettings,
                     modelLine: string): string {
    "\n[" + time + "] " + context + "\n"
    + "Error message: " + message + "\n"
    + "Stack trace: " + stack + "\n"
    + Snapshot(s, modelLine)
    + Rule + "\n"
  }

  /** The entry as the template writes it, stray model text included. */
  function EntryAsWritten(time: string, context: string, message: string, stack: string, s: PluginSettings)
    : string
  {
    EntryWith(time, context, message, stack, s, ModelLineAsWritten(s))
  }

  /** The entry with the model line's fallback applied. */
  function Entry(time: string, context: string, message: string, stack: string, s: PluginSettings): string {
    EntryWith(time, context, message, stack, s, ModelLine(s))
  }

  /** The entry never depends on the key itself: two settings that agree on
      the endpoint, the model and whether a key is set give the same entry,
      whatever the keys are, both as written and corrected. */
  lemma KeyOnlyAsPresence(time: string, context: string, message: string, stack: string,
                          s1: PluginSettings, s2: PluginSettings)
    requires s1.apiEndpoint == s2.apiEndpoint && s1.ollamaModel == s2.ollamaModel
    requires (s1.apiKey == "") == (s2.apiKey == "")
    ensures EntryAsWritten(time, context, message, stack, s1) == EntryAsWritten(time, context, message, stack, s2)
    ensures Entry(time, context, message, stack, s1) == Entry(time, context, message, stack, s2)
  {
  }

  /** The snapshot reports the key's presence on its last line. */
  lemma KeyLine(s: PluginSettings, modelLine: string)
    ensures var tail := "- apiKey: " + (if s.apiKey != "" then "Set" else "Not set") + "\n";
      && |tail| <= |Snapshot(s, modelLine)|
      && Snapshot(s, modelLine)[|Snapshot(s, modelLine)| - |tail|..] == tail
  {
    var tail := "- apiKey: " + (if s.apiKey != "" then "Set" else "Not set") + "\n";
    assert Snapshot(s, modelLine)[|Snapshot(s, modelLine)| - |tail|..] == tail;
  }

  /** With no local model configured, the template as written prints the
      stray `|| 'Not set'}` instead of `Not set`. */
  lemma EmptyModelLine(s: PluginSettings)
    requires s.ollamaModel == ""
    ensures ModelLineAsWritten(s) == "- model:  || 'Not set'}"
    ensures ModelLine(s) == "- model: Not set"
  {
  }

  /** The fixed line reads the model back: the text after `- model: ` is the
      model when one is set, and it reads `Not set` exactly when no model is
      set or the model is itself named `Not set`. */
  lemma ModelLineNamesModel(s: PluginSettings)
    ensures var l := ModelLine(s);
      && |l| >= 9 && l[..9] == "- model: "
      && (s.ollamaModel != "" ==> l[9..] == s.ollamaModel)
      && (l[9..] == NotSet <==> s.ollamaModel == "" || s.ollamaModel == NotSet)
  {
    var l := ModelLine(s);
    assert l[..9] == "- model: ";
    assert l[9..] == OrNotSet(s.ollamaModel);
  }

  /** As written, the model line always ends with the stray text, so it
      never reads back as the model alone. */
  lemma ModelLineAsWrittenKeepsStray(s: PluginSettings)
    ensures var l := ModelLineAsWritten(s);
      && |l| >= 9 + 14
      && l[9..|l| - 14] == s.ollamaModel
      && l[|l| - 14..] == " || 'Not set'}"
  {
    var l := ModelLineAsWritten(s);
    assert l[9..|l| - 14] == s.ollamaModel;
    assert l[|l| - 14..] == " || 'Not set'}";
  }

  const LogName: string := "debug-errors.md"

  /** The vault path of `${reportLocation}/debug-errors.md`. The code hands
      the text as it is to the vault adapter, which resolves repeated,
      leading and trailing separators; the model keys it by the path
      `normalizePath` gives, like every other file. */
  function LogPath(location: string): string {
    NormalizePath(location + "/" + LogName)
  }

  /** The log lies directly in the normalised report folder, or at the vault
      root when that folder is empty or only slashes. */
  lemma LogPathShape(location: string)
    ensures LogPath(location)
         == if AllSlashes(location) then LogName else NormalizePath(location) + "/" + LogName
  {
    LacksByCheck("debug-err", '/', 9);
    LacksByCheck("ors.md", '/', 6);
    LacksConcat("debug-err", "ors.md", '/');
    assert LogName == "debug-err" + "ors.md";
    NormalizeChild(location, LogName);
  }

  /** With the default location `/`, an entry is appended to the log at the
      vault root, after what that log already holds. */
  lemma RootLogAppended(files: Files, entry: string)
    requires LogName in files
    ensures AppendEntry(files, LogPath("/"), entry)[LogName] == files[LogName] + "\n" + entry
  {
    LogPathShape("/");
    assert AllSlashes("/");
  }

  /** What the log holds before a new entry: its text and a line break, or
      nothing when there is no log yet. */
  function Prior(files: Files, path: string): string {
    if path in files then files[path] + "\n" else ""
  }

  /** One call of `logError` on the log at `log`: the entry is written
      after the existing log and a line break, or as a new log. */
  function AppendEntry(files: Files, log: string, entry: string): (r: Files)
    ensures r.Keys == files.Keys + {log}
    ensures forall p :: p in files && p != log ==> r[p] == files[p]
    ensures var old_ := Prior(files, log);
      && |old_| + |entry| == |r[log]|
      && r[log][..|old_|] == old_
      && r[log][|old_|..] == entry
  {
    var text := Prior(files, log) + entry;
    assert text[..|Prior(files, log)|] == Prior(files, log);
    assert text[|Prior(files, log)|..] == entry;
    files[log := text]
  }

  /** `logError` called once per entry, in order. */
  function AppendEntries(files: Files, log: string, entries: seq<string>): (r: Files)
    ensures r.Keys == files.Keys + (if entries == [] then {} else {log})
    ensures forall p :: p in files && p != log ==> r[p] == files[p]
    decreases |entries|
  {
    if entries == [] then files
    else AppendEntries(AppendEntry(files, log, entries[0]), log, entries[1..])
  }

  /** After any number of entries the log is what it held before, a line
      break, and the entries one after another, separated by line breaks. */
  lemma {:induction false} LogOfEntries(files: Files, log: string, entries: seq<string>)
    requires entries != []
    ensures AppendEntries(files, log, entries)[log]
         == Prior(files, log) + Join(entries, "\n")
    decreases |entries|
  {
    var once := AppendEntry(files, log, entries[0]);
    var rest := entries[1..];
    if rest == [] {
      assert once[log] == Prior(files, log) + entries[0];
    } else {
      LogOfEntries(once, log, rest);
      PriorAfterEntry(files, log, entries[0]);
      assert [entries[0]] + rest == entries;
      JoinCons(entries[0], rest, "\n");
    }
  }

  lemma PriorAfterEntry(files: Files, log: string, entry: string)
    ensures Prior(AppendEntry(files, log, entry), log) == Prior(files, log) + entry + "\n"
  {
  }

  /** Two entries in a row: the log reads its old text, the first entry, a
      line break and the second. */
  lemma LogOfTwo(files: Files, log: string, first: string, second: string)
    ensures AppendEntries(files, log, [first, second])[log]
         == Prior(files, log) + first + "\n" + second
  {
    LogOfEntries(files, log, [first, second]);
    assert [first, second][1..] == [second];
    assert Join([first, second], "\n") == first + "\n" + second;
  }
}
