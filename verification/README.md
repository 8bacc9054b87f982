# Daily report pipeline — a Dafny model

This project models the decision logic of an Obsidian plugin that writes a
daily report. The plugin:

1. picks the notes created or modified on a given day, skipping excluded
   folders;
2. builds a prompt from a template and the notes' contents;
3. sends the prompt to either a local Ollama server (`/api/generate`) or a
   chat-completion endpoint;
4. folds the reply into one summary;
5. appends that summary to the day's `Daily Report-YYYY-MM-DD.md`, or
   creates the report if it does not exist.

It also models loading the settings over their defaults, the error-log
entry with its redacted configuration snapshot and its append to the debug
log, and the sign flip of the "previous day" command.

Everything is stated as pure functions over immutable data. The host is
passed in as parameters:

- the vault is a map from path to content;
- the document listing is a sequence;
- the calendar day of a timestamp is a function `dayOf`;
- the HTTP transport is a function from request to response or error;
- `JSON.parse` of one line of an Ollama reply is a function `parse`.

The modules, one per file:

| module | file | what it holds |
|---|---|---|
| `Wrappers` | `wrappers.dfy` | `Option` and `Result` |
| `Strings` | `strings.dfy` | JavaScript string operations the code relies on: first-occurrence `replace`, including the `$` patterns of the replacement string as the GetSubstitution operation of the ECMAScript language specification defines them; `split`, `join`, `trim`, `String(n)`, `padStart` |
| `Paths` | `paths.dfy` | the separator handling of the host's `normalizePath` |
| `Vault` | `vault.dfy` | documents, calendar dates, the vault map |
| `Settings` | `settings.dfy` | the settings record, its defaults, `loadSettings` |
| `NoteSelector` | `note_selector.dfy` | the day's notes and folder exclusion |
| `PromptBuilder` | `prompt_builder.dfy` | `generatePrompt` |
| `LlmGateway` | `llm_gateway.dfy` | `callLLM`: the request, status check, reply folding |
| `ReportWriter` | `report_writer.dfy` | `createDailyReport`: path, stamp, merge |
| `ErrorRecorder` | `error_recorder.dfy` | `logError`: the text of an entry and its append to the debug log |
| `Pipeline` | `pipeline.dfy` | `generateDailyReportForDate` and the days-offset flip |

Some behaviours of the code that are easy to miss:

- **Where `today's notes` is looked for.** The phrase is looked for in the
  whole prompt after the notes are inserted (main.ts:246-247), not only in
  the template. So, under a template without the phrase, a note that
  contains it is rewritten. `PromptBuilder.DatePhraseReachesNoteText`
  shows this.
- **The report path.** `normalizePath` removes a leading `/`, so with the
  default location `/` the report is `Daily Report-…md` at the vault root,
  not `/Daily Report-…md` (`ReportWriter.DefaultLocationIsRoot`).
- **Rejected model calls are logged twice.** `callLLM` logs the failure
  under `Fail to call LLM API` and rethrows it, and the run then logs the
  rethrown error under `Fail to generate report` (main.ts:139-141,
  main.ts:209). `Pipeline.RejectedRunLogsTwice` shows the two entries in
  the debug log.
- **The debug log is written on every failure.** A failed run leaves the
  day's report alone but appends to `<location>/debug-errors.md`
  (main.ts:271-279). The code hands that text to the vault adapter as it
  is, so with the default location `/` the log is `debug-errors.md` at the
  vault root (`ErrorRecorder.RootLogAppended`).

## Model

| member | source | states |
|---|---|---|
| Settings.LoadSettings | main.ts:52-59 | the loaded template is never empty; a stored non-empty template is kept; an absent or empty one becomes the default |
| Settings.StoreLoadRoundTrip | main.ts:52-63 | saving then loading gives the saved settings back, except an empty template, which comes back as the default |
| Settings.FirstRunGivesDefaults | setting.ts:16-44 | with nothing stored, the loaded settings are the defaults: no local model, `gpt-4o-mini`, location `/`, no excluded folders |
| Settings.StoredFieldIsolated | main.ts:53 | the merge is field by field: for each of the eight fields, storing it changes that field of the result and no other; for the template this holds for a non-empty value |
| Paths.NormalizePath | main.ts:180-181 | the result has no leading, trailing or doubled `/`, or is `/` itself |
| Paths.NormalizeNormalised | main.ts:180-181 | `normalizePath` leaves an already normalised path unchanged |
| Paths.NormalizeIdempotent | main.ts:180-181 | normalising twice is normalising once |
| Paths.NormalizeLeadingSlash | main.ts:180 | a leading `/` does not change the normalised path |
| Paths.NormalizeTrailingSlash | main.ts:180 | a trailing `/` does not change the normalised path |
| Paths.NormalisedChild | main.ts:182 | a normalised folder, one `/` and a normalised name give a normalised path |
| Paths.NormalizeChild | main.ts:152 | a slash-free file name under a folder normalises to the name under the normalised folder, or to the bare name when the folder is only slashes or empty |
| NoteSelector.SelectNotes | main.ts:171-188 | the selection keeps the listing's order and holds exactly the listed documents that are not excluded and were created or modified on the day, each as many times as the listing holds it |
| NoteSelector.EmptyEntryIgnored | main.ts:179 | an empty folder entry excludes nothing, and adding one changes no exclusion |
| NoteSelector.ExclusionNested | main.ts:178-184 | exclusion is transitive down the folder tree |
| NoteSelector.ExcludedByNormalised | main.ts:180-183 | on normalised entries and paths, exclusion holds exactly for the folder itself and the paths below it |
| NoteSelector.ExcludesFolderItself | main.ts:183 | the entry `A/B` excludes the path `A/B` |
| NoteSelector.ExcludesBelow | main.ts:182 | an entry excludes every normalised path under the folder it normalises to |
| NoteSelector.ExcludesBelowFolder | main.ts:182 | the entry `A/B` excludes `A/B/c.md` |
| NoteSelector.SiblingPrefixNotExcluded | main.ts:182 | the entry `A/B` does not exclude `A/B2/c.md`: matching stops at a separator |
| NoteSelector.TrailingSlashEntry | main.ts:180 | an entry with a trailing `/` excludes exactly what the entry without it excludes |
| NoteSelector.LeadingSlashEntry | main.ts:180 | an entry with a leading `/` excludes exactly what the entry without it excludes |
| NoteSelector.DefaultSelectsByDayOnly | main.ts:178-187 | with no excluded folders, a document is selected if and only if it was created or modified on the day |
| NoteSelector.MoreFoldersSelectFewer | main.ts:178-187 | with one more excluded folder, the selection is the earlier selection with some notes left out, in the same order |
| PromptBuilder.ReadBlocks | main.ts:225-230 | reading succeeds exactly when every selected note is in the vault; the blocks are `name:\ncontent` in selection order; a failure names a missing selected note |
| PromptBuilder.BuildPrompt | main.ts:223-256 | the prompt is built exactly when every selected note can be read |
| PromptBuilder.PlaceholderFilled | main.ts:232-234 | the first `{{notes}}` becomes the blocks joined by a blank line, and the text around it is kept |
| PromptBuilder.NoPlaceholderNoNotes | main.ts:234 | a template without `{{notes}}` is used as it is |
| PromptBuilder.DatePhraseSubstitution | main.ts:237-248 | without a date, or without the phrase, the prompt is unchanged; otherwise the first `today's notes` becomes `notes from <date>` |
| PromptBuilder.ReadOne | main.ts:226-229 | one readable note gives the single block `name:\ncontent` |
| PromptBuilder.PromptExample | main.ts:225-234 | the template `X {{notes}} Y` with one note `n` holding `c` gives `X n:\nc Y` |
| PromptBuilder.DefaultTemplateShape | setting.ts:23 | the default template is the lead, `today's notes`, a colon, a blank line and `{{notes}}` |
| PromptBuilder.DefaultTemplatePlaceholders | setting.ts:23 | in the default template, `{{notes}}` occurs only at index 53 and `today's notes` first occurs at index 37 |
| PromptBuilder.DefaultPromptWithDate | main.ts:232-248 | the default template with a date gives the lead, `notes from <date>:`, a blank line, then the joined blocks |
| PromptBuilder.DatePhraseReachesNoteText | main.ts:246-247 | the phrase is looked for in the whole prompt: under the template `{{notes}}`, a note containing `today's notes` has it rewritten |
| PromptBuilder.BuildPromptAsWritten | main.ts:234 | the prompt as the code writes it is built exactly when every selected note can be read |
| PromptBuilder.AsWrittenExpandsNotes | main.ts:234 | as written, the inserted text is the joined blocks after `$` pattern expansion |
| PromptBuilder.AsWrittenAgreesWithoutDollar | main.ts:234 | when no note name or content contains `$`, the prompt as written equals the corrected prompt |
| PromptBuilder.DollarMathCollapsed | main.ts:234 | a note holding `$$x$$` comes out as `$x$` as written, but verbatim in the corrected prompt |
| Strings.ReplaceFirstAt | main.ts:247 | replacing the first occurrence of a pattern keeps the text before and after it |
| Strings.JsReplaceLiteral | main.ts:234 | a replacement without `$` is inserted verbatim |
| Strings.JsReplaceAt | main.ts:234 | the JavaScript replace puts the expanded replacement in place of the first occurrence |
| Strings.SplitJoin | main.ts:103 | splitting at a separator that no part contains gives the parts back |
| Strings.TrimIsCore | main.ts:108 | the trimmed text is a slice of the input with only whitespace cut from each end, and neither of its ends is whitespace |
| Strings.ParseIntToString | main.ts:148-151 | the decimal text of an integer reads back as that integer |
| Strings.TwoDigitsFacts | main.ts:149-150 | a month or day below 100 padded to two characters is two digits that read back as the number |
| LlmGateway.BuildRequest | main.ts:83-131 | the request is a POST; it has the generate body exactly when a local model is named; the body carries the prompt, the selected model and temperature 0.7 |
| LlmGateway.Dispatch | main.ts:83-131 | local: the endpoint, or `http://localhost:11434` if it is empty, plus `/api/generate`, with no headers; chat: the endpoint as given, with a bearer header carrying the key |
| LlmGateway.RequestReadsOnlyItsFields | main.ts:83-131 | the request depends only on the model, the endpoint and, for chat, the key and chat model |
| LlmGateway.DefaultSettingsUseChat | main.ts:114-131 | the default settings send a chat request for `gpt-4o-mini` to the empty endpoint with an empty bearer key |
| LlmGateway.ChatAnswer | main.ts:138 | a non-empty answer is the content of the first choice's message |
| LlmGateway.MissingChoiceIsEmpty | main.ts:138 | a missing choice list, empty choice list, missing message or missing content gives the empty answer |
| LlmGateway.FirstChoiceIsAnswer | main.ts:138 | the first choice's content is the answer, whatever follows it |
| LlmGateway.FoldLocalResponse | main.ts:102-108 | the loop over the reply lines computes exactly the split, filter, parse, join and trim of the reply |
| LlmGateway.GatheredSnoc | main.ts:103-107 | one more line is skipped if blank, fails the fold if malformed, and otherwise appends its `response` field |
| LlmGateway.GatheredFailurePersists | main.ts:105 | once a line fails to parse, the whole reply fails with that line's error |
| LlmGateway.BlankLineIgnored | main.ts:104 | a blank line anywhere in the reply changes nothing |
| LlmGateway.LocalAnswerOfLines | main.ts:102-108 | lines each carrying a `response` fragment give the trimmed concatenation of the fragments |
| LlmGateway.CallLLM | main.ts:81-144 | an answer is only returned for a status-200 reply; a rejection records which protocol and the status, and that status is not 200 |
| LlmGateway.AcceptedReplyIsRead | main.ts:98-138 | a transport error is passed on; a status-200 reply is read by the protocol in use, with a malformed body as a failure |
| LlmGateway.Non200Fails | main.ts:99-135 | any status other than 200 rejects the call for either protocol |
| LlmGateway.RejectionNamesStatus | main.ts:100-142 | the thrown message ends with the status, which reads back exactly |
| ReportWriter.StampParts | main.ts:148-151 | the stamp is the year, `-`, the one-based month in two digits, `-`, the day in two digits |
| ReportWriter.StampRoundTrip | main.ts:148-151 | the stamp decodes back to the date it was written from |
| ReportWriter.StampInjective | main.ts:148-151 | different days have different stamps |
| ReportWriter.FileNameHasNoSlash | main.ts:152 | the report file name is non-empty and has no `/` |
| ReportWriter.ReportPathShape | main.ts:152 | the report is the file name directly under the normalised location, or at the vault root when the location is empty or only slashes |
| ReportWriter.DefaultLocationIsRoot | main.ts:152 | with the location `/`, the report path is `Daily Report-<stamp>.md`, with no leading `/` |
| ReportWriter.ReportPathInjective | main.ts:148-152 | one location holds a different report file for every day |
| ReportWriter.WriteReport | main.ts:154-160 | only the report path is added or changed; an existing report is followed by exactly `\n\n## updated at <time>\n\n` and the summary; a new one is exactly `# <stamp> report\n\n` followed by the summary |
| ReportWriter.TwoWritesKeepBoth | main.ts:154-157 | writing two summaries keeps both in order, under an `## updated at` heading, after the earlier content |
| ReportWriter.CreateDailyReport | main.ts:146-161 | after a write, the day's report exists, and every other file is unchanged and no other file is added |
| ReportWriter.OtherDayUntouched | main.ts:146-161 | writing one day's report never changes another day's report |
| ErrorRecorder.KeyOnlyAsPresence | main.ts:261-270 | the entry, both as the template writes it and with the model line corrected, depends on the key only through whether one is set |
| ErrorRecorder.KeyLine | main.ts:268 | the snapshot ends with `- apiKey: Set` or `- apiKey: Not set`, whatever the model line |
| ErrorRecorder.EmptyModelLine | main.ts:267 | with no local model, the line as written is `- model:  \|\| 'Not set'}`, where `- model: Not set` was meant |
| ErrorRecorder.ModelLineAsWrittenKeepsStray | main.ts:267 | as written, the model line always ends with the stray text after the model |
| ErrorRecorder.ModelLineNamesModel | main.ts:266-267 | the corrected line shows a set model after `- model: `; the text there is `Not set` exactly when no model is set or the model is itself named `Not set` |
| ErrorRecorder.LogPathShape | main.ts:271 | the log is `debug-errors.md` directly in the normalised report folder, or at the vault root when the folder is empty or only slashes |
| ErrorRecorder.RootLogAppended | main.ts:271-279 | with the default location `/`, an entry is appended to the root `debug-errors.md` after its old text and a line break |
| ErrorRecorder.AppendEntry | main.ts:273-279 | an entry goes to the log, after its old text and a line break, or as a new log; no other file is added or changed |
| ErrorRecorder.AppendEntries | main.ts:271-279 | entries appended one by one add at most the log file and leave every other file as it was |
| ErrorRecorder.LogOfEntries | main.ts:271-279 | after one or more entries the log is its old text and a line break, then the entries separated by line breaks |
| Pipeline.DaysBack | main.ts:32 | the offset is never positive, and its magnitude is the number of days picked |
| Pipeline.GenerateReportForDate | main.ts:169-212 | at most one request is sent; a written report changes only the day's report path; any other run leaves the vault as it was apart from the entries it appends to the debug log; the run fails exactly when it logs; it stops with no notes exactly when the selection is empty; a prompt failure logs one entry under `Fail to generate report`, a model failure two, under `Fail to call LLM API` and then `Fail to generate report` |
| Pipeline.NoNotesNoCall | main.ts:191-194 | when no document is kept, nothing is sent, written or logged |
| Pipeline.RequestCarriesPrompt | main.ts:196-198 | the request sent is the one built from the prompt of the selected notes with the display date |
| Pipeline.EmptySummaryNoWrite | main.ts:200-203 | an empty summary ends the run without touching the vault |
| Pipeline.SummaryAppended | main.ts:205 | a non-empty summary is written at the end of the day's report, after the report's earlier content |
| Pipeline.RejectedRunLogsTwice | main.ts:198-209 | a rejection by the model server fails the run with its status; the debug log gains the `callLLM` entry with the status message and then the run's entry with that message behind `Fail to call LLM API: `; every other file is unchanged |
| Pipeline.GatewayFailureLog | main.ts:139-141 | any failure of the model call leaves the log with its two entries, in order, after its old text, and every other file unchanged |
| Pipeline.UnreadableNoteLogged | main.ts:196-209 | a selected note missing from the vault fails the run before any request; the failure names a selected note that is missing, and the log gains one entry under `Fail to generate report` with the read error |
| Pipeline.ReportIsNotLog | main.ts:152-160 | the day's report path is never the debug log's path |
| Pipeline.FailedRunKeepsReport | main.ts:208-209 | a failed run neither creates nor changes the day's report |
| Pipeline.RequestAsWrittenWithoutDollar | main.ts:196-198 | when no selected note has `$` in its name or content, the request sent is also the one built from the prompt as the code writes it |

## Left out

- The settings screen, the day-count and date-picker dialogs, the command registration, the notices and the console output: these are user interface, not decisions.
- Calendar arithmetic and locale: turning a timestamp into a local day, `setDate` on an offset, `toLocaleDateString`, `toLocaleTimeString` and `toISOString`. The day of a timestamp is the parameter `dayOf`, and the display date and the time of day are given as text.
- `dateFormat.parse` and `getDateFromFileName`: nothing in the pipeline calls them.
- `version-bump.mjs` is not part of this model; it is packaging.
- The HTTP transport and JSON: `requestUrl` and the parsing of a reply body are parameters. A transport that throws for some statuses is a `send` that returns a failure.
- JSON values that are not strings: a non-string `response` or `content` is not modelled. Only a present string and a missing field are.
- Concurrency: `Promise.all` over the note reads is modelled as reading the notes in selection order, the order the joined result has.
- Failures to read, write or create the report, and failures inside `logError` itself: the vault operations are total.
- NoteSelector.SelectNotes: compares calendar days, where the code compares the timestamp of the local midnight of a note's creation or modification with `date.getTime()` (main.ts:174-187). The two agree when the run's date is a local midnight, as the commands for today and for earlier days make it (main.ts:67-70). The date picker instead passes `new Date("YYYY-MM-DD")` (main.ts:456), which is midnight UTC. Wherever the local offset from UTC is not zero, that is no local midnight, so the code keeps no note while the model keeps that day's notes. Time zones are not modelled.
- Pipeline.GenerateReportForDate: builds the prompt with the notes inserted verbatim (`PromptBuilder.BuildPrompt`), not with the `$` expansion the code applies (`PromptBuilder.BuildPromptAsWritten`, see Findings). The two agree when no selected note has `$` in its name or content (`Pipeline.RequestAsWrittenWithoutDollar`).
- Pipeline.GenerateReportForDate: writes log entries with the model line's fallback applied (`ErrorRecorder.Entry`), not the stray text the template prints (`ErrorRecorder.EntryAsWritten`, see Findings).
- Pipeline.RejectedRunLogsTwice: states the log with the corrected entries (`ErrorRecorder.Entry`), not the stray model-line text the template prints (`ErrorRecorder.EntryAsWritten`, see Findings). The two differ only in the model line.
- Pipeline.GatewayFailureLog: states the log with the corrected entries (`ErrorRecorder.Entry`), not `ErrorRecorder.EntryAsWritten`; the two differ only in the model line.
- Pipeline.UnreadableNoteLogged: states the log with the corrected entry (`ErrorRecorder.Entry`), not `ErrorRecorder.EntryAsWritten`; the two differ only in the model line.
- ErrorRecorder.LogPathShape: the code passes the unnormalised text `${reportLocation}/debug-errors.md` to the vault adapter. The model keys the log by the path `normalizePath` gives, which assumes the adapter resolves repeated, leading and trailing `/` the same way. The adapter is not part of this model.
- Timestamps and stack traces of error entries are host inputs: the time `callLLM` logs at and the caught error's stack, and the time the run logs at and the rethrown error's stack. That the second time is not earlier than the first is not modelled.
- Pipeline.RequestCarriesPrompt: states the request for the corrected prompt `PromptBuilder.BuildPrompt`; for the prompt as the code writes it, see `Pipeline.RequestAsWrittenWithoutDollar`.
- PromptBuilder.DefaultPromptWithDate: states the prompt with the notes inserted verbatim. The code's prompt expands `$` patterns in the joined notes, and agrees with this one when they contain no `$` (`PromptBuilder.AsWrittenAgreesWithoutDollar`).
- Paths.NormalizePath: models only how the host's `normalizePath` handles `/`. The host function is not part of this model's sources, and whatever else it does to a path, such as space or Unicode normalisation, is not modelled.
- LlmGateway.CallLLM: the thrown text is modelled separately by `Describe`; the contract itself does not relate the failure to the error message.

## Findings

| source | as written | input that shows it | evidently intended | confidence | as-written member | corrected member |
|---|---|---|---|---|---|---|
| main.ts:234 | The joined notes are the replacement string of `String.prototype.replace`, so `$$`, `$&`, `` $` `` and `$'` in a note's name or content are expanded rather than inserted. | The template `{{notes}}` and one note `m` whose content is `$$x$$` (display math) give `m:\n$x$`. | The notes are inserted verbatim: `m:\n$$x$$`. | not executed | PromptBuilder.DollarMathCollapsed | PromptBuilder.PlaceholderFilled |
| main.ts:267 | The fallback `\|\| 'Not set'` on the model line sits outside the interpolation, so it is printed as text and never applied. | Settings with an empty local model give the line `- model:  \|\| 'Not set'}`. | `- model: Not set`, as the endpoint line above it does. | not executed | ErrorRecorder.EmptyModelLine | ErrorRecorder.ModelLineNamesModel |
