/** One run of the daily report for a given day
    (`generateDailyReportForDate`), and the day count of the "previous day"
    command. The host's notices are not modelled; what a run leaves behind is
    its outcome, the vault (the day's report or the debug log), the requests
    it sent and the error entries it recorded. */
module Pipeline {
  import opened Wrappers
  import opened Vault
  import opened Settings
  import opened NoteSelector
  import opened PromptBuilder
  import opened LlmGateway
  import opened ReportWriter
  import opened Strings
  import opened ErrorRecorder
  import opened Paths

  /** `days > 0 ? -days : days`: the number of days picked in the dialog
      always counts backwards from today. */
  function DaysBack(days: int): (r: int)
    ensures r <= 0
    ensures r == days || r == -days
  {
    if days > 0 then -days else days
  }

  const ContextLlm: string := "Fail to call LLM API"
  const ContextReport: string := "Fail to generate report"

  datatype Failure =
    | PromptFailed(prompt: PromptError)
    | GatewayFailed(gateway: GatewayError)

  datatype Outcome =
    | NoNotes
    | EmptySummary
    | Written(path: string)
    | Failed(failure: Failure)

  /** What a run leaves behind: its outcome, the vault, the requests it sent
      and the error-log entries it appended, in order. */
  datatype Run = Run(outcome: Outcome, files: Files, requests: seq<Request>, logged: seq<string>)

  /** The host's side of a run: the document listing, the vault contents, the
      display date and time of day, the message of a failed note read, the
      transport, and the timestamp and stack trace of each error entry. The
      entry `callLLM` records carries its own time and the stack of the
      failure it caught; the entry the run records carries its own time and
      the stack of the rethrown error. */
  datatype Host = Host(
    listing: seq<Document>,
    files: Files,
    displayDate: string,
    time: string,
    llmLogTime: string,
    llmStack: string,
    runLogTime: string,
    runStack: string,
    readError: string -> string,
    dayOf: int -> CalendarDate,
    send: Request -> Result<Response, string>,
    parse: string -> LineParse)

  /** The message `generatePrompt` rethrows when reading a note fails. */
  function PromptMessage(e: PromptError, h: Host): string {
    "Fail to generate prompt: " + h.readError(e.path)
  }

  /** `generateDailyReportForDate(day)`: select, build the prompt, call the
      model once, and write a non-empty summary into the day's report. A
      failing stage ends the run with an error entry appended to the log; a
      failure of the model is recorded twice, once by `callLLM` and once by
      the run. */
  function GenerateReportForDate(s: PluginSettings, day: CalendarDate, h: Host): (r: Run)
    requires ValidDate(day)
    ensures |r.requests| <= 1
    ensures r.outcome.Written? ==>
      && r.outcome.path == ReportPath(s.reportLocation, day)
      && r.files.Keys == h.files.Keys + {r.outcome.path}
      && (forall p :: p in h.files && p != r.outcome.path ==> r.files[p] == h.files[p])
    ensures !r.outcome.Written? ==> r.files == AppendEntries(h.files, LogPath(s.reportLocation), r.logged)
    ensures r.outcome.Failed? <==> r.logged != []
    ensures r.outcome.NoNotes? <==> SelectNotes(h.listing, day, s.excludedFolders, h.dayOf) == []
    ensures r.outcome.NoNotes? ==> r.requests == []
    ensures r.outcome.Failed? && r.outcome.failure.PromptFailed? ==>
      && r.requests == []
      && r.logged == [Entry(h.runLogTime, ContextReport, PromptMessage(r.outcome.failure.prompt, h), h.runStack, s)]
    ensures r.outcome.Failed? && r.outcome.failure.GatewayFailed? ==>
      var e := r.outcome.failure.gateway;
      && |r.requests| == 1
      && r.logged == [Entry(h.llmLogTime, ContextLlm, Message(e), h.llmStack, s),
                      Entry(h.runLogTime, ContextReport, Describe(e), h.runStack, s)]
  {
    var notes := SelectNotes(h.listing, day, s.excludedFolders, h.dayOf);
    if |notes| == 0 then Run(NoNotes, h.files, [], [])
    else
      match BuildPrompt(s.promptTemplate, notes, h.files, Some(h.displayDate))
      case Failure(e) =>
        var logged := [Entry(h.runLogTime, ContextReport, PromptMessage(e, h), h.runStack, s)];
        Run(Failed(PromptFailed(e)), AppendEntries(h.files, LogPath(s.reportLocation), logged), [], logged)
      case Success(prompt) =>
        var request := BuildRequest(s, prompt);
        match CallLLM(s, prompt, h.send, h.parse)
        case Failure(e) =>
          var logged := [Entry(h.llmLogTime, ContextLlm, Message(e), h.llmStack, s),
                         Entry(h.runLogTime, ContextReport, Describe(e), h.runStack, s)];
          Run(Failed(GatewayFailed(e)), AppendEntries(h.files, LogPath(s.reportLocation), logged), [request], logged)
        case Success(summary) =>
          if summary == "" then Run(EmptySummary, h.files, [request], [])
          else
            var path := ReportPath(s.reportLocation, day);
            Run(Written(path), CreateDailyReport(h.files, s.reportLocation, day, h.time, summary), [request], [])
  }

  /** With nothing selected for the day the model is not called and nothing
      is written or recorded. */
  lemma NoNotesNoCall(s: PluginSettings, day: CalendarDate, h: Host)
    requires ValidDate(day)
    requires forall k :: 0 <= k < |h.listing| ==> !Keep(h.listing[k], day, s.excludedFolders, h.dayOf)
    ensures GenerateReportForDate(s, day, h) == Run(NoNotes, h.files, [], [])
  {
    NothingSelected(h.listing, day, s.excludedFolders, h.dayOf);
  }

  lemma {:induction false} NothingSelected(listing: seq<Document>, day: CalendarDate, folders: seq<string>,
                                           dayOf: int -> CalendarDate)
    requires forall k :: 0 <= k < |listing| ==> !Keep(listing[k], day, folders, dayOf)
    ensures SelectNotes(listing, day, folders, dayOf) == []
    decreases |listing|
  {
    if listing != [] {
      assert !Keep(listing[0], day, folders, dayOf);
      NothingSelected(listing[1..], day, folders, dayOf);
    }
  }

  /** The request the run sends carries the prompt built from the selected
      notes, with the day's display date in place of `today's notes`. */
  lemma RequestCarriesPrompt(s: PluginSettings, day: CalendarDate, h: Host)
    requires ValidDate(day)
    ensures var r := GenerateReportForDate(s, day, h);
      var notes := SelectNotes(h.listing, day, s.excludedFolders, h.dayOf);
      |r.requests| == 1 ==>
        && notes != []
        && BuildPrompt(s.promptTemplate, notes, h.files, Some(h.displayDate)).Success?
        && r.requests[0]
           == BuildRequest(s, BuildPrompt(s.promptTemplate, notes, h.files, Some(h.displayDate)).value)
  {
    var notes := SelectNotes(h.listing, day, s.excludedFolders, h.dayOf);
    if notes != [] {
      match BuildPrompt(s.promptTemplate, notes, h.files, Some(h.displayDate))
      case Failure(_) =>
      case Success(prompt) =>
        match CallLLM(s, prompt, h.send, h.parse)
        case Failure(_) =>
        case Success(summary) =>
    }
  }

  /** An empty answer from the model writes nothing. */
  lemma EmptySummaryNoWrite(s: PluginSettings, day: CalendarDate, h: Host)
    requires ValidDate(day)
    requires SelectNotes(h.listing, day, s.excludedFolders, h.dayOf) != []
    requires var notes := SelectNotes(h.listing, day, s.excludedFolders, h.dayOf);
      var p := BuildPrompt(s.promptTemplate, notes, h.files, Some(h.displayDate));
      p.Success? && CallLLM(s, p.value, h.send, h.parse) == Success("")
    ensures GenerateReportForDate(s, day, h).outcome == EmptySummary
    ensures GenerateReportForDate(s, day, h).files == h.files
  {
  }

  /** A non-empty answer ends up at the end of the day's report, after
      whatever the report already held. */
  lemma SummaryAppended(s: PluginSettings, day: CalendarDate, h: Host, summary: string)
    requires ValidDate(day) && summary != ""
    requires SelectNotes(h.listing, day, s.excludedFolders, h.dayOf) != []
    requires var notes := SelectNotes(h.listing, day, s.excludedFolders, h.dayOf);
      var p := BuildPrompt(s.promptTemplate, notes, h.files, Some(h.displayDate));
      p.Success? && CallLLM(s, p.value, h.send, h.parse) == Success(summary)
    ensures var r := GenerateReportForDate(s, day, h);
      var path := ReportPath(s.reportLocation, day);
      && r.outcome == Written(path)
      && |summary| <= |r.files[path]|
      && r.files[path][|r.files[path]| - |summary|..] == summary
      && (path in h.files ==> |h.files[path]| <= |r.files[path]|
                              && r.files[path][..|h.files[path]|] == h.files[path])
  {
  }

  /** A model server that answers with any status other than 200 ends the
      run as a failure naming that status. No report is written; the log
      gains two entries, the first from `callLLM` with the status message,
      the second from the run with that message behind `callLLM`'s prefix. */
  lemma RejectedRunLogsTwice(s: PluginSettings, day: CalendarDate, h: Host, notes: seq<Document>,
                             prompt: string, reply: Response)
    requires ValidDate(day)
    requires notes == SelectNotes(h.listing, day, s.excludedFolders, h.dayOf) && notes != []
    requires BuildPrompt(s.promptTemplate, notes, h.files, Some(h.displayDate)) == Success(prompt)
    requires h.send(BuildRequest(s, prompt)) == Success(reply) && reply.status != 200
    ensures var r := GenerateReportForDate(s, day, h);
      var lp := LogPath(s.reportLocation);
      var cause := (if UsesLocalModel(s) then "Ollama request failed: " else "API request failed: ")
                   + IntToString(reply.status);
      && r.outcome == Failed(GatewayFailed(Rejected(UsesLocalModel(s), reply.status)))
      && (forall p :: p in h.files && p != lp ==> r.files[p] == h.files[p])
      && r.files[lp] == Prior(h.files, lp)
                        + Entry(h.llmLogTime, ContextLlm, cause, h.llmStack, s) + "\n"
                        + Entry(h.runLogTime, ContextReport, "Fail to call LLM API: " + cause, h.runStack, s)
  {
    Non200Fails(s, prompt, h.send, h.parse);
    var e := Rejected(UsesLocalModel(s), reply.status);
    assert GenerateReportForDate(s, day, h).outcome == Failed(GatewayFailed(e));
    GatewayFailureLog(s, day, h, e);
  }

  /** A failure of the model leaves the log with its two entries after what
      it held before, and every other file as it was. */
  lemma GatewayFailureLog(s: PluginSettings, day: CalendarDate, h: Host, e: GatewayError)
    requires ValidDate(day)
    requires GenerateReportForDate(s, day, h).outcome == Failed(GatewayFailed(e))
    ensures var r := GenerateReportForDate(s, day, h);
      var lp := LogPath(s.reportLocation);
      && (forall p :: p in h.files && p != lp ==> r.files[p] == h.files[p])
      && r.files[lp] == Prior(h.files, lp)
                        + Entry(h.llmLogTime, ContextLlm, Message(e), h.llmStack, s) + "\n"
                        + Entry(h.runLogTime, ContextReport, Describe(e), h.runStack, s)
  {
    var first := Entry(h.llmLogTime, ContextLlm, Message(e), h.llmStack, s);
    var second := Entry(h.runLogTime, ContextReport, Describe(e), h.runStack, s);
    LogOfTwo(h.files, LogPath(s.reportLocation), first, second);
  }

  /** A selected note that cannot be read ends the run before the model is
      called. No report is written, and the log gains one entry, recorded by
      the run, carrying the read failure's message. */
  lemma UnreadableNoteLogged(s: PluginSettings, day: CalendarDate, h: Host, notes: seq<Document>, k: nat)
    requires ValidDate(day)
    requires notes == SelectNotes(h.listing, day, s.excludedFolders, h.dayOf)
    requires k < |notes| && notes[k].path !in h.files
    ensures var r := GenerateReportForDate(s, day, h);
      var lp := LogPath(s.reportLocation);
      && r.outcome.Failed? && r.outcome.failure.PromptFailed?
      && r.requests == []
      && r.outcome.failure.prompt.path !in h.files
      && (exists j :: 0 <= j < |notes| && notes[j].path == r.outcome.failure.prompt.path)
      && (forall p :: p in h.files && p != lp ==> r.files[p] == h.files[p])
      && r.files[lp] == Prior(h.files, lp)
         + Entry(h.runLogTime, ContextReport,
                 "Fail to generate prompt: " + h.readError(r.outcome.failure.prompt.path), h.runStack, s)
  {
    var r := GenerateReportForDate(s, day, h);
    assert notes != [];
    assert !(forall j :: 0 <= j < |notes| ==> notes[j].path in h.files);
    var e := BuildPrompt(s.promptTemplate, notes, h.files, Some(h.displayDate)).error;
    var logged := [Entry(h.runLogTime, ContextReport, PromptMessage(e, h), h.runStack, s)];
    LogOfEntries(h.files, LogPath(s.reportLocation), logged);
  }

  /** The debug log is never the day's report: both lie in the same folder,
      and their names differ in the first character. */
  lemma ReportIsNotLog(location: string, day: CalendarDate)
    requires ValidDate(day)
    ensures ReportPath(location, day) != LogPath(location)
  {
    var name := ReportFileName(day);
    assert name[0] == 'D' && LogName[0] == 'd';
    ReportPathShape(location, day);
    LogPathShape(location);
    if !AllSlashes(location) {
      var dir := NormalizePath(location) + "/";
      assert (dir + name)[|dir|] == name[0];
      assert (dir + LogName)[|dir|] == LogName[0];
    }
  }

  /** A failed run leaves the day's report exactly as it was. */
  lemma FailedRunKeepsReport(s: PluginSettings, day: CalendarDate, h: Host)
    requires ValidDate(day)
    ensures var r := GenerateReportForDate(s, day, h);
      var rp := ReportPath(s.reportLocation, day);
      r.outcome.Failed? ==>
        && (rp in r.files <==> rp in h.files)
        && (rp in h.files ==> r.files[rp] == h.files[rp])
  {
    ReportIsNotLog(s.reportLocation, day);
  }

  /** When no selected note has a `$` in its name or content, the request
      the run sends is also the one the prompt as written would give. */
  lemma RequestAsWrittenWithoutDollar(s: PluginSettings, day: CalendarDate, h: Host, notes: seq<Document>)
    requires ValidDate(day)
    requires notes == SelectNotes(h.listing, day, s.excludedFolders, h.dayOf)
    requires forall k :: 0 <= k < |notes| ==> Lacks(notes[k].name, '$')
    requires forall k :: 0 <= k < |notes| && notes[k].path in h.files ==> Lacks(h.files[notes[k].path], '$')
    ensures var r := GenerateReportForDate(s, day, h);
      |r.requests| == 1 ==>
        && BuildPromptAsWritten(s.promptTemplate, notes, h.files, Some(h.displayDate)).Success?
        && r.requests[0]
           == BuildRequest(s, BuildPromptAsWritten(s.promptTemplate, notes, h.files, Some(h.displayDate)).value)
  {
    RequestCarriesPrompt(s, day, h);
    AsWrittenAgreesWithoutDollar(s.promptTemplate, notes, h.files, Some(h.displayDate));
  }
}
