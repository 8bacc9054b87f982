/** Building the prompt from the selected notes (`generatePrompt`). */
module PromptBuilder {
  import opened Wrappers
  import opened Strings
  import opened Vault
  import Settings

  const NotesPlaceholder: string := "{{notes}}"
  const TodayPhrase: string := "today's notes"
  const BlockSeparator: string := "\n\n"

  /** A selected note whose content could not be read. */
  datatype PromptError = NoteUnreadable(path: string)

  /** One note as it appears in the prompt: its name, a colon, a line break
      and its content. */
  function NoteBlock(name: string, content: string): string {
    name + ":\n" + content
  }

  /** Reads the selected notes in selection order; the first unreadable note
      aborts the whole build. */
  function ReadBlocks(notes: seq<Document>, files: Files): (r: Result<seq<string>, PromptError>)
    ensures r.Success? <==> forall k :: 0 <= k < |notes| ==> notes[k].path in files
    ensures r.Success? ==>
      && |r.value| == |notes|
      && forall k :: 0 <= k < |notes| ==> r.value[k] == NoteBlock(notes[k].name, files[notes[k].path])
    ensures r.Failure? ==>
      && r.error.path !in files
      && exists k :: 0 <= k < |notes| && notes[k].path == r.error.path
    decreases |notes|
  {
    if notes == [] then Success([])
    else if notes[0].path !in files then Failure(NoteUnreadable(notes[0].path))
    else
      match ReadBlocks(notes[1..], files)
      case Failure(e) => Failure(e)
      case Success(rest) => Success([NoteBlock(notes[0].name, files[notes[0].path])] + rest)
  }

  /** The template with its first `{{notes}}` replaced by the note blocks
      separated by blank lines. */
  function FillNotes(template: string, blocks: seq<string>): string {
    ReplaceFirst(template, NotesPlaceholder, Join(blocks, BlockSeparator))
  }

  /** With a display date, the first `today's notes` of the prompt becomes
      `notes from <date>`; otherwise the prompt is unchanged. */
  function WithDate(prompt: string, date: Option<string>): string {
    if date.Some? && Includes(prompt, TodayPhrase) then
      ReplaceFirst(prompt, TodayPhrase, "notes from " + date.value)
    else prompt
  }

  /** `generatePrompt(notes, date)` with the note contents inserted verbatim. */
  function BuildPrompt(template: string, notes: seq<Document>, files: Files, date: Option<string>)
    : (r: Result<string, PromptError>)
    ensures r.Success? <==> forall k :: 0 <= k < |notes| ==> notes[k].path in files
  {
    match ReadBlocks(notes, files)
    case Failure(e) => Failure(e)
    case Success(blocks) => Success(WithDate(FillNotes(template, blocks), date))
  }

  /** The first placeholder is replaced; the template text before and after
      it is kept verbatim. */
  lemma PlaceholderFilled(template: string, before: string, after: string, blocks: seq<string>)
    requires template == before + NotesPlaceholder + after
    requires NoOccurrenceBefore(template, NotesPlaceholder, |before|)
    ensures FillNotes(template, blocks) == before + Join(blocks, BlockSeparator) + after
  {
    ReplaceFirstAt(template, NotesPlaceholder, Join(blocks, BlockSeparator), before, after);
  }

  /** A template without a placeholder is sent as it is, without the notes. */
  lemma NoPlaceholderNoNotes(template: string, blocks: seq<string>)
    requires Absent(template, NotesPlaceholder)
    ensures FillNotes(template, blocks) == template
  {
  }

  /** The date phrase is substituted only when a date is given and the phrase
      occurs, and then only at its first occurrence. */
  lemma DatePhraseSubstitution(prompt: string, date: Option<string>, before: string, after: string)
    ensures date.None? || Absent(prompt, TodayPhrase) ==> WithDate(prompt, date) == prompt
    ensures date.Some? && prompt == before + TodayPhrase + after
      && NoOccurrenceBefore(prompt, TodayPhrase, |before|)
      ==> WithDate(prompt, date) == before + "notes from " + date.value + after
  {
    if date.Some? && prompt == before + TodayPhrase + after
      && NoOccurrenceBefore(prompt, TodayPhrase, |before|) {
      assert OccursAt(prompt, TodayPhrase, |before|) by {
        assert prompt[|before|..|before| + |TodayPhrase|] == TodayPhrase;
      }
      ReplaceFirstAt(prompt, TodayPhrase, "notes from " + date.value, before, after);
    }
  }

  /** `"X {{notes}} Y"` with one note `n` whose content is `c` gives
      `"X n:\nc Y"`. */
  lemma PromptExample(template: string, doc: Document, files: Files)
    requires template == "X {{notes}} Y"
    requires doc.name == "n" && files == map[doc.path := "c"]
    ensures BuildPrompt(template, [doc], files, None) == Success("X n:\nc Y")
  {
    ReadOne(doc, files);
    var block := NoteBlock("n", "c");
    assert block == "n:\nc";
    ExampleFilled(template, block);
    assert BuildPrompt(template, [doc], files, None) == Success("X n:\nc Y");
  }

  lemma ExampleFilled(template: string, block: string)
    requires template == "X {{notes}} Y" && block == "n:\nc"
    ensures FillNotes(template, [block]) == "X n:\nc Y"
  {
    ExampleTemplate(template);
    PlaceholderFilled(template, "X ", " Y", [block]);
    assert Join([block], BlockSeparator) == block;
    assert "X " + block + " Y" == "X n:\nc Y";
  }

  lemma ExampleTemplate(template: string)
    requires template == "X {{notes}} Y"
    ensures template == "X " + NotesPlaceholder + " Y"
    ensures NoOccurrenceBefore(template, NotesPlaceholder, 2)
  {
    assert template == "X " + NotesPlaceholder + " Y";
    NoOccurrenceAtStart(template, NotesPlaceholder, 2);
  }

  lemma ReadOne(doc: Document, files: Files)
    requires doc.path in files
    ensures ReadBlocks([doc], files) == Success([NoteBlock(doc.name, files[doc.path])])
  {
    assert [doc][1..] == [];
    assert ReadBlocks([doc][1..], files) == Success([]);
    assert [NoteBlock(doc.name, files[doc.path])] + [] == [NoteBlock(doc.name, files[doc.path])];
  }

  /** The default template is an instruction that mentions `today's notes`,
      followed by one placeholder at its very end. */
  const DefaultLead: string := "Please summarize the main content of "

  /** The lead word by word, so that facts about its characters are proved
      one short word at a time. */
  lemma LeadWords()
    ensures DefaultLead == "Please " + "summarize " + "the main " + "content " + "of "
  {
  }

  lemma DefaultTemplateShape()
    ensures Settings.DefaultPromptTemplate == DefaultLead + TodayPhrase + ":\n\n" + NotesPlaceholder
  {
  }

  /** The default template contains `{{notes}}` exactly once, at its end, and
      contains `today's notes`, so both substitutions apply to it. */
  lemma DefaultTemplatePlaceholders()
    ensures forall j: nat :: OccursAt(Settings.DefaultPromptTemplate, NotesPlaceholder, j) <==> j == 53
    ensures NoOccurrenceBefore(Settings.DefaultPromptTemplate, NotesPlaceholder, 53)
    ensures OccursAt(Settings.DefaultPromptTemplate, TodayPhrase, 37)
    ensures NoOccurrenceBefore(Settings.DefaultPromptTemplate, TodayPhrase, 37)
  {
    var t := Settings.DefaultPromptTemplate;
    DefaultTemplateShape();
    LeadLacksApostrophe();
    assert t[..42] == DefaultLead + "today";
    NoOccurrenceByChar(t, TodayPhrase, 37, 5);
    HeadLacksBrace();
    assert t[..53] == DefaultLead + TodayPhrase + ":\n\n";
    NoOccurrenceByChar(t, NotesPlaceholder, 53, 0);
    assert t[53..62] == NotesPlaceholder;
    assert t[37..50] == TodayPhrase;
  }

  lemma LeadLacksApostrophe()
    ensures Lacks(DefaultLead + "today", '\'')
  {
    LacksByCheck("Please ", '\'', 7);
    LacksByCheck("summarize ", '\'', 10);
    LacksByCheck("the main ", '\'', 9);
    LacksByCheck("content ", '\'', 8);
    LacksByCheck("of ", '\'', 3);
    LacksByCheck("today", '\'', 5);
    LacksSix("Please ", "summarize ", "the main ", "content ", "of ", "today", '\'');
    LeadWords();
  }

  lemma HeadLacksBrace()
    ensures Lacks(DefaultLead + TodayPhrase + ":\n\n", '{')
  {
    LacksByCheck("Please ", '{', 7);
    LacksByCheck("summarize ", '{', 10);
    LacksByCheck("the main ", '{', 9);
    LacksByCheck("content ", '{', 8);
    LacksByCheck("of ", '{', 3);
    LacksByCheck("today's ", '{', 8);
    LacksByCheck("notes", '{', 5);
    LacksByCheck(":\n\n", '{', 3);
    LacksConcat("today's ", "notes", '{');
    assert TodayPhrase == "today's " + "notes";
    LacksSix("Please ", "summarize ", "the main ", "content ", "of ", TodayPhrase, '{');
    LeadWords();
    LacksConcat(DefaultLead + TodayPhrase, ":\n\n", '{');
  }

  lemma LacksSix(a: string, b: string, c: string, d: string, e: string, f: string, ch: char)
    requires Lacks(a, ch) && Lacks(b, ch) && Lacks(c, ch) && Lacks(d, ch) && Lacks(e, ch) && Lacks(f, ch)
    ensures Lacks(a + b + c + d + e + f, ch)
  {
    LacksConcat(a, b, ch);
    LacksConcat(a + b, c, ch);
    LacksConcat(a + b + c, d, ch);
    LacksConcat(a + b + c + d, e, ch);
    LacksConcat(a + b + c + d + e, f, ch);
  }

  /** With the default template and a display date, the prompt is the
      instruction about the notes from that date followed by the notes. */
  lemma DefaultPromptWithDate(notes: seq<Document>, files: Files, date: string)
    requires forall k :: 0 <= k < |notes| ==> notes[k].path in files
    ensures var blocks := ReadBlocks(notes, files).value;
      BuildPrompt(Settings.DefaultPromptTemplate, notes, files, Some(date))
      == Success(DefaultLead + "notes from " + date + ":\n\n" + Join(blocks, BlockSeparator))
  {
    var blocks := ReadBlocks(notes, files).value;
    var rest := ":\n\n" + Join(blocks, BlockSeparator);
    DefaultFilled(Settings.DefaultPromptTemplate, blocks);
    var filled := DefaultLead + TodayPhrase + rest;
    assert (DefaultLead + TodayPhrase + ":\n\n") + Join(blocks, BlockSeparator) == filled;
    PhraseAfterLead(filled, rest);
    DatePhraseSubstitution(filled, Some(date), DefaultLead, rest);
    assert DefaultLead + "notes from " + date + rest
      == DefaultLead + "notes from " + date + ":\n\n" + Join(blocks, BlockSeparator);
  }

  lemma DefaultFilled(t: string, blocks: seq<string>)
    requires t == Settings.DefaultPromptTemplate
    ensures FillNotes(t, blocks) == (DefaultLead + TodayPhrase + ":\n\n") + Join(blocks, BlockSeparator)
  {
    DefaultTemplateShape();
    DefaultTemplatePlaceholders();
    PlaceholderAtEnd(t, DefaultLead + TodayPhrase + ":\n\n", blocks);
  }

  lemma PlaceholderAtEnd(t: string, before: string, blocks: seq<string>)
    requires t == before + NotesPlaceholder + ""
    requires NoOccurrenceBefore(t, NotesPlaceholder, |before|)
    ensures FillNotes(t, blocks) == before + Join(blocks, BlockSeparator)
  {
    PlaceholderFilled(t, before, "", blocks);
  }

  /** Whatever follows it, the phrase right after the default lead is the
      first one. */
  lemma PhraseAfterLead(s: string, rest: string)
    requires s == DefaultLead + TodayPhrase + rest
    ensures NoOccurrenceBefore(s, TodayPhrase, |DefaultLead|)
    ensures Includes(s, TodayPhrase)
  {
    LeadLacksApostrophe();
    assert s[..42] == DefaultLead + "today";
    NoOccurrenceByChar(s, TodayPhrase, 37, 5);
    assert s[37..50] == TodayPhrase;
    assert OccursAt(s, TodayPhrase, 37);
  }

  /** The date phrase is looked up in the whole prompt, notes included: with
      a template that lacks the phrase, a note that contains it has its text
      rewritten. */
  lemma DatePhraseReachesNoteText(template: string, doc: Document, files: Files, date: string)
    requires template == NotesPlaceholder
    requires doc.name == "n" && files == map[doc.path := TodayPhrase]
    ensures BuildPrompt(template, [doc], files, Some(date)) == Success("n:\nnotes from " + date)
  {
    ReadOne(doc, files);
    var block := NoteBlock("n", TodayPhrase);
    assert NoOccurrenceBefore(template, NotesPlaceholder, 0);
    assert template == "" + NotesPlaceholder + "";
    PlaceholderAtEnd(template, "", [block]);
    NoteBlockPhrase(block, date);
    assert FillNotes(template, [block]) == block;
    DatePhraseSubstitution(block, Some(date), "n:\n", "");
    assert BuildPrompt(template, [doc], files, Some(date)) == Success("n:\nnotes from " + date);
  }

  lemma NoteBlockPhrase(block: string, date: string)
    requires block == NoteBlock("n", TodayPhrase)
    ensures block == "n:\n" + TodayPhrase + ""
    ensures Join([block], BlockSeparator) == block
    ensures "n:\n" + "notes from " + date + "" == "n:\nnotes from " + date
    ensures NoOccurrenceBefore(block, TodayPhrase, 3)
    ensures Includes(block, TodayPhrase)
  {
    LacksByCheck("n:\ntoday", '\'', 8);
    assert block[..8] == "n:\ntoday";
    NoOccurrenceByChar(block, TodayPhrase, 3, 5);
    assert block[3..16] == TodayPhrase;
    assert OccursAt(block, TodayPhrase, 3);
  }

  /** No occurrence starts before `k` when the characters of `s` before `k`
      differ from the first character of `pat`. */
  lemma NoOccurrenceAtStart(s: string, pat: string, k: nat)
    requires pat != [] && k <= |s|
    requires forall j :: 0 <= j < k ==> s[j] != pat[0]
    ensures NoOccurrenceBefore(s, pat, k)
  {
    forall j: nat | j < k
      ensures !OccursAt(s, pat, j)
    {
      if j + |pat| <= |s| {
        assert s[j..j + |pat|][0] == s[j];
      }
    }
  }

  /* The notes text as the source inserts it: `replace` is given the joined
     blocks as a replacement string, so `$` sequences in note names or
     contents are expanded instead of copied. `FillNotes` above is the
     verbatim insertion the rest of the model uses. */

  /** `promptTemplate.replace('{{notes}}', allContent)` exactly as written. */
  function FillNotesAsWritten(template: string, blocks: seq<string>): string {
    JsReplace(template, NotesPlaceholder, Join(blocks, BlockSeparator))
  }

  /** `generatePrompt` exactly as written. */
  function BuildPromptAsWritten(template: string, notes: seq<Document>, files: Files, date: Option<string>)
    : (r: Result<string, PromptError>)
    ensures r.Success? <==> forall k :: 0 <= k < |notes| ==> notes[k].path in files
  {
    match ReadBlocks(notes, files)
    case Failure(e) => Failure(e)
    case Success(blocks) => Success(WithDate(FillNotesAsWritten(template, blocks), date))
  }

  /** As written, the joined notes are expanded as a replacement pattern
      around the first placeholder. */
  lemma AsWrittenExpandsNotes(template: string, before: string, after: string, blocks: seq<string>)
    requires template == before + NotesPlaceholder + after
    requires NoOccurrenceBefore(template, NotesPlaceholder, |before|)
    ensures FillNotesAsWritten(template, blocks)
         == before + ExpandReplacement(Join(blocks, BlockSeparator), NotesPlaceholder, before, after) + after
  {
    JsReplaceAt(template, NotesPlaceholder, Join(blocks, BlockSeparator), before, after);
  }

  /** When no note name or content contains `$`, the source's prompt and the
      verbatim one coincide, for every template and date. */
  lemma AsWrittenAgreesWithoutDollar(template: string, notes: seq<Document>, files: Files, date: Option<string>)
    requires forall k :: 0 <= k < |notes| ==> Lacks(notes[k].name, '$')
    requires forall k :: 0 <= k < |notes| && notes[k].path in files ==> Lacks(files[notes[k].path], '$')
    ensures BuildPromptAsWritten(template, notes, files, date) == BuildPrompt(template, notes, files, date)
  {
    match ReadBlocks(notes, files)
    case Failure(_) =>
    case Success(blocks) =>
      forall k | 0 <= k < |blocks|
        ensures Lacks(blocks[k], '$')
      {
        LacksByCheck(":\n", '$', 2);
        LacksConcat(notes[k].name, ":\n", '$');
        LacksConcat(notes[k].name + ":\n", files[notes[k].path], '$');
      }
      LacksByCheck(BlockSeparator, '$', 2);
      JoinLacks(blocks, BlockSeparator, '$');
      JsReplaceLiteral(template, NotesPlaceholder, Join(blocks, BlockSeparator));
  }

  /** A note holding display math `$$x$$` loses half of its dollar signs in
      the source's prompt, while the verbatim insertion keeps them. */
  lemma DollarMathCollapsed(template: string, doc: Document, files: Files)
    requires template == NotesPlaceholder
    requires doc.name == "m" && files == map[doc.path := "$$x$$"]
    ensures BuildPromptAsWritten(template, [doc], files, None) == Success("m:\n$x$")
    ensures BuildPrompt(template, [doc], files, None) == Success("m:\n$$x$$")
  {
    ReadOne(doc, files);
    var block := NoteBlock("m", "$$x$$");
    assert block == "m:\n$$x$$";
    assert NoOccurrenceBefore(template, NotesPlaceholder, 0);
    assert template == "" + NotesPlaceholder + "";
    AsWrittenExpandsNotes(template, "", "", [block]);
    DollarExpansion(block);
    assert FillNotesAsWritten(template, [block]) == "m:\n$x$";
    PlaceholderAtEnd(template, "", [block]);
    assert FillNotes(template, [block]) == block;
    assert BuildPrompt(template, [doc], files, None) == Success(block);
    assert BuildPromptAsWritten(template, [doc], files, None) == Success("m:\n$x$");
  }

  lemma DollarExpansion(block: string)
    requires block == "m:\n$$x$$"
    ensures Join([block], BlockSeparator) == block
    ensures ExpandReplacement(block, NotesPlaceholder, "", "") == "m:\n$x$"
  {
    var ph := NotesPlaceholder;
    assert ExpandReplacement(block[8..], ph, "", "") == "";
    assert block[6] == '$' && block[7] == '$' && block[6..][2..] == block[8..];
    assert ExpandReplacement(block[6..], ph, "", "") == "$";
    assert block[5] == 'x' && block[5..][1..] == block[6..];
    assert ExpandReplacement(block[5..], ph, "", "") == "x$";
    assert block[3] == '$' && block[4] == '$' && block[3..][2..] == block[5..];
    assert ExpandReplacement(block[3..], ph, "", "") == "$x$";
    assert block[2] == '\n' && block[2..][1..] == block[3..];
    assert ExpandReplacement(block[2..], ph, "", "") == "\n$x$";
    assert block[1] == ':' && block[1..][1..] == block[2..];
    assert ExpandReplacement(block[1..], ph, "", "") == ":\n$x$";
    assert block[0] == 'm';
  }
}
