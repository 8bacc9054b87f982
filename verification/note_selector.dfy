/** Selection of the day's notes from the vault listing
    (`generateDailyReportForDate`, the filter over `getMarkdownFiles()`). */
module NoteSelector {
  import opened Strings
  import opened Paths
  import opened Vault
  import Settings

  /** One entry of `excludedFolders` excludes a path when the entry is not
      empty and the normalised path equals the normalised entry or lies
      below it (starts with the entry followed by `/`). */
  predicate ExcludedBy(folder: string, path: string) {
    folder != "" &&
    var nf := NormalizePath(folder);
    var np := NormalizePath(path);
    StartsWith(np, nf + "/") || np == nf
  }

  /** `excludedFolders.some(...)` */
  predicate IsExcluded(path: string, folders: seq<string>) {
    exists f :: f in folders && ExcludedBy(f, path)
  }

  /** The document was created or last modified on the target day. */
  predicate OnDay(doc: Document, target: CalendarDate, dayOf: int -> CalendarDate) {
    dayOf(doc.ctime) == target || dayOf(doc.mtime) == target
  }

  /** The filter's predicate. */
  predicate Keep(doc: Document, target: CalendarDate, folders: seq<string>, dayOf: int -> CalendarDate) {
    !IsExcluded(doc.path, folders) && OnDay(doc, target, dayOf)
  }

  /** `a` is `b` with some elements left out, order kept. */
  ghost predicate IsSubsequence<T>(a: seq<T>, b: seq<T>)
    decreases |b|
  {
    if a == [] then true
    else if b == [] then false
    else (a[0] == b[0] && IsSubsequence(a[1..], b[1..])) || IsSubsequence(a, b[1..])
  }

  /** The notes of the day: the listing filtered by `Keep`, in listing order. */
  function SelectNotes(listing: seq<Document>, target: CalendarDate, folders: seq<string>,
                       dayOf: int -> CalendarDate): (r: seq<Document>)
    ensures IsSubsequence(r, listing)
    ensures forall d :: d in r <==> d in listing && Keep(d, target, folders, dayOf)
    ensures forall d :: multiset(r)[d] == if Keep(d, target, folders, dayOf) then multiset(listing)[d] else 0
    decreases |listing|
  {
    if listing == [] then []
    else
      var rest := SelectNotes(listing[1..], target, folders, dayOf);
      assert forall d :: d in listing <==> d == listing[0] || d in listing[1..];
      assert listing == [listing[0]] + listing[1..];
      assert multiset(listing) == multiset([listing[0]]) + multiset(listing[1..]);
      if Keep(listing[0], target, folders, dayOf) then [listing[0]] + rest
      else rest
  }

  /** An empty entry of `excludedFolders` is skipped: it excludes nothing,
      and adding one changes no exclusion. */
  lemma EmptyEntryIgnored(path: string, folders: seq<string>)
    ensures !ExcludedBy("", path)
    ensures IsExcluded(path, folders + [""]) <==> IsExcluded(path, folders)
  {
    assert forall f :: f in folders + [""] <==> f in folders || f == "";
  }

  /** Exclusion follows the folder tree: a folder excluded by an entry
      passes the exclusion on to everything below it. */
  lemma ExclusionNested(outer: string, inner: string, path: string)
    requires ExcludedBy(outer, inner) && ExcludedBy(inner, path)
    ensures ExcludedBy(outer, path)
  {
    PrefixChain(NormalizePath(path), NormalizePath(inner), NormalizePath(outer));
  }

  lemma PrefixChain(p: string, g: string, f: string)
    requires StartsWith(p, g + "/") || p == g
    requires StartsWith(g, f + "/") || g == f
    ensures StartsWith(p, f + "/") || p == f
  {
    if p != g && g != f {
      assert p[..|f + "/"|] == p[..|g + "/"|][..|f + "/"|];
    }
  }

  /** On normalised entries and paths, exclusion is plain prefix matching
      up to a separator. */
  lemma ExcludedByNormalised(folder: string, path: string)
    requires folder != "" && Normalised(folder) && Normalised(path)
    ensures ExcludedBy(folder, path) <==> StartsWith(path, folder + "/") || path == folder
  {
    NormalizeNormalised(folder);
    NormalizeNormalised(path);
  }

  /** The entry `A/B` excludes the folder `A/B` itself. */
  lemma ExcludesFolderItself()
    ensures ExcludedBy("A/B", "A/B")
  {
    NormalizeNormalised("A/B");
  }

  /** An entry excludes every normalised path below the folder it
      normalises to. */
  lemma ExcludesBelow(folder: string, nf: string, rest: string)
    requires folder != "" && NormalizePath(folder) == nf && nf != "/"
    requires Normalised(rest) && rest != "/"
    ensures ExcludedBy(folder, nf + "/" + rest)
  {
    var p := nf + "/" + rest;
    NormalisedChild(nf, rest);
    NormalizeNormalised(p);
    assert p[..|nf + "/"|] == nf + "/";
  }

  /** The entry `A/B` excludes `A/B/c.md`, below it. */
  lemma ExcludesBelowFolder()
    ensures ExcludedBy("A/B", "A/B/c.md")
  {
    NormalizeNormalised("A/B");
    ExcludesBelow("A/B", "A/B", "c.md");
    assert "A/B" + "/" + "c.md" == "A/B/c.md";
  }

  /** The entry `A/B` does not exclude `A/B2/c.md`: matching stops at a
      separator, not at any character. */
  lemma SiblingPrefixNotExcluded()
    ensures !ExcludedBy("A/B", "A/B2/c.md")
  {
    ExcludedByNormalised("A/B", "A/B2/c.md");
    NotBelow("A/B2/c.md", "A/B");
  }

  lemma NotBelow(p: string, f: string)
    requires |p| > |f| && p[|f|] != '/'
    ensures !StartsWith(p, f + "/") && p != f
  {
  }

  /** Entries are normalised too: a trailing `/` on an entry changes
      nothing, so `A/B/` acts as `A/B`. */
  lemma TrailingSlashEntry(folder: string, path: string)
    requires folder != ""
    ensures ExcludedBy(folder + "/", path) <==> ExcludedBy(folder, path)
  {
    NormalizeTrailingSlash(folder);
  }

  /** Entries are normalised too: a leading `/` on an entry changes nothing,
      so `/Archive` acts as `Archive`. */
  lemma LeadingSlashEntry(folder: string, path: string)
    requires folder != ""
    ensures ExcludedBy("/" + folder, path) <==> ExcludedBy(folder, path)
  {
    NormalizeLeadingSlash(folder);
  }

  /** With the default settings nothing is excluded, so the selection is
      exactly the documents created or modified on the day. */
  lemma DefaultSelectsByDayOnly(listing: seq<Document>, target: CalendarDate, dayOf: int -> CalendarDate)
    ensures forall d ::
      d in SelectNotes(listing, target, Settings.DefaultSettings.excludedFolders, dayOf)
      <==> d in listing && OnDay(d, target, dayOf)
  {
  }

  /** One more excluded folder can only drop notes from the selection. */
  lemma {:induction false} MoreFoldersSelectFewer(listing: seq<Document>, target: CalendarDate,
                                                  folders: seq<string>, extra: string, dayOf: int -> CalendarDate)
    ensures IsSubsequence(SelectNotes(listing, target, folders + [extra], dayOf),
                          SelectNotes(listing, target, folders, dayOf))
    decreases |listing|
  {
    if listing != [] {
      MoreFoldersSelectFewer(listing[1..], target, folders, extra, dayOf);
      var x := listing[0];
      var r1 := SelectNotes(listing[1..], target, folders + [extra], dayOf);
      var r2 := SelectNotes(listing[1..], target, folders, dayOf);
      assert forall f :: f in folders ==> f in folders + [extra];
      if Keep(x, target, folders, dayOf) && !Keep(x, target, folders + [extra], dayOf) {
        assert ([x] + r2)[1..] == r2;
      } else if Keep(x, target, folders, dayOf) {
        assert ([x] + r1)[1..] == r1;
        assert ([x] + r2)[1..] == r2;
      }
    }
  }
}
