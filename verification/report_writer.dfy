/** Where the report for a day lives and how a new summary is merged into it
    (`createDailyReport`). */
module ReportWriter {
  import opened Wrappers
  import opened Strings
  import opened Paths
  import opened Vault

  const FilePrefix: string := "Daily Report-"
  const FileSuffix: string := ".md"

  /** `${year}-${month}-${day}`: the year as `String` writes it, the one-based
      month and the day each padded to two digits. */
  function ReportStamp(d: CalendarDate): (r: string)
    requires ValidDate(d)
  {
    IntToString(d.year) + "-" + TwoDigits(d.monthIndex + 1) + "-" + TwoDigits(d.day)
  }

  /** Reads a stamp back into the date it was written from. The month and
      day are the last two two-digit groups, so the year is everything before
      them. */
  function DecodeStamp(s: string): Option<CalendarDate> {
    if |s| < 7 || s[|s| - 6] != '-' || s[|s| - 3] != '-' then None
    else if !AllDigits(s[|s| - 5..|s| - 3]) || !AllDigits(s[|s| - 2..]) then None
    else
      match ParseInt(s[..|s| - 6])
      case None => None
      case Some(y) => Some(CalendarDate(y, ParseNat(s[|s| - 5..|s| - 3]) - 1, ParseNat(s[|s| - 2..])))
  }

  /** The stamp names its date: the calendar month is `monthIndex + 1`, and
      month and day are exactly two digits. */
  lemma StampParts(d: CalendarDate)
    requires ValidDate(d)
    ensures var s := ReportStamp(d);
      && |s| == |IntToString(d.year)| + 6
      && s[..|s| - 6] == IntToString(d.year)
      && s[|s| - 6] == '-' && s[|s| - 3] == '-'
      && AllDigits(s[|s| - 5..|s| - 3]) && ParseNat(s[|s| - 5..|s| - 3]) == d.monthIndex + 1
      && AllDigits(s[|s| - 2..]) && ParseNat(s[|s| - 2..]) == d.day
  {
    var y, m, dd := IntToString(d.year), TwoDigits(d.monthIndex + 1), TwoDigits(d.day);
    assert |m| == 2 && AllDigits(m) && ParseNat(m) == d.monthIndex + 1;
    assert |dd| == 2 && AllDigits(dd) && ParseNat(dd) == d.day;
    StampLayout(y, m, dd);
    var s := ReportStamp(d);
    assert s == y + "-" + m + "-" + dd;
    assert s[|s| - 5..|s| - 3] == m && s[|s| - 2..] == dd;
  }

  lemma StampLayout(y: string, m: string, dd: string)
    requires |m| == 2 && |dd| == 2
    ensures var s := y + "-" + m + "-" + dd;
      && |s| == |y| + 6
      && s[..|s| - 6] == y
      && s[|s| - 6] == '-' && s[|s| - 3] == '-'
      && s[|s| - 5..|s| - 3] == m
      && s[|s| - 2..] == dd
  {
  }

  lemma StampRoundTrip(d: CalendarDate)
    requires ValidDate(d)
    ensures DecodeStamp(ReportStamp(d)) == Some(d)
  {
    StampParts(d);
    ParseIntToString(d.year);
  }

  /** Different days never share a stamp. */
  lemma StampInjective(d1: CalendarDate, d2: CalendarDate)
    requires ValidDate(d1) && ValidDate(d2)
    requires ReportStamp(d1) == ReportStamp(d2)
    ensures d1 == d2
  {
    StampRoundTrip(d1);
    StampRoundTrip(d2);
  }

  function ReportFileName(d: CalendarDate): string
    requires ValidDate(d)
  {
    FilePrefix + ReportStamp(d) + FileSuffix
  }

  /** `normalizePath(`${reportLocation}/Daily Report-${dateString}.md`)` */
  function ReportPath(location: string, d: CalendarDate): string
    requires ValidDate(d)
  {
    NormalizePath(location + "/" + ReportFileName(d))
  }

  lemma {:induction false} DigitsHaveNoSlash(s: string)
    requires AllDigits(s)
    ensures Lacks(s, '/')
  {
    forall k | 0 <= k < |s|
      ensures s[k] != '/'
    {
      assert IsDigit(s[k]);
    }
  }

  lemma StampHasNoSlash(d: CalendarDate)
    requires ValidDate(d)
    ensures Lacks(ReportStamp(d), '/')
  {
    IntTextHasNoSlash(d.year);
    var m := TwoDigits(d.monthIndex + 1);
    var dd := TwoDigits(d.day);
    DigitsHaveNoSlash(m);
    DigitsHaveNoSlash(dd);
    StampTextHasNoSlash(IntToString(d.year), m, dd);
  }

  lemma IntTextHasNoSlash(i: int)
    ensures Lacks(IntToString(i), '/')
  {
    if i < 0 {
      DigitsHaveNoSlash(NatToString(-i));
      LacksConcat("-", NatToString(-i), '/');
    } else {
      DigitsHaveNoSlash(NatToString(i));
    }
  }

  lemma StampTextHasNoSlash(y: string, m: string, dd: string)
    requires Lacks(y, '/') && Lacks(m, '/') && Lacks(dd, '/')
    ensures Lacks(y + "-" + m + "-" + dd, '/')
  {
    LacksConcat(y, "-", '/');
    LacksConcat(y + "-", m, '/');
    LacksConcat(y + "-" + m, "-", '/');
    LacksConcat(y + "-" + m + "-", dd, '/');
  }

  lemma FileNameHasNoSlash(d: CalendarDate)
    requires ValidDate(d)
    ensures ReportFileName(d) != [] && Lacks(ReportFileName(d), '/')
  {
    LacksByCheck("Daily Repo", '/', 10);
    LacksByCheck("rt-", '/', 3);
    LacksConcat("Daily Repo", "rt-", '/');
    assert FilePrefix == "Daily Repo" + "rt-";
    LacksByCheck(FileSuffix, '/', 3);
    StampHasNoSlash(d);
    LacksConcat(FilePrefix, ReportStamp(d), '/');
    LacksConcat(FilePrefix + ReportStamp(d), FileSuffix, '/');
  }

  /** The report sits directly in the normalised report folder, or at the
      vault root when the folder is `/` or empty. */
  lemma ReportPathShape(location: string, d: CalendarDate)
    requires ValidDate(d)
    ensures ReportPath(location, d)
         == if AllSlashes(location) then ReportFileName(d)
            else NormalizePath(location) + "/" + ReportFileName(d)
  {
    FileNameHasNoSlash(d);
    NormalizeChild(location, ReportFileName(d));
  }

  /** With the default location `/`, the report is at the vault root. */
  lemma DefaultLocationIsRoot(d: CalendarDate)
    requires ValidDate(d)
    ensures ReportPath("/", d) == "Daily Report-" + ReportStamp(d) + ".md"
  {
    ReportPathShape("/", d);
  }

  /** One folder holds a different file for every day. */
  lemma ReportPathInjective(location: string, d1: CalendarDate, d2: CalendarDate)
    requires ValidDate(d1) && ValidDate(d2)
    requires ReportPath(location, d1) == ReportPath(location, d2)
    ensures d1 == d2
  {
    ReportPathShape(location, d1);
    ReportPathShape(location, d2);
    if !AllSlashes(location) {
      SameFolderSameName(NormalizePath(location) + "/", ReportFileName(d1), ReportFileName(d2));
    }
    FileNameInjective(d1, d2);
  }

  lemma SameFolderSameName(dir: string, n1: string, n2: string)
    requires dir + n1 == dir + n2
    ensures n1 == n2
  {
    assert (dir + n1)[|dir|..] == n1;
    assert (dir + n2)[|dir|..] == n2;
  }

  lemma FileNameInjective(d1: CalendarDate, d2: CalendarDate)
    requires ValidDate(d1) && ValidDate(d2)
    requires ReportFileName(d1) == ReportFileName(d2)
    ensures d1 == d2
  {
    Between(FilePrefix, ReportStamp(d1), FileSuffix);
    Between(FilePrefix, ReportStamp(d2), FileSuffix);
    StampInjective(d1, d2);
  }

  lemma Between(p: string, s: string, q: string)
    ensures var t := p + s + q; |p| + |q| <= |t| && t[|p|..|t| - |q|] == s
  {
    var t := p + s + q;
    assert t[|p|..|t| - |q|] == s;
  }

  /** The text placed between an existing report and a new summary. */
  function UpdateSeparator(time: string): string {
    "\n\n## updated at " + time + "\n\n"
  }

  /** The first text of a new report. */
  function ReportHeading(stamp: string): string {
    "# " + stamp + " report\n\n"
  }

  /** Appends the summary to an existing report under an update heading, or
      creates the report with its title heading. */
  function WriteReport(files: Files, path: string, stamp: string, time: string, summary: string): (r: Files)
    ensures r.Keys == files.Keys + {path}
    ensures forall p :: p in files && p != path ==> r[p] == files[p]
    ensures path in files ==>
      && |files[path]| <= |r[path]|
      && r[path][..|files[path]|] == files[path]
    ensures path in files ==>
      var n := |files[path]|;
      && |r[path]| == n + |UpdateSeparator(time)| + |summary|
      && r[path][n..n + |UpdateSeparator(time)|] == UpdateSeparator(time)
    ensures path !in files ==> |ReportHeading(stamp)| <= |r[path]| && r[path][..|ReportHeading(stamp)|] == ReportHeading(stamp)
    ensures path !in files ==> |r[path]| == |ReportHeading(stamp)| + |summary|
    ensures |summary| <= |r[path]| && r[path][|r[path]| - |summary|..] == summary
  {
    if path in files then
      var text := files[path] + UpdateSeparator(time) + summary;
      assert text[..|files[path]|] == files[path];
      assert text[|files[path]|..|files[path]| + |UpdateSeparator(time)|] == UpdateSeparator(time);
      assert text[|text| - |summary|..] == summary;
      files[path := text]
    else
      var text := ReportHeading(stamp) + summary;
      assert text[..|ReportHeading(stamp)|] == ReportHeading(stamp);
      assert text[|text| - |summary|..] == summary;
      files[path := text]
  }

  /** Writing `s1` and then `s2` to the same report keeps both, `s1` first,
      and keeps whatever the report held before. */
  lemma TwoWritesKeepBoth(files: Files, path: string, stamp: string, t1: string, t2: string,
                          s1: string, s2: string)
    ensures var w1 := WriteReport(files, path, stamp, t1, s1);
      var w2 := WriteReport(w1, path, stamp, t2, s2);
      && w2[path] == w1[path] + UpdateSeparator(t2) + s2
      && |s1| <= |w1[path]|
      && w2[path][|w1[path]| - |s1|..|w1[path]|] == s1
      && w2[path][|w2[path]| - |s2|..] == s2
      && (path in files ==> w2[path][..|files[path]|] == files[path])
  {
    var w1 := WriteReport(files, path, stamp, t1, s1);
    var w2 := WriteReport(w1, path, stamp, t2, s2);
    assert w2[path][..|w1[path]|] == w1[path];
    assert w2[path][|w1[path]| - |s1|..|w1[path]|] == w1[path][|w1[path]| - |s1|..];
    if path in files {
      assert w2[path][..|files[path]|] == w1[path][..|files[path]|];
    }
  }

  /** `createDailyReport(date, summary)` on the vault. */
  function CreateDailyReport(files: Files, location: string, d: CalendarDate, time: string, summary: string)
    : (r: Files)
    requires ValidDate(d)
    ensures ReportPath(location, d) in r
    ensures forall p :: p in files && p != ReportPath(location, d) ==> p in r && r[p] == files[p]
    ensures forall p :: p in r ==> p in files || p == ReportPath(location, d)
  {
    WriteReport(files, ReportPath(location, d), ReportStamp(d), time, summary)
  }

  /** Reports for two different days are separate files: writing one never
      touches the other. */
  lemma OtherDayUntouched(files: Files, location: string, d: CalendarDate, other: CalendarDate,
                          time: string, summary: string)
    requires ValidDate(d) && ValidDate(other) && d != other
    requires ReportPath(location, other) in files
    ensures CreateDailyReport(files, location, d, time, summary)[ReportPath(location, other)]
         == files[ReportPath(location, other)]
  {
    if ReportPath(location, d) == ReportPath(location, other) {
      ReportPathInjective(location, d, other);
    }
  }
}
