/** What the plugin sees of the vault: markdown documents with their
    timestamps, calendar dates, and file contents by path. */
module Vault {

  /** A markdown file of the listing: its path, its display name and its
      creation and modification timestamps in milliseconds. */
  datatype Document = Document(path: string, name: string, ctime: int, mtime: int)

  /** A local calendar day the way a JavaScript `Date` reports it:
      `getFullYear()`, the zero-based `getMonth()` and `getDate()`. */
  datatype CalendarDate = CalendarDate(year: int, monthIndex: int, day: int)

  predicate ValidDate(d: CalendarDate) {
    0 <= d.monthIndex < 12 && 1 <= d.day <= 31
  }

  /** File contents by normalised path. */
  type Files = map<string, string>
}
