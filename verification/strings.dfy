/** String helpers with the semantics of the JavaScript built-ins the plugin
    calls: `startsWith`, `includes`, `indexOf`, `join`, `split` on one
    character, `trim`, `padStart` and `String(n)` for integers. */
module Strings {
  import opened Wrappers

  /** `s.startsWith(prefix)` */
  predicate StartsWith(s: string, prefix: string) {
    |prefix| <= |s| && s[..|prefix|] == prefix
  }

  /** `pat` occurs in `s` starting at index `i`. */
  predicate OccursAt(s: string, pat: string, i: nat) {
    i + |pat| <= |s| && s[i..i + |pat|] == pat
  }

  /** No occurrence of `pat` in `s` starts before index `k`. */
  predicate NoOccurrenceBefore(s: string, pat: string, k: nat) {
    forall j: nat :: j < k ==> !OccursAt(s, pat, j)
  }

  /** `pat` occurs nowhere in `s`. */
  predicate Absent(s: string, pat: string) {
    forall j: nat :: j <= |s| ==> !OccursAt(s, pat, j)
  }

  /** `s.indexOf(pat)`: the index of the first occurrence, or None for -1. */
  function FindFirst(s: string, pat: string): (r: Option<nat>)
    ensures r.Some? ==> OccursAt(s, pat, r.value) && NoOccurrenceBefore(s, pat, r.value)
    ensures r.None? <==> Absent(s, pat)
    decreases |s|
  {
    if StartsWith(s, pat) then
      assert OccursAt(s, pat, 0);
      Some(0)
    else if s == [] then
      None
    else
      var tail := FindFirst(s[1..], pat);
      ShiftOccurrence(s, pat);
      match tail
      case None => None
      case Some(i) => Some(i + 1)
  }

  /** An occurrence at `j >= 1` in `s` is an occurrence at `j - 1` in `s[1..]`. */
  lemma ShiftOccurrence(s: string, pat: string)
    requires s != []
    ensures forall j: nat :: 1 <= j ==> (OccursAt(s, pat, j) <==> OccursAt(s[1..], pat, j - 1))
    ensures !StartsWith(s, pat) ==> !OccursAt(s, pat, 0)
  {
    forall j: nat | 1 <= j
      ensures OccursAt(s, pat, j) <==> OccursAt(s[1..], pat, j - 1)
    {
      if j + |pat| <= |s| {
        var here, there := s[j..j + |pat|], s[1..][j - 1..j - 1 + |pat|];
        forall k | 0 <= k < |pat|
          ensures here[k] == there[k]
        {
        }
        assert here == there;
      }
    }
  }

  /** `s.includes(pat)` */
  predicate Includes(s: string, pat: string) {
    FindFirst(s, pat).Some?
  }

  /** `s.replace(pat, rep)` with a literal replacement: the first occurrence of
      `pat` is replaced by `rep` verbatim; without an occurrence `s` is returned. */
  function ReplaceFirst(s: string, pat: string, rep: string): string {
    match FindFirst(s, pat)
    case None => s
    case Some(i) => s[..i] + rep + s[i + |pat|..]
  }

  /** Independent characterisation of `ReplaceFirst`: when `s` splits as
      `a + pat + b` and `pat` does not start anywhere inside `a`, the result
      is `a + rep + b`; the text around the occurrence is kept verbatim. */
  lemma ReplaceFirstAt(s: string, pat: string, rep: string, a: string, b: string)
    requires s == a + pat + b
    requires NoOccurrenceBefore(s, pat, |a|)
    ensures ReplaceFirst(s, pat, rep) == a + rep + b
  {
    assert s[|a|..|a| + |pat|] == pat;
    assert OccursAt(s, pat, |a|);
    var i := FindFirst(s, pat).value;
    assert i == |a|;
    assert s[..i] == a;
    assert s[i + |pat|..] == b;
  }

  /** Without an occurrence of `pat`, replacing changes nothing. */
  lemma ReplaceFirstAbsent(s: string, pat: string, rep: string)
    requires Absent(s, pat)
    ensures ReplaceFirst(s, pat, rep) == s
  {
  }

  /** `parts.join(sep)` */
  function Join(parts: seq<string>, sep: string): string
    decreases |parts|
  {
    if |parts| == 0 then ""
    else if |parts| == 1 then parts[0]
    else parts[0] + sep + Join(parts[1..], sep)
  }

  /** Joining one more part in front adds it and one separator. */
  lemma JoinCons(x: string, rest: seq<string>, sep: string)
    requires |rest| >= 1
    ensures Join([x] + rest, sep) == x + sep + Join(rest, sep)
  {
    assert ([x] + rest)[1..] == rest;
  }

  /** Joining one more part at the end adds one separator and the part. */
  lemma {:induction false} JoinSnoc(parts: seq<string>, x: string, sep: string)
    ensures Join(parts + [x], sep) == if parts == [] then x else Join(parts, sep) + sep + x
    decreases |parts|
  {
    if parts == [] {
      assert parts + [x] == [x];
    } else if |parts| == 1 {
      assert (parts + [x])[1..] == [x];
    } else {
      assert (parts + [x])[1..] == parts[1..] + [x];
      JoinSnoc(parts[1..], x, sep);
    }
  }

  /** `s.split(c)` for a one-character separator. */
  function Split(s: string, c: char): (parts: seq<string>)
    ensures |parts| >= 1
    ensures forall k :: 0 <= k < |parts| ==> c !in parts[k]
    ensures Join(parts, [c]) == s
    decreases |s|
  {
    if s == [] then [""]
    else
      var rest := Split(s[1..], c);
      if s[0] == c then
        JoinCons("", rest, [c]);
        [""] + rest
      else
        var parts := [[s[0]] + rest[0]] + rest[1..];
        if |rest| == 1 then parts
        else
          JoinCons(rest[0], rest[1..], [c]);
          JoinCons([s[0]] + rest[0], rest[1..], [c]);
          assert rest == [rest[0]] + rest[1..];
          parts
  }

  /** Splitting undoes joining: parts free of the separator come back unchanged. */
  lemma {:induction false} SplitJoin(parts: seq<string>, c: char)
    requires |parts| >= 1
    requires forall k :: 0 <= k < |parts| ==> c !in parts[k]
    ensures Split(Join(parts, [c]), c) == parts
    decreases |parts|, |parts[0]|
  {
    if |parts[0]| > 0 {
      var x := parts[0];
      var tail := [x[1..]] + parts[1..];
      assert tail[0] == x[1..];
      assert tail[1..] == parts[1..];
      SplitJoin(tail, c);
      if |parts| == 1 {
        assert Join(parts, [c]) == x;
        assert Join(tail, [c]) == x[1..];
      } else {
        JoinCons(x, parts[1..], [c]);
        JoinCons(x[1..], parts[1..], [c]);
        assert parts == [x] + parts[1..];
        assert tail == [x[1..]] + parts[1..];
        assert Join(parts, [c])[1..] == Join(tail, [c]);
      }
      assert x[0] != c by { assert x[0] in x; }
      assert Join(parts, [c])[1..] == Join(tail, [c]);
      assert [x[0]] + x[1..] == x;
      assert parts == [[x[0]] + tail[0]] + tail[1..];
    } else if |parts| == 1 {
    } else {
      JoinCons(parts[0], parts[1..], [c]);
      assert parts == [parts[0]] + parts[1..];
      SplitJoin(parts[1..], c);
      assert Join(parts, [c])[1..] == Join(parts[1..], [c]);
    }
  }

  /** The characters `String.prototype.trim` removes: the WhiteSpace and
      LineTerminator code points of ECMAScript (sections 12.2 and 12.3 of
      ECMA-262). */
  predicate IsJsWhitespace(ch: char) {
    ch == '\t' || ch == '\n' || ch == '\U{B}' || ch == '\U{C}' || ch == '\r' || ch == ' '
    || ch == '\U{A0}' || ch == '\U{1680}' || ('\U{2000}' <= ch <= '\U{200A}')
    || ch == '\U{2028}' || ch == '\U{2029}' || ch == '\U{202F}' || ch == '\U{205F}'
    || ch == '\U{3000}' || ch == '\U{FEFF}'
  }

  predicate AllWhitespace(s: string) {
    forall k :: 0 <= k < |s| ==> IsJsWhitespace(s[k])
  }

  lemma WhitespaceCons(c: char, x: string)
    requires IsJsWhitespace(c) && AllWhitespace(x)
    ensures AllWhitespace([c] + x)
  {
    forall k | 0 <= k < |[c] + x|
      ensures IsJsWhitespace(([c] + x)[k])
    {
      if k > 0 {
        assert ([c] + x)[k] == x[k - 1];
      }
    }
  }

  lemma WhitespaceSnoc(x: string, c: char)
    requires AllWhitespace(x) && IsJsWhitespace(c)
    ensures AllWhitespace(x + [c])
  {
    forall k | 0 <= k < |x + [c]|
      ensures IsJsWhitespace((x + [c])[k])
    {
      if k < |x| {
        assert (x + [c])[k] == x[k];
      }
    }
  }

  /** `s.trimStart()`: the longest suffix of `s` not starting with whitespace. */
  function TrimStart(s: string): (r: string)
    ensures |r| <= |s| && r == s[|s| - |r|..]
    ensures AllWhitespace(s[..|s| - |r|])
    ensures r == [] || !IsJsWhitespace(r[0])
    decreases |s|
  {
    if s != [] && IsJsWhitespace(s[0]) then
      var r := TrimStart(s[1..]);
      assert s[..|s| - |r|] == [s[0]] + s[1..][..|s| - 1 - |r|];
      WhitespaceCons(s[0], s[1..][..|s| - 1 - |r|]);
      r
    else s
  }

  /** `s.trimEnd()`: the longest prefix of `s` not ending with whitespace. */
  function TrimEnd(s: string): (r: string)
    ensures |r| <= |s| && r == s[..|r|]
    ensures AllWhitespace(s[|r|..])
    ensures r == [] || !IsJsWhitespace(r[|r| - 1])
    decreases |s|
  {
    if s != [] && IsJsWhitespace(s[|s| - 1]) then
      var r := TrimEnd(s[..|s| - 1]);
      assert s[|r|..] == s[..|s| - 1][|r|..] + [s[|s| - 1]];
      WhitespaceSnoc(s[..|s| - 1][|r|..], s[|s| - 1]);
      r
    else s
  }

  /** `s.trim()` */
  function Trim(s: string): string {
    TrimEnd(TrimStart(s))
  }

  /** `r` is `s[i..j]` with only whitespace around it. */
  predicate CoreAt(s: string, r: string, i: nat, j: nat) {
    i <= j <= |s| && r == s[i..j] && AllWhitespace(s[..i]) && AllWhitespace(s[j..])
  }

  /** What trimming keeps: a contiguous piece of `s` with only whitespace
      cut on either side and no whitespace left at either end. */
  lemma TrimIsCore(s: string)
    ensures exists i: nat, j: nat :: CoreAt(s, Trim(s), i, j)
    ensures Trim(s) == [] || (!IsJsWhitespace(Trim(s)[0]) && !IsJsWhitespace(Trim(s)[|Trim(s)| - 1]))
  {
    var t := TrimStart(s);
    var r := TrimEnd(t);
    assert Trim(s) == r;
    CoreOfParts(s, t, r);
    var i: nat, j: nat := |s| - |t|, |s| - |t| + |r|;
    assert CoreAt(s, Trim(s), i, j);
  }

  lemma CoreOfParts(s: string, t: string, r: string)
    requires |t| <= |s| && t == s[|s| - |t|..] && AllWhitespace(s[..|s| - |t|])
    requires |r| <= |t| && r == t[..|r|] && AllWhitespace(t[|r|..])
    requires t == [] || !IsJsWhitespace(t[0])
    requires r == [] || !IsJsWhitespace(r[|r| - 1])
    ensures CoreAt(s, r, |s| - |t|, |s| - |t| + |r|)
    ensures r == [] || (!IsJsWhitespace(r[0]) && !IsJsWhitespace(r[|r| - 1]))
  {
    var i := |s| - |t|;
    var j := i + |r|;
    assert r == s[i..j];
    assert s[j..] == t[|r|..];
    if r != [] {
      assert r[0] == t[0];
    }
  }

  /** The decimal digit for `d`. */
  function DigitChar(d: nat): char
    requires d < 10
  {
    "0123456789"[d]
  }

  /** The numeric value of a decimal digit character. */
  function DigitValue(ch: char): nat
    requires IsDigit(ch)
  {
    (ch as int - '0' as int) as nat
  }

  predicate IsDigit(ch: char) {
    '0' <= ch <= '9'
  }

  predicate AllDigits(s: string) {
    forall k :: 0 <= k < |s| ==> IsDigit(s[k])
  }

  /** `String(n)` for a natural number: its shortest decimal form. */
  function NatToString(n: nat): (r: string)
    ensures |r| >= 1 && AllDigits(r)
    ensures r[0] == '0' ==> n == 0
    ensures n < 10 <==> |r| == 1
    decreases n
  {
    if n < 10 then [DigitChar(n)] else NatToString(n / 10) + [DigitChar(n % 10)]
  }

  /** The value of a string of decimal digits; the inverse of `NatToString`. */
  function ParseNat(s: string): nat
    requires AllDigits(s)
    decreases |s|
  {
    if s == [] then 0 else ParseNat(s[..|s| - 1]) * 10 + DigitValue(s[|s| - 1])
  }

  lemma {:induction false} ParseNatToString(n: nat)
    ensures ParseNat(NatToString(n)) == n
    decreases n
  {
    var s := NatToString(n);
    if n >= 10 {
      ParseNatToString(n / 10);
      assert s[..|s| - 1] == NatToString(n / 10);
    }
  }

  /** `String(i)` for any integer. */
  function IntToString(i: int): string {
    if i < 0 then "-" + NatToString(-i) else NatToString(i)
  }

  /** Reads back an integer written by `IntToString`. */
  function ParseInt(s: string): Option<int> {
    if s != [] && s[0] == '-' then
      if s[1..] != [] && AllDigits(s[1..]) then var v: int := ParseNat(s[1..]); Some(-v) else None
    else if s != [] && AllDigits(s) then Some(ParseNat(s))
    else None
  }

  lemma ParseIntToString(i: int)
    ensures ParseInt(IntToString(i)) == Some(i)
  {
    if i < 0 {
      var d := NatToString(-i);
      ParseNatToString(-i);
      assert ("-" + d)[1..] == d;
      assert ("-" + d)[0] == '-';
    } else {
      var d := NatToString(i);
      ParseNatToString(i);
      assert IsDigit(d[0]);
      assert d[0] != '-';
    }
  }

  /** `s.padStart(n, fill)`: `fill` repeated in front until `s` is `n` long. */
  function PadStart(s: string, n: nat, fill: char): (r: string)
    ensures |r| == if |s| >= n then |s| else n
    ensures r[|r| - |s|..] == s
    ensures forall k :: 0 <= k < |r| - |s| ==> r[k] == fill
    decreases n - |s|
  {
    if |s| >= n then s else PadStart([fill] + s, n, fill)
  }

  /** `String(n).padStart(2, '0')` for a number below 100: exactly two digits
      that read back as `n`. */
  function TwoDigits(n: nat): (r: string)
    requires n < 100
    ensures |r| == 2 && AllDigits(r)
    ensures ParseNat(r) == n
  {
    TwoDigitsFacts(n);
    PadStart(NatToString(n), 2, '0')
  }

  lemma TwoDigitsFacts(n: nat)
    requires n < 100
    ensures var r := PadStart(NatToString(n), 2, '0');
      |r| == 2 && AllDigits(r) && ParseNat(r) == n
  {
    ParseNatToString(n);
    var s := NatToString(n);
    var r := PadStart(s, 2, '0');
    if n < 10 {
      assert r == ['0'] + s;
      assert r[..1] == "0";
    } else {
      assert |NatToString(n / 10)| == 1;
      assert r == s;
    }
  }

  /** The character `c` does not occur in `s`. */
  predicate Lacks(s: string, c: char) {
    forall j :: 0 <= j < |s| ==> s[j] != c
  }

  /** `Lacks` checked one position at a time, so that the verifier can decide
      it on a short literal by unfolding. */
  predicate LacksUpTo(s: string, c: char, k: nat)
    requires k <= |s|
  {
    k == 0 || (s[k - 1] != c && LacksUpTo(s, c, k - 1))
  }

  lemma {:induction false} LacksByCheck(s: string, c: char, n: nat)
    requires n == |s| && LacksUpTo(s, c, n)
    ensures Lacks(s, c)
  {
    LacksPrefix(s, c, n);
  }

  lemma LacksConcat(a: string, b: string, c: char)
    requires Lacks(a, c) && Lacks(b, c)
    ensures Lacks(a + b, c)
  {
  }

  lemma {:induction false} LacksPrefix(s: string, c: char, k: nat)
    requires k <= |s| && LacksUpTo(s, c, k)
    ensures forall j :: 0 <= j < k ==> s[j] != c
  {
    if k > 0 {
      LacksPrefix(s, c, k - 1);
    }
  }

  /** A pattern cannot start before `k` when its `i`-th character is missing
      from the first `k + i` characters of `s`. */
  lemma NoOccurrenceByChar(s: string, pat: string, k: nat, i: nat)
    requires i < |pat| && k + i <= |s|
    requires Lacks(s[..k + i], pat[i])
    ensures NoOccurrenceBefore(s, pat, k)
  {
    forall j: nat | j < k
      ensures !OccursAt(s, pat, j)
    {
      if j + |pat| <= |s| {
        assert s[j..j + |pat|][i] == s[..k + i][j + i];
      }
    }
  }

  /** Joining parts and separators that lack a character gives a text that
      lacks it. */
  lemma {:induction false} JoinLacks(parts: seq<string>, sep: string, c: char)
    requires forall k :: 0 <= k < |parts| ==> Lacks(parts[k], c)
    requires Lacks(sep, c)
    ensures Lacks(Join(parts, sep), c)
    decreases |parts|
  {
    if |parts| > 1 {
      JoinLacks(parts[1..], sep, c);
    }
  }

  /** The replacement text that `String.prototype.replace` actually inserts
      when its second argument is a string (the GetSubstitution operation of
      the ECMAScript language specification): `$$` stands for one `$`, `$&` for the matched text,
      `` $` `` for the text before the match and `$'` for the text after it.
      With a string pattern there are no capture groups, so `$1` or `$<` and a
      lone `$` are copied as they are. */
  function ExpandReplacement(rep: string, matched: string, before: string, after: string): string
    decreases |rep|
  {
    if rep == [] then ""
    else if rep[0] == '$' && |rep| >= 2 && rep[1] == '$' then
      "$" + ExpandReplacement(rep[2..], matched, before, after)
    else if rep[0] == '$' && |rep| >= 2 && rep[1] == '&' then
      matched + ExpandReplacement(rep[2..], matched, before, after)
    else if rep[0] == '$' && |rep| >= 2 && rep[1] == '`' then
      before + ExpandReplacement(rep[2..], matched, before, after)
    else if rep[0] == '$' && |rep| >= 2 && rep[1] == '\'' then
      after + ExpandReplacement(rep[2..], matched, before, after)
    else [rep[0]] + ExpandReplacement(rep[1..], matched, before, after)
  }

  /** `s.replace(pat, rep)` with a string pattern and a string replacement. */
  function JsReplace(s: string, pat: string, rep: string): string {
    match FindFirst(s, pat)
    case None => s
    case Some(i) => s[..i] + ExpandReplacement(rep, pat, s[..i], s[i + |pat|..]) + s[i + |pat|..]
  }

  /** A replacement without `$` is inserted verbatim. */
  lemma {:induction false} ExpandLiteral(rep: string, matched: string, before: string, after: string)
    requires Lacks(rep, '$')
    ensures ExpandReplacement(rep, matched, before, after) == rep
    decreases |rep|
  {
    if rep != [] {
      ExpandLiteral(rep[1..], matched, before, after);
      assert rep == [rep[0]] + rep[1..];
    }
  }

  /** So for such a replacement `replace` is the plain first-occurrence
      substitution. */
  lemma JsReplaceLiteral(s: string, pat: string, rep: string)
    requires Lacks(rep, '$')
    ensures JsReplace(s, pat, rep) == ReplaceFirst(s, pat, rep)
  {
    var found := FindFirst(s, pat);
    if found.Some? {
      var i := found.value;
      ExpandLiteral(rep, pat, s[..i], s[i + |pat|..]);
      assert JsReplace(s, pat, rep) == s[..i] + rep + s[i + |pat|..];
    }
  }

  /** Where the first occurrence is known, `replace` keeps both sides and
      inserts the expanded replacement. */
  lemma JsReplaceAt(s: string, pat: string, rep: string, a: string, b: string)
    requires s == a + pat + b
    requires NoOccurrenceBefore(s, pat, |a|)
    ensures JsReplace(s, pat, rep) == a + ExpandReplacement(rep, pat, a, b) + b
  {
    assert s[|a|..|a| + |pat|] == pat;
    assert OccursAt(s, pat, |a|);
    var i := FindFirst(s, pat).value;
    assert i == |a|;
    assert s[..i] == a;
    assert s[i + |pat|..] == b;
  }
}
