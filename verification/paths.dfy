/** The slash handling of the host's `normalizePath`, which the plugin applies
    to excluded folders, document paths and the report file name: runs of `/`
    collapse to one, leading and trailing `/` are dropped, and a path that is
    left empty becomes `/`. */
module Paths {
  import opened Strings

  predicate AllSlashes(s: string) {
    forall k :: 0 <= k < |s| ==> s[k] == '/'
  }

  /** No two adjacent `/`. */
  predicate NoDoubleSlash(s: string) {
    forall k :: 0 <= k < |s| - 1 ==> !(s[k] == '/' && s[k + 1] == '/')
  }

  /** A path `normalizePath` leaves alone: `/` itself, or a non-empty path
      without leading, trailing or doubled separators. */
  predicate Normalised(p: string) {
    p == "/" || (p != "" && p[0] != '/' && p[|p| - 1] != '/' && NoDoubleSlash(p))
  }

  /** One pass over `p`. `started` says a non-slash character has been emitted;
      `pending` says a run of slashes has been seen since the last one. A run
      of slashes is emitted as a single `/` only when a non-slash character
      follows it and something was emitted before it. */
  function Squash(p: string, started: bool, pending: bool): (r: string)
    requires pending ==> started
    ensures NoDoubleSlash(r)
    ensures r != [] ==> r[|r| - 1] != '/'
    ensures r != [] && r[0] == '/' ==> started
    ensures r == [] <==> AllSlashes(p)
    decreases |p|
  {
    if p == [] then ""
    else if p[0] == '/' then Squash(p[1..], started, started)
    else
      var rest := Squash(p[1..], true, false);
      assert !AllSlashes(p) by { assert p[0] != '/'; }
      (if pending then "/" else "") + [p[0]] + rest
  }

  /** `normalizePath(p)`, as far as separators go. */
  function NormalizePath(p: string): (r: string)
    ensures Normalised(r)
  {
    var s := Squash(p, false, false);
    if s == "" then "/" else s
  }

  /** Squashing a slash-free, doubled-slash-free text after a started segment
      changes nothing. */
  lemma {:induction false} SquashKeeps(q: string)
    requires NoDoubleSlash(q)
    requires q == [] || q[|q| - 1] != '/'
    ensures Squash(q, true, false) == q
    decreases |q|
  {
    if q != [] {
      if q[0] == '/' {
        assert |q| >= 2 && q[1] != '/';
        SquashKeeps(q[2..]);
        assert q[1..][1..] == q[2..];
        assert q == "/" + [q[1]] + q[2..];
      } else {
        SquashKeeps(q[1..]);
        assert q == [q[0]] + q[1..];
      }
    }
  }

  /** `normalizePath` is the identity on paths that are already normalised. */
  lemma NormalizeNormalised(p: string)
    requires Normalised(p)
    ensures NormalizePath(p) == p
  {
    if p != "/" {
      SquashKeeps(p[1..]);
      assert p == [p[0]] + p[1..];
    }
  }

  /** Two normalised paths, neither of them the root, joined by one `/`
      give a normalised path. */
  lemma NormalisedChild(a: string, b: string)
    requires Normalised(a) && a != "/"
    requires Normalised(b) && b != "/"
    ensures Normalised(a + "/" + b)
  {
    var p := a + "/" + b;
    forall k | 0 <= k < |p| - 1
      ensures !(p[k] == '/' && p[k + 1] == '/')
    {
      if k < |a| - 1 {
        assert p[k] == a[k] && p[k + 1] == a[k + 1];
      } else if k == |a| - 1 {
        assert p[k] == a[|a| - 1];
      } else if k == |a| {
        assert p[k + 1] == b[0];
      } else {
        assert p[k] == b[k - |a| - 1] && p[k + 1] == b[k - |a|];
      }
    }
    assert p[0] == a[0] && p[|p| - 1] == b[|b| - 1];
  }

  /** A leading `/` makes no difference to `normalizePath`. */
  lemma NormalizeLeadingSlash(p: string)
    ensures NormalizePath("/" + p) == NormalizePath(p)
  {
    assert ("/" + p)[1..] == p;
    SquashSlash("/" + p, false, false);
  }

  /** A trailing `/` makes no difference to `normalizePath`. */
  lemma NormalizeTrailingSlash(p: string)
    ensures NormalizePath(p + "/") == NormalizePath(p)
  {
    SquashTrailing(p, false, false);
  }

  lemma {:induction false} SquashTrailing(x: string, started: bool, pending: bool)
    requires pending ==> started
    ensures Squash(x + "/", started, pending) == Squash(x, started, pending)
    decreases |x|
  {
    var y := x + "/";
    if x == [] {
      assert y == "/" && y[1..] == [];
      SquashSlash(y, started, pending);
    } else if x[0] == '/' {
      assert y[0] == '/' && y[1..] == x[1..] + "/";
      SquashSlash(y, started, pending);
      SquashSlash(x, started, pending);
      SquashTrailing(x[1..], started, started);
    } else {
      assert y[0] == x[0] && y[1..] == x[1..] + "/";
      SquashChar(y, started, pending);
      SquashChar(x, started, pending);
      SquashTrailing(x[1..], true, false);
    }
  }

  /** `normalizePath` is idempotent. */
  lemma NormalizeIdempotent(p: string)
    ensures NormalizePath(NormalizePath(p)) == NormalizePath(p)
  {
    NormalizeNormalised(NormalizePath(p));
  }

  /** Squashing a slash-free name after a separator. */
  lemma {:induction false} SquashJoin(x: string, f: string, started: bool, pending: bool)
    requires pending ==> started
    requires f != [] && Lacks(f, '/')
    ensures Squash(x + "/" + f, started, pending)
      == Squash(x, started, pending) + (if started || !AllSlashes(x) then "/" else "") + f
    decreases |x|
  {
    if x == [] {
      SquashName(f, started);
      assert x + "/" + f == "/" + f;
    } else if x[0] == '/' {
      SquashJoin(x[1..], f, started, started);
      SquashStepSlash(x, f, started, pending);
    } else {
      SquashJoin(x[1..], f, true, false);
      SquashStepChar(x, f, started, pending);
      var head, rest := (if pending then "/" else "") + [x[0]], Squash(x[1..], true, false);
      assert head + (rest + "/" + f) == head + rest + "/" + f;
    }
  }

  lemma SquashName(f: string, started: bool)
    requires f != [] && Lacks(f, '/')
    ensures Squash("/" + f, started, false) == (if started then "/" else "") + f
  {
    assert ("/" + f)[1..] == f;
    SquashKeeps(f[1..]);
    assert f == [f[0]] + f[1..];
  }

  lemma SquashStepSlash(x: string, f: string, started: bool, pending: bool)
    requires pending ==> started
    requires x != [] && x[0] == '/'
    ensures Squash(x + "/" + f, started, pending) == Squash(x[1..] + "/" + f, started, started)
    ensures Squash(x, started, pending) == Squash(x[1..], started, started)
    ensures AllSlashes(x) <==> AllSlashes(x[1..])
  {
    var y := x + "/" + f;
    assert y[0] == '/' && y[1..] == x[1..] + "/" + f;
    SquashSlash(y, started, pending);
    SquashSlash(x, started, pending);
    AllSlashesTail(x);
  }

  lemma SquashStepChar(x: string, f: string, started: bool, pending: bool)
    requires pending ==> started
    requires x != [] && x[0] != '/'
    ensures var head := (if pending then "/" else "") + [x[0]];
      Squash(x + "/" + f, started, pending) == head + Squash(x[1..] + "/" + f, true, false)
      && Squash(x, started, pending) == head + Squash(x[1..], true, false)
    ensures !AllSlashes(x)
  {
    var y := x + "/" + f;
    assert y[0] == x[0] && y[1..] == x[1..] + "/" + f;
    SquashChar(y, started, pending);
    SquashChar(x, started, pending);
  }

  /** One step of `Squash` over a leading slash. */
  lemma SquashSlash(y: string, started: bool, pending: bool)
    requires pending ==> started
    requires y != [] && y[0] == '/'
    ensures Squash(y, started, pending) == Squash(y[1..], started, started)
  {
  }

  /** One step of `Squash` over a leading non-slash character. */
  lemma SquashChar(y: string, started: bool, pending: bool)
    requires pending ==> started
    requires y != [] && y[0] != '/'
    ensures Squash(y, started, pending) == (if pending then "/" else "") + [y[0]] + Squash(y[1..], true, false)
  {
  }

  lemma AllSlashesTail(x: string)
    requires x != [] && x[0] == '/'
    ensures AllSlashes(x) <==> AllSlashes(x[1..])
  {
    if AllSlashes(x[1..]) {
      forall k | 0 <= k < |x|
        ensures x[k] == '/'
      {
        if k > 0 {
          assert x[k] == x[1..][k - 1];
        }
      }
    }
  }

  /** `normalizePath(dir + "/" + name)` for a file name without separators:
      the name under the normalised folder, or the bare name when the folder
      is the vault root (empty or only slashes). */
  lemma NormalizeChild(dir: string, name: string)
    requires name != [] && Lacks(name, '/')
    ensures NormalizePath(dir + "/" + name)
      == if AllSlashes(dir) then name else NormalizePath(dir) + "/" + name
  {
    SquashJoin(dir, name, false, false);
  }
}
