/**
 * The parts of Python's `posixpath` that the tools use to confine a path:
 * `isabs`, `join` (two arguments), `normpath`, `abspath` (with the process's
 * current directory as a parameter) and `commonpath` (two arguments).
 * Everything is lexical: nothing here looks at the file system, so symbolic
 * links are never resolved.
 */
module PosixPath {
  import opened Text

  /** `isabs(p)`: the path starts with a slash. */
  predicate IsAbs(p: string)
  {
    |p| > 0 && p[0] == '/'
  }

  /**
   * The number of leading slashes `normpath` keeps: POSIX gives exactly two
   * leading slashes a meaning of their own, while one, or three or more,
   * stand for the root.
   */
  function InitialSlashes(p: string): (n: nat)
    ensures n <= 2
    ensures IsAbs(p) <==> n >= 1
  {
    if !IsAbs(p) then 0
    else if |p| >= 2 && p[1] == '/' && !(|p| >= 3 && p[2] == '/') then 2
    else 1
  }

  function Slashes(n: nat): (s: string)
    ensures |s| == n
    ensures forall i :: 0 <= i < n ==> s[i] == '/'
  {
    if n == 0 then "" else Slashes(n - 1) + "/"
  }

  /** `join(a, b)`: an absolute `b` replaces `a`; otherwise one slash separates them. */
  function Join(a: string, b: string): (r: string)
    ensures IsAbs(a) || IsAbs(b) ==> IsAbs(r)
  {
    if IsAbs(b) then b
    else if a == "" || a[|a| - 1] == '/' then a + b
    else a + "/" + b
  }

  /** One step of `normpath`'s loop over the components. */
  function NormStep(acc: seq<string>, comp: string, absolute: bool): seq<string>
  {
    if comp == "" || comp == "." then acc
    else if comp != ".." || (!absolute && acc == []) || (acc != [] && acc[|acc| - 1] == "..") then acc + [comp]
    else if acc != [] then acc[..|acc| - 1]
    else acc
  }

  function NormFrom(acc: seq<string>, comps: seq<string>, absolute: bool): seq<string>
    decreases |comps|
  {
    if comps == [] then acc else NormFrom(NormStep(acc, comps[0], absolute), comps[1..], absolute)
  }

  /** `normpath(path)`. */
  function NormPath(path: string): (r: string)
    ensures IsAbs(path) ==> IsAbs(r)
  {
    if path == "" then "."
    else
      var n := InitialSlashes(path);
      var p := Slashes(n) + JoinWith('/', NormFrom([], Split(path, '/'), n > 0));
      if p == "" then "." else p
  }

  /** `abspath(path)` for a process whose current directory is `cwd`. */
  function AbsPath(cwd: string, path: string): (r: string)
    requires IsAbs(cwd)
    ensures IsAbs(r)
  {
    if IsAbs(path) then NormPath(path) else NormPath(Join(cwd, path))
  }

  /** The components `commonpath` compares: the split path without empty and `.` parts. */
  function Components(p: string): seq<string>
  {
    Significant(Split(p, '/'))
  }

  function Significant(parts: seq<string>): (r: seq<string>)
    ensures forall i :: 0 <= i < |r| ==> r[i] != "" && r[i] != "."
    decreases |parts|
  {
    if parts == [] then []
    else if parts[0] == "" || parts[0] == "." then Significant(parts[1..])
    else [parts[0]] + Significant(parts[1..])
  }

  /** The longest common prefix of two component lists. */
  function CommonPrefix(a: seq<string>, b: seq<string>): seq<string>
    decreases |a|
  {
    if a == [] || b == [] || a[0] != b[0] then [] else [a[0]] + CommonPrefix(a[1..], b[1..])
  }

  /**
   * `commonpath([a, b])`. Python raises `ValueError` when one path is
   * absolute and the other is not, so callers must not mix them. Python takes
   * the common prefix of the lexicographically smallest and largest component
   * lists; with two paths those are the two paths themselves.
   */
  function CommonPath(a: string, b: string): string
    requires IsAbs(a) == IsAbs(b)
  {
    (if IsAbs(a) then "/" else "") + JoinWith('/', CommonPrefix(Components(a), Components(b)))
  }

  /** Components that a normalised absolute path can hold: no empty, `.`, `..` or slash-holding part. */
  predicate Clean(cs: seq<string>)
  {
    forall i :: 0 <= i < |cs| ==> cs[i] != "" && cs[i] != "." && cs[i] != ".." && '/' !in cs[i]
  }

  /**
   * Reference semantics of normalising an absolute path, on components:
   * empty and `.` parts are dropped, and `..` removes the last component but
   * never climbs above the root.
   */
  function Walk(stack: seq<string>, parts: seq<string>): seq<string>
    decreases |parts|
  {
    if parts == [] then stack
    else
      var c := parts[0];
      var next :=
        if c == "" || c == "." then stack
        else if c == ".." then (if stack == [] then [] else stack[..|stack| - 1])
        else stack + [c];
      Walk(next, parts[1..])
  }

  /** A path `normpath` can produce from an absolute path: its slashes, then its clean components. */
  predicate NormalAbs(p: string)
  {
    IsAbs(p) && Clean(Components(p)) && p == Slashes(InitialSlashes(p)) + JoinWith('/', Components(p))
  }

  // ---------------------------------------------------------------------
  // Lemmas

  /** On a clean stack, `normpath`'s absolute-mode loop is the reference walk. */
  lemma {:induction false} NormFromIsWalk(acc: seq<string>, parts: seq<string>)
    requires Clean(acc)
    requires forall i :: 0 <= i < |parts| ==> '/' !in parts[i]
    ensures NormFrom(acc, parts, true) == Walk(acc, parts)
    ensures Clean(Walk(acc, parts))
    decreases |parts|
  {
    if parts != [] {
      var c := parts[0];
      var next := NormStep(acc, c, true);
      assert acc != [] ==> acc[|acc| - 1] != "..";
      assert Clean(next);
      NormFromIsWalk(next, parts[1..]);
    }
  }

  /** The walk over a concatenation is the walk over the second part from where the first ended. */
  lemma {:induction false} WalkAppend(stack: seq<string>, xs: seq<string>, ys: seq<string>)
    ensures Walk(stack, xs + ys) == Walk(Walk(stack, xs), ys)
    decreases |xs|
  {
    if xs == [] {
      assert xs + ys == ys;
    } else {
      assert (xs + ys)[0] == xs[0];
      assert (xs + ys)[1..] == xs[1..] + ys;
      var c := xs[0];
      var next :=
        if c == "" || c == "." then stack
        else if c == ".." then (if stack == [] then [] else stack[..|stack| - 1])
        else stack + [c];
      WalkAppend(next, xs[1..], ys);
    }
  }

  /** Walking clean components pushes every one of them. */
  lemma {:induction false} WalkClean(stack: seq<string>, cs: seq<string>)
    requires Clean(cs)
    ensures Walk(stack, cs) == stack + cs
    decreases |cs|
  {
    if cs != [] {
      WalkClean(stack + [cs[0]], cs[1..]);
      assert stack + [cs[0]] + cs[1..] == stack + cs;
    }
  }

  /** Walking parts that are all empty changes nothing. */
  lemma {:induction false} WalkEmptyParts(stack: seq<string>, parts: seq<string>)
    requires forall i :: 0 <= i < |parts| ==> parts[i] == ""
    ensures Walk(stack, parts) == stack
    decreases |parts|
  {
    if parts != [] {
      WalkEmptyParts(stack, parts[1..]);
    }
  }

  lemma {:induction false} SignificantClean(cs: seq<string>)
    requires Clean(cs)
    ensures Significant(cs) == cs
    decreases |cs|
  {
    if cs != [] {
      SignificantClean(cs[1..]);
      assert [cs[0]] + cs[1..] == cs;
    }
  }

  lemma {:induction false} SignificantAppend(xs: seq<string>, ys: seq<string>)
    ensures Significant(xs + ys) == Significant(xs) + Significant(ys)
    decreases |xs|
  {
    if xs == [] {
      assert xs + ys == ys;
    } else {
      assert (xs + ys)[0] == xs[0];
      assert (xs + ys)[1..] == xs[1..] + ys;
      SignificantAppend(xs[1..], ys);
    }
  }

  /** How the split of a slash prefix followed by a joined component list looks. */
  lemma {:induction false} SplitSlashesJoin(k: nat, cs: seq<string>)
    requires 1 <= k <= 2
    requires Clean(cs)
    ensures Split(Slashes(k) + JoinWith('/', cs), '/')
         == Split(Slashes(k - 1), '/') + (if cs == [] then [""] else cs)
  {
    var j := JoinWith('/', cs);
    assert Slashes(k) + j == Slashes(k - 1) + ['/'] + j;
    SplitAround(Slashes(k - 1), j, '/');
    if cs != [] {
      SplitJoin(cs, '/');
    }
  }

  lemma SplitSlashes(k: nat)
    requires k <= 1
    ensures forall i :: 0 <= i < |Split(Slashes(k), '/')| ==> Split(Slashes(k), '/')[i] == ""
  {
    if k == 1 {
      assert Slashes(1) == "" + ['/'] + "";
      SplitAround("", "", '/');
    }
  }

  /** The components of a slash prefix followed by clean components are those components. */
  lemma ComponentsOfShape(k: nat, cs: seq<string>)
    requires 1 <= k <= 2
    requires Clean(cs)
    ensures Components(Slashes(k) + JoinWith('/', cs)) == cs
    ensures InitialSlashes(Slashes(k) + JoinWith('/', cs)) == k
  {
    var p := Slashes(k) + JoinWith('/', cs);
    SplitSlashesJoin(k, cs);
    SplitSlashes(k - 1);
    var pre := Split(Slashes(k - 1), '/');
    SignificantAppend(pre, if cs == [] then [""] else cs);
    assert Significant(pre) == [] by {
      if k == 1 {
        assert pre == [""];
      } else {
        assert pre == ["", ""] by {
          assert Slashes(1) == "" + ['/'] + "";
          SplitAround("", "", '/');
        }
      }
    }
    if cs != [] {
      SignificantClean(cs);
      JoinWithFirstChar('/', cs);
      assert p[k] == cs[0][0];
    } else {
      assert p == Slashes(k);
    }
  }

  /** `normpath` of an absolute path: its leading slashes, then the reference walk of its parts. */
  lemma NormPathAbsolute(x: string)
    requires IsAbs(x)
    ensures Clean(Walk([], Split(x, '/')))
    ensures NormPath(x) == Slashes(InitialSlashes(x)) + JoinWith('/', Walk([], Split(x, '/')))
    ensures Components(NormPath(x)) == Walk([], Split(x, '/'))
    ensures InitialSlashes(NormPath(x)) == InitialSlashes(x)
    ensures NormalAbs(NormPath(x))
  {
    var cs := Walk([], Split(x, '/'));
    NormFromIsWalk([], Split(x, '/'));
    ComponentsOfShape(InitialSlashes(x), cs);
  }

  /** The reference walk of a normalised absolute path gives back its components. */
  lemma WalkOfNormalAbs(p: string)
    requires NormalAbs(p)
    ensures Walk([], Split(p, '/')) == Components(p)
  {
    var k := InitialSlashes(p);
    var cs := Components(p);
    SplitSlashesJoin(k, cs);
    SplitSlashes(k - 1);
    var pre := Split(Slashes(k - 1), '/');
    WalkAppend([], pre, if cs == [] then [""] else cs);
    WalkEmptyParts([], pre);
    if cs == [] {
      WalkEmptyParts([], [""]);
    } else {
      WalkClean([], cs);
    }
  }

  /** `normpath(join(root, p))` for a normalised absolute root, on components. */
  lemma {:induction false} JoinedComponents(root: string, p: string)
    requires NormalAbs(root)
    ensures IsAbs(Join(root, p))
    ensures Components(NormPath(Join(root, p)))
         == Walk(if IsAbs(p) then [] else Components(root), Split(p, '/'))
    ensures NormalAbs(NormPath(Join(root, p)))
    ensures !IsAbs(p) ==> InitialSlashes(NormPath(Join(root, p))) == InitialSlashes(root)
  {
    var j := Join(root, p);
    NormPathAbsolute(j);
    if !IsAbs(p) {
      SlashesOfJoin(root, p);
      var k := InitialSlashes(root);
      var rc := Components(root);
      if root[|root| - 1] == '/' {
        // only "/" and "//" end with a slash
        if rc != [] {
          JoinWithLastChar('/', rc);
          assert false;
        }
        var front := Slashes(k - 1);
        assert root == front + "/";
        assert j == front + ['/'] + p;
        SplitAround(front, p, '/');
        SplitSlashes(k - 1);
        WalkAppend([], Split(front, '/'), Split(p, '/'));
        WalkEmptyParts([], Split(front, '/'));
      } else {
        assert j == root + ['/'] + p;
        SplitAround(root, p, '/');
        WalkAppend([], Split(root, '/'), Split(p, '/'));
        WalkOfNormalAbs(root);
      }
    }
  }

  /** Joining a relative path keeps the root's leading slashes. */
  lemma SlashesOfJoin(root: string, p: string)
    requires NormalAbs(root) && !IsAbs(p)
    ensures InitialSlashes(Join(root, p)) == InitialSlashes(root)
  {
    var k := InitialSlashes(root);
    var rc := Components(root);
    var j := Join(root, p);
    if rc == [] {
      assert root == Slashes(k);
      assert j == root + p;
      assert |p| > 0 ==> j[k] == p[0];
    } else {
      JoinWithFirstChar('/', rc);
      assert root[k] == rc[0][0];
      assert rc[0][0] in rc[0];
      JoinWithLastChar('/', rc);
      assert rc[|rc| - 1][|rc[|rc| - 1]| - 1] in rc[|rc| - 1];
      assert j == root + "/" + p;
      assert j[k] == root[k];
    }
  }

  /** A join whose last part is non-empty ends with that part's last character. */
  lemma {:induction false} JoinWithLastChar(sep: char, parts: seq<string>)
    requires |parts| >= 1 && |parts[|parts| - 1]| >= 1
    ensures |JoinWith(sep, parts)| >= 1
    ensures JoinWith(sep, parts)[|JoinWith(sep, parts)| - 1] == parts[|parts| - 1][|parts[|parts| - 1]| - 1]
    decreases |parts|
  {
    if |parts| > 1 {
      JoinWithLastChar(sep, parts[1..]);
    }
  }

  /** Joining clean component lists is injective. */
  lemma JoinCleanInjective(a: seq<string>, b: seq<string>)
    requires Clean(a) && Clean(b)
    requires JoinWith('/', a) == JoinWith('/', b)
    ensures a == b
  {
    if a != [] && b != [] {
      SplitJoin(a, '/');
      SplitJoin(b, '/');
    } else if a != [] {
      JoinWithFirstChar('/', a);
    } else if b != [] {
      JoinWithFirstChar('/', b);
    }
  }

  lemma {:induction false} CommonPrefixIsPrefix(a: seq<string>, b: seq<string>)
    ensures CommonPrefix(a, b) <= a && CommonPrefix(a, b) <= b
    ensures CommonPrefix(a, b) == a <==> a <= b
    decreases |a|
  {
    if a != [] && b != [] && a[0] == b[0] {
      CommonPrefixIsPrefix(a[1..], b[1..]);
      assert a == [a[0]] + a[1..];
      assert b == [b[0]] + b[1..];
    }
  }

  lemma CleanPrefix(a: seq<string>, b: seq<string>)
    requires Clean(b) && a <= b
    ensures Clean(a)
  {
    forall i | 0 <= i < |a| ensures a[i] == b[i] { }
  }

  /**
   * `commonpath([a, b]) == a` for normalised absolute paths holds exactly when
   * `a` has a single leading slash and its components are a prefix of `b`'s.
   */
  lemma CommonPathIsPrefix(a: string, b: string)
    requires NormalAbs(a) && NormalAbs(b)
    ensures CommonPath(a, b) == a <==> InitialSlashes(a) == 1 && Components(a) <= Components(b)
  {
    var ca, cb := Components(a), Components(b);
    var l := CommonPrefix(ca, cb);
    CommonPrefixIsPrefix(ca, cb);
    CleanPrefix(l, ca);
    var k := InitialSlashes(a);
    if CommonPath(a, b) == a {
      assert "/" + JoinWith('/', l) == Slashes(k) + JoinWith('/', ca);
      if l != [] {
        JoinWithFirstChar('/', l);
      }
      assert k == 1;
      assert JoinWith('/', l) == JoinWith('/', ca);
      JoinCleanInjective(l, ca);
    }
  }
}
