/**
 * The containment check that all three tools run before touching the file
 * system: the working directory is made absolute, the requested path is
 * joined to it and normalised, and the request is permitted only when the
 * common path of the two is the working directory itself.
 */
module Sandbox {
  import opened Text
  import opened PosixPath

  /** `abspath(working_directory)`: the directory every request is confined to. */
  function WorkingRoot(cwd: string, workingDirectory: string): (root: string)
    requires IsAbs(cwd)
    ensures NormalAbs(root)
  {
    var joined := if IsAbs(workingDirectory) then workingDirectory else Join(cwd, workingDirectory);
    NormPathAbsolute(joined);
    AbsPath(cwd, workingDirectory)
  }

  /**
   * `normpath(join(root, p))`: where a request leads. Its components are the
   * reference walk of `p`'s parts, starting from the root's components, or
   * from nothing when `p` is absolute.
   */
  function Resolve(root: string, p: string): (target: string)
    requires NormalAbs(root)
    ensures NormalAbs(target)
    ensures Components(target) == Walk(if IsAbs(p) then [] else Components(root), Split(p, '/'))
    ensures !IsAbs(p) ==> InitialSlashes(target) == InitialSlashes(root)
  {
    JoinedComponents(root, p);
    NormPath(Join(root, p))
  }

  /** The tools' test `commonpath([root, target]) == root`. */
  predicate Permitted(root: string, target: string)
    requires IsAbs(root) && IsAbs(target)
  {
    CommonPath(root, target) == root
  }

  /** `abspath(join(root, p))`, as two of the tools write it, is `normpath(join(root, p))`. */
  lemma AbsPathOfJoin(cwd: string, root: string, p: string)
    requires IsAbs(cwd) && NormalAbs(root)
    ensures AbsPath(cwd, Join(root, p)) == Resolve(root, p)
  {
  }

  /**
   * The containment test is a test on whole components: a request is
   * permitted exactly when the root has a single leading slash and the
   * root's components are a prefix of the components the request walks to.
   */
  lemma ContainmentByComponents(cwd: string, workingDirectory: string, p: string)
    requires IsAbs(cwd)
    ensures var root := WorkingRoot(cwd, workingDirectory);
      Permitted(root, Resolve(root, p))
      <==> InitialSlashes(root) == 1
           && Components(root) <= Walk(if IsAbs(p) then [] else Components(root), Split(p, '/'))
  {
    var root := WorkingRoot(cwd, workingDirectory);
    CommonPathIsPrefix(root, Resolve(root, p));
  }

  /**
   * A root made of exactly two leading slashes (`//work`), which `normpath`
   * keeps as it is, is never returned by `commonpath`, which writes one
   * slash: such a working directory refuses every request, even `.`.
   */
  lemma DoubleSlashRootRefusesAll(root: string, target: string)
    requires NormalAbs(root) && NormalAbs(target)
    requires InitialSlashes(root) == 2
    ensures !Permitted(root, target)
  {
    CommonPathIsPrefix(root, target);
  }

  /** Two normalised absolute paths with the same slashes and components are equal. */
  lemma SameComponents(a: string, b: string)
    requires NormalAbs(a) && NormalAbs(b)
    requires InitialSlashes(a) == InitialSlashes(b)
    requires Components(a) == Components(b)
    ensures a == b
  {
  }

  /** A relative request whose parts walk from the root back to the root leads to the root. */
  lemma WalkBackToRoot(root: string, p: string)
    requires NormalAbs(root) && InitialSlashes(root) == 1 && !IsAbs(p)
    requires Walk(Components(root), Split(p, '/')) == Components(root)
    ensures Resolve(root, p) == root
    ensures Permitted(root, Resolve(root, p))
  {
    SameComponents(root, Resolve(root, p));
    CommonPathIsPrefix(root, Resolve(root, p));
  }

  /** The default request `.` leads to the root itself and is permitted. */
  lemma DefaultDirectoryPermitted(root: string)
    requires NormalAbs(root) && InitialSlashes(root) == 1
    ensures Resolve(root, ".") == root
    ensures Permitted(root, Resolve(root, "."))
  {
    SplitWithoutSep(".", '/');
    assert Walk(Components(root), ["."]) == Walk(Components(root), []);
    WalkBackToRoot(root, ".");
  }

  /** `a/b` splits into `[a, b]` when neither holds a slash. */
  lemma SplitTwo(a: string, b: string)
    requires '/' !in a && '/' !in b
    ensures Split(a + "/" + b, '/') == [a, b]
  {
    assert a + "/" + b == a + ['/'] + b;
    SplitAround(a, b, '/');
    SplitWithoutSep(a, '/');
    SplitWithoutSep(b, '/');
  }

  /** A request that goes into a child and back (`name/..`) leads to the root and is permitted. */
  lemma ChildAndBackPermitted(root: string, name: string)
    requires NormalAbs(root) && InitialSlashes(root) == 1
    requires Clean([name])
    ensures Resolve(root, name + "/..") == root
    ensures Permitted(root, Resolve(root, name + "/.."))
  {
    assert name == [name][0];
    assert name + "/.." == name + "/" + "..";
    SplitTwo(name, "..");
    var rc := Components(root);
    assert Walk(rc, [name, ".."]) == Walk(rc + [name], [".."]);
    assert Walk(rc + [name], [".."]) == Walk((rc + [name])[..|rc|], []);
    assert (rc + [name])[..|rc|] == rc;
    WalkBackToRoot(root, name + "/..");
  }

  /** `..` from any root other than `/` leaves the working directory and is refused. */
  lemma ParentRefused(root: string)
    requires NormalAbs(root) && Components(root) != []
    ensures !Permitted(root, Resolve(root, ".."))
  {
    SplitWithoutSep("..", '/');
    var rc := Components(root);
    assert Walk(rc, [".."]) == Walk(rc[..|rc| - 1], []);
    assert Components(Resolve(root, "..")) == rc[..|rc| - 1];
    CommonPathIsPrefix(root, Resolve(root, ".."));
  }

  /**
   * The check is lexical: leaving through `..` and coming straight back in
   * (`../work` from `/work`) leads to the root again and is permitted.
   */
  lemma LeaveAndReturnPermitted(root: string)
    requires NormalAbs(root) && InitialSlashes(root) == 1 && Components(root) != []
    ensures var back := "../" + Components(root)[|Components(root)| - 1];
      Resolve(root, back) == root && Permitted(root, Resolve(root, back))
  {
    var rc := Components(root);
    var last := rc[|rc| - 1];
    assert "../" + last == ".." + "/" + last;
    SplitTwo("..", last);
    assert Walk(rc, ["..", last]) == Walk(rc[..|rc| - 1], [last]);
    assert Walk(rc[..|rc| - 1], [last]) == Walk(rc[..|rc| - 1] + [last], []);
    assert rc[..|rc| - 1] + [last] == rc;
    WalkBackToRoot(root, "../" + last);
  }

  /** An absolute request replaces the root in `join`: where it leads does not depend on the root. */
  lemma AbsoluteRequestIgnoresRoot(root: string, p: string)
    requires NormalAbs(root) && IsAbs(p)
    ensures Resolve(root, p) == NormPath(p)
    ensures Permitted(root, Resolve(root, p))
            <==> InitialSlashes(root) == 1 && Components(root) <= Components(NormPath(p))
  {
    CommonPathIsPrefix(root, Resolve(root, p));
  }

  /**
   * The check compares components, not characters: a sibling whose name
   * extends the root's name (`/work2` beside `/work`) starts with the root's
   * text and is still refused.
   */
  lemma SiblingRefused(name: string, suffix: string)
    requires Clean([name]) && Clean([name + suffix]) && suffix != ""
    requires NormalAbs("/" + name)
    ensures "/" + name <= Resolve("/" + name, "/" + name + suffix)
    ensures !Permitted("/" + name, Resolve("/" + name, "/" + name + suffix))
  {
    var root := "/" + name;
    var sibling := "/" + (name + suffix);
    assert "/" + name + suffix == sibling;
    SingleComponent(name);
    SingleComponent(name + suffix);
    assert Resolve(root, sibling) == sibling;
    assert name != name + suffix by { assert |name| < |name + suffix|; }
    assert !([name] <= [name + suffix]);
    CommonPathIsPrefix(root, sibling);
  }

  /** `/name` for one clean component `name` is normalised, with components `[name]`. */
  lemma SingleComponent(name: string)
    requires Clean([name])
    ensures NormalAbs("/" + name) && Components("/" + name) == [name] && InitialSlashes("/" + name) == 1
    ensures NormPath("/" + name) == "/" + name
  {
    assert name == [name][0];
    assert Slashes(1) == "/";
    assert JoinWith('/', [name]) == name;
    assert "/" + name == Slashes(1) + JoinWith('/', [name]);
    ComponentsOfShape(1, [name]);
    NormalIsFixed("/" + name);
  }

  /** `normpath` leaves a normalised absolute path unchanged. */
  lemma NormalIsFixed(p: string)
    requires NormalAbs(p)
    ensures NormPath(p) == p
  {
    NormPathAbsolute(p);
    WalkOfNormalAbs(p);
  }
}
