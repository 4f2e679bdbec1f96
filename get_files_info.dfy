/**
 * `get_files_info(working_directory, directory=".")`: list the entries of a
 * directory inside the working directory, one line per entry with its size
 * and whether it is a directory.
 */
module GetFilesInfo {
  import opened Results
  import opened Text
  import opened PosixPath
  import opened Sandbox
  import opened Environment

  const DEFAULT_DIRECTORY := "."

  function OutsideError(directory: string): string
  {
    "Error: Cannot list \"" + directory + "\" as it is outside the permitted working directory"
  }

  function Header(directory: string): string
  {
    "Result for '" + directory + "' directory\n"
  }

  /** `f"  - {name}: file_size={file_size}, is_dir={is_dir}"`. */
  function EntryLine(name: string, size: nat, isDir: bool): string
  {
    "  - " + name + ": file_size=" + Decimal(size) + ", is_dir=" + PyBool(isDir)
  }

  /**
   * The lines for `names`, in order, or the error of the first `getsize`
   * that fails. Defined on the last name so that it follows the loop that
   * builds `item_info`.
   */
  function EntryLines(env: Snapshot, target: string, names: seq<string>): Result<seq<string>, OsError>
    decreases |names|
  {
    if names == [] then Ok([])
    else
      match EntryLines(env, target, names[..|names| - 1])
      case Err(e) => Err(e)
      case Ok(lines) =>
        var name := names[|names| - 1];
        var namePath := Join(target, name);
        match GetSize(env, namePath)
        case Err(e) => Err(e)
        case Ok(size) => Ok(lines + [EntryLine(name, size, IsDir(env, namePath))])
  }

  /** The body of the `try`: list the directory, then describe every entry. */
  function Listing(env: Snapshot, target: string): Result<seq<string>, OsError>
  {
    match ListDir(env, target)
    case Err(e) => Err(e)
    case Ok(names) => EntryLines(env, target, names)
  }

  /** What `get_files_info` returns. */
  function FilesInfo(env: Snapshot, cwd: string, workingDirectory: string, directory: string): string
    requires IsAbs(cwd)
  {
    var root := WorkingRoot(cwd, workingDirectory);
    var target := Resolve(root, directory);
    if !Permitted(root, target) then OutsideError(directory)
    else
      match Listing(env, target)
      case Err(e) => "Error: " + e.message
      case Ok(lines) => Header(directory) + JoinWith('\n', lines)
  }

  method GetFilesInfo(env: Snapshot, cwd: string, workingDirectory: string, directory: string)
    returns (result: string)
    requires IsAbs(cwd)
    ensures result == FilesInfo(env, cwd, workingDirectory, directory)
  {
    var workingDirAbs := AbsPath(cwd, workingDirectory);
    var targetDir := NormPath(Join(workingDirAbs, directory));
    if CommonPath(workingDirAbs, targetDir) != workingDirAbs {
      return OutsideError(directory);
    }
    var names: seq<string>;
    match ListDir(env, targetDir) {
      case Err(e) =>
        return "Error: " + e.message;
      case Ok(listed) =>
        names := listed;
    }
    var itemInfo: seq<string> := [];
    for i := 0 to |names|
      invariant EntryLines(env, targetDir, names[..i]) == Ok(itemInfo)
    {
      var name := names[i];
      var namePath := Join(targetDir, name);
      var fileSize: nat;
      match GetSize(env, namePath) {
        case Err(e) =>
          assert names[..i + 1][..i] == names[..i];
          ErrorStays(env, targetDir, names, i + 1);
          return "Error: " + e.message;
        case Ok(size) =>
          fileSize := size;
      }
      var isDir := IsDir(env, namePath);
      assert names[..i + 1][..i] == names[..i];
      itemInfo := itemInfo + [EntryLine(name, fileSize, isDir)];
    }
    assert names[..|names|] == names;
    return Header(directory) + JoinWith('\n', itemInfo);
  }

  /** Once describing a prefix of the names has failed, describing all of them fails the same way. */
  lemma {:induction false} ErrorStays(env: Snapshot, target: string, names: seq<string>, k: nat)
    requires k <= |names|
    requires EntryLines(env, target, names[..k]).Err?
    ensures EntryLines(env, target, names) == EntryLines(env, target, names[..k])
    decreases |names| - k
  {
    if k < |names| {
      var front := names[..|names| - 1];
      assert front[..k] == names[..k];
      ErrorStays(env, target, front, k);
    } else {
      assert names[..k] == names;
    }
  }

  // ---------------------------------------------------------------------
  // Properties

  /** A request outside the working directory gets the refusal that quotes the directory. */
  lemma OutsideRefused(env: Snapshot, cwd: string, workingDirectory: string, directory: string)
    requires IsAbs(cwd)
    requires var root := WorkingRoot(cwd, workingDirectory); !Permitted(root, Resolve(root, directory))
    ensures FilesInfo(env, cwd, workingDirectory, directory) == OutsideError(directory)
  {
  }

  /** Describing the names succeeds exactly when every entry's size can be read. */
  lemma {:induction false} EntryLinesSucceed(env: Snapshot, target: string, names: seq<string>)
    ensures EntryLines(env, target, names).Ok?
            <==> forall i :: 0 <= i < |names| ==> GetSize(env, Join(target, names[i])).Ok?
    decreases |names|
  {
    if names != [] {
      var front := names[..|names| - 1];
      EntryLinesSucceed(env, target, front);
      assert forall i :: 0 <= i < |front| ==> front[i] == names[i];
    }
  }

  /** On success there is one line per name, in listing order, each describing that name. */
  lemma {:induction false} EntryLinesDescribeNames(env: Snapshot, target: string, names: seq<string>)
    requires EntryLines(env, target, names).Ok?
    ensures var lines := EntryLines(env, target, names).value;
      |lines| == |names| &&
      forall i :: 0 <= i < |names| ==>
        GetSize(env, Join(target, names[i])).Ok? &&
        lines[i] == EntryLine(names[i], GetSize(env, Join(target, names[i])).value,
                              IsDir(env, Join(target, names[i])))
    decreases |names|
  {
    if names != [] {
      var front := names[..|names| - 1];
      var lines := EntryLines(env, target, names).value;
      var frontLines := EntryLines(env, target, front).value;
      EntryLinesDescribeNames(env, target, front);
      var last := names[|names| - 1];
      assert lines == frontLines + [EntryLine(last, GetSize(env, Join(target, last)).value, IsDir(env, Join(target, last)))];
      forall i | 0 <= i < |names|
        ensures GetSize(env, Join(target, names[i])).Ok?
        ensures lines[i] == EntryLine(names[i], GetSize(env, Join(target, names[i])).value,
                                      IsDir(env, Join(target, names[i])))
      {
        if i < |front| {
          assert front[i] == names[i];
          assert lines[i] == frontLines[i];
        }
      }
    }
  }

  /** On failure the result is the error of the first name whose size cannot be read. */
  lemma {:induction false} EntryLinesFirstError(env: Snapshot, target: string, names: seq<string>)
    requires EntryLines(env, target, names).Err?
    ensures exists i :: 0 <= i < |names|
              && GetSize(env, Join(target, names[i])) == Err(EntryLines(env, target, names).error)
              && forall j :: 0 <= j < i ==> GetSize(env, Join(target, names[j])).Ok?
    decreases |names|
  {
    var front := names[..|names| - 1];
    var e := EntryLines(env, target, names).error;
    assert forall j :: 0 <= j < |front| ==> front[j] == names[j];
    if EntryLines(env, target, front).Err? {
      EntryLinesFirstError(env, target, front);
      var i :| 0 <= i < |front|
               && GetSize(env, Join(target, front[i])) == Err(EntryLines(env, target, front).error)
               && forall j :: 0 <= j < i ==> GetSize(env, Join(target, front[j])).Ok?;
      assert GetSize(env, Join(target, names[i])) == Err(e);
    } else {
      EntryLinesSucceed(env, target, front);
      var i := |names| - 1;
      assert GetSize(env, Join(target, names[i])) == Err(e);
      assert forall j :: 0 <= j < i ==> GetSize(env, Join(target, names[j])).Ok?;
    }
  }

  /** Any failure inside the listing gives `Error: {e}` and no partial listing. */
  lemma ListingFailure(env: Snapshot, cwd: string, workingDirectory: string, directory: string)
    requires IsAbs(cwd)
    requires var root := WorkingRoot(cwd, workingDirectory);
      Permitted(root, Resolve(root, directory)) && Listing(env, Resolve(root, directory)).Err?
    ensures var root := WorkingRoot(cwd, workingDirectory);
      FilesInfo(env, cwd, workingDirectory, directory)
        == "Error: " + Listing(env, Resolve(root, directory)).error.message
  {
  }

  /** An empty directory gives the header line alone, newline included. */
  lemma EmptyDirectory(env: Snapshot, cwd: string, workingDirectory: string, directory: string)
    requires IsAbs(cwd)
    requires var root := WorkingRoot(cwd, workingDirectory);
      Permitted(root, Resolve(root, directory)) && ListDir(env, Resolve(root, directory)) == Ok([])
    ensures FilesInfo(env, cwd, workingDirectory, directory) == Header(directory)
  {
    assert JoinWith('\n', []) == "";
  }

  /** The default `.` lists the working directory itself. */
  lemma DefaultListsRoot(env: Snapshot, cwd: string, workingDirectory: string)
    requires IsAbs(cwd)
    requires InitialSlashes(WorkingRoot(cwd, workingDirectory)) == 1
    ensures var root := WorkingRoot(cwd, workingDirectory);
      FilesInfo(env, cwd, workingDirectory, DEFAULT_DIRECTORY)
        == match Listing(env, root)
           case Err(e) => "Error: " + e.message
           case Ok(lines) => Header(DEFAULT_DIRECTORY) + JoinWith('\n', lines)
  {
    DefaultDirectoryPermitted(WorkingRoot(cwd, workingDirectory));
  }

  lemma EntryLineHasNoNewline(name: string, size: nat, isDir: bool)
    requires '\n' !in name
    ensures '\n' !in EntryLine(name, size, isDir)
  {
    var line := EntryLine(name, size, isDir);
    var d := Decimal(size);
    var b := PyBool(isDir);
    assert line == "  - " + name + ": file_size=" + d + ", is_dir=" + b;
    assert '\n' !in d;
    assert '\n' !in b;
  }

  /**
   * When no name holds a newline, the entry lines can be read back from the
   * output: splitting what follows the header at newlines gives exactly the
   * lines, in order.
   */
  lemma LinesReadBack(env: Snapshot, cwd: string, workingDirectory: string, directory: string)
    requires IsAbs(cwd)
    requires var root := WorkingRoot(cwd, workingDirectory); var target := Resolve(root, directory);
      Permitted(root, target) && ListDir(env, target).Ok? && ListDir(env, target).value != []
      && Listing(env, target).Ok?
      && forall i :: 0 <= i < |ListDir(env, target).value| ==> '\n' !in ListDir(env, target).value[i]
    ensures var root := WorkingRoot(cwd, workingDirectory); var target := Resolve(root, directory);
      var out := FilesInfo(env, cwd, workingDirectory, directory);
      Header(directory) <= out && Split(out[|Header(directory)|..], '\n') == Listing(env, target).value
  {
    var root := WorkingRoot(cwd, workingDirectory);
    var target := Resolve(root, directory);
    var names := ListDir(env, target).value;
    var lines := Listing(env, target).value;
    EntryLinesDescribeNames(env, target, names);
    forall i | 0 <= i < |lines| ensures '\n' !in lines[i] {
      EntryLineHasNoNewline(names[i], GetSize(env, Join(target, names[i])).value, IsDir(env, Join(target, names[i])));
    }
    SplitJoin(lines, '\n');
    var out := FilesInfo(env, cwd, workingDirectory, directory);
    assert out == Header(directory) + JoinWith('\n', lines);
    assert out[|Header(directory)|..] == JoinWith('\n', lines);
  }
}
