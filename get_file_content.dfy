/**
 * `get_file_content(working_directory, file_path)`: the text of a regular
 * file inside the working directory, cut at `MAX_CHARS` characters with a
 * marker saying so.
 */
module GetFileContent {
  import opened Results
  import opened Text
  import opened PosixPath
  import opened Sandbox
  import opened Environment

  /** The refusal quotes the working directory, not the requested file. */
  function OutsideError(workingDirectory: string): string
  {
    "Error: Cannot list \"" + workingDirectory + "\" as it is outside the permitted working directory"
  }

  function NotFoundError(filePath: string): string
  {
    "Error: File not found or is not a regular file: \"" + filePath + "\""
  }

  function TruncationMarker(filePath: string, maxChars: nat): string
  {
    "[...File \"" + filePath + "\" truncated at " + Decimal(maxChars) + " characters]"
  }

  function Min(a: nat, b: nat): nat
  {
    if a <= b then a else b
  }

  /**
   * `f.read(MAX_CHARS)`, then `f.read(1)` to learn whether anything is left,
   * appending the marker when it is.
   */
  function ReadLimited(content: string, filePath: string, maxChars: nat): string
  {
    var head := content[..Min(maxChars, |content|)];
    var rest := content[|head|..];
    var probe := rest[..Min(1, |rest|)];
    if probe != "" then head + TruncationMarker(filePath, maxChars) else head
  }

  /** What `get_file_content` returns, with `maxChars` standing for `MAX_CHARS`. */
  function FileContent(env: Snapshot, cwd: string, maxChars: nat, workingDirectory: string, filePath: string): string
    requires IsAbs(cwd)
  {
    var root := WorkingRoot(cwd, workingDirectory);
    var fileAbs := AbsPath(cwd, Join(root, filePath));
    if !Permitted(root, fileAbs) then OutsideError(workingDirectory)
    else if !IsFile(env, fileAbs) then NotFoundError(filePath)
    else
      match ReadText(env, fileAbs)
      case Err(e) => "Error: " + e.message
      case Ok(content) => ReadLimited(content, filePath, maxChars)
  }

  // ---------------------------------------------------------------------
  // Properties

  /**
   * Containment is decided before the file system is consulted: a request
   * outside the working directory gets the same refusal whatever exists,
   * and whatever file it names.
   */
  lemma ContainmentFirst(env1: Snapshot, env2: Snapshot, cwd: string, max1: nat, max2: nat,
                         workingDirectory: string, path1: string, path2: string)
    requires IsAbs(cwd)
    requires var root := WorkingRoot(cwd, workingDirectory);
      !Permitted(root, Resolve(root, path1)) && !Permitted(root, Resolve(root, path2))
    ensures FileContent(env1, cwd, max1, workingDirectory, path1) == OutsideError(workingDirectory)
    ensures FileContent(env1, cwd, max1, workingDirectory, path1)
         == FileContent(env2, cwd, max2, workingDirectory, path2)
  {
  }

  /** Inside the working directory, anything but a regular file is reported as not found. */
  lemma NotRegularFile(env: Snapshot, cwd: string, maxChars: nat, workingDirectory: string, filePath: string)
    requires IsAbs(cwd)
    requires var root := WorkingRoot(cwd, workingDirectory); var fileAbs := Resolve(root, filePath);
      Permitted(root, fileAbs) && !IsFile(env, fileAbs)
    ensures FileContent(env, cwd, maxChars, workingDirectory, filePath) == NotFoundError(filePath)
  {
  }

  /** A failure to open or read gives `Error: {e}`. */
  lemma ReadFailure(env: Snapshot, cwd: string, maxChars: nat, workingDirectory: string, filePath: string)
    requires IsAbs(cwd)
    requires var root := WorkingRoot(cwd, workingDirectory); var fileAbs := Resolve(root, filePath);
      Permitted(root, fileAbs) && IsFile(env, fileAbs) && ReadText(env, fileAbs).Err?
    ensures var fileAbs := Resolve(WorkingRoot(cwd, workingDirectory), filePath);
      FileContent(env, cwd, maxChars, workingDirectory, filePath)
        == "Error: " + ReadText(env, fileAbs).error.message
  {
  }

  /** Content of at most `maxChars` characters comes back verbatim; longer content is cut and marked. */
  lemma ReadLimitedCases(content: string, filePath: string, maxChars: nat)
    ensures |content| <= maxChars ==> ReadLimited(content, filePath, maxChars) == content
    ensures |content| > maxChars ==>
              ReadLimited(content, filePath, maxChars)
                == content[..maxChars] + TruncationMarker(filePath, maxChars)
  {
    if |content| <= maxChars {
      assert content[..|content|] == content;
    }
  }

  /**
   * A successful result is a prefix of the content, of at most `maxChars`
   * characters, followed by nothing or by the marker, so it is never longer
   * than `maxChars` plus the marker.
   */
  lemma ReadLimitedShape(content: string, filePath: string, maxChars: nat)
    ensures var r := ReadLimited(content, filePath, maxChars);
      var head := content[..Min(maxChars, |content|)];
      (r == head || r == head + TruncationMarker(filePath, maxChars))
      && head <= content
      && |r| <= maxChars + |TruncationMarker(filePath, maxChars)|
  {
    ReadLimitedCases(content, filePath, maxChars);
  }

  /** The result of a successful read, for a file inside the working directory. */
  lemma ReadSuccess(env: Snapshot, cwd: string, maxChars: nat, workingDirectory: string, filePath: string)
    requires IsAbs(cwd)
    requires var root := WorkingRoot(cwd, workingDirectory); var fileAbs := Resolve(root, filePath);
      Permitted(root, fileAbs) && IsFile(env, fileAbs) && ReadText(env, fileAbs).Ok?
    ensures var content := ReadText(env, Resolve(WorkingRoot(cwd, workingDirectory), filePath)).value;
      var r := FileContent(env, cwd, maxChars, workingDirectory, filePath);
      (|content| <= maxChars ==> r == content)
      && (|content| > maxChars ==> r == content[..maxChars] + TruncationMarker(filePath, maxChars))
  {
    var content := ReadText(env, Resolve(WorkingRoot(cwd, workingDirectory), filePath)).value;
    ReadLimitedCases(content, filePath, maxChars);
  }
}
