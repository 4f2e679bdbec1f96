/**
 * `run_python_file(working_directory, file_path, args=None)`: run a Python
 * script inside the working directory and report its exit status and output.
 */
module RunPythonFile {
  import opened Results
  import opened Text
  import opened PosixPath
  import opened Sandbox
  import opened Environment

  const INTERPRETER := "python"
  const TIMEOUT_SECONDS: nat := 30

  /**
   * Written without the `f` prefix in the source, so the braces are text and
   * the return code itself is never shown.
   */
  const EXIT_NOTICE := "Process exited with code {output.returncode}"
  const NO_OUTPUT := "No output produced"

  /** The refusal, with the stray closing parenthesis it ends with. */
  function OutsideError(filePath: string): string
  {
    "Error: Cannot execute \"" + filePath + "\" as it is outside the permitted working directory)"
  }

  function NotFileError(filePath: string): string
  {
    "Error: \"" + filePath + "\" does not exist or is not a regular file"
  }

  function NotPythonError(filePath: string): string
  {
    "Error: \"" + filePath + "\" is not a Python file"
  }

  /** `file_path[-3:]`: the last three characters, or the whole string when it is shorter. */
  function LastThree(s: string): string
  {
    if |s| >= 3 then s[|s| - 3..] else s
  }

  /** The argument vector `subprocess.run` receives. */
  function Command(absolutePath: string, args: Option<seq<string>>): seq<string>
  {
    [INTERPRETER, absolutePath] + (if args.Some? then args.value else [])
  }

  /** The text assembled from a completed process. */
  function Report(returncode: int, stdout: string, stderr: string): string
  {
    (if returncode != 0 then EXIT_NOTICE else "")
    + (if stdout == "" && stderr == "" then NO_OUTPUT else "STDOUT:" + stdout + "STDERR:" + stderr)
  }

  /** What `run_python_file` returns, with `launch` standing for `subprocess.run`. */
  function RunResult(env: Snapshot, cwd: string, workingDirectory: string, filePath: string,
                     args: Option<seq<string>>, launch: Launcher): string
    requires IsAbs(cwd)
  {
    var root := WorkingRoot(cwd, workingDirectory);
    var fileAbs := AbsPath(cwd, Join(root, filePath));
    if !Permitted(root, fileAbs) then OutsideError(filePath)
    else if !IsFile(env, fileAbs) then NotFileError(filePath)
    else if LastThree(filePath) != ".py" then NotPythonError(filePath)
    else
      match launch(Command(fileAbs, args), TIMEOUT_SECONDS)
      case Raised(e) => "Error: executing Python file: " + e.message
      case Completed(code, out, err) => Report(code, out, err)
  }

  /** `command = ["python", absolute_file_path]`, extended by `args` when there are any. */
  method BuildCommand(absolutePath: string, args: Option<seq<string>>) returns (command: seq<string>)
    ensures command == Command(absolutePath, args)
    ensures command[..2] == [INTERPRETER, absolutePath]
    ensures |command| == 2 <==> args.None? || args.value == []
    ensures args.Some? ==> command[2..] == args.value
  {
    command := [INTERPRETER, absolutePath];
    if args.Some? && args.value != [] {
      command := command + args.value;
    }
  }

  /** `output_string`, built up by successive `+=`. */
  method AssembleOutput(returncode: int, stdout: string, stderr: string) returns (output: string)
    ensures output == Report(returncode, stdout, stderr)
    ensures returncode != 0 <==> EXIT_NOTICE <= output
  {
    output := "";
    if returncode != 0 {
      output := output + EXIT_NOTICE;
    }
    if stdout == "" && stderr == "" {
      output := output + NO_OUTPUT;
    } else {
      output := output + "STDOUT:" + stdout;
      output := output + "STDERR:" + stderr;
    }
    ExitNoticeIffFailed(returncode, stdout, stderr);
  }

  method RunPythonFile(env: Snapshot, cwd: string, workingDirectory: string, filePath: string,
                       args: Option<seq<string>>, launch: Launcher) returns (result: string)
    requires IsAbs(cwd)
    ensures result == RunResult(env, cwd, workingDirectory, filePath, args, launch)
  {
    var absoluteWorkingDirectory := AbsPath(cwd, workingDirectory);
    var absoluteFilePath := AbsPath(cwd, Join(absoluteWorkingDirectory, filePath));
    if CommonPath(absoluteWorkingDirectory, absoluteFilePath) != absoluteWorkingDirectory {
      return OutsideError(filePath);
    }
    if !IsFile(env, absoluteFilePath) {
      return NotFileError(filePath);
    }
    if LastThree(filePath) != ".py" {
      return NotPythonError(filePath);
    }
    var command := BuildCommand(absoluteFilePath, args);
    match launch(command, TIMEOUT_SECONDS) {
      case Raised(e) =>
        result := "Error: executing Python file: " + e.message;
      case Completed(code, out, err) =>
        result := AssembleOutput(code, out, err);
    }
  }

  // ---------------------------------------------------------------------
  // Properties

  /** `file_path[-3:] != '.py'` is exactly "does not end with `.py`", short strings included. */
  lemma LastThreeIsSuffixTest(s: string)
    ensures LastThree(s) == ".py" <==> EndsWith(s, ".py")
  {
    if |s| < 3 {
      assert |LastThree(s)| < 3;
    }
  }

  /** The output starts with the exit notice exactly when the return code is not zero. */
  lemma ExitNoticeIffFailed(returncode: int, stdout: string, stderr: string)
    ensures returncode != 0 <==> EXIT_NOTICE <= Report(returncode, stdout, stderr)
  {
    var r := Report(returncode, stdout, stderr);
    if returncode == 0 {
      assert r[0] == 'N' || r[0] == 'S';
      assert EXIT_NOTICE[0] == 'P';
    }
  }

  /**
   * The output ends with `No output produced` when both streams are empty,
   * and otherwise with `STDOUT:`, the standard output, `STDERR:` and the
   * standard error, in that order.
   */
  lemma ReportEnding(returncode: int, stdout: string, stderr: string)
    ensures var tail := if stdout == "" && stderr == "" then NO_OUTPUT
                        else "STDOUT:" + stdout + "STDERR:" + stderr;
      EndsWith(Report(returncode, stdout, stderr), tail)
  {
    var head := if returncode != 0 then EXIT_NOTICE else "";
    var tail := if stdout == "" && stderr == "" then NO_OUTPUT else "STDOUT:" + stdout + "STDERR:" + stderr;
    assert Report(returncode, stdout, stderr) == head + tail;
    assert (head + tail)[|head|..] == tail;
  }

  /** Every non-zero return code gives the same text: the code itself is not reported. */
  lemma ReturnCodeHidden(code1: int, code2: int, stdout: string, stderr: string)
    requires code1 != 0 && code2 != 0
    ensures Report(code1, stdout, stderr) == Report(code2, stdout, stderr)
  {
  }

  /**
   * The checks run in a fixed order and the first that fails decides the
   * reply, whatever the process would do: containment, then regular file,
   * then the `.py` suffix of the requested path.
   */
  lemma CheckOrder(env: Snapshot, cwd: string, workingDirectory: string, filePath: string,
                   args: Option<seq<string>>, launch: Launcher)
    requires IsAbs(cwd)
    ensures var root := WorkingRoot(cwd, workingDirectory); var fileAbs := Resolve(root, filePath);
      var r := RunResult(env, cwd, workingDirectory, filePath, args, launch);
      (!Permitted(root, fileAbs) ==> r == OutsideError(filePath))
      && (Permitted(root, fileAbs) && !IsFile(env, fileAbs) ==> r == NotFileError(filePath))
      && ((Permitted(root, fileAbs) && IsFile(env, fileAbs) && !EndsWith(filePath, ".py"))
          ==> r == NotPythonError(filePath))
  {
    LastThreeIsSuffixTest(filePath);
  }

  /**
   * Once every check passes, the script is launched with `python`, its
   * normalised absolute path and the given arguments, under the 30-second
   * timeout; an exception from the launch is reported, and a completed run
   * is reported by its return code and output.
   */
  lemma LaunchOutcome(env: Snapshot, cwd: string, workingDirectory: string, filePath: string,
                      args: Option<seq<string>>, launch: Launcher)
    requires IsAbs(cwd)
    requires var root := WorkingRoot(cwd, workingDirectory); var fileAbs := Resolve(root, filePath);
      Permitted(root, fileAbs) && IsFile(env, fileAbs) && EndsWith(filePath, ".py")
    ensures var fileAbs := Resolve(WorkingRoot(cwd, workingDirectory), filePath);
      var outcome := launch(Command(fileAbs, args), TIMEOUT_SECONDS);
      var r := RunResult(env, cwd, workingDirectory, filePath, args, launch);
      (outcome.Raised? ==> r == "Error: executing Python file: " + outcome.error.message)
      && (outcome.Completed? ==> r == Report(outcome.returncode, outcome.stdout, outcome.stderr))
  {
    LastThreeIsSuffixTest(filePath);
  }

  /**
   * The `.py` test looks at the requested text, not at the file it leads to:
   * `script.py/.` names the same file as `script.py` and is still refused as
   * not a Python file.
   */
  lemma SuffixOfRequestNotOfFile(env: Snapshot, cwd: string, workingDirectory: string, name: string,
                                 args: Option<seq<string>>, launch: Launcher)
    requires IsAbs(cwd)
    requires Clean([name])
    requires var root := WorkingRoot(cwd, workingDirectory); var fileAbs := Resolve(root, name);
      Permitted(root, fileAbs) && IsFile(env, fileAbs)
    ensures var root := WorkingRoot(cwd, workingDirectory);
      Resolve(root, name + "/.") == Resolve(root, name)
    ensures RunResult(env, cwd, workingDirectory, name + "/.", args, launch) == NotPythonError(name + "/.")
  {
    var root := WorkingRoot(cwd, workingDirectory);
    assert name == [name][0];
    assert name + "/." == name + "/" + ".";
    SplitTwo(name, ".");
    SplitWithoutSep(name, '/');
    var rc := Components(root);
    assert Walk(rc, [name, "."]) == Walk(rc + [name], ["."]);
    assert Walk(rc + [name], ["."]) == Walk(rc + [name], []);
    assert Walk(rc, [name]) == Walk(rc + [name], []);
    SameComponents(Resolve(root, name + "/."), Resolve(root, name));
    var request := name + "/.";
    assert LastThree(request)[2] == '.' && ".py"[2] == 'y';
    assert AbsPath(cwd, Join(root, request)) == Resolve(root, request);
  }
}
