# Sandboxed agent tools, modelled in Dafny

The agent exposes three tools to a hosted language model. They are
`get_files_info` (list a directory), `get_file_content` (read a file, cut at
`MAX_CHARS` characters) and `run_python_file` (run a script with arguments).
Each tool confines its argument to a working directory, using one lexical
test: `commonpath([abspath(wd), normpath(join(abspath(wd), p))]) == abspath(wd)`.
After that test, each tool runs a short, fixed chain of checks and formats
its reply as a string.

This project models that core:

- `PosixPath` (`posix_path.dfy`) models Python's `posixpath.join`, `normpath`
  (including the POSIX rule that exactly two leading slashes are kept),
  `abspath` and `commonpath`, working on strings the way CPython does. It
  also gives a reference semantics on components, `Walk`: empty and `.`
  parts are dropped, and `..` pops one component but never goes above the
  root.
- `Sandbox` (`sandbox.dfy`) holds the containment test shared by the three
  tools. The main theorem: the test holds exactly when the root has a single
  leading slash and the root's components are a prefix of the target's
  components.
- `Environment` (`environment.dfy`) is what the tools observe of the
  operating system, taken as a snapshot when a tool is called:
  - inodes looked up by their path components (regular files with their
    decoded text or a read error, directories with their listing or a
    listing error, and other objects, each with a size);
  - a function giving the error an OS call raises on a path;
  - for scripts, a launcher oracle from an argument vector and a timeout to
    a completed process or a raised exception. The launcher stands for
    `subprocess.run`.
- `GetFilesInfo`, `GetFileContent` and `RunPythonFile` each model one tool.
  Each has a specification function of the tool's reply and lemmas about
  that reply. The two tools that build their reply step by step also have a
  method that does so. `GetFilesInfo.GetFilesInfo` runs the `for name in
  names` loop. `RunPythonFile.BuildCommand` extends the command list, and
  `RunPythonFile.AssembleOutput` builds `output_string` with `+=`. Each
  method is proved equal to its specification function.
- `Text` (`text.dfy`) holds `str.split`, `str.join`, `str(n)` and `str(b)`.
  `Results` (`results.dfy`) holds `Option` and `Result`.

The model keeps the quirks of the reply strings exactly as written:

- `get_file_content` refuses with `Cannot list "<working_directory>"`, which
  quotes the working directory instead of the file.
- The `run_python_file` refusal ends with a stray `)`.
- The exit notice is the literal text `Process exited with code
  {output.returncode}`. It has no `f` prefix, so the code is never shown.
- The `.py` test looks at the requested text, not at the file it leads to.
  So `script.py/.` is refused as "not a Python file".
- A working directory written with exactly two leading slashes (`//work`)
  is kept that way by `normpath`. `commonpath` writes it back with one slash,
  so every request to such a directory is refused, even `.`.

## Model

| member | source | states |
|---|---|---|
| `PosixPath.NormPath` | functions/get_files_info.py:7 | normalising an absolute path gives an absolute path |
| `PosixPath.AbsPath` | functions/get_files_info.py:6 | `abspath` relative to an absolute current directory is absolute |
| `PosixPath.Join` | functions/get_files_info.py:7 | joining onto an absolute base, or joining an absolute path, gives an absolute path |
| `PosixPath.InitialSlashes` | functions/get_files_info.py:7 | `normpath` keeps 0, 1 or 2 leading slashes, at least one exactly for absolute paths |
| `PosixPath.NormFromIsWalk` | functions/get_files_info.py:7 | on absolute paths, `normpath`'s component loop equals the reference walk, and yields only clean components |
| `PosixPath.NormPathAbsolute` | functions/get_file_content.py:6-7 | `normpath` of an absolute path is its leading slashes followed by the joined reference walk of its parts; the result is normalised |
| `PosixPath.JoinedComponents` | functions/run_python_file.py:6-7 | the components of `normpath(join(root, p))` are the walk of `p`'s parts from the root's components, or from none when `p` is absolute; a relative `p` keeps the root's leading slashes |
| `PosixPath.SlashesOfJoin` | functions/run_python_file.py:7 | joining a relative path onto a normalised root keeps the root's leading-slash count |
| `PosixPath.WalkAppend` | functions/get_files_info.py:7 | walking a concatenation is walking the second half from where the first half stopped |
| `PosixPath.CommonPrefixIsPrefix` | functions/get_files_info.py:8 | `commonpath`'s common prefix is a prefix of both lists, and equals the first list exactly when it is a prefix of the second |
| `PosixPath.JoinCleanInjective` | functions/get_files_info.py:8 | two clean component lists that join to the same text are equal |
| `PosixPath.CommonPathIsPrefix` | functions/get_files_info.py:8 | for normalised absolute paths, `commonpath([a, b]) == a` exactly when `a` has one leading slash and its components are a prefix of `b`'s |
| `Sandbox.WorkingRoot` | functions/get_files_info.py:6 | `abspath(working_directory)` is a normalised absolute path |
| `Sandbox.Resolve` | functions/get_files_info.py:7 | the target is normalised, its components are the walk of the request from the root (or from none for an absolute request), and a relative request keeps the root's slashes |
| `Sandbox.AbsPathOfJoin` | functions/get_file_content.py:7 | `abspath(join(root, p))` in two tools gives the same result as `normpath(join(root, p))` in the third |
| `Sandbox.ContainmentByComponents` | functions/get_files_info.py:6-8 | the containment test holds exactly when the root has one leading slash and the root's components are a prefix of the walked request's components, in both directions |
| `Sandbox.DoubleSlashRootRefusesAll` | functions/run_python_file.py:8 | a root with exactly two leading slashes fails the containment test for every target |
| `Sandbox.DefaultDirectoryPermitted` | functions/get_files_info.py:5-8 | the default `.` resolves to the root itself and is permitted |
| `Sandbox.ChildAndBackPermitted` | functions/get_files_info.py:7-8 | `name/..` resolves to the root and is permitted |
| `Sandbox.ParentRefused` | functions/get_files_info.py:7-10 | `..` from any root other than `/` is refused |
| `Sandbox.LeaveAndReturnPermitted` | functions/get_file_content.py:7-8 | leaving by `..` and re-entering by the root's last name resolves to the root and is permitted (the test is lexical) |
| `Sandbox.AbsoluteRequestIgnoresRoot` | functions/run_python_file.py:7-8 | an absolute request replaces the root: it resolves to `normpath(p)` and is permitted exactly when the root's components prefix its components |
| `Sandbox.SiblingRefused` | functions/get_files_info.py:8 | for a root `/name`, the sibling `/name<suffix>` starts with the root's text and is still refused (`/work2` beside `/work`) |
| `Sandbox.NormalIsFixed` | functions/get_files_info.py:6-7 | `normpath` leaves a normalised absolute path unchanged |
| `Text.Split` | functions/get_files_info.py:8 | `split` yields at least one part and no part contains the separator |
| `Text.SplitAround` | functions/get_files_info.py:7 | splitting `a + sep + b` is splitting `a` followed by splitting `b` |
| `Text.SplitJoin` | functions/get_files_info.py:20 | `split` undoes `join` when no part contains the separator |
| `Text.Decimal` | functions/get_files_info.py:19 | `str(n)` is a non-empty string of digits with no leading zero unless `n == 0` |
| `Text.DecimalRoundTrip` | functions/get_file_content.py:18 | the decimal text of `n` reads back as `n` |
| `Text.PyBool` | functions/get_files_info.py:19 | `str(b)` is `True` exactly when `b`, else `False` |
| `GetFilesInfo.GetFilesInfo` | functions/get_files_info.py:5-22 | the method (checks, then the listing loop with early error return) returns exactly `FilesInfo` |
| `GetFilesInfo.ErrorStays` | functions/get_files_info.py:15-22 | once describing a prefix of the names fails, describing all names fails with the same error |
| `GetFilesInfo.OutsideRefused` | functions/get_files_info.py:9-10 | a request outside the root gets `Error: Cannot list "<directory>" as it is outside the permitted working directory` |
| `GetFilesInfo.EntryLinesSucceed` | functions/get_files_info.py:15-19 | describing the entries succeeds exactly when every entry's size can be read |
| `GetFilesInfo.EntryLinesDescribeNames` | functions/get_files_info.py:15-19 | on success there is one line per name, in listing order, each `  - {name}: file_size={size}, is_dir={True/False}` for that name |
| `GetFilesInfo.EntryLinesFirstError` | functions/get_files_info.py:15-22 | on failure the error is that of the first name, in listing order, whose size cannot be read |
| `GetFilesInfo.ListingFailure` | functions/get_files_info.py:12-22 | any failure while listing gives `Error: {e}` and no partial listing |
| `GetFilesInfo.EmptyDirectory` | functions/get_files_info.py:20 | an empty directory gives only the header `Result for '<directory>' directory\n` |
| `GetFilesInfo.DefaultListsRoot` | functions/get_files_info.py:5-20 | the default `.` lists the working directory itself |
| `GetFilesInfo.LinesReadBack` | functions/get_files_info.py:20 | the output starts with the header, and when no name holds a newline, splitting the rest at newlines gives back the entry lines |
| `GetFileContent.ContainmentFirst` | functions/get_file_content.py:6-12 | an outside request gets the refusal quoting the working directory, whatever the file system holds and whatever file is named |
| `GetFileContent.NotRegularFile` | functions/get_file_content.py:11-12 | inside the root, anything but a regular file gives `Error: File not found or is not a regular file: "<file_path>"` |
| `GetFileContent.ReadFailure` | functions/get_file_content.py:14-21 | a failure to open or read gives `Error: {e}` |
| `GetFileContent.ReadLimitedCases` | functions/get_file_content.py:16-19 | content of at most `MAX_CHARS` characters comes back verbatim; longer content is its first `MAX_CHARS` characters followed by the truncation marker |
| `GetFileContent.ReadLimitedShape` | functions/get_file_content.py:16-18 | a read result is a prefix of the content, followed by nothing or by the marker, and is at most `MAX_CHARS` plus the marker long |
| `GetFileContent.ReadSuccess` | functions/get_file_content.py:11-19 | for a permitted regular file that reads successfully, the tool returns the content, verbatim or truncated and marked |
| `RunPythonFile.BuildCommand` | functions/run_python_file.py:18-20 | the command is `["python", absolute_file_path]` followed by the arguments in order; it has exactly two elements when `args` is `None` or empty |
| `RunPythonFile.AssembleOutput` | functions/run_python_file.py:22-30 | the `+=` steps build exactly `Report`, which starts with the exit notice exactly when the return code is non-zero |
| `RunPythonFile.RunPythonFile` | functions/run_python_file.py:5-32 | the method returns exactly `RunResult` |
| `RunPythonFile.LastThreeIsSuffixTest` | functions/run_python_file.py:14 | `file_path[-3:] == '.py'` exactly when the path ends with `.py`, strings shorter than three included |
| `RunPythonFile.ExitNoticeIffFailed` | functions/run_python_file.py:23-24 | the output starts with `Process exited with code {output.returncode}` exactly when the return code is non-zero |
| `RunPythonFile.ReportEnding` | functions/run_python_file.py:25-29 | the output ends with `No output produced` when both streams are empty, else with `STDOUT:` + stdout + `STDERR:` + stderr |
| `RunPythonFile.ReturnCodeHidden` | functions/run_python_file.py:24 | all non-zero return codes give the same text: the code itself is never shown |
| `RunPythonFile.CheckOrder` | functions/run_python_file.py:10-15 | the first failing check decides the reply: containment (message with the stray `)`), then regular file, then `.py` suffix |
| `RunPythonFile.LaunchOutcome` | functions/run_python_file.py:17-32 | once the checks pass, the launcher gets the command and a 30 s timeout; a raised exception gives `Error: executing Python file: {e}`, and a completed run gives its report |
| `RunPythonFile.SuffixOfRequestNotOfFile` | functions/run_python_file.py:7-15 | `name/.` resolves to the same file as `name` but is refused as not a Python file |

## Left out

- `main.py` is not part of this model. It is the agent loop over the hosted
  model's API, argument parsing, credential loading and verbose printing.
- The `schema_*` declarations are not modelled. They are pure data that
  describe the tools to the hosted API.
- `constants`, `call_function` and `prompts` are not part of this model.
  `MAX_CHARS` is the parameter `maxChars` of `GetFileContent.FileContent`.
  The tool behaves the same way for any non-negative value.
- Real OS effects are replaced by a snapshot: `os.listdir`, `getsize`,
  `isdir`, `isfile`, `open`/`read` and `subprocess.run`. Time is not
  modelled, so the 30-second timeout is one more exception the launcher may
  raise. Races between a check and a later call (a file that disappears
  between `isfile` and `open`) are not modelled.
- `os.getcwd()` is the parameter `cwd` and is assumed absolute, as it always
  is.
- Symbolic links are not resolved. The containment test is lexical, and
  file lookup goes by the normalised path's components.
- Text decoding and newline translation are not modelled. A regular file's
  text is its decoded content as a whole, or one read error. A decoding
  error that Python would only hit after the first `MAX_CHARS` characters is
  treated as a failure of the whole read.
- The text of OS exception messages is not modelled. It comes from the
  snapshot's `failure` function, or from the error stored with a file or
  directory. Only `str(e)` is used.
- Python's dynamic typing is not modelled. Arguments are strings, and `args`
  is `None` or a list of strings (`Option<seq<string>>`).
- `commonpath`'s `ValueError` for mixed absolute and relative paths is not
  modelled as an error: `PosixPath.CommonPath` requires both paths to be of
  the same kind. All three tools pass two absolute paths, and the verifier
  checks this.
- `commonpath` takes the common prefix of the lexicographically smallest and
  largest component lists. For two paths that is the common prefix of the
  two, which is what `PosixPath.CommonPrefix` computes.
