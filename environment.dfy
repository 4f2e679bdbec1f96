/**
 * What the tools observe of the operating system, as a snapshot taken when a
 * tool is called: the inodes reachable by normalised absolute paths (looked
 * up by their components, so lexically), and the error an OS call raises when
 * it fails on a path. The process launched by `run_python_file` is an oracle
 * that maps an argument vector and a timeout to the outcome of running it.
 */
module Environment {
  import opened Results
  import opened PosixPath

  /** An `OSError` (or other exception) as it reaches the tools: only `str(e)` is used. */
  datatype OsError = OsError(message: string)

  /** What `open(...).read()` yields for a regular file, and what `listdir` yields for a directory. */
  datatype Kind =
    | RegularFile(text: Result<string, OsError>)
    | Directory(names: Result<seq<string>, OsError>)
    | OtherKind

  /** One file-system object: its kind and `st_size`. */
  datatype Inode = Inode(kind: Kind, size: nat)

  /** The OS calls whose failure on a missing or unsuitable path raises an error. */
  datatype OsCall = ListDirCall | StatCall | OpenCall

  datatype Snapshot = Snapshot(
    inodes: map<seq<string>, Inode>,
    failure: (OsCall, string) -> OsError)

  function Lookup(env: Snapshot, path: string): Option<Inode>
  {
    if Components(path) in env.inodes then Some(env.inodes[Components(path)]) else None
  }

  /** `os.listdir(path)`. */
  function ListDir(env: Snapshot, path: string): Result<seq<string>, OsError>
  {
    match Lookup(env, path)
    case Some(Inode(Directory(names), _)) => names
    case _ => Err(env.failure(ListDirCall, path))
  }

  /** `os.path.getsize(path)`. */
  function GetSize(env: Snapshot, path: string): Result<nat, OsError>
  {
    match Lookup(env, path)
    case Some(inode) => Ok(inode.size)
    case None => Err(env.failure(StatCall, path))
  }

  /** `os.path.isdir(path)`: never raises. */
  predicate IsDir(env: Snapshot, path: string)
  {
    Lookup(env, path).Some? && Lookup(env, path).value.kind.Directory?
  }

  /** `os.path.isfile(path)`: never raises. */
  predicate IsFile(env: Snapshot, path: string)
  {
    Lookup(env, path).Some? && Lookup(env, path).value.kind.RegularFile?
  }

  /** The whole decoded text of `open(path, "r")`. */
  function ReadText(env: Snapshot, path: string): Result<string, OsError>
  {
    match Lookup(env, path)
    case Some(Inode(RegularFile(text), _)) => text
    case _ => Err(env.failure(OpenCall, path))
  }

  /** What `subprocess.run(...)` gives back: a completed process, or the exception it raised. */
  datatype ProcessOutcome =
    | Completed(returncode: int, stdout: string, stderr: string)
    | Raised(error: OsError)

  type Launcher = (seq<string>, nat) -> ProcessOutcome
}
