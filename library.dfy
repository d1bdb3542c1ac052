/** Directory entries, the file system as the locator sees it, and errors. */
module Library {

  type Path = string

  /** A named child of a directory: an artist, an album or a track. */
  datatype Entry = Entry(name: string, isDir: bool)

  /**
   * The directory listings the program can read. A path that is not a key
   * cannot be listed (it is missing, unreadable, or not a directory), so
   * reading it fails.
   */
  type FileSystem = map<Path, seq<Entry>>

  datatype Error =
    | Unreadable(path: Path)                  // listing a directory failed
    | NoHome                                  // the current user could not be resolved
    | PlayerFailed(cmd: string, file: Path)   // the player exited with an error

  datatype Option<T> = None | Some(value: T)

  datatype Result<T> = Ok(value: T) | Err(error: Error)

  /** Outcome of an operation that yields nothing but may fail. */
  datatype Outcome = Pass | Fail(error: Error)

  /** Reads every child of `path`, in listing order. */
  function Contents(fs: FileSystem, path: Path): (r: Result<seq<Entry>>)
    ensures r.Ok? <==> path in fs
    ensures r.Ok? ==> r.value == fs[path]
    ensures r.Err? ==> r.error == Unreadable(path)
  {
    if path in fs then Ok(fs[path]) else Err(Unreadable(path))
  }
}
