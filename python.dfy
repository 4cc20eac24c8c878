/** Python values the downloader and its endpoints exchange: optional values,
    the one exception type the core can raise, `str()` renderings, and the
    two pathlib operations on POSIX paths that the core uses. */
module Py {

  /** `Optional[T]`: Python's `None` or a value. */
  datatype Option<+T> = None | Some(value: T)

  /** A value or an error, for the framework-level results of the endpoints. */
  datatype Result<+T, +E> = Ok(value: T) | Err(error: E)

  /** The exceptions the modelled code can raise: a failed dictionary lookup. */
  datatype PyException = KeyError(key: string)

  /** The outcome of calling a Python function: it returns a value or raises. */
  datatype CallResult<+T> = Returned(value: T) | Raised(exception: PyException)

  /** `str(x)` for `x: Optional[str]`: a string is itself, `None` becomes "None". */
  function StrOptional(o: Option<string>): string
  {
    match o
    case Some(s) => s
    case None => "None"
  }

  /** `str(e)` for a `KeyError`: the representation of the missing key, which
      for a plain string key is the key between single quotes. */
  function ExceptionText(e: PyException): (s: string)
    ensures |s| == |e.key| + 2 && s[0] == '\'' && s[|s| - 1] == '\''
    ensures s[1..|s| - 1] == e.key
  {
    "'" + e.key + "'"
  }

  predicate IsAbsolute(path: string)
  {
    |path| > 0 && path[0] == '/'
  }

  /** `(Path(dir) / leaf).as_posix()` for a normalised `dir` and a relative
      `leaf`; the empty path is the current directory, so joining onto it
      gives the leaf alone. */
  function JoinPath(dir: string, leaf: string): (r: string)
    ensures dir == "" ==> r == leaf
    ensures |dir| > 0 && dir[|dir| - 1] == '/' ==> r == dir + leaf
    ensures |dir| > 0 && dir[|dir| - 1] != '/' ==> r == dir + "/" + leaf
    ensures IsAbsolute(dir) ==> IsAbsolute(r)
  {
    if dir == "" then leaf
    else if dir[|dir| - 1] == '/' then dir + leaf
    else dir + "/" + leaf
  }

  /** `Path(dir).absolute()` with `cwd` the process's working directory: an
      absolute path is kept, the empty path is the working directory, and a
      relative one is joined onto the working directory. */
  function Absolute(dir: string, cwd: string): (r: string)
    ensures IsAbsolute(dir) ==> r == dir
    ensures IsAbsolute(cwd) ==> IsAbsolute(r)
  {
    if IsAbsolute(dir) then dir else if dir == "" then cwd else JoinPath(cwd, dir)
  }
}
