/**
 * The part of the file system the bot touches: the folders that exist and
 * the text of each file.  A path names a folder or a file, never both.
 */
module Files {
  import opened Common

  datatype Disk = Disk(dirs: set<string>, files: map<string, string>)

  /** The disk after a call, and what the call returned or raised. */
  datatype Outcome<T> = Outcome(disk: Disk, result: Result<T>)

  /** `os.path.exists` */
  predicate Exists(d: Disk, path: string) {
    path in d.dirs || path in d.files
  }

  /** `open(path, 'r').read()` */
  function ReadFile(d: Disk, path: string): (r: Result<string>)
    ensures r.Ok? <==> path in d.files && path !in d.dirs
  {
    if path in d.dirs then Err(IsADirectory(path))
    else if path in d.files then Ok(d.files[path])
    else Err(FileNotFound(path))
  }

  /** `open(path, 'w').write(text)`: the file is created or truncated. */
  function WriteFile(d: Disk, path: string, text: string): (r: Result<Disk>)
    ensures r.Ok? <==> path !in d.dirs
    ensures r.Ok? ==> r.value.dirs == d.dirs && r.value.files == d.files[path := text]
  {
    if path in d.dirs then Err(IsADirectory(path))
    else Ok(d.(files := d.files[path := text]))
  }

  /** A file just written reads back as written. */
  lemma ReadAfterWrite(d: Disk, path: string, text: string)
    requires WriteFile(d, path, text).Ok?
    ensures ReadFile(WriteFile(d, path, text).value, path) == Ok(text)
  {
  }

  class FileSystem {
    var dirs: set<string>
    var files: map<string, string>

    function State(): Disk
      reads this
    {
      Disk(dirs, files)
    }

    constructor (d: Disk)
      ensures State() == d
    {
      dirs := d.dirs;
      files := d.files;
    }

    /**
     * `os.mkdir` on a path that does not exist yet (on an existing one it
     * raises FileExistsError, which no caller here lets happen): the folder
     * now exists, nothing else changes.
     */
    method Mkdir(path: string)
      requires path !in dirs && path !in files
      modifies this
      ensures dirs == old(dirs) + {path} && files == old(files)
    {
      dirs := dirs + {path};
    }

    method Read(path: string) returns (r: Result<string>)
      ensures r == ReadFile(State(), path)
    {
      if path in dirs {
        return Err(IsADirectory(path));
      }
      if path in files {
        return Ok(files[path]);
      }
      return Err(FileNotFound(path));
    }

    /** Writes the file; on the error the disk is unchanged. */
    method Write(path: string, text: string) returns (err: Option<PyError>)
      modifies this
      ensures match WriteFile(old(State()), path, text)
        case Ok(d) => err == None && State() == d
        case Err(e) => err == Some(e) && State() == old(State())
    {
      if path in dirs {
        return Some(IsADirectory(path));
      }
      files := files[path := text];
      return None;
    }
  }
}
