/**
 * `Authentication`: the bot's credentials, read from a credentials file and
 * written back to it.
 */
module Authentication {
  import opened Common
  import opened Dict
  import opened Files
  import opened AuthFile

  class Authentication {
    var file: string
    var auth: Dict<string>

    /** The file is the one given, or the default credentials file when none is. */
    constructor (file: Option<string>, defaultAuthfile: string)
      ensures this.file == (if file.Some? then file.value else defaultAuthfile)
      ensures auth == []
    {
      if file.None? {
        this.file := defaultAuthfile;
      } else {
        this.file := file.value;
      }
      auth := [];
    }

    /**
     * `read_authfile`.  When the file cannot be opened the credentials stay
     * as they were; otherwise they are replaced by the lines parsed up to
     * the first bad one.
     */
    method ReadAuthfile(fs: FileSystem) returns (err: Option<PyError>)
      modifies this
      ensures file == old(file)
      ensures match ReadFile(fs.State(), file)
        case Err(e) => err == Some(e) && auth == old(auth)
        case Ok(text) => Parse(auth, err) == ParseAuth(ReadLines(text))
    {
      var text := fs.Read(file);
      match text {
        case Err(e) =>
          return Some(e);
        case Ok(t) =>
          auth, err := ParseAuthLines(ReadLines(t));
      }
    }

    /** `write_authfile`: one `key:value` line per credential, in order. */
    method WriteAuthfile(fs: FileSystem) returns (err: Option<PyError>)
      modifies fs
      ensures match WriteFile(old(fs.State()), file, Concat(Rendered(auth)))
        case Ok(d) => err == None && fs.State() == d
        case Err(e) => err == Some(e) && fs.State() == old(fs.State())
    {
      var authlines := RenderAuthLines(auth);
      err := fs.Write(file, Concat(authlines));
    }

    /** `get_auth` */
    function GetAuth(): Dict<string>
      reads this
    {
      auth
    }

    /** `get_headers`: it fails unless both credentials are there, and then carries the token under the Bearer scheme. */
    function GetHeaders(): (h: Result<Dict<string>>)
      reads this
      ensures h.Ok? <==> "client_id" in Keys(auth) && "oauth" in Keys(auth)
      ensures h.Ok? ==> Get(h.value, "Authorization") == Some("Bearer " + Get(auth, "oauth").value)
    {
      HeadersIff(auth);
      Headers(auth)
    }
  }

  /** `Authentication(file)`: an object whose credentials were read, or what was raised. */
  method Create(file: Option<string>, defaultAuthfile: string, fs: FileSystem) returns (r: Result<Authentication>)
    ensures var path := if file.Some? then file.value else defaultAuthfile;
      match ReadFile(fs.State(), path)
      case Err(e) => r == Err(e)
      case Ok(text) =>
        match ParseAuth(ReadLines(text))
        case Parse(auth, None) => r.Ok? && fresh(r.value) && r.value.file == path && r.value.auth == auth
        case Parse(_, Some(e)) => r == Err(e)
  {
    var a := new Authentication(file, defaultAuthfile);
    var err := a.ReadAuthfile(fs);
    match err {
      case Some(e) => r := Err(e);
      case None => r := Ok(a);
    }
  }

  /**
   * What `write_authfile` writes, `read_authfile` reads back unchanged, when
   * no key or value holds ':' or a newline.
   */
  lemma WriteThenRead(d: Disk, file: string, auth: Dict<string>)
    requires WriteFile(d, file, Concat(Rendered(auth))).Ok?
    requires DistinctKeys(auth) && PlainEntries(auth)
    ensures ReadFile(WriteFile(d, file, Concat(Rendered(auth))).value, file).Ok?
    ensures ParseAuth(ReadLines(ReadFile(WriteFile(d, file, Concat(Rendered(auth))).value, file).value))
         == Parse(auth, None)
  {
    ReadAfterWrite(d, file, Concat(Rendered(auth)));
    AuthRoundTrip(auth);
  }
}
