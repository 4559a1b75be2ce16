/**
 * The configuration store of `src/config.py`: every path is taken below the
 * `userdata` folder, the folders along a path are created before the file is
 * touched, and a JSON file that is missing is created from a default.
 */
module Storage {
  import opened Common
  import opened Text
  import opened Dict
  import opened Json
  import opened Files
  import opened Registry

  const BaseConfigPath := "userdata"
  const GlobalConfigFile := "rasbot.txt"

  /** The configuration a new channel starts with. */
  const DefaultChannel: Json := JObject([
    ("meta", JObject([("prefix", JStr("r!"))])),
    ("commands", JObject([
      ("help", CommandRecord(Command(10, false, false, "@&user& > &help&"))),
      ("uptime", CommandRecord(Command(10, false, false, "@&user& > &uptime&"))),
      ("cmdadd", CommandRecord(Command(0, true, false, "@&user& > &cmdadd&"))),
      ("cmddel", CommandRecord(Command(0, true, false, "@&user& > &cmddel&"))),
      ("prefix", CommandRecord(Command(0, true, false, "@&user& > &prefix&"))),
      ("admin", CommandRecord(Command(0, true, true, "&admin&")))])),
    ("modules", JArray([]))])

  /** The global configuration the bot starts with. */
  const DefaultGlobal: Json := JObject([
    ("always_debug", JBool(false)),
    ("default_authfile", JStr("auth.txt")),
    ("release_branch", JStr("main"))])

  /** Paths outside the base folder are moved below it. */
  function Normalize(path: string): (p: string)
    ensures StartsWith(p, BaseConfigPath)
    ensures |path| <= |p| && p[|p| - |path|..] == path
  {
    if StartsWith(path, BaseConfigPath) then path else BaseConfigPath + "/" + path
  }

  // ------------------------------------------------------- folder list

  /** How many leading components hold no '.'. */
  function Undotted(parts: seq<string>): (n: nat)
    ensures n <= |parts|
    ensures forall i :: 0 <= i < n ==> '.' !in parts[i]
    ensures n < |parts| ==> '.' in parts[n]
  {
    if parts == [] || '.' in parts[0] then 0
    else
      var n := Undotted(parts[1..]);
      assert forall i :: 1 <= i < n + 1 ==> parts[i] == parts[1..][i - 1];
      1 + n
  }

  /** The '/'-joins of the first 1, 2, ..., n components. */
  function Prefixes(parts: seq<string>, n: nat): (fs: seq<string>)
    requires n <= |parts|
    ensures |fs| == n
  {
    if n == 0 then [] else Prefixes(parts, n - 1) + [Join(parts[..n], "/")]
  }

  /**
   * The folders `verify_folder_exists` makes sure of: one per component of
   * the path, up to the first component that holds a '.', which is taken
   * to be the file name.
   */
  function FolderList(path: string): (fs: seq<string>)
    ensures var parts := Split(path, "/");
      && |fs| <= |parts|
      && (forall i :: 0 <= i < |fs| ==> '.' !in parts[i])
      && (|fs| < |parts| ==> '.' in parts[|fs|])
  {
    var parts := Split(path, "/");
    Prefixes(parts, Undotted(parts))
  }

  /** Some component of the path holds a '.', so the path names a file. */
  predicate NamesFile(path: string) {
    exists part :: part in Split(path, "/") && '.' in part
  }

  /** The folder list is cut short exactly when the path names a file. */
  lemma NamesFileIff(path: string)
    ensures NamesFile(path) <==> |FolderList(path)| < |Split(path, "/")|
  {
    var parts := Split(path, "/");
    if |FolderList(path)| < |parts| {
      assert parts[|FolderList(path)|] in parts;
    }
  }

  lemma {:induction false} PrefixesAt(parts: seq<string>, n: nat, i: nat)
    requires n <= |parts| && i < n
    ensures Prefixes(parts, n)[i] == Join(parts[..i + 1], "/")
  {
    if i < n - 1 {
      PrefixesAt(parts, n - 1, i);
    }
  }

  /** Splitting a join between two of its elements. */
  lemma {:induction false} JoinSplitAt(xs: seq<string>, n: nat, sep: string)
    requires 1 <= n < |xs|
    ensures Join(xs, sep) == Join(xs[..n], sep) + sep + Join(xs[n..], sep)
  {
    if n > 1 {
      JoinSplitAt(xs[1..], n - 1, sep);
      assert xs[..n][1..] == xs[1..][..n - 1];
      assert xs[1..][n - 1..] == xs[n..];
    }
  }

  /** Each folder is the one before it, a '/' and the next component. */
  lemma FolderStep(path: string, i: nat)
    requires i + 1 < |FolderList(path)|
    ensures FolderList(path)[i + 1] == FolderList(path)[i] + "/" + Split(path, "/")[i + 1]
  {
    var parts := Split(path, "/");
    var n := Undotted(parts);
    PrefixesAt(parts, n, i);
    PrefixesAt(parts, n, i + 1);
    JoinSplitAt(parts[..i + 2], i + 1, "/");
    assert parts[..i + 2][..i + 1] == parts[..i + 1];
    assert parts[..i + 2][i + 1..] == [parts[i + 1]];
  }

  /**
   * Every folder is a leading part of the path; all but the last possible
   * one are shorter than it, and when no component holds a '.' the last
   * folder is the whole path.
   */
  lemma FolderIsPrefix(path: string, i: nat)
    requires i < |FolderList(path)|
    ensures StartsWith(path, FolderList(path)[i])
    ensures i + 1 < |Split(path, "/")| ==> |FolderList(path)[i]| < |path|
    ensures i + 1 == |Split(path, "/")| ==> FolderList(path)[i] == path
  {
    var parts := Split(path, "/");
    PrefixesAt(parts, Undotted(parts), i);
    SplitThenJoin(path, "/");
    if i + 1 < |parts| {
      JoinSplitAt(parts, i + 1, "/");
    } else {
      assert parts[..i + 1] == parts;
    }
  }

  /** The path itself is among its folders exactly when it names no file. */
  lemma PathInFolderList(path: string)
    ensures path in FolderList(path) <==> !NamesFile(path)
  {
    var fs := FolderList(path);
    NamesFileIff(path);
    if NamesFile(path) {
      forall i | 0 <= i < |fs| ensures fs[i] != path {
        FolderIsPrefix(path, i);
      }
    } else {
      FolderIsPrefix(path, |fs| - 1);
    }
  }

  /** `verify_folder_exists`' first loop. */
  method FoldersOf(path: string) returns (folders: seq<string>)
    ensures folders == FolderList(path)
  {
    var folderList := Split(path, "/");
    folders := [];
    var i := 0;
    while i < |folderList|
      invariant i <= Undotted(folderList)
      invariant folders == Prefixes(folderList, i)
    {
      if '.' in folderList[i] {
        break;
      }
      folders := folders + [Join(folderList[..i + 1], "/")];
      i := i + 1;
    }
  }

  // ------------------------------------------------- creating folders

  /** The disk once each missing folder has been made, in order. */
  function MakeFolders(d: Disk, folders: seq<string>): (r: Disk)
    ensures r.files == d.files
  {
    if folders == [] then d
    else
      var before := MakeFolders(d, folders[..|folders| - 1]);
      var f := folders[|folders| - 1];
      if Exists(before, f) then before else before.(dirs := before.dirs + {f})
  }

  /**
   * Afterwards every folder exists, and exactly the folders that were
   * neither a folder nor a file before have been created.
   */
  lemma {:induction false} MakeFoldersMeaning(d: Disk, folders: seq<string>)
    ensures MakeFolders(d, folders).dirs == d.dirs + (set f | f in folders && f !in d.files)
    ensures forall f :: f in folders ==> Exists(MakeFolders(d, folders), f)
  {
    if folders != [] {
      var init := folders[..|folders| - 1];
      MakeFoldersMeaning(d, init);
      assert folders == init + [folders[|folders| - 1]];
    }
  }

  /** Making folders that all exist changes nothing. */
  lemma MakeFoldersNoop(d: Disk, folders: seq<string>)
    requires forall f :: f in folders ==> Exists(d, f)
    ensures MakeFolders(d, folders) == d
  {
    MakeFoldersMeaning(d, folders);
  }

  /** `verify_folder_exists` */
  method VerifyFolderExists(fs: FileSystem, path: string)
    modifies fs
    ensures fs.State() == MakeFolders(old(fs.State()), FolderList(path))
  {
    var folders := FoldersOf(path);
    for i := 0 to |folders|
      invariant fs.State() == MakeFolders(old(fs.State()), folders[..i])
    {
      assert folders[..i + 1][..i] == folders[..i];
      if !(folders[i] in fs.dirs || folders[i] in fs.files) {
        fs.Mkdir(folders[i]);
      }
    }
    assert folders[..|folders|] == folders;
  }

  // ------------------------------------------------------ read and write

  /** `write`: the configuration is stored as JSON text and handed back. */
  function WriteConfig(d: Disk, codec: Codec, path: string, cfg: Json): (o: Outcome<Json>)
    ensures o.result.Ok? ==> o.result.value == cfg
  {
    var p := Normalize(path);
    var d1 := MakeFolders(d, FolderList(p));
    match WriteFile(d1, p, codec.dumps(cfg))
    case Ok(d2) => Outcome(d2, Ok(cfg))
    case Err(e) => Outcome(d1, Err(e))
  }

  /** What `json.loads` gives, None (JNull) when the text does not decode. */
  function Decoded(codec: Codec, text: string): Json {
    match codec.loads(text)
    case Some(j) => j
    case None => JNull
  }

  /**
   * `read`.  Python's None is JNull: it is returned when the text does not
   * decode and when the file is missing and the default is falsy.  A path
   * that is a folder raises.
   */
  function ReadConfig(d: Disk, codec: Codec, path: string, default: Json): Outcome<Json> {
    var p := Normalize(path);
    var d1 := MakeFolders(d, FolderList(p));
    match ReadFile(d1, p)
    case Ok(text) => Outcome(d1, Ok(Decoded(codec, text)))
    case Err(FileNotFound(_)) =>
      if Truthy(default) then WriteConfig(d1, codec, p, default) else Outcome(d1, Ok(JNull))
    case Err(e) => Outcome(d1, Err(e))
  }

  method Write(fs: FileSystem, codec: Codec, path: string, cfg: Json) returns (r: Result<Json>)
    modifies fs
    ensures Outcome(fs.State(), r) == WriteConfig(old(fs.State()), codec, path, cfg)
  {
    var p := Normalize(path);
    VerifyFolderExists(fs, p);
    var err := fs.Write(p, codec.dumps(cfg));
    if err.Some? {
      return Err(err.value);
    }
    return Ok(cfg);
  }

  method Read(fs: FileSystem, codec: Codec, path: string, default: Json) returns (r: Result<Json>)
    modifies fs
    ensures Outcome(fs.State(), r) == ReadConfig(old(fs.State()), codec, path, default)
  {
    var p := Normalize(path);
    VerifyFolderExists(fs, p);
    var text := fs.Read(p);
    match text {
      case Ok(t) =>
        r := Ok(Decoded(codec, t));
      case Err(e) =>
        if e.FileNotFound? {
          if Truthy(default) {
            r := Write(fs, codec, p, default);
          } else {
            r := Ok(JNull);
          }
        } else {
          r := Err(e);
        }
    }
  }

  /** `read_global` */
  method ReadGlobal(fs: FileSystem, codec: Codec) returns (r: Result<Json>)
    modifies fs
    ensures Outcome(fs.State(), r) == ReadConfig(old(fs.State()), codec, GlobalConfigFile, DefaultGlobal)
  {
    r := Read(fs, codec, GlobalConfigFile, DefaultGlobal);
  }

  /** `read_channel` */
  method ReadChannel(fs: FileSystem, codec: Codec, path: string) returns (r: Result<Json>)
    modifies fs
    ensures Outcome(fs.State(), r) == ReadConfig(old(fs.State()), codec, path, DefaultChannel)
  {
    r := Read(fs, codec, path, DefaultChannel);
  }

  // ------------------------------------------------------------ lemmas

  /** Normalising twice is normalising once. */
  lemma NormalizeIdempotent(path: string)
    ensures Normalize(Normalize(path)) == Normalize(path)
  {
  }

  /** The folders of the normalised path, made on `d`. */
  function Prepared(d: Disk, path: string): Disk {
    MakeFolders(d, FolderList(Normalize(path)))
  }

  /** The normalised path becomes a folder exactly when it was one, or names no file and was not a file. */
  lemma PreparedPath(d: Disk, path: string)
    ensures Normalize(path) in Prepared(d, path).dirs
        <==> Normalize(path) in d.dirs || (!NamesFile(Normalize(path)) && Normalize(path) !in d.files)
  {
    MakeFoldersMeaning(d, FolderList(Normalize(path)));
    PathInFolderList(Normalize(path));
  }

  /**
   * `write` succeeds unless the path is a folder, or is about to become one
   * because none of its components looks like a file name.
   */
  lemma WriteSucceedsIff(d: Disk, codec: Codec, path: string, cfg: Json)
    ensures WriteConfig(d, codec, path, cfg).result.Ok?
        <==> Normalize(path) !in d.dirs && (Normalize(path) in d.files || NamesFile(Normalize(path)))
  {
    PreparedPath(d, path);
  }

  /** On success the file holds the encoded configuration and nothing else is rewritten. */
  lemma WriteStores(d: Disk, codec: Codec, path: string, cfg: Json)
    requires WriteConfig(d, codec, path, cfg).result.Ok?
    ensures WriteConfig(d, codec, path, cfg).disk.files == d.files[Normalize(path) := codec.dumps(cfg)]
    ensures forall f :: f in FolderList(Normalize(path)) ==> Exists(WriteConfig(d, codec, path, cfg).disk, f)
  {
    MakeFoldersMeaning(d, FolderList(Normalize(path)));
  }

  /** A path with no file-like component is made a folder first, so reading or writing it raises. */
  lemma UndottedPathIsFolder(d: Disk, codec: Codec, path: string, cfg: Json)
    requires !NamesFile(Normalize(path)) && Normalize(path) !in d.files
    ensures ReadConfig(d, codec, path, cfg).result == Err(IsADirectory(Normalize(path)))
    ensures WriteConfig(d, codec, path, cfg).result == Err(IsADirectory(Normalize(path)))
  {
    PreparedPath(d, path);
  }

  /** A file that does not decode is reported as None and left as it is. */
  lemma GarbledFileIsNone(d: Disk, codec: Codec, path: string, default: Json)
    requires Normalize(path) in d.files && Normalize(path) !in d.dirs
    requires codec.loads(d.files[Normalize(path)]) == None
    ensures ReadConfig(d, codec, path, default).result == Ok(JNull)
    ensures ReadConfig(d, codec, path, default).disk.files == d.files
  {
    PreparedPath(d, path);
  }

  /**
   * A missing file is created from a truthy default, which is returned; with
   * a falsy default nothing is written and None is returned.
   */
  lemma MissingFile(d: Disk, codec: Codec, path: string, default: Json)
    requires NamesFile(Normalize(path)) && !Exists(d, Normalize(path))
    ensures Truthy(default) ==>
      ReadConfig(d, codec, path, default).result == Ok(default)
      && ReadConfig(d, codec, path, default).disk.files == d.files[Normalize(path) := codec.dumps(default)]
    ensures !Truthy(default) ==>
      ReadConfig(d, codec, path, default).result == Ok(JNull)
      && ReadConfig(d, codec, path, default).disk.files == d.files
  {
    var p := Normalize(path);
    PreparedPath(d, path);
    NormalizeIdempotent(path);
    MakeFoldersMeaning(d, FolderList(p));
    MakeFoldersNoop(Prepared(d, path), FolderList(p));
  }

  /** Reading what was written gives the configuration back and changes nothing. */
  lemma ReadAfterWrite(d: Disk, codec: Codec, path: string, cfg: Json, default: Json)
    requires WriteConfig(d, codec, path, cfg).result.Ok? && Decodes(codec, cfg)
    ensures ReadConfig(WriteConfig(d, codec, path, cfg).disk, codec, path, default)
         == Outcome(WriteConfig(d, codec, path, cfg).disk, Ok(cfg))
  {
    var d2 := WriteConfig(d, codec, path, cfg).disk;
    WriteStores(d, codec, path, cfg);
    PreparedPath(d, path);
    MakeFoldersNoop(d2, FolderList(Normalize(path)));
  }

  /** The global configuration lives in `userdata/rasbot.txt`, below the one folder `userdata`. */
  lemma GlobalConfigLocation()
    ensures Normalize(GlobalConfigFile) == "userdata/rasbot.txt"
    ensures FolderList(Normalize(GlobalConfigFile)) == ["userdata"]
  {
    GlobalPathNormalized();
    GlobalPathParts();
    var parts := ["userdata", "rasbot.txt"];
    assert Undotted(parts) == 1 by {
      assert '.' !in parts[0] && '.' in parts[1];
    }
    assert Prefixes(parts, 1) == [Join(parts[..1], "/")];
    assert parts[..1] == ["userdata"];
  }

  lemma GlobalPathNormalized()
    ensures Normalize(GlobalConfigFile) == "userdata/rasbot.txt"
  {
    assert GlobalConfigFile[..|BaseConfigPath|] != BaseConfigPath by {
      assert GlobalConfigFile[0] != BaseConfigPath[0];
    }
  }

  lemma GlobalPathParts()
    ensures Split("userdata/rasbot.txt", "/") == ["userdata", "rasbot.txt"]
  {
    var a, b := "userdata", "rasbot.txt";
    assert a + "/" + b == "userdata/rasbot.txt";
    assert '/' !in a by {
      forall i | 0 <= i < |a| ensures a[i] != '/' {
      }
    }
    assert '/' !in b by {
      forall i | 0 <= i < |b| ensures b[i] != '/' {
      }
    }
    SplitAfterPiece(a, "/", b);
    SplitWithoutSeparator(b, "/");
  }
}
