/**
 * The channel configuration store of the top-level `config.py`: a channel's
 * prefix and command registry are written as a JSON record, and a missing
 * configuration file is created from a default.  Unlike the store below
 * `userdata`, paths are used as given, no folder is created, and a file that
 * does not decode raises.
 */
module ChannelConfig {
  import opened Common
  import opened Dict
  import opened Json
  import opened Files
  import opened Registry

  /** The configuration a new channel starts with. */
  const DefaultChannel: Json := JObject([
    ("meta", JObject([("prefix", JStr("r!"))])),
    ("commands", JObject([
      ("help", CommandRecord(Command(10, false, false, "@&caller& > &help&"))),
      ("uptime", CommandRecord(Command(10, false, false, "@&caller& > &uptime&"))),
      ("cmdadd", CommandRecord(Command(0, true, false, "@&caller& > &cmdadd&"))),
      ("cmddel", CommandRecord(Command(0, true, false, "@&caller& > &cmddel&"))),
      ("prefix", CommandRecord(Command(0, true, false, "@&caller& > &prefix&")))])),
    ("modules", JArray([]))])

  /** The global configuration the bot starts with. */
  const DefaultGlobal: Json := JObject([
    ("always_debug", JBool(false)),
    ("default_authfile", JStr("config/auth")),
    ("release_branch", JStr("main")),
    ("channels", JArray([]))])

  const GlobalPath := "config/rasbot"

  /** Where the configuration of a channel is kept. */
  function ChannelPath(cfg: string): (p: string)
    ensures |p| == |cfg| + 7 && p[7..] == cfg
  {
    "config/" + cfg
  }

  // ------------------------------------------------------ read and write

  /** `write`: the file is created or truncated and holds the encoded configuration. */
  function WriteJson(d: Disk, codec: Codec, path: string, cfg: Json): (o: Outcome<()>)
    ensures o.result.Ok? <==> path !in d.dirs
    ensures o.result.Ok? ==> o.disk.files == d.files[path := codec.dumps(cfg)] && o.disk.dirs == d.dirs
    ensures o.result.Err? ==> o.disk == d
  {
    match WriteFile(d, path, codec.dumps(cfg))
    case Ok(d2) => Outcome(d2, Ok(()))
    case Err(e) => Outcome(d, Err(e))
  }

  /**
   * `read`: the decoded file; a missing file is written from the default,
   * which is returned whatever it holds.  A decoding error is not caught.
   */
  function ReadJson(d: Disk, codec: Codec, path: string, default: Json): Outcome<Json> {
    match ReadFile(d, path)
    case Ok(text) =>
      (match codec.loads(text)
       case Some(j) => Outcome(d, Ok(j))
       case None => Outcome(d, Err(JsonDecodeError(path))))
    case Err(FileNotFound(_)) =>
      (match WriteFile(d, path, codec.dumps(default))
       case Ok(d2) => Outcome(d2, Ok(default))
       case Err(e) => Outcome(d, Err(e)))
    case Err(e) => Outcome(d, Err(e))
  }

  method Write(fs: FileSystem, codec: Codec, path: string, cfg: Json) returns (r: Result<()>)
    modifies fs
    ensures Outcome(fs.State(), r) == WriteJson(old(fs.State()), codec, path, cfg)
  {
    var err := fs.Write(path, codec.dumps(cfg));
    match err {
      case Some(e) => r := Err(e);
      case None => r := Ok(());
    }
  }

  method Read(fs: FileSystem, codec: Codec, path: string, default: Json) returns (r: Result<Json>)
    modifies fs
    ensures Outcome(fs.State(), r) == ReadJson(old(fs.State()), codec, path, default)
  {
    var text := fs.Read(path);
    match text {
      case Ok(t) =>
        match codec.loads(t) {
          case Some(j) => r := Ok(j);
          case None => r := Err(JsonDecodeError(path));
        }
      case Err(e) =>
        if e.FileNotFound? {
          var err := fs.Write(path, codec.dumps(default));
          match err {
            case Some(e') => r := Err(e');
            case None => r := Ok(default);
          }
        } else {
          r := Err(e);
        }
    }
  }

  /** `read_global` */
  method ReadGlobal(fs: FileSystem, codec: Codec) returns (r: Result<Json>)
    modifies fs
    ensures Outcome(fs.State(), r) == ReadJson(old(fs.State()), codec, GlobalPath, DefaultGlobal)
  {
    r := Read(fs, codec, GlobalPath, DefaultGlobal);
  }

  /** `read_channel` */
  method ReadChannel(fs: FileSystem, codec: Codec, cfg: string) returns (r: Result<Json>)
    modifies fs
    ensures Outcome(fs.State(), r) == ReadJson(old(fs.State()), codec, ChannelPath(cfg), DefaultChannel)
  {
    r := Read(fs, codec, ChannelPath(cfg), DefaultChannel);
  }

  // ---------------------------------------------------- channel record

  /** The `commands` object: one record per registry entry, stored in registry order. */
  function CommandsRecord(r: seq<Entry>): Dict<Json> {
    if r == [] then []
    else
      var last := r[|r| - 1];
      Put(CommandsRecord(r[..|r| - 1]), last.name, CommandRecord(last.command))
  }

  /** The record `write_channel` writes for a channel. */
  function ChannelRecord(prefix: string, r: seq<Entry>): Json {
    JObject([
      ("meta", JObject([("prefix", JStr(prefix))])),
      ("commands", JObject(CommandsRecord(r))),
      ("modules", JArray([]))])
  }

  /** `write_channel`'s loop over the registry. */
  method CommandsData(r: seq<Entry>) returns (commands: Dict<Json>)
    ensures commands == CommandsRecord(r)
  {
    commands := [];
    for i := 0 to |r|
      invariant commands == CommandsRecord(r[..i])
    {
      assert r[..i + 1][..i] == r[..i];
      commands := Put(commands, r[i].name, CommandRecord(r[i].command));
    }
    assert r[..|r|] == r;
  }

  /** `write_channel`: the bot's prefix and registry go to the channel's file. */
  method WriteChannel(fs: FileSystem, codec: Codec, cfgpath: string, prefix: string, r: seq<Entry>)
    returns (res: Result<()>)
    modifies fs
    ensures Outcome(fs.State(), res) == WriteJson(old(fs.State()), codec, ChannelPath(cfgpath), ChannelRecord(prefix, r))
  {
    var path := ChannelPath(cfgpath);
    var commands := CommandsData(r);
    var data := JObject([
      ("meta", JObject([("prefix", JStr(prefix))])),
      ("commands", JObject(commands)),
      ("modules", JArray([]))]);
    res := Write(fs, codec, path, data);
  }

  // --------------------------------------------------- reading it back

  /** A command from its stored record, None when a field is missing or of the wrong kind. */
  function CommandOf(j: Json): Option<Command> {
    var c, m, h, s := Field(j, "cooldown"), Field(j, "requires_mod"), Field(j, "hidden"), Field(j, "response");
    if c.Some? && c.value.JInt? && m.Some? && m.value.JBool? && h.Some? && h.value.JBool? && s.Some? && s.value.JStr?
    then Some(Command(c.value.i, m.value.b, h.value.b, s.value.s))
    else None
  }

  function EntriesOf(fields: Dict<Json>): Option<seq<Entry>> {
    if fields == [] then Some([])
    else
      var c, rest := CommandOf(fields[0].1), EntriesOf(fields[1..]);
      if c.Some? && rest.Some? then Some([Entry(fields[0].0, c.value)] + rest.value) else None
  }

  /** The registry a channel record holds. */
  function RegistryOf(j: Json): Option<seq<Entry>> {
    match Field(j, "commands")
    case Some(JObject(fields)) => EntriesOf(fields)
    case _ => None
  }

  /** The prefix a channel record holds. */
  function PrefixOf(j: Json): Option<string> {
    match Field(j, "meta")
    case Some(meta) =>
      (match Field(meta, "prefix")
       case Some(JStr(p)) => Some(p)
       case _ => None)
    case _ => None
  }

  // ------------------------------------------------------------ lemmas

  /** The four field names of a command record differ from each other. */
  lemma RecordKeysDiffer()
    ensures "cooldown" != "requires_mod" && "cooldown" != "hidden" && "cooldown" != "response"
    ensures "requires_mod" != "hidden" && "requires_mod" != "response" && "hidden" != "response"
  {
    assert |"cooldown"| == 8 && |"requires_mod"| == 12 && |"hidden"| == 6 && |"response"| == 8;
    assert "cooldown"[0] != "response"[0];
  }

  /** Each stored field reads back as the command's own. */
  lemma CommandRoundTrip(c: Command)
    ensures CommandOf(CommandRecord(c)) == Some(c)
  {
    RecordKeysDiffer();
    var f := CommandRecord(c).fields;
    GetAt(f, 0, "cooldown");
    GetAt(f, 1, "requires_mod");
    GetAt(f, 2, "hidden");
    GetAt(f, 3, "response");
  }

  /** The record of one entry. */
  function RecordOf(e: Entry): (string, Json) {
    (e.name, CommandRecord(e.command))
  }

  /** The records of the entries, in the same order. */
  function Records(r: seq<Entry>): (fs: Dict<Json>)
    ensures |fs| == |r|
  {
    if r == [] then [] else [RecordOf(r[0])] + Records(r[1..])
  }

  /** Each record sits under the name of its entry. */
  lemma {:induction false} KeysOfRecords(r: seq<Entry>)
    ensures Keys(Records(r)) == Names(r)
  {
    if r != [] {
      KeysOfRecords(r[1..]);
    }
  }

  lemma {:induction false} RecordsSnoc(r: seq<Entry>)
    requires r != []
    ensures Records(r[..|r| - 1]) + [RecordOf(r[|r| - 1])] == Records(r)
  {
    if |r| > 1 {
      RecordsSnoc(r[1..]);
      assert r[..|r| - 1][1..] == r[1..][..|r| - 2];
    }
  }

  /** With distinct names every entry gets its own record, in registry order. */
  lemma {:induction false} CommandsRecordInOrder(r: seq<Entry>)
    requires DistinctNames(r)
    ensures CommandsRecord(r) == Records(r)
    decreases |r|
  {
    if r != [] {
      var init := r[..|r| - 1];
      var last := r[|r| - 1];
      assert DistinctNames(init);
      CommandsRecordInOrder(init);
      KeysOfRecords(init);
      assert last.name !in Names(init) by {
        forall i | 0 <= i < |init| ensures Names(init)[i] != last.name {
          assert init[i] == r[i];
        }
      }
      PutNew(Records(init), last.name, CommandRecord(last.command));
      RecordsSnoc(r);
    }
  }

  lemma {:induction false} EntriesOfRecords(r: seq<Entry>)
    ensures EntriesOf(Records(r)) == Some(r)
    decreases |r|
  {
    if r != [] {
      var fs := Records(r);
      assert fs[0] == RecordOf(r[0]) && fs[1..] == Records(r[1..]);
      CommandRoundTrip(r[0].command);
      EntriesOfRecords(r[1..]);
      assert [Entry(r[0].name, r[0].command)] + r[1..] == r;
    }
  }

  /** The three field names of a channel record differ from each other. */
  lemma ChannelKeysDiffer()
    ensures "meta" != "commands" && "meta" != "modules" && "commands" != "modules"
  {
    assert |"meta"| == 4 && |"commands"| == 8 && |"modules"| == 7;
  }

  /**
   * A channel record gives back the prefix and the registry it was made
   * from, and always an empty module list.
   */
  lemma RecordRoundTrip(prefix: string, r: seq<Entry>)
    requires DistinctNames(r)
    ensures PrefixOf(ChannelRecord(prefix, r)) == Some(prefix)
    ensures RegistryOf(ChannelRecord(prefix, r)) == Some(r)
    ensures Field(ChannelRecord(prefix, r), "modules") == Some(JArray([]))
  {
    RecordFields(prefix, r);
    CommandsRecordInOrder(r);
    EntriesOfRecords(r);
  }

  lemma RecordFields(prefix: string, r: seq<Entry>)
    ensures Field(ChannelRecord(prefix, r), "meta") == Some(JObject([("prefix", JStr(prefix))]))
    ensures Field(ChannelRecord(prefix, r), "commands") == Some(JObject(CommandsRecord(r)))
    ensures Field(ChannelRecord(prefix, r), "modules") == Some(JArray([]))
  {
    ChannelKeysDiffer();
    var f := ChannelRecord(prefix, r).fields;
    GetAt(f, 0, "meta");
    GetAt(f, 1, "commands");
    GetAt(f, 2, "modules");
  }

  /** A missing file is written from the default, truthy or not, and the default is returned. */
  lemma MissingWritesDefault(d: Disk, codec: Codec, path: string, default: Json)
    requires !Exists(d, path)
    ensures ReadJson(d, codec, path, default) == Outcome(d.(files := d.files[path := codec.dumps(default)]), Ok(default))
  {
  }

  /** A file that does not decode raises and is left as it is. */
  lemma GarbledRaises(d: Disk, codec: Codec, path: string, default: Json)
    requires path in d.files && path !in d.dirs && codec.loads(d.files[path]) == None
    ensures ReadJson(d, codec, path, default) == Outcome(d, Err(JsonDecodeError(path)))
  {
  }

  /** Reading what was written gives it back and changes nothing. */
  lemma ReadAfterWrite(d: Disk, codec: Codec, path: string, cfg: Json, default: Json)
    requires WriteJson(d, codec, path, cfg).result.Ok? && Decodes(codec, cfg)
    ensures ReadJson(WriteJson(d, codec, path, cfg).disk, codec, path, default)
         == Outcome(WriteJson(d, codec, path, cfg).disk, Ok(cfg))
  {
  }

  /**
   * After `write_channel`, `read_channel` of the same channel gives back the
   * prefix and the registry.
   */
  lemma ChannelRoundTrip(d: Disk, codec: Codec, cfgpath: string, prefix: string, r: seq<Entry>)
    requires DistinctNames(r) && ChannelPath(cfgpath) !in d.dirs && Decodes(codec, ChannelRecord(prefix, r))
    ensures var d2 := WriteJson(d, codec, ChannelPath(cfgpath), ChannelRecord(prefix, r)).disk;
      var back := ReadJson(d2, codec, ChannelPath(cfgpath), DefaultChannel);
      back.disk == d2 && back.result.Ok?
      && RegistryOf(back.result.value) == Some(r) && PrefixOf(back.result.value) == Some(prefix)
  {
    ReadAfterWrite(d, codec, ChannelPath(cfgpath), ChannelRecord(prefix, r), DefaultChannel);
    RecordRoundTrip(prefix, r);
  }
}
