/**
 * The bot's command registry: command name to command, kept in insertion
 * order as a Python dict is.  The registry itself belongs to the command
 * engine; the modelled modules read it (help, the channel writer) or hand
 * it to the engine's `command_modify` (cmdadd).
 */
module Registry {
  import opened Common
  import opened Json

  /** A custom command as the registry stores it. */
  datatype Command = Command(cooldown: int, requiresMod: bool, hidden: bool, response: string)

  datatype Entry = Entry(name: string, command: Command)

  /** The names, in registry order. */
  function Names(r: seq<Entry>): (ns: seq<string>)
    ensures |ns| == |r| && forall i :: 0 <= i < |r| ==> ns[i] == r[i].name
  {
    if r == [] then [] else [r[0].name] + Names(r[1..])
  }

  /** A dict has each key once. */
  predicate DistinctNames(r: seq<Entry>) {
    forall i, j :: 0 <= i < j < |r| ==> r[i].name != r[j].name
  }

  /** `name in commands` */
  predicate Has(r: seq<Entry>, name: string) {
    exists i :: 0 <= i < |r| && r[i].name == name
  }

  /** `commands[name]`: the entry of that name, None (KeyError) when there is none. */
  function Lookup(r: seq<Entry>, name: string): (c: Option<Command>)
    ensures c.Some? <==> Has(r, name)
  {
    if r == [] then None
    else if r[0].name == name then Some(r[0].command)
    else
      var c := Lookup(r[1..], name);
      assert Has(r, name) <==> Has(r[1..], name) by {
        if Has(r, name) {
          var i :| 0 <= i < |r| && r[i].name == name;
          assert r[1..][i - 1].name == name;
        }
        if Has(r[1..], name) {
          var i :| 0 <= i < |r[1..]| && r[1..][i].name == name;
          assert r[i + 1].name == name;
        }
      }
      c
  }

  /** The JSON record a command is stored as in a channel configuration. */
  function CommandRecord(c: Command): Json {
    JObject([("cooldown", JInt(c.cooldown)), ("requires_mod", JBool(c.requiresMod)),
             ("hidden", JBool(c.hidden)), ("response", JStr(c.response))])
  }
}
