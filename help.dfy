/**
 * The `help` module: without an argument it lists the visible commands,
 * those everyone may use and then the moderator-only ones; with a name it
 * gives the help of the module of that name, or else tells which modules the
 * command of that name mentions.
 */
module Help {
  import opened Common
  import opened Text
  import opened Registry

  /** The visible commands that are moderator-only exactly when `modOnly`, in registry order. */
  function Listed(r: seq<Entry>, modOnly: bool): seq<string> {
    if r == [] then []
    else
      var c := r[0].command;
      (if !c.hidden && c.requiresMod == modOnly then [r[0].name] else []) + Listed(r[1..], modOnly)
  }

  /**
   * `main`.  `modules` maps each loaded module's name to its help text and
   * `mentions` gives the module names that a response mentions, in order.
   * The arguments are lowercased before use.
   */
  function Help(args: seq<string>, r: seq<Entry>, modules: map<string, string>,
                mentions: string -> seq<string>): string
  {
    if args == [] then
      "Available commands are: " + Join(Listed(r, false), ", ")
      + " (mod-only: " + Join(Listed(r, true), ", ") + ")"
    else
      var name := Lower(args[0]);
      if name in modules then modules[name]
      else match Lookup(r, name)
        case Some(c) =>
          var used := mentions(c.response);
          if used != [] then
            "Module '" + name + "' not found, but the matching command uses module(s): " + Join(used, ", ")
          else "Command " + name + " does not mention any modules."
        case None => "No matching command or module."
  }

  // ------------------------------------------------------------ lemmas

  /** A name is listed in a group exactly when some visible command of that group has it. */
  lemma {:induction false} ListedIff(r: seq<Entry>, modOnly: bool, x: string)
    ensures x in Listed(r, modOnly)
        <==> exists i :: 0 <= i < |r| && r[i].name == x && !r[i].command.hidden && r[i].command.requiresMod == modOnly
    decreases |r|
  {
    if r != [] {
      ListedIff(r[1..], modOnly, x);
      if exists i :: 0 <= i < |r[1..]| && r[1..][i].name == x && !r[1..][i].command.hidden
                     && r[1..][i].command.requiresMod == modOnly {
        var i :| 0 <= i < |r[1..]| && r[1..][i].name == x && !r[1..][i].command.hidden
                 && r[1..][i].command.requiresMod == modOnly;
        assert r[i + 1] == r[1..][i];
      }
      if exists i :: 0 <= i < |r| && r[i].name == x && !r[i].command.hidden && r[i].command.requiresMod == modOnly {
        var i :| 0 <= i < |r| && r[i].name == x && !r[i].command.hidden && r[i].command.requiresMod == modOnly;
        if i > 0 {
          assert r[1..][i - 1] == r[i];
        }
      }
    }
  }

  /** Each group keeps the registry's order. */
  lemma {:induction false} ListedInOrder(r: seq<Entry>, modOnly: bool)
    ensures IsSubsequence(Listed(r, modOnly), Names(r))
    decreases |r|
  {
    if r != [] {
      ListedInOrder(r[1..], modOnly);
      ConsSubsequence(Listed(r[1..], modOnly), Names(r[1..]), r[0].name);
      assert Names(r) == [r[0].name] + Names(r[1..]);
      var c := r[0].command;
      if !(!c.hidden && c.requiresMod == modOnly) {
        assert Listed(r, modOnly) == Listed(r[1..], modOnly);
        DropFrontKeepsSubsequence(Listed(r[1..], modOnly), Names(r[1..]), r[0].name);
      }
    }
  }

  /** Putting the same element in front of both keeps the relation. */
  lemma {:induction false} ConsSubsequence<T>(xs: seq<T>, ys: seq<T>, y: T)
    requires IsSubsequence(xs, ys)
    ensures IsSubsequence([y] + xs, [y] + ys)
    decreases |ys|
  {
    var xs', ys' := [y] + xs, [y] + ys;
    if xs == [] {
      SingletonSubsequence(ys, y);
      assert xs' == [y];
    } else if ys == [] {
    } else {
      assert xs'[..|xs'| - 1] == [y] + xs[..|xs| - 1];
      assert ys'[..|ys'| - 1] == [y] + ys[..|ys| - 1];
      if xs[|xs| - 1] == ys[|ys| - 1] {
        ConsSubsequence(xs[..|xs| - 1], ys[..|ys| - 1], y);
      } else {
        ConsSubsequence(xs, ys[..|ys| - 1], y);
      }
    }
  }

  lemma {:induction false} SingletonSubsequence<T>(ys: seq<T>, y: T)
    ensures IsSubsequence([y], [y] + ys)
    decreases |ys|
  {
    if ys != [] {
      var ys' := [y] + ys;
      assert ys'[..|ys'| - 1] == [y] + ys[..|ys| - 1];
      SingletonSubsequence(ys[..|ys| - 1], y);
      if ys[|ys| - 1] == y {
        assert [y][..0] == [];
      }
    }
  }

  lemma {:induction false} DropFrontKeepsSubsequence<T>(xs: seq<T>, ys: seq<T>, y: T)
    requires IsSubsequence(xs, ys)
    ensures IsSubsequence(xs, [y] + ys)
    decreases |ys|
  {
    if xs != [] && ys != [] {
      var ys' := [y] + ys;
      assert ys'[..|ys'| - 1] == [y] + ys[..|ys| - 1];
      if xs[|xs| - 1] == ys[|ys| - 1] {
        DropFrontKeepsSubsequence(xs[..|xs| - 1], ys[..|ys| - 1], y);
      } else {
        DropFrontKeepsSubsequence(xs, ys[..|ys| - 1], y);
      }
    }
  }

  /**
   * With distinct names the two groups never share a name, together they
   * hold every visible command, and no hidden command appears in either.
   */
  lemma ListingPartitions(r: seq<Entry>, i: nat)
    requires DistinctNames(r) && i < |r|
    ensures r[i].command.hidden ==> r[i].name !in Listed(r, false) && r[i].name !in Listed(r, true)
    ensures !r[i].command.hidden ==>
      (r[i].name in Listed(r, r[i].command.requiresMod) && r[i].name !in Listed(r, !r[i].command.requiresMod))
  {
    ListedIff(r, false, r[i].name);
    ListedIff(r, true, r[i].name);
  }

  /** A module's help wins over a command of the same name. */
  lemma ModuleBeforeCommand(args: seq<string>, r: seq<Entry>, modules: map<string, string>,
                            mentions: string -> seq<string>)
    requires args != [] && Lower(args[0]) in modules
    ensures Help(args, r, modules, mentions) == modules[Lower(args[0])]
  {
  }

  /** A command that mentions no module says so; an unknown name gets the fallback. */
  lemma CommandWithoutModules(args: seq<string>, r: seq<Entry>, modules: map<string, string>,
                              mentions: string -> seq<string>)
    requires args != [] && Lower(args[0]) !in modules
    ensures var name := Lower(args[0]);
      Help(args, r, modules, mentions) ==
        if !Has(r, name) then "No matching command or module."
        else if mentions(Lookup(r, name).value.response) == [] then "Command " + name + " does not mention any modules."
        else "Module '" + name + "' not found, but the matching command uses module(s): "
             + Join(mentions(Lookup(r, name).value.response), ", ")
  {
  }

  /** The name is looked up in lower case, so its letter case never matters. */
  lemma HelpIgnoresCase(args: seq<string>, r: seq<Entry>, modules: map<string, string>,
                        mentions: string -> seq<string>)
    requires args != []
    ensures Help(args, r, modules, mentions) == Help([Lower(args[0])] + args[1..], r, modules, mentions)
  {
    LowerIdempotent(args[0]);
  }

  /** The user group of the listing splits back into the names, when no name holds a comma. */
  lemma ListingReadsBack(r: seq<Entry>, modOnly: bool)
    requires Listed(r, modOnly) != [] && NoneContain(Listed(r, modOnly), ',')
    ensures Split(Join(Listed(r, modOnly), ", "), ", ") == Listed(r, modOnly)
  {
    JoinThenSplit(Listed(r, modOnly), ", ");
  }
}
