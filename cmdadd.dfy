/**
 * The `cmdadd` module: `cmdadd <name> <cooldown?> <flags?> <response>`
 * adds or changes a custom command.  It takes its tokens off the front of
 * the bot's own argument list, so what it consumed is gone from that list
 * afterwards, and it maps the command engine's errors to chat replies.
 */
module CmdAdd {
  import opened Common
  import opened Text
  import opened Registry

  /** The flag words, in the order the flag loop visits them on each of its two rounds. */
  const FlagWords: seq<string> := ["modonly", "hidden"]

  /** The word looked for on visit `k` of the flag loop. */
  function FlagWord(k: nat): (w: string)
    ensures w == FlagWords[k % 2]
  {
    if k % 2 == 0 then "modonly" else "hidden"
  }

  predicate IsFlagWord(w: string) {
    w == "modonly" || w == "hidden"
  }

  /** Visit `k` of the flag loop takes `token`. */
  predicate Takes(token: string, k: nat) {
    Lower(token) == FlagWord(k)
  }

  /** What the command engine's `command_modify` does with a new command. */
  datatype Modify =
    | Modified(commands: seq<Entry>)
    | NonPositiveCooldown
    | InvalidName
    | NoSuchModule(moduleName: string)
    | MissingInfo

  /** `command_modify(name, cooldown, response, modonly, hidden)` applied to the current registry. */
  type ModifyFn = (string, int, string, bool, bool, seq<Entry>) -> Modify

  /** The tokens `cmdadd` has parsed, and what is left of the argument list. */
  datatype Parsed = Parsed(name: string, cooldown: int, modonly: bool, hidden: bool, rest: seq<string>)

  /**
   * The flag loop from visit `k` of the four visits (two rounds over
   * `FlagWords`): a token equal to the visited word, in any letter case, sets
   * that flag and is consumed.  None is the IndexError of looking at the
   * first token of an empty list.
   */
  function Flags(cmd: seq<string>, k: nat, modonly: bool, hidden: bool): Option<(bool, bool, seq<string>)>
    requires k <= 4
    decreases 4 - k
  {
    if k == 4 then Some((modonly, hidden, cmd))
    else if cmd == [] then None
    else
      if Takes(cmd[0], k) then
        Flags(cmd[1..], k + 1, modonly || k % 2 == 0, hidden || k % 2 == 1)
      else Flags(cmd, k + 1, modonly, hidden)
  }

  /**
   * The parse of `main`: the name (lowercased), then a cooldown when the next
   * token is an integer (otherwise the default, the token kept), then the
   * flags.  None is the IndexError raised when the list runs out before the
   * flags have been looked at.
   */
  function Parse(cmdargs: seq<string>, defaultCooldown: int): Option<Parsed>
    requires cmdargs != []
  {
    var name := Lower(cmdargs[0]);
    var cmd := cmdargs[1..];
    if cmd == [] then None
    else
      var cd := ParseInt(cmd[0]);
      var afterCd := if cd.Some? then cmd[1..] else cmd;
      match Flags(afterCd, 0, false, false)
      case None => None
      case Some((modonly, hidden, rest)) =>
        Some(Parsed(name, if cd.Some? then cd.value else defaultCooldown, modonly, hidden, rest))
  }

  /** Visit `j` of round `round` of the flag loop looks for `FlagWords[j]`. */
  lemma FlagVisit(cmd: seq<string>, round: nat, j: nat, modonly: bool, hidden: bool)
    requires round < 2 && j < 2 && cmd != []
    ensures Flags(cmd, 2 * round + j, modonly, hidden)
         == if Lower(cmd[0]) == FlagWord(j) then Flags(cmd[1..], 2 * round + j + 1, modonly || j == 0, hidden || j == 1)
            else Flags(cmd, 2 * round + j + 1, modonly, hidden)
  {
    assert (2 * round + j) % 2 == j;
  }

  /** The state `main` leaves behind: the argument list, the registry, the number of config writes, the reply. */
  datatype Outcome = Outcome(cmdargs: seq<string>, commands: seq<Entry>, writes: nat, reply: Reply)

  /** The reply of `main` to what the engine did with the command named `name`. */
  function Answer(m: Modify, name: string, validCommandRegex: string): string {
    match m
    case Modified(_) => "Command " + name + " added successfully."
    case NonPositiveCooldown => "Command must have a positive cooldown."
    case InvalidName => "Command name must fit the regular expression " + validCommandRegex + "."
    case NoSuchModule(m) => "Module " + m + " does not exist."
    case MissingInfo => "Command is missing required information."
  }

  /** One invocation of `main`. */
  function Run(cmdargs: seq<string>, commands: seq<Entry>, writes: nat, defaultCooldown: int,
               validCommandRegex: string, engine: ModifyFn): Outcome
  {
    if cmdargs == [] then Outcome(cmdargs, commands, writes, Say("No command information given."))
    else match Parse(cmdargs, defaultCooldown)
      case None => Outcome([], commands, writes, Raised(IndexError))
      case Some(p) =>
        var m := engine(p.name, p.cooldown, Join(p.rest, " "), p.modonly, p.hidden, commands);
        var reply := Say(Answer(m, p.name, validCommandRegex));
        if m.Modified? then Outcome(p.rest, m.commands, writes + 1, reply)
        else Outcome(p.rest, commands, writes, reply)
  }

  /** The part of the bot that `cmdadd` touches. */
  class Bot {
    var cmdargs: seq<string>
    var commands: seq<Entry>
    /** How many times the channel configuration was written. */
    var writes: nat

    constructor (cmdargs: seq<string>, commands: seq<Entry>)
      ensures this.cmdargs == cmdargs && this.commands == commands && writes == 0
    {
      this.cmdargs := cmdargs;
      this.commands := commands;
      writes := 0;
    }
  }

  /** The three settings `cmdadd` reads from the channel's configuration. */
  datatype CmdAddConfig = CmdAddConfig(modonlyArg: string, hiddenArg: string, defaultCooldown: int)

  /** `DEFAULT_CONFIG`: what a channel that sets nothing gets. */
  const DefaultConfig := CmdAddConfig("-modonly", "-hidden", 5)

  class CmdAddModule {
    /** The configured flag spellings; read at start-up and never consulted. */
    const modonlyArg: string
    const hiddenArg: string
    const defaultCooldown: int
    const validCommandRegex: string

    /**
     * `__init__`: the three settings are the channel's values for
     * `modonly_arg`, `hidden_arg` and `default_cooldown` (`DefaultConfig`
     * where the channel sets none).
     */
    constructor (cfg: CmdAddConfig, validCommandRegex: string)
      ensures modonlyArg == cfg.modonlyArg && hiddenArg == cfg.hiddenArg && defaultCooldown == cfg.defaultCooldown
      ensures this.validCommandRegex == validCommandRegex
    {
      modonlyArg := cfg.modonlyArg;
      hiddenArg := cfg.hiddenArg;
      defaultCooldown := cfg.defaultCooldown;
      this.validCommandRegex := validCommandRegex;
    }

    /**
     * The flag loop of `main`: two rounds over the flag words, each looking
     * at the first remaining token.  None when it runs out of tokens
     * (IndexError); the list is then empty.
     */
    static method TakeFlags(bot: Bot) returns (flags: Option<(bool, bool)>)
      modifies bot
      ensures bot.commands == old(bot.commands) && bot.writes == old(bot.writes)
      ensures match Flags(old(bot.cmdargs), 0, false, false)
        case None => flags == None && bot.cmdargs == []
        case Some((mo, hi, rest)) => flags == Some((mo, hi)) && bot.cmdargs == rest
    {
      ghost var afterCd := bot.cmdargs;
      var modonly, hidden := false, false;
      for round := 0 to 2
        invariant Flags(afterCd, 0, false, false) == Flags(bot.cmdargs, 2 * round, modonly, hidden)
        invariant bot.commands == old(bot.commands) && bot.writes == old(bot.writes)
      {
        for j := 0 to 2
          invariant Flags(afterCd, 0, false, false) == Flags(bot.cmdargs, 2 * round + j, modonly, hidden)
          invariant bot.commands == old(bot.commands) && bot.writes == old(bot.writes)
        {
          if bot.cmdargs == [] {
            return None;
          }
          var param := FlagWord(j);
          FlagVisit(bot.cmdargs, round, j, modonly, hidden);
          if Lower(bot.cmdargs[0]) == param {
            if j == 0 {
              modonly := true;
            } else {
              hidden := true;
            }
            bot.cmdargs := bot.cmdargs[1..];
          }
        }
      }
      return Some((modonly, hidden));
    }

    /** `main`, popping the tokens off `bot.cmdargs` as it goes. */
    method Handle(bot: Bot, engine: ModifyFn) returns (reply: Reply)
      modifies bot
      ensures Outcome(bot.cmdargs, bot.commands, bot.writes, reply)
           == Run(old(bot.cmdargs), old(bot.commands), old(bot.writes), defaultCooldown, validCommandRegex, engine)
    {
      if bot.cmdargs == [] {
        return Say("No command information given.");
      }
      var name := Lower(bot.cmdargs[0]);
      bot.cmdargs := bot.cmdargs[1..];
      if bot.cmdargs == [] {
        return Raised(IndexError);
      }
      var cooldown: int;
      var cd := ParseInt(bot.cmdargs[0]);
      if cd.Some? {
        cooldown := cd.value;
        bot.cmdargs := bot.cmdargs[1..];
      } else {
        cooldown := defaultCooldown;
      }
      var flags := TakeFlags(bot);
      if flags.None? {
        return Raised(IndexError);
      }
      var (modonly, hidden) := flags.value;
      var response := Join(bot.cmdargs, " ");
      var answer := engine(name, cooldown, response, modonly, hidden, bot.commands);
      if answer.Modified? {
        bot.commands := answer.commands;
        bot.writes := bot.writes + 1;
      }
      return Say(Answer(answer, name, validCommandRegex));
    }
  }

  // ------------------------------------------------------------ lemmas

  /** Without arguments nothing is parsed, nothing changes. */
  lemma NoArguments(commands: seq<Entry>, writes: nat, dflt: int, regex: string, engine: ModifyFn)
    ensures Run([], commands, writes, dflt, regex, engine) == Outcome([], commands, writes, Say("No command information given."))
  {
  }

  /** `rest` is what is left of `cmd` after at most `n` tokens, all of them flag words, were taken off its front. */
  predicate ConsumedFlagWords(cmd: seq<string>, rest: seq<string>, n: nat) {
    |rest| <= |cmd| && |cmd| - |rest| <= n && rest == cmd[|cmd| - |rest|..]
    && forall i :: 0 <= i < |cmd| - |rest| ==> IsFlagWord(Lower(cmd[i]))
  }

  /** A flag word in front of a consumed prefix extends it by one. */
  lemma ConsumedOneMore(cmd: seq<string>, rest: seq<string>, n: nat)
    requires cmd != [] && IsFlagWord(Lower(cmd[0])) && ConsumedFlagWords(cmd[1..], rest, n)
    ensures ConsumedFlagWords(cmd, rest, n + 1)
  {
    assert cmd[1..][|cmd[1..]| - |rest|..] == cmd[|cmd| - |rest|..];
    forall i | 0 <= i < |cmd| - |rest| ensures IsFlagWord(Lower(cmd[i])) {
      if i > 0 {
        assert cmd[i] == cmd[1..][i - 1];
      }
    }
  }

  /**
   * From visit `k` on, the flag loop consumes only flag words, at most one
   * per visit, and only ever sets flags.
   */
  predicate ConsumesFlagWords(cmd: seq<string>, k: nat, modonly: bool, hidden: bool)
    requires k <= 4
  {
    match Flags(cmd, k, modonly, hidden)
    case None => true
    case Some((mo, hi, rest)) => (modonly ==> mo) && (hidden ==> hi) && ConsumedFlagWords(cmd, rest, 4 - k)
  }

  lemma {:induction false} FlagsConsumeFlagWords(cmd: seq<string>, k: nat, modonly: bool, hidden: bool)
    requires k <= 4
    ensures ConsumesFlagWords(cmd, k, modonly, hidden)
    decreases 4 - k, 1
  {
    if k == 4 {
      assert cmd[0..] == cmd;
    } else if cmd != [] {
      if Takes(cmd[0], k) {
        TakenFlagConsumed(cmd, k, modonly, hidden);
      } else {
        FlagsConsumeFlagWords(cmd, k + 1, modonly, hidden);
      }
    }
  }

  /** The case of `FlagsConsumeFlagWords` where visit `k` takes the first token. */
  lemma {:induction false} TakenFlagConsumed(cmd: seq<string>, k: nat, modonly: bool, hidden: bool)
    requires k < 4 && cmd != [] && Takes(cmd[0], k)
    ensures ConsumesFlagWords(cmd, k, modonly, hidden)
    decreases 4 - k, 0
  {
    var mo', hi' := modonly || k % 2 == 0, hidden || k % 2 == 1;
    FlagsConsumeFlagWords(cmd[1..], k + 1, mo', hi');
    TakenIsFlagWord(cmd[0], k);
    var r := Flags(cmd[1..], k + 1, mo', hi');
    assert Flags(cmd, k, modonly, hidden) == r;
    if r.Some? {
      var (mo, hi, rest) := r.value;
      assert ConsumesFlagWords(cmd[1..], k + 1, mo', hi');
      assert (modonly ==> mo) && (hidden ==> hi) && ConsumedFlagWords(cmd[1..], rest, 3 - k);
      ConsumedOneMore(cmd, rest, 3 - k);
    }
  }

  lemma TakenIsFlagWord(token: string, k: nat)
    requires Takes(token, k)
    ensures IsFlagWord(Lower(token))
  {
  }

  /**
   * A well-formed invocation is parsed into its parts: the lowercased name,
   * the integer cooldown, the flags given (either, both, in this order) and
   * the response tokens, which the registry receives joined by spaces.
   */
  lemma ParseWellFormed(args: seq<string>, cd: int, mo: bool, hi: bool, response: seq<string>, dflt: int)
    requires |args| >= 2 && ParseInt(args[1]) == Some(cd) && args[2..] == Given(mo, hi) + response
    requires response != [] && !IsFlagWord(Lower(response[0]))
    ensures Parse(args, dflt) == Some(Parsed(Lower(args[0]), cd, mo, hi, response))
  {
    FirstRound(mo, hi, response);
    NoFlags(response, 2, mo, hi);
    ParseSteps(args, dflt, cd, args[2..]);
  }

  /**
   * With no response after the flags the flag loop runs out of tokens and
   * raises IndexError: `cmdadd name 5 modonly` never reaches the engine.
   */
  lemma NoResponseRaises(args: seq<string>, cd: int, mo: bool, hi: bool, dflt: int)
    requires |args| >= 2 && ParseInt(args[1]) == Some(cd) && args[2..] == Given(mo, hi)
    ensures Parse(args, dflt) == None
  {
    assert Given(mo, hi) + [] == Given(mo, hi);
    FirstRound(mo, hi, []);
    ParseSteps(args, dflt, cd, args[2..]);
  }

  /** A token that is not an integer leaves the default cooldown and stays in the response. */
  lemma DefaultCooldownKeepsToken(args: seq<string>, dflt: int)
    requires |args| >= 2 && ParseInt(args[1]) == None && !IsFlagWord(Lower(args[1]))
    ensures Parse(args, dflt) == Some(Parsed(Lower(args[0]), dflt, false, false, args[1..]))
  {
    NoFlags(args[1..], 0, false, false);
  }

  /** The configured `-modonly` spelling is not a flag: it becomes part of the response. */
  lemma DashedFlagIsResponse(args: seq<string>, cd: int, dflt: int)
    requires |args| >= 3 && ParseInt(args[1]) == Some(cd) && args[2] == "-modonly"
    ensures Parse(args, dflt) == Some(Parsed(Lower(args[0]), cd, false, false, args[2..]))
  {
    DashedIsNotFlagWord();
    NoFlags(args[2..], 0, false, false);
    ParseSteps(args, dflt, cd, args[2..]);
  }

  lemma DashedIsNotFlagWord()
    ensures !IsFlagWord(Lower("-modonly"))
  {
    LowerOfLowercase("-modonly");
  }

  /** How `Parse` proceeds once the cooldown token is known to be an integer. */
  lemma ParseSteps(args: seq<string>, dflt: int, cd: int, afterCd: seq<string>)
    requires |args| >= 2 && ParseInt(args[1]) == Some(cd) && args[2..] == afterCd
    ensures Parse(args, dflt) == match Flags(afterCd, 0, false, false)
      case None => None
      case Some((mo, hi, rest)) => Some(Parsed(Lower(args[0]), cd, mo, hi, rest))
  {
    assert args[1..][0] == args[1] && args[1..][1..] == afterCd;
  }

  /** The flags in the order the loop takes them in one round. */
  function Given(mo: bool, hi: bool): seq<string> {
    (if mo then ["modonly"] else []) + (if hi then ["hidden"] else [])
  }

  lemma FlagWordsAreLowercase()
    ensures Takes("modonly", 0) && Takes("modonly", 2) && Takes("hidden", 1) && Takes("hidden", 3)
  {
    LowerOfLowercase("modonly");
    LowerOfLowercase("hidden");
  }

  /** The first round of the flag loop takes exactly the flags given, in its order. */
  lemma FirstRound(mo: bool, hi: bool, rest: seq<string>)
    requires rest == [] || !IsFlagWord(Lower(rest[0]))
    ensures Flags(Given(mo, hi) + rest, 0, false, false) == Flags(rest, 2, mo, hi)
  {
    FlagWordsAreLowercase();
    var hidden := Given(false, hi) + rest;
    // visit 1 looks for `hidden`
    if hi {
      assert hidden[0] == "hidden" && hidden[1..] == rest;
    } else {
      assert hidden == rest;
      if rest != [] {
        assert !Takes(rest[0], 1);
      }
    }
    assert Flags(hidden, 1, mo, false) == Flags(rest, 2, mo, hi);
    // visit 0 looks for `modonly`
    var all := Given(mo, hi) + rest;
    if mo {
      assert all[0] == "modonly" && all[1..] == hidden;
    } else {
      assert all == hidden;
      if hi {
        assert !Takes("hidden", 0);
      } else if rest != [] {
        assert !Takes(rest[0], 0);
      }
    }
  }

  /** Past the flags, the loop takes nothing more; with no tokens left it raises. */
  lemma {:induction false} NoFlags(rest: seq<string>, k: nat, mo: bool, hi: bool)
    requires k <= 4
    ensures rest != [] && !IsFlagWord(Lower(rest[0])) ==> Flags(rest, k, mo, hi) == Some((mo, hi, rest))
    ensures rest == [] && k < 4 ==> Flags(rest, k, mo, hi) == None
    decreases 4 - k
  {
    if k < 4 {
      NoFlags(rest, k + 1, mo, hi);
    }
  }

  /**
   * The configuration is written, and the registry replaced, exactly when
   * the engine accepted the parsed command, and the reply then names it;
   * otherwise registry and writes are as before.  After a parse the argument
   * list keeps only the response tokens.
   */
  lemma WrittenIffAccepted(cmdargs: seq<string>, commands: seq<Entry>, writes: nat, dflt: int, regex: string,
                           engine: ModifyFn)
    ensures var o := Run(cmdargs, commands, writes, dflt, regex, engine);
      if cmdargs != [] && Parse(cmdargs, dflt).Some? then
        var p := Parse(cmdargs, dflt).value;
        var m := engine(p.name, p.cooldown, Join(p.rest, " "), p.modonly, p.hidden, commands);
        o.cmdargs == p.rest
        && (m.Modified? ==> o.writes == writes + 1 && o.commands == m.commands && o.reply == Say("Command " + p.name + " added successfully."))
        && (!m.Modified? ==> o.writes == writes && o.commands == commands && o.reply.Say?)
      else
        o.writes == writes && o.commands == commands
  {
  }
}
