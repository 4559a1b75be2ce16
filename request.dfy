/**
 * The `request` module of the bot: a chatter posts an osu! beatmap link
 * (and optionally mods); the module checks that the configured osu!
 * accounts resolved, the subscriber-only mode, and the chatter's
 * cooldown, finds the beatmap, formats a message about it and sends it to
 * the streamer over osu! IRC.  Moderators toggle the subscriber-only mode
 * with `request submode`.
 */
module Request {
  import opened Common
  import opened Text
  import opened RequestMods
  import opened RequestMessage
  import opened RequestLinks

  /** The chatter who invoked the command. */
  datatype Author = Author(uid: string, name: string, isMod: bool, isSub: bool, isVip: bool, status: string)

  /**
   * The module's configuration entries; `Defaults` holds the values a new
   * channel starts with.
   */
  datatype RequestConfig = RequestConfig(
    osuUserId: string,
    osuApiKey: string,
    osuIrcPwd: string,
    osuTrgtId: string,
    messageFormat: string,
    cdPerUser: int,
    submode: bool)

  const DefaultMessageFormat: string :=
    "&requester& (&requesterstatus&) requested: &map& &mods& (&length& @ &bpm&BPM, &stars&*, by &creator&)"

  const Defaults: RequestConfig := RequestConfig("", "", "", "", DefaultMessageFormat, 0, false)

  /**
   * What the module reaches outside for: the osu! API's `get_beatmaps` by
   * beatmap id and by mapset id, the option names the mention pattern finds
   * in a format, and Python's two-decimal rounding of a number's text.
   */
  datatype Env = Env(
    beatmaps: string -> seq<map<string, string>>,
    beatmapsets: string -> seq<map<string, string>>,
    mentions: string -> seq<string>,
    round2: string -> Option<string>)

  /** The module's state between invocations. */
  datatype RequestState = RequestState(
    username: Option<string>,
    target: Option<string>,
    ircPwd: string,
    cooldown: int,
    authorCds: map<string, int>,
    submode: bool,
    messageFormat: string,
    outbox: seq<string>)

  const UnresolvedText := "A username (either self or target) could not be resolved. Please check/fix configuration."
  const NoMapText := "Provide a map to request."
  const BadLinkText := "Could not resolve beatmap link format."
  const NoInfoText := "Could not retrieve beatmap information."
  const SentText := "Request sent!"

  /** Python truthiness of an optional name: present and not empty. */
  predicate Truthy(o: Option<string>) {
    o.Some? && o.value != ""
  }

  predicate Privileged(a: Author) {
    a.isMod || a.isSub || a.isVip
  }

  /** The chatter requested less than `cooldown` seconds ago. */
  predicate OnCooldown(s: RequestState, a: Author, now: int) {
    a.uid in s.authorCds && now - s.authorCds[a.uid] < s.cooldown
  }

  /**
   * `resolve_username`: the API's name for an osu! user id with spaces
   * written as underscores; None when the lookup fails in any way.
   */
  function ResolveUsername(lookup: string -> Option<string>, id: string): Option<string> {
    match lookup(id)
    case None => None
    case Some(name) => Some(ReplaceAll(name, " ", "_"))
  }

  /** The four lines `send_osu_message` writes to the IRC connection. */
  function IrcLines(username: string, pwd: string, target: string, msg: string): seq<string> {
    ["USER " + username + "\n", "PASS " + pwd + "\n", "NICK " + username + "\n",
     "PRIVMSG " + target + " " + msg + "\n"]
  }

  /** The beatmap record the request leads to, or why there is none. */
  datatype Fetched = NoLink | NoMap | SortFailed(error: PyError) | Got(fields: map<string, string>)

  /**
   * A beatmap link fetches that beatmap and takes the first record; a mapset
   * link fetches the mapset and takes its top difficulty.
   */
  function Fetch(link: Link, env: Env): Fetched {
    match link
    case Unresolved => NoLink
    case Beatmap(id) =>
      var maps := env.beatmaps(id);
      if maps == [] then NoMap else Got(maps[0])
    case Beatmapset(id) =>
      match TopDifficulty(env.beatmapsets(id))
      case Err(e) => SortFailed(e)
      case Ok(None) => NoMap
      case Ok(Some(m)) => Got(m)
  }

  /** Where a request past the gates ends: a message to send, or a reply without one. */
  datatype Outcome = Send(message: string) | Answer(reply: Reply)

  /**
   * The part of `main` past the gates: the mods argument, the link, the
   * beatmap and the message.  Only a message that is sent is acknowledged
   * with "Request sent!".
   */
  function Compose(format: string, a: Author, args: seq<string>, env: Env): (o: Outcome)
    requires args != []
    ensures o.Answer? ==> o.reply != Say(SentText)
  {
    var mods := if |args| > 1 then ModsString(Upper(args[1])) else "";
    match Fetch(Classify(Lower(args[0])), env)
    case NoLink => Answer(Say(BadLinkText))
    case SortFailed(e) => Answer(Raised(e))
    case NoMap => Answer(Say(NoInfoText))
    case Got(fields) =>
      match Format(format, env.mentions(format), Options(MapInfo(fields, mods, a.name, a.status), env.round2))
      case Err(e) => Answer(Raised(e))
      case Ok(msg) => Send(msg)
  }

  /** One invocation of `main`: the reply and the state after it. */
  function Step(s: RequestState, a: Author, args: seq<string>, now: int, env: Env): (RequestState, Reply) {
    if !Truthy(s.username) || !Truthy(s.target) then (s, Say(UnresolvedText))
    else if s.submode && !Privileged(a) then (s, Silent)
    else if OnCooldown(s, a, now) then (s, Silent)
    else if args == [] then (s, Say(NoMapText))
    else if Lower(args[0]) == "submode" && a.isMod then
      (s.(submode := !s.submode), Say(if !s.submode then "Submode enabled" else "Submode disabled"))
    else
      match Compose(s.messageFormat, a, args, env)
      case Answer(r) => (s, r)
      case Send(msg) =>
        (s.(outbox := s.outbox + IrcLines(s.username.value, s.ircPwd, s.target.value, msg),
            authorCds := s.authorCds[a.uid := now]),
         Say(SentText))
  }

  class RequestModule {
    var username: Option<string>
    var target: Option<string>
    var ircPwd: string
    var cooldown: int
    var authorCds: map<string, int>
    var submode: bool
    var messageFormat: string
    /** Everything written to osu! IRC so far. */
    var outbox: seq<string>

    function State(): RequestState
      reads this
    {
      RequestState(username, target, ircPwd, cooldown, authorCds, submode, messageFormat, outbox)
    }

    /**
     * `__init__`: the cooldown comes from the configuration, no chatter has
     * requested yet, and both names are resolved, the target only when its
     * id differs from the user's.
     */
    constructor (cfg: RequestConfig, lookup: string -> Option<string>)
      ensures cooldown == cfg.cdPerUser && authorCds == map[] && outbox == []
      ensures submode == cfg.submode && messageFormat == cfg.messageFormat && ircPwd == cfg.osuIrcPwd
      ensures username == ResolveUsername(lookup, cfg.osuUserId)
      ensures target == ResolveUsername(lookup, if cfg.osuUserId == cfg.osuTrgtId then cfg.osuUserId else cfg.osuTrgtId)
    {
      cooldown := cfg.cdPerUser;
      authorCds := map[];
      ircPwd := cfg.osuIrcPwd;
      submode := cfg.submode;
      messageFormat := cfg.messageFormat;
      outbox := [];
      var user := ResolveUsername(lookup, cfg.osuUserId);
      username := user;
      if cfg.osuUserId == cfg.osuTrgtId {
        target := user;
      } else {
        target := ResolveUsername(lookup, cfg.osuTrgtId);
      }
    }

    /** `main` for one invocation by `author` with arguments `args` at time `now`. */
    method Handle(author: Author, args: seq<string>, now: int, env: Env) returns (reply: Reply)
      modifies this
      ensures (State(), reply) == Step(old(State()), author, args, now, env)
    {
      if !Truthy(username) || !Truthy(target) {
        return Say(UnresolvedText);
      }
      if submode && !(author.isMod || author.isSub || author.isVip) {
        return Silent;
      }
      if author.uid in authorCds {
        var timePassed := now - authorCds[author.uid];
        if timePassed < cooldown {
          return Silent;
        }
      }
      if |args| == 0 {
        return Say(NoMapText);
      }
      var req := Lower(args[0]);
      if req == "submode" && author.isMod {
        var t := !submode;
        submode := t;
        if t {
          return Say("Submode enabled");
        } else {
          return Say("Submode disabled");
        }
      }
      var outcome := ComposeMessage(messageFormat, author, args, env);
      match outcome {
        case Answer(r) =>
          return r;
        case Send(msg) =>
          outbox := outbox + IrcLines(username.value, ircPwd, target.value, msg);
          authorCds := authorCds[author.uid := now];
          return Say(SentText);
      }
    }

    /** The part of `main` past the gates, with the mods loop and the format loop. */
    static method ComposeMessage(format: string, author: Author, args: seq<string>, env: Env) returns (o: Outcome)
      requires args != []
      ensures o == Compose(format, author, args, env)
    {
      var mods := "";
      if |args| > 1 {
        mods := GenerateModsString(Upper(args[1]));
      }
      match Fetch(Classify(Lower(args[0])), env) {
        case NoLink =>
          return Answer(Say(BadLinkText));
        case SortFailed(e) =>
          return Answer(Raised(e));
        case NoMap =>
          return Answer(Say(NoInfoText));
        case Got(fields) =>
          var info := MapInfo(fields, mods, author.name, author.status);
          var message := FormatMessage(format, env.mentions(format), Options(info, env.round2));
          match message {
            case Err(e) =>
              return Answer(Raised(e));
            case Ok(msg) =>
              return Send(msg);
          }
      }
    }
  }

  // ------------------------------------------------------------ lemmas

  /** A resolved osu! name never holds a space. */
  lemma ResolvedNameHasNoSpace(lookup: string -> Option<string>, id: string)
    ensures ResolveUsername(lookup, id).Some? ==> ' ' !in ResolveUsername(lookup, id).value
  {
    if lookup(id).Some? {
      ReplaceRemovesChar(lookup(id).value, ' ', "_");
    }
  }

  /** While either osu! name is unresolved, every invocation gives the same advice and changes nothing. */
  lemma UnresolvedNamesStopEverything(s: RequestState, a: Author, args: seq<string>, now: int, env: Env)
    requires !Truthy(s.username) || !Truthy(s.target)
    ensures Step(s, a, args, now, env) == (s, Say(UnresolvedText))
  {
  }

  /** In subscriber-only mode a chatter who is neither moderator, subscriber nor VIP gets no answer. */
  lemma SubmodeSilencesOthers(s: RequestState, a: Author, args: seq<string>, now: int, env: Env)
    requires Truthy(s.username) && Truthy(s.target)
    requires s.submode && !a.isMod && !a.isSub && !a.isVip
    ensures Step(s, a, args, now, env) == (s, Silent)
  {
  }

  /** A chatter still on cooldown gets no answer and nothing changes. */
  lemma CooldownSilences(s: RequestState, a: Author, args: seq<string>, now: int, env: Env)
    requires Truthy(s.username) && Truthy(s.target)
    requires a.uid in s.authorCds && now - s.authorCds[a.uid] < s.cooldown
    ensures Step(s, a, args, now, env) == (s, Silent)
  {
  }

  /**
   * A request is sent exactly when the reply is "Request sent!": then the
   * IRC lines carry the message to the target and the chatter's cooldown
   * starts now; otherwise neither the outbox nor the cooldowns change.
   */
  lemma SentIffCooldownStarts(s: RequestState, a: Author, args: seq<string>, now: int, env: Env)
    ensures var (t, r) := Step(s, a, args, now, env);
      if r == Say(SentText) then
        t.authorCds == s.authorCds[a.uid := now]
        && |t.outbox| == |s.outbox| + 4 && t.outbox[..|s.outbox|] == s.outbox
        && StartsWith(t.outbox[|s.outbox| + 3], "PRIVMSG " + s.target.value + " ")
      else
        t.authorCds == s.authorCds && t.outbox == s.outbox
  {
    var (t, r) := Step(s, a, args, now, env);
    if r == Say(SentText) {
      var line := t.outbox[|s.outbox| + 3];
      assert t.outbox[..|s.outbox|] == s.outbox;
      assert line[..|"PRIVMSG " + s.target.value + " "|] == "PRIVMSG " + s.target.value + " ";
    }
  }

  /** Only a moderator's `submode` toggles the mode, and the reply tells the new setting. */
  lemma SubmodeToggledOnlyByModerators(s: RequestState, a: Author, args: seq<string>, now: int, env: Env)
    ensures var (t, r) := Step(s, a, args, now, env);
      t.submode != s.submode ==>
        a.isMod && |args| > 0 && Lower(args[0]) == "submode"
        && r == Say(if t.submode then "Submode enabled" else "Submode disabled")
  {
  }

  /** A moderator who is not on cooldown always toggles the mode with `submode`, in any letter case. */
  lemma ModeratorToggles(s: RequestState, a: Author, args: seq<string>, now: int, env: Env)
    requires Truthy(s.username) && Truthy(s.target) && a.isMod && !OnCooldown(s, a, now)
    requires |args| > 0 && Lower(args[0]) == "submode"
    ensures Step(s, a, args, now, env).0 == s.(submode := !s.submode)
  {
  }

  /** For anyone else `submode` is just a link that does not resolve. */
  lemma SubmodeWordFromOthers(s: RequestState, a: Author, args: seq<string>, now: int, env: Env)
    requires Truthy(s.username) && Truthy(s.target) && !a.isMod && !(s.submode && !Privileged(a))
    requires !OnCooldown(s, a, now) && |args| > 0 && Lower(args[0]) == "submode"
    ensures Step(s, a, args, now, env) == (s, Say(BadLinkText))
  {
    var req := Lower(args[0]);
    assert !MatchesAt(req, Site + "beatmapsets/");
    assert !MatchesAt(req, Site + "beatmaps/");
    assert !MatchesAt(req, Site + "b/");
  }

  /** The names, password, cooldown length and message format are never changed by `main`. */
  lemma StepKeepsConfiguration(s: RequestState, a: Author, args: seq<string>, now: int, env: Env)
    ensures var t := Step(s, a, args, now, env).0;
      t.username == s.username && t.target == s.target && t.ircPwd == s.ircPwd
      && t.cooldown == s.cooldown && t.messageFormat == s.messageFormat
  {
  }

  /**
   * After a request is sent, the same chatter's next invocation within the
   * cooldown gets no answer, whatever they ask and whatever the API says.
   */
  lemma SecondRequestWithinCooldownIsSilent(s: RequestState, a: Author, args: seq<string>, now: int, env: Env,
                                            b: Author, args2: seq<string>, later: int, env2: Env)
    requires Step(s, a, args, now, env).1 == Say(SentText)
    requires b.uid == a.uid && later - now < s.cooldown
    ensures Step(Step(s, a, args, now, env).0, b, args2, later, env2).1 == Silent
  {
    SentIffCooldownStarts(s, a, args, now, env);
    StepKeepsConfiguration(s, a, args, now, env);
  }

  /**
   * Once the cooldown has passed the chatter is heard again: whatever the
   * arguments, the reply and what goes to osu! IRC are those of a chatter
   * who never requested.
   */
  lemma CooldownOver(s: RequestState, a: Author, args: seq<string>, now: int, env: Env)
    requires a.uid in s.authorCds && now - s.authorCds[a.uid] >= s.cooldown
    ensures var unseen := s.(authorCds := s.authorCds - {a.uid});
      Step(s, a, args, now, env).1 == Step(unseen, a, args, now, env).1
      && Step(s, a, args, now, env).0.outbox == Step(unseen, a, args, now, env).0.outbox
    ensures Truthy(s.username) && Truthy(s.target) && !(s.submode && !Privileged(a)) ==>
      Step(s, a, [], now, env) == (s, Say(NoMapText))
  {
  }
}
