# rasbot core in Dafny

rasbot is a Twitch chat bot. This project models the parts of it that decide
what the bot answers and what it stores:

- the built-in chat modules `request` (forwards osu! beatmap requests to the
  streamer over osu! IRC), `cmdadd` (adds or changes a custom command),
  `help` (lists commands or explains one) and `target` (names the user a
  command is aimed at);
- the two configuration stores: `src/config.py`, which keeps JSON files
  under `userdata/` and creates the folders on the way, and the older
  `config.py`, which keeps them under `config/` and writes a channel's
  command registry back;
- the credential file shared by `authentication.py` and
  `authorization.py`: `key:value` lines read into an ordered dictionary,
  written back, and turned into Twitch API headers.

Files:

| file | module | models |
|---|---|---|
| common.dfy | Common | `Option`, `Result`, the Python exceptions that reach a caller, a module's reply (text, the no-message signal, or an exception) |
| text.dfy | Text | the string operations the source uses (`lower`, `upper`, `startswith`, `split`, `join`, `replace`, `int()`, `str()`), with split/join round trips |
| dict.dfy | Dict | a Python `dict` with string keys, in insertion order |
| json.dfy | Json | JSON values, Python truthiness, and the `json` codec as a pair of functions |
| files.dfy | Files | the file system: a set of folders and a map from file paths to contents, and a `FileSystem` object holding it |
| registry.dfy | Registry | a channel's command registry: ordered, named commands |
| request_mods.dfy | RequestMods | `generate_mods_string` |
| request_message.dfy | RequestMessage | `MESSAGE_OPTIONS` and `format_message` |
| request_links.dfy | RequestLinks | the three beatmap-link patterns and the mapset's top difficulty |
| request.dfy | Request | the `request` module: its state, `__init__`, `resolve_username`, `main`, `send_osu_message` |
| cmdadd.dfy | CmdAdd | the `cmdadd` module |
| help.dfy | Help | the `help` module |
| target.dfy | Target | the `target` module |
| storage.dfy | Storage | `src/config.py` |
| channelconfig.dfy | ChannelConfig | `config.py` |
| authfile.dfy | AuthFile | the credential file format and `get_headers`, shared by both credential classes |
| authentication.dfy | Authentication | `authentication.py` |
| authorization.dfy | Authorization | `authorization.py` |

Conventions:

- Where the source changes state in place, the model does too. The
  `request` module, the bot that `cmdadd` edits, the file system and the
  two credential classes are classes, and their methods say how they
  change them.
- Each loop of the source (`generate_mods_string`, `format_message`,
  `verify_folder_exists`, the flag loop of `cmdadd`, the command loop of
  `write_channel`, the parse and render loops of the credential file) is a
  method with a loop. Each such method is proved equal to a function, and
  the properties are proved about that function.
- An exception that the source does not catch becomes an error value
  (`Err`, or the reply `Raised`) that carries the exception's kind.
- Python's `None` returned by `src/config.py`'s `read` is the JSON value
  `JNull`.

Where the design description and the code disagree, the model follows the
code:

- A configuration file that is not valid JSON is described as fatal.
  `src/config.py` logs the error and returns `None` (`Storage.GarbledFileIsNone`).
  `config.py` lets the decode error escape (`ChannelConfig.GarbledRaises`).
- A channel's configuration is described as round-tripping its modules
  list, but `write_channel` always writes an empty list
  (`ChannelConfig.RecordRoundTrip`).

## Model

| member | source | states |
|---|---|---|
| RequestMods.GenerateModsString | modules/request.py:145-168 | the mods loop returns exactly the mods string defined by stripping `+`, dropping commas, cutting into two-letter chunks and keeping each real osu! mod once |
| RequestMods.CollectMods | modules/request.py:159-162 | the accumulation loop yields `+` followed by `MOD,` for every accepted chunk, in order |
| RequestMods.IsOsuModIsMembership | modules/request.py:27-28 | a two-letter test is the same as membership in the list of fourteen osu! mods |
| RequestMods.SeenIffListed | modules/request.py:161 | for a list of distinct real mods, the substring test `mod not in modstring` holds exactly when the mod is not in the list yet |
| RequestMods.AcceptedModsMeaning | modules/request.py:149-162 | the accepted mods are distinct real mods, keep the order of the chunks, and are exactly the chunks that are real mods |
| RequestMods.AcceptMembership | modules/request.py:160-162 | a mod is accepted iff it is among the chunks and is a real osu! mod |
| RequestMods.AcceptKeepsOrder | modules/request.py:160-162 | the accepted mods appear in the order of the chunks |
| RequestMods.AcceptIsValid | modules/request.py:160-162 | no mod is accepted twice and every accepted mod is real |
| RequestMods.ChunkSizes | modules/request.py:156 | a string of length n is cut into (n+1)/2 chunks, all of two characters except a last one of one character when n is odd |
| RequestMods.TrailingOddNeverAccepted | modules/request.py:156-161 | the odd last character forms a one-letter chunk that is never accepted |
| RequestMods.ModsStringShape | modules/request.py:159-168 | the result is empty iff no mod is accepted; otherwise it is `+` followed by `XX,` for each accepted mod, with length 1 + 3 per mod |
| RequestMods.ModsStringIdempotent | modules/request.py:145-168 | normalising an already normalised mods string changes nothing |
| RequestMessage.FormatMessage | modules/request.py:170-186 | the replacement loop computes the specified message: each found key's value replaces `&key&`, unknown keys are skipped, the first failing option raises |
| RequestMessage.FormatErrorPersists | modules/request.py:176-184 | once an option raises, later keys do not change the outcome |
| RequestMessage.FormatRaisesIff | modules/request.py:176-184 | formatting raises iff some found key's option raises something other than `KeyError` |
| RequestMessage.FormatWithoutKnownOptions | modules/request.py:182-184 | when every found key is unknown or lacks its field, the message is the format unchanged |
| RequestMessage.FormatOnePlaceholder | modules/request.py:178-181 | a format with one placeholder `&key&` becomes the text around it with the option's value in its place |
| RequestMessage.UnknownOptionIsMissing | modules/request.py:32-66 | a key outside `MESSAGE_OPTIONS` is treated as the logged `KeyError` |
| RequestMessage.RequestOptionsAlwaysDefined | modules/request.py:63-65 | `requester`, `requesterstatus` and `mods` always have a value, taken from the request itself |
| RequestMessage.StatusCodes | modules/request.py:37 | approval codes -2, -1, 1 and 4 read as Graveyard, WIP, Ranked and Loved, negative codes indexing from the end |
| RequestMessage.LengthReadsBack | modules/request.py:45 | for a non-negative length the text `M:S` splits back into the minutes and the seconds below 60, both written without zero padding |
| RequestMessage.LengthWithoutPadding | modules/request.py:45 | 125 seconds show as `2:5` |
| RequestMessage.LengthOfNegativeTotal | modules/request.py:45 | for a length between -60 and 0 the minutes truncate to 0 and the seconds use Python's non-negative remainder |
| RequestLinks.ClassifyShortLink | modules/request.py:16 | an `osu.ppy.sh/b/<digits>` link is a beatmap with that id |
| RequestLinks.ClassifyBeatmapsLink | modules/request.py:16 | an `osu.ppy.sh/beatmaps/<digits>` link is a beatmap with that id |
| RequestLinks.ClassifySetLink | modules/request.py:18 | an `osu.ppy.sh/beatmapsets/<digits>` link is a mapset with that id |
| RequestLinks.ClassifyDifficultyLink | modules/request.py:15 | a `beatmapsets/<set>#<mode>/<digits>` link is the beatmap with the last id |
| RequestLinks.BeatmapAndSetPatternsExclusive | modules/request.py:229-246 | a link the mapset pattern matches matches neither beatmap pattern, so the mapset branch is taken only for true mapset links |
| RequestLinks.DigitsToEnd | modules/request.py:15-18 | the captured id is a non-empty run of digits that reaches the end of the link |
| RequestLinks.HighestIsFirstMaximum | modules/request.py:259-263 | after the stable descending sort, `req[0]` is the first difficulty whose rating string is not below any other |
| RequestLinks.TopDifficultyRaisesIff | modules/request.py:260 | sorting raises `KeyError` iff some difficulty lacks a rating |
| Request.RequestModule.constructor | modules/request.py:92-117 | the cooldown and format come from the configuration, no cooldowns are recorded, and the target is resolved only when its id differs from the user's |
| Request.RequestModule.Handle | modules/request.py:188-276 | one invocation changes the module's state and replies exactly as the step function says |
| Request.RequestModule.ComposeMessage | modules/request.py:223-271 | the part after the gates equals the composed outcome: bad link, missing map, exception, or the message to send |
| Request.Compose | modules/request.py:244-276 | when nothing is sent, the reply is never "Request sent!" |
| Request.ResolvedNameHasNoSpace | modules/request.py:129 | a resolved osu! name holds no space |
| Request.UnresolvedNamesStopEverything | modules/request.py:190-191 | with an unresolved user or target every request gets the configuration message and nothing changes |
| Request.SubmodeSilencesOthers | modules/request.py:194-195 | in submode a chatter who is not a moderator, subscriber or VIP gets no message and nothing changes |
| Request.CooldownSilences | modules/request.py:198-203 | a chatter still on cooldown gets no message and nothing changes |
| Request.SentIffCooldownStarts | modules/request.py:274-276 | a request is sent (four IRC lines ending in `PRIVMSG <target>`) exactly when the chatter's cooldown is restarted; otherwise cooldowns and IRC output are unchanged |
| Request.SubmodeToggledOnlyByModerators | modules/request.py:215-221 | submode changes only when a moderator says `submode`, and the reply names the new setting |
| Request.ModeratorToggles | modules/request.py:212-221 | a moderator past the gates who says `submode` flips it and nothing else |
| Request.SubmodeWordFromOthers | modules/request.py:212-246 | `submode` from anyone else is treated as a link and rejected |
| Request.StepKeepsConfiguration | modules/request.py:188-276 | no invocation changes the names, IRC password, cooldown or message format |
| Request.SecondRequestWithinCooldownIsSilent | modules/request.py:198-203 | after a sent request the same chatter is silenced until the cooldown has passed |
| Request.CooldownOver | modules/request.py:198-209 | once the cooldown has passed, every request gets the same reply and sends the same IRC lines as from a chatter who never requested |
| CmdAdd.CmdAddModule.constructor | modules/cmdadd.py:22-27 | the flag spellings and the default cooldown are the channel's configured values (`DefaultConfig`: `-modonly`, `-hidden`, 5) |
| CmdAdd.CmdAddModule.Handle | modules/cmdadd.py:29-78 | one invocation leaves the bot's arguments, commands, config-write count and reply as the specified run says |
| CmdAdd.CmdAddModule.TakeFlags | modules/cmdadd.py:47-55 | the nested flag loop consumes the same words and sets the same flags as the flag function |
| CmdAdd.FlagVisit | modules/cmdadd.py:51-53 | the inner loop visits `modonly` and then `hidden` on each of two rounds, each visit consuming a matching word |
| CmdAdd.NoArguments | modules/cmdadd.py:30-31 | with no arguments the reply is "No command information given." and nothing changes |
| CmdAdd.FlagsConsumeFlagWords | modules/cmdadd.py:47-55 | the flag loop consumes at most four words, all of them flag words, from the front |
| CmdAdd.ParseWellFormed | modules/cmdadd.py:33-61 | name, cooldown, flag words and a response give the lowered name, that cooldown, those flags and the response |
| CmdAdd.NoResponseRaises | modules/cmdadd.py:51-55 | flags with no response after them end in `IndexError` |
| CmdAdd.DefaultCooldownKeepsToken | modules/cmdadd.py:40-44 | a second word that is not an integer gets the default cooldown and stays part of the response |
| CmdAdd.DashedFlagIsResponse | modules/cmdadd.py:47-55 | the configured `-modonly` is never matched, since the loop compares with the key `modonly` |
| CmdAdd.FirstRound | modules/cmdadd.py:51-55 | in the first round `modonly` then `hidden` are consumed in that order |
| CmdAdd.NoFlags | modules/cmdadd.py:51-55 | a response word that is not a flag stops the loop; an empty remainder raises `IndexError` |
| CmdAdd.WrittenIffAccepted | modules/cmdadd.py:57-78 | the config is written and the registry replaced exactly when the command engine accepts, with the success reply; any rejection leaves both unchanged |
| Help.ListedIff | modules/help.py:21-27 | a name is listed iff some command of that name is not hidden and its mod-only flag matches the list |
| Help.ListedInOrder | modules/help.py:23-27 | the listed names keep registry order |
| Help.ListingPartitions | modules/help.py:23-27 | a hidden command appears in neither list and a visible one in exactly one |
| Help.ModuleBeforeCommand | modules/help.py:36-37 | a name that is a module gets the module's help, even if a command has that name |
| Help.CommandWithoutModules | modules/help.py:40-55 | a command name gets the list of the modules it mentions, or the no-module message, and an unknown name the no-match message |
| Help.HelpIgnoresCase | modules/help.py:18 | the answer depends only on the lower-cased first argument |
| Help.ListingReadsBack | modules/help.py:23-29 | the comma-joined listing splits back into the listed names |
| Target.MentionRoundTrip | modules/target.py:14-18 | `@name` gives back `name` |
| Target.OnlyOneAtRemoved | modules/target.py:15-16 | only one leading `@` is removed |
| Target.PlainNameKept | modules/target.py:14-18 | a name without `@` is returned as it is |
| Target.TargetIsFirstArgument | modules/target.py:10-18 | the result is the author with no arguments, else the first argument with at most one `@` removed; an empty first argument raises `IndexError` and nothing else does |
| Storage.Normalize | src/config.py:107-108 | the normalised path starts with `userdata` and ends with the given path |
| Storage.NormalizeIdempotent | src/config.py:107-108 | normalising twice is normalising once |
| Storage.FolderList | src/config.py:68-76 | the folder list stops at the first path part holding a dot, and all earlier parts are free of dots |
| Storage.FoldersOf | src/config.py:68-76 | the loop with `break` builds exactly that folder list |
| Storage.FolderStep | src/config.py:75 | each folder is the previous one plus `/` and the next part |
| Storage.FolderIsPrefix | src/config.py:68-76 | each folder is a prefix of the path, and the last one is the path itself when no part holds a dot |
| Storage.PathInFolderList | src/config.py:70-76 | the path itself is created as a folder iff none of its parts holds a dot |
| Storage.NamesFileIff | src/config.py:70-73 | the loop breaks early iff some part holds a dot |
| Storage.MakeFoldersMeaning | src/config.py:79-82 | afterwards every listed folder exists, new folders are exactly the listed names not yet taken, and files are untouched |
| Storage.MakeFoldersNoop | src/config.py:79-82 | when every folder exists nothing changes |
| Storage.VerifyFolderExists | src/config.py:63-82 | the method leaves the file system as creating the missing folders of the folder list would |
| Storage.WriteConfig | src/config.py:132-146 | a successful write returns the configuration it was given |
| Storage.Write | src/config.py:132-146 | the file system and result are those of the write specification |
| Storage.Read | src/config.py:99-129 | the file system and result are those of the read specification |
| Storage.ReadGlobal | src/config.py:85-88 | reads `rasbot.txt` with the global defaults |
| Storage.ReadChannel | src/config.py:91-96 | reads the given path with the channel defaults |
| Storage.PreparedPath | src/config.py:107-109 | the target path has become a folder iff it was one, or it has no dotted part and was not a file |
| Storage.WriteSucceedsIff | src/config.py:138-144 | writing succeeds iff the path is not a folder and either already is a file or has a dotted part |
| Storage.WriteStores | src/config.py:138-146 | a successful write stores the encoded configuration at the normalised path and leaves the folders in place |
| Storage.UndottedPathIsFolder | src/config.py:109-113 | a new path with no dotted part becomes a folder, so reading and writing it raise `IsADirectoryError` |
| Storage.GarbledFileIsNone | src/config.py:118-122 | a file that does not decode reads as `None` and is not rewritten |
| Storage.MissingFile | src/config.py:126-129 | a missing file gets the default written and returned when the default is truthy, and `None` otherwise |
| Storage.ReadAfterWrite | src/config.py:99-146 | reading after a successful write returns what was written, when the codec decodes its own output |
| Storage.GlobalConfigLocation | src/config.py:85-88 | the global configuration lives at `userdata/rasbot.txt` and only `userdata` is created for it |
| ChannelConfig.ChannelPath | config.py:62 | a channel's path is `config/` followed by its name |
| ChannelConfig.WriteJson | config.py:118-122 | writing succeeds iff the path is not a folder, and then stores the encoded configuration there and changes nothing else |
| ChannelConfig.Write | config.py:118-122 | the file system and result are those of the write specification |
| ChannelConfig.Read | config.py:66-84 | the file system and result are those of the read specification |
| ChannelConfig.ReadGlobal | config.py:51-54 | reads `config/rasbot` with the global defaults |
| ChannelConfig.ReadChannel | config.py:57-63 | reads `config/<cfg>` with the channel defaults |
| ChannelConfig.CommandsData | config.py:106-112 | the command loop builds the commands record, each name mapped to its four fields |
| ChannelConfig.WriteChannel | config.py:87-115 | writes the channel record: the prefix, the commands and an empty modules list |
| ChannelConfig.CommandRoundTrip | config.py:107-112 | a command's record reads back as the same command |
| ChannelConfig.CommandsRecordInOrder | config.py:105-112 | with distinct names the commands record lists the commands in registry order |
| ChannelConfig.RecordRoundTrip | config.py:97-112 | the channel record gives back the prefix and the registry, and its modules list is empty |
| ChannelConfig.MissingWritesDefault | config.py:81-84 | a missing file gets the default written and returned, whatever the default is |
| ChannelConfig.GarbledRaises | config.py:74-77 | a file that does not decode raises the decode error and nothing is written |
| ChannelConfig.ReadAfterWrite | config.py:66-122 | reading after a successful write returns what was written and changes nothing |
| ChannelConfig.ChannelRoundTrip | config.py:87-115 | after `write_channel`, reading the channel gives back its prefix and registry |
| AuthFile.ParseLine | authentication.py:45-51 | a line parses iff it still holds a colon once its last character is removed |
| AuthFile.ParseAuthLines | authentication.py:44-51 | the parse loop gives the dictionary, or stops at the first bad line with the entries before it, as specified |
| AuthFile.RenderAuthLines | authentication.py:57-59 | the render loop gives one `key:value\n` line per entry, in order |
| AuthFile.ReadLinesConcat | authentication.py:40-41 | the lines read from a file put back together give the file |
| AuthFile.ParseEntryLine | authentication.py:46-51 | `key:value\n` parses to that key and value |
| AuthFile.ExtraFieldsDropped | authentication.py:49-51 | anything after a second colon is dropped |
| AuthFile.MissingColonRaises | authorization.py:39-41 | a line without a colon raises `IndexError` |
| AuthFile.ParseAuthStops | authentication.py:45-51 | after the first bad line, further lines change nothing |
| AuthFile.LaterLineWins | authorization.py:39-41 | a later line for a key replaces its value and leaves the other keys as they were |
| AuthFile.ParseRendered | authentication.py:45-59 | parsing the rendered lines of a dictionary gives back that dictionary |
| AuthFile.AuthRoundTrip | authentication.py:36-63 | writing a dictionary to text and reading it back gives the same dictionary, when no key or value holds a colon or newline |
| AuthFile.LastLineLosesChar | authorization.py:35-41 | a last line without a newline loses its final character |
| AuthFile.HeadersIff | authentication.py:70-75 | headers exist iff both `client_id` and `oauth` are known, with `client_id` checked first; they carry the client id, the bearer token and the v5 accept type |
| AuthFile.BearerTokenReadsBack | authentication.py:74 | the token follows `Bearer ` in the authorization header |
| Authentication.Authentication.constructor | authentication.py:29-32 | the file is the given one, or the default credential file when none is given |
| Authentication.Authentication.ReadAuthfile | authentication.py:36-51 | an unopenable file raises and leaves the dictionary alone; otherwise the dictionary is the parse of its lines |
| Authentication.Authentication.WriteAuthfile | authentication.py:53-63 | the file receives the rendered lines, or the write raises and nothing changes |
| Authentication.Authentication.GetHeaders | authentication.py:70-75 | headers exist iff both credentials are known, and carry the bearer token |
| Authentication.Create | authentication.py:11-34 | constructing reads the file at once: an open or parse error escapes, otherwise the object holds the parsed dictionary |
| Authentication.WriteThenRead | authentication.py:36-63 | reading after `write_authfile` gives back the same dictionary |
| Authorization.Authorization.constructor | authorization.py:9-27 | the store is the given path |
| Authorization.Authorization.Load | authorization.py:29-41 | an unopenable store raises; otherwise the dictionary is the parse of its lines |
| Authorization.Authorization.GetHeaders | authorization.py:48-53 | headers exist iff both credentials are known, and carry the bearer token |
| Authorization.Create | authorization.py:9-41 | constructing reads `_AUTH` by default: an open or parse error escapes, otherwise the object holds the parsed dictionary |
| Files.ReadFile | config.py:75-76 | reading succeeds iff the path is a file and not a folder |
| Files.WriteFile | config.py:121-122 | writing succeeds iff the path is not a folder, and then stores the text and changes nothing else |
| Files.FileSystem.Mkdir | src/config.py:80-82 | a path that does not exist yet becomes a folder and files are untouched |
| Dict.PutMeaning | authentication.py:51 | after `d[k] = v`, `k` holds `v`, other keys keep their values, an existing key keeps its place and a new key comes last |
| Dict.PutKeepsDistinct | authentication.py:51 | storing keeps every key once |

## Left out

- The network is not modelled. `resolve_username`'s call to the osu! API is a
  `lookup` function parameter (None for any failure). The `get_beatmaps`
  calls are functions in the request environment. The IRC connection of
  `send_osu_message` is an `outbox` of the lines it would send.
  `request_oauth` in both credential classes posts to Twitch and is not
  part of this model.
- Names defined outside the core are parameters:
  - `MODULE_MENTION_REGEX`'s `findall` is `mentions` / `found`;
  - `VALID_COMMAND_REGEX` is a string;
  - `NO_MESSAGE_SIGNAL` is the reply `Silent`;
  - the command engine `command_modify` is a function returning its verdict and the new registry;
  - `DEFAULT_AUTHFILE` is a constructor argument;
  - a module's `help()` text is the map `modules`;
  - `help` calls `self.module_re.findall`, an attribute set outside
    `modules/help.py`; the model assumes it is the compiled
    `MODULE_MENTION_REGEX` that the file binds to `MODULE_RE`.
- `get_args`, `cfg_get` and `cfg_set` of `BaseModule` are not part of this
  model. The request module keeps its configuration in fields, and `cfg_set('submode', …)`
  is the field update.
- `write_config` of the bot is counted (`writes`), not performed.
- `round(float(…), 2)` is a function parameter `round2`, since floating point is not modelled.
- `time.time()` is the integer parameter `now`. `main` reads the clock twice,
  for the cooldown test and for the new stamp, with the API call and the
  IRC send in between. Request.Step uses one `now` for both, so the stamp
  is not later than the test as it is in the program.
- Request.Step: the API replies are total functions. An exception from
  `requests.get(...).json()` or from the IRC socket cannot arise. Neither can
  an API reply that is not a list, where `req[0]` raises a KeyError that the
  `except IndexError` does not catch. In the program each of these escapes
  `main` before the cooldown stamp is set.
- `cmdadd`'s settings are assumed to have the types of `DEFAULT_CONFIG`
  (two strings and an integer).
- Logging is left out everywhere.
- `lower`, `upper`, `\w` and `\d` are ASCII-only.
- `int()` accepts an optional sign and decimal digits. Surrounding whitespace
  and underscores are not accepted.
- JSON text is an abstract codec (`dumps`, `loads`). Its exact text, and the
  `indent` and `skipkeys` arguments, are not modelled; the round-trip
  lemmas assume the codec decodes its own output.
- The file system has no permissions and no parent-folder requirement for
  `open` or `mkdir`. Newlines are not translated.
- The `__main__` block and the commented-out `refresh_oauth` of
  `authorization.py` are not part of this model.
- `src/telemetry.py` is not part of this model.
- `Authentication.Authentication.GetAuth` and `Authorization.Authorization.GetAuth` return the dictionary and state nothing further.
- Request.Compose: its contract only rules out the success reply; what it sends is stated by `Request.SentIffCooldownStarts` and the lemmas of `RequestMessage` and `RequestLinks`.
