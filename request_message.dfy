/**
 * The text the request module sends to the streamer over osu! IRC: the
 * table of message options (`&map&`, `&length&`, `&requester&`, ...) and
 * `format_message`, which replaces every option mentioned in the configured
 * format by its value for the requested beatmap.
 */
module RequestMessage {
  import opened Common
  import opened Text

  /** Beatmap ranking statuses, indexed by the API's `approved` code (-2 .. 4). */
  const OsuStatuses: seq<string> :=
    ["Pending", "Ranked", "Approved", "Qualified", "Loved", "Graveyard", "WIP"]

  /** Game modes, indexed by the API's `mode` code. */
  const OsuModes: seq<string> := ["Standard", "Taiko", "CTB", "Mania"]

  /**
   * What the options are evaluated on: the beatmap record returned by the
   * osu! API (field name to field text), plus the entries `main` adds to it,
   * the mods string and the requesting chatter's name and status.
   */
  datatype MapInfo = MapInfo(
    fields: map<string, string>,
    mods: string,
    requester: string,
    requesterStatus: string)

  /**
   * Evaluating one option: its text, a KeyError (an unknown option or a
   * field the record lacks, which `format_message` catches), or another
   * exception, which escapes.
   */
  datatype Eval = Value(text: string) | Missing | Fails(error: PyError)

  /** `xs[i]` with Python's negative indices counting from the end; None is IndexError. */
  function PyIndex<T>(xs: seq<T>, i: int): Option<T> {
    if 0 <= i < |xs| then Some(xs[i])
    else if -|xs| <= i < 0 then Some(xs[|xs| + i])
    else None
  }

  /** Python's `int(a / b)` for b > 0: true division, then truncation toward zero. */
  function TruncDiv(a: int, b: int): int
    requires b > 0
  {
    if a >= 0 then a / b else -((-a) / b)
  }

  /** The `length` option: minutes (truncated), a colon, seconds (Python's floored `%`). */
  function LengthText(total: int): string {
    IntToStr(TruncDiv(total, 60)) + ":" + IntToStr(total % 60)
  }

  /** A field of the record, KeyError when it is absent. */
  function Field(m: MapInfo, k: string): Eval {
    if k in m.fields then Value(m.fields[k]) else Missing
  }

  /** `table[int(m[k])]`, as the `mapstatus` and `gamemode` options compute it. */
  function Indexed(table: seq<string>, m: MapInfo, k: string): Eval {
    if k !in m.fields then Missing
    else match ParseInt(m.fields[k])
      case None => Fails(ValueError)
      case Some(i) =>
        match PyIndex(table, i)
        case None => Fails(IndexError)
        case Some(s) => Value(s)
  }

  /** `str(round(float(m[k]), 2))`, the rounding being given as `round2` (None: ValueError). */
  function Rounded(m: MapInfo, k: string, round2: string -> Option<string>): Eval {
    if k !in m.fields then Missing
    else match round2(m.fields[k])
      case None => Fails(ValueError)
      case Some(s) => Value(s)
  }

  /** The option names that `OptionValue` knows. */
  const OptionKeys: set<string> := {
    "map", "mapid", "mapsetid", "mapstatus", "creator", "creatorid",
    "creatorname", "length", "bpm", "stars", "cs", "od", "ar", "hp",
    "gamemode", "song", "songartist", "songartistunicode", "songtitle",
    "songtitleunicode", "songsource", "requester", "requesterstatus", "mods"}

  /** `str(MESSAGE_OPTIONS[key](map))` */
  function OptionValue(key: string, m: MapInfo, round2: string -> Option<string>): Eval {
    var f := m.fields;
    if key == "map" then
      if "beatmap_id" in f && "artist" in f && "title" in f && "version" in f then
        Value("[https://osu.ppy.sh/b/" + f["beatmap_id"] + " " + f["artist"] + " - "
              + f["title"] + " [" + f["version"] + "]]")
      else Missing
    else if key == "mapid" then Field(m, "beatmap_id")
    else if key == "mapsetid" then Field(m, "beatmapset_id")
    else if key == "mapstatus" then Indexed(OsuStatuses, m, "approved")
    else if key == "creator" then
      if "creator_id" in f && "creator" in f then
        Value("[https://osu.ppy.sh/users/" + f["creator_id"] + " " + f["creator"] + "]")
      else Missing
    else if key == "creatorid" then Field(m, "creator_id")
    else if key == "creatorname" then Field(m, "creator")
    else if key == "length" then
      if "total_length" !in f then Missing
      else match ParseInt(f["total_length"])
        case None => Fails(ValueError)
        case Some(t) => Value(LengthText(t))
    else if key == "bpm" then Rounded(m, "bpm", round2)
    else if key == "stars" then Rounded(m, "difficultyrating", round2)
    else if key == "cs" then Field(m, "diff_size")
    else if key == "od" then Field(m, "diff_overall")
    else if key == "ar" then Field(m, "diff_approach")
    else if key == "hp" then Field(m, "diff_drain")
    else if key == "gamemode" then Indexed(OsuModes, m, "mode")
    else if key == "song" then
      if "artist" in f && "title" in f then Value(f["artist"] + " - " + f["title"]) else Missing
    else if key == "songartist" then Field(m, "artist")
    else if key == "songartistunicode" then Field(m, "artist_unicode")
    else if key == "songtitle" then Field(m, "title")
    else if key == "songtitleunicode" then Field(m, "title_unicode")
    else if key == "songsource" then Field(m, "source")
    else if key == "requester" then Value(m.requester)
    else if key == "requesterstatus" then Value(m.requesterStatus)
    else if key == "mods" then Value(m.mods)
    else Missing
  }

  /** The placeholder an option is written as in the format: the name between ampersands. */
  function Token(key: string): (t: string)
    ensures |t| == |key| + 2 && t[0] == '&' && t[|t| - 1] == '&'
  {
    "&" + key + "&"
  }

  /**
   * `format_message`: the options found in the format (in order, as the
   * mention pattern finds them) are evaluated by `eval` and applied one after
   * the other; a KeyError leaves the message as it is, any other exception
   * ends the formatting.  The module evaluates with `Options(m, round2)`.
   */
  function Format(format: string, found: seq<string>, eval: string -> Eval): Result<string>
    decreases |found|
  {
    if found == [] then Ok(format)
    else
      match Format(format, found[..|found| - 1], eval)
      case Err(e) => Err(e)
      case Ok(msg) =>
        var key := found[|found| - 1];
        match eval(key)
        case Value(v) => Ok(ReplaceAll(msg, Token(key), v))
        case Missing => Ok(msg)
        case Fails(e) => Err(e)
  }

  /** `MESSAGE_OPTIONS` applied to one beatmap record. */
  function Options(m: MapInfo, round2: string -> Option<string>): string -> Eval {
    key => OptionValue(key, m, round2)
  }

  /** `format_message` as the loop it is. */
  method FormatMessage(format: string, found: seq<string>, eval: string -> Eval)
    returns (r: Result<string>)
    ensures r == Format(format, found, eval)
  {
    var message := format;
    assert found[..0] == [];
    for i := 0 to |found|
      invariant Format(format, found[..i], eval) == Ok(message)
    {
      assert found[..i + 1][..i] == found[..i];
      var key := found[i];
      var v := eval(key);
      match v {
        case Value(t) =>
          message := ReplaceAll(message, Token(key), t);
        case Missing =>
        case Fails(e) =>
          FormatErrorPersists(format, found, i + 1, eval);
          return Err(e);
      }
    }
    assert found[..|found|] == found;
    return Ok(message);
  }

  // ------------------------------------------------------------ lemmas

  /** Once an option has raised, the options after it change nothing. */
  lemma {:induction false} FormatErrorPersists(format: string, found: seq<string>, i: nat, eval: string -> Eval)
    requires i <= |found| && Format(format, found[..i], eval).Err?
    ensures Format(format, found, eval) == Format(format, found[..i], eval)
    decreases |found| - i
  {
    if i < |found| {
      assert found[..i + 1][..i] == found[..i];
      FormatErrorPersists(format, found, i + 1, eval);
    } else {
      assert found[..i] == found;
    }
  }

  /** A format whose options all raise KeyError comes out unchanged. */
  lemma {:induction false} FormatWithoutKnownOptions(format: string, found: seq<string>, eval: string -> Eval)
    requires forall k :: k in found ==> eval(k) == Missing
    ensures Format(format, found, eval) == Ok(format)
    decreases |found|
  {
    if found != [] {
      FormatWithoutKnownOptions(format, found[..|found| - 1], eval);
      assert found[|found| - 1] in found;
    }
  }

  /** Formatting raises exactly when one of the found options raises something other than KeyError. */
  lemma {:induction false} FormatRaisesIff(format: string, found: seq<string>, eval: string -> Eval)
    ensures Format(format, found, eval).Err?
        <==> exists i :: 0 <= i < |found| && eval(found[i]).Fails?
    decreases |found|
  {
    if found != [] {
      var front := found[..|found| - 1];
      FormatRaisesIff(format, front, eval);
      if exists i :: 0 <= i < |found| && eval(found[i]).Fails? {
        var i :| 0 <= i < |found| && eval(found[i]).Fails?;
        if i < |front| {
          assert front[i] == found[i];
        }
      } else {
        forall i | 0 <= i < |front|
          ensures !eval(front[i]).Fails?
        {
          assert front[i] == found[i];
        }
      }
    }
  }

  /**
   * One placeholder in a format free of other ampersands is replaced by the
   * option's value, and the text around it is kept.
   */
  lemma FormatOnePlaceholder(a: string, key: string, b: string, eval: string -> Eval, v: string)
    requires '&' !in a && '&' !in b
    requires eval(key) == Value(v)
    ensures Format(a + Token(key) + b, [key], eval) == Ok(a + v + b)
  {
    var tok := Token(key);
    assert [key][..0] == [];
    SplitAfterPiece(a, tok, b);
    SplitWithoutSeparator(b, tok);
    ReplaceIsJoinOfSplit(a + tok + b, tok, v);
    assert Join([a, b], v) == a + v + Join([b], v);
  }

  /** Only the names of `OptionKeys` have a value; any other placeholder is a KeyError. */
  lemma UnknownOptionIsMissing(key: string, m: MapInfo, round2: string -> Option<string>)
    requires key !in OptionKeys
    ensures OptionValue(key, m, round2) == Missing
  {
  }

  /** The options that `main` itself supplies never fail. */
  lemma RequestOptionsAlwaysDefined(m: MapInfo, round2: string -> Option<string>)
    ensures OptionValue("requester", m, round2) == Value(m.requester)
    ensures OptionValue("requesterstatus", m, round2) == Value(m.requesterStatus)
    ensures OptionValue("mods", m, round2) == Value(m.mods)
  {
  }

  /** A negative index counts from the end of the list. */
  lemma PyIndexFromEnd<T>(xs: seq<T>, i: int)
    requires 0 <= i < |xs|
    ensures PyIndex(xs, i - |xs|) == PyIndex(xs, i) == Some(xs[i])
  {
  }

  /** The API's status codes -2 and -1 name the last two statuses, Graveyard and WIP. */
  lemma StatusCodes(m: MapInfo, round2: string -> Option<string>)
    requires "approved" in m.fields
    ensures m.fields["approved"] == "-2" ==> OptionValue("mapstatus", m, round2) == Value("Graveyard")
    ensures m.fields["approved"] == "-1" ==> OptionValue("mapstatus", m, round2) == Value("WIP")
    ensures m.fields["approved"] == "1" ==> OptionValue("mapstatus", m, round2) == Value("Ranked")
    ensures m.fields["approved"] == "4" ==> OptionValue("mapstatus", m, round2) == Value("Loved")
  {
    assert DigitsValue("2") == 2;
    assert DigitsValue("1") == 1;
    assert DigitsValue("4") == 4;
  }

  lemma NoColonInNat(n: nat)
    ensures ':' !in NatToStr(n)
  {
    var s := NatToStr(n);
    forall i | 0 <= i < |s|
      ensures s[i] != ':'
    {
      assert IsDigit(s[i]);
    }
  }

  /**
   * The length text splits at its colon into the whole minutes and the
   * remaining seconds, both written without zero padding.
   */
  lemma LengthReadsBack(total: nat)
    ensures var parts := Split(LengthText(total), ":");
      |parts| == 2
      && Unpadded(parts[0]) && Unpadded(parts[1])
      && ParseInt(parts[0]) == Some(total / 60)
      && ParseInt(parts[1]) == Some(total % 60)
      && 60 * (total / 60) + total % 60 == total && total % 60 < 60
  {
    var q, r := NatToStr(total / 60), NatToStr(total % 60);
    NoColonInNat(total / 60);
    NoColonInNat(total % 60);
    SplitAfterPiece(q, ":", r);
    SplitWithoutSeparator(r, ":");
    IntRoundTrip(total / 60);
    IntRoundTrip(total % 60);
  }

  /** Seconds below ten are not padded: 125 seconds show as `2:5`. */
  lemma LengthWithoutPadding()
    ensures LengthText(125) == "2:5"
  {
    assert TruncDiv(125, 60) == 2 && 125 % 60 == 5;
  }

  /**
   * A negative total under a minute shows as zero minutes and the floored
   * remainder: the minutes truncate toward zero while `%` floors.
   */
  lemma LengthOfNegativeTotal(total: int)
    requires -60 < total < 0
    ensures LengthText(total) == "0:" + NatToStr(total + 60)
  {
    assert TruncDiv(total, 60) == 0;
    assert total % 60 == total + 60;
  }
}
