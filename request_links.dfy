/**
 * How the request module finds the beatmap a chatter asked for: the three
 * link patterns (a difficulty inside a mapset page, a short beatmap link, a
 * mapset page), tried in that order on the lowercased request, and, for a
 * mapset, the choice of its top difficulty after the API's answer is sorted
 * by star rating.
 */
module RequestLinks {
  import opened Common
  import opened Text

  /** The site prefix of every pattern; each '.' in it is the regex wildcard. */
  const Site: string := "https://osu.ppy.sh/"

  /** What a request names: one beatmap (difficulty), a whole mapset, or nothing usable. */
  datatype Link = Beatmap(id: string) | Beatmapset(id: string) | Unresolved

  /** `s` begins with text matched by `pat`, where '.' matches any character but a newline. */
  predicate MatchesAt(s: string, pat: string) {
    |pat| <= |s| && forall i :: 0 <= i < |pat| ==> if pat[i] == '.' then s[i] != '\n' else s[i] == pat[i]
  }

  /** `[\w#]` over ASCII: letters, digits, `_` and `#`. */
  predicate IsWordOrHash(c: char) {
    'a' <= c <= 'z' || 'A' <= c <= 'Z' || IsDigit(c) || c == '_' || c == '#'
  }

  /**
   * `(\d+)$` on what is left: one or more digits, then the end of the text or
   * a final newline before it; the digits are the captured id.
   */
  function DigitsToEnd(rest: string): (r: Option<string>)
    ensures r.Some? ==> r.value != [] && AllDigits(r.value) && '/' !in rest
  {
    if |rest| > 0 && AllDigits(rest) then Some(rest)
    else if |rest| > 1 && rest[|rest| - 1] == '\n' && AllDigits(rest[..|rest| - 1]) then
      assert forall i :: 0 <= i < |rest| ==> rest[i] != '/' by {
        forall i | 0 <= i < |rest| ensures rest[i] != '/' {
          if i < |rest| - 1 {
            assert rest[i] == rest[..|rest| - 1][i];
          }
        }
      }
      Some(rest[..|rest| - 1])
    else None
  }

  /** `OSU_BEATMAPSETID_RE`: `beatmapsets/<[\w#]+>/<digits>`, capturing the beatmap id. */
  function MatchSetDifficulty(s: string): Option<string> {
    var pre := Site + "beatmapsets/";
    if !MatchesAt(s, pre) then None
    else
      var parts := Split(s[|pre|..], "/");
      if |parts| == 2 && |parts[0]| > 0 && (forall i :: 0 <= i < |parts[0]| ==> IsWordOrHash(parts[0][i])) then
        DigitsToEnd(parts[1])
      else None
  }

  /** `OSU_B_RE`: `b/<digits>` or `beatmaps/<digits>`, capturing the beatmap id. */
  function MatchBeatmap(s: string): Option<string> {
    if MatchesAt(s, Site + "beatmaps/") then DigitsToEnd(s[|Site| + 9..])
    else if MatchesAt(s, Site + "b/") then DigitsToEnd(s[|Site| + 2..])
    else None
  }

  /** `OSU_BEATMAPSET_RE`: `beatmapsets/<digits>`, capturing the mapset id. */
  function MatchBeatmapset(s: string): Option<string> {
    var pre := Site + "beatmapsets/";
    if MatchesAt(s, pre) then DigitsToEnd(s[|pre|..]) else None
  }

  /**
   * The two beatmap patterns are tried first, in list order, and the mapset
   * pattern only when neither matched.
   */
  function Classify(req: string): Link {
    match MatchSetDifficulty(req)
    case Some(id) => Beatmap(id)
    case None =>
      match MatchBeatmap(req)
      case Some(id) => Beatmap(id)
      case None =>
        match MatchBeatmapset(req)
        case Some(id) => Beatmapset(id)
        case None => Unresolved
  }

  // ------------------------------------------------- top difficulty

  const Rating: string := "difficultyrating"

  predicate AllRated(maps: seq<map<string, string>>) {
    forall i :: 0 <= i < |maps| ==> Rating in maps[i]
  }

  /**
   * The first element of the records after a stable sort on their rating
   * text, highest first: the first record whose rating no other exceeds.
   */
  function Highest(maps: seq<map<string, string>>): (r: map<string, string>)
    requires |maps| > 0 && AllRated(maps)
    ensures Rating in r
  {
    if |maps| == 1 then maps[0]
    else
      var h := Highest(maps[1..]);
      if StrLess(maps[0][Rating], h[Rating]) then h else maps[0]
  }

  /**
   * `req.sort(key=lambda r: r['difficultyrating'], reverse=True)` followed by
   * `req[0]`: a KeyError if any record lacks a rating, None (IndexError) for
   * an empty answer.
   */
  function TopDifficulty(maps: seq<map<string, string>>): Result<Option<map<string, string>>> {
    if !AllRated(maps) then Err(KeyError(Rating))
    else if maps == [] then Ok(None)
    else Ok(Some(Highest(maps)))
  }

  // ------------------------------------------------------------ lemmas

  /**
   * The record chosen is one of them, its rating is not below any other's,
   * and every record before it rates strictly lower (the sort is stable).
   */
  lemma {:induction false} HighestIsFirstMaximum(maps: seq<map<string, string>>) returns (i: nat)
    requires |maps| > 0 && AllRated(maps)
    ensures i < |maps| && maps[i] == Highest(maps)
    ensures forall j :: 0 <= j < |maps| ==> !StrLess(Highest(maps)[Rating], maps[j][Rating])
    ensures forall j :: 0 <= j < i ==> StrLess(maps[j][Rating], Highest(maps)[Rating])
  {
    if |maps| == 1 {
      i := 0;
      StrLessAsymmetric(maps[0][Rating], maps[0][Rating]);
    } else {
      var tail := maps[1..];
      assert AllRated(tail) by {
        forall j | 0 <= j < |tail| ensures Rating in tail[j] {
          assert tail[j] == maps[j + 1];
        }
      }
      var k := HighestIsFirstMaximum(tail);
      var h := Highest(tail);
      var first := maps[0][Rating];
      if StrLess(first, h[Rating]) {
        i := k + 1;
        forall j | 0 <= j < |maps|
          ensures !StrLess(h[Rating], maps[j][Rating])
        {
          if j == 0 {
            StrLessAsymmetric(first, h[Rating]);
          } else {
            assert maps[j] == tail[j - 1];
          }
        }
        forall j | 0 <= j < i
          ensures StrLess(maps[j][Rating], h[Rating])
        {
          if j > 0 {
            assert maps[j] == tail[j - 1];
          }
        }
      } else {
        i := 0;
        forall j | 0 <= j < |maps|
          ensures !StrLess(first, maps[j][Rating])
        {
          var r := maps[j][Rating];
          if j == 0 {
            StrLessAsymmetric(first, first);
          } else {
            assert maps[j] == tail[j - 1];
            assert !StrLess(h[Rating], r);
            StrLessTotal(first, h[Rating]);
            if StrLess(first, r) {
              if first == h[Rating] {
              } else {
                StrLessTransitive(h[Rating], first, r);
              }
            }
          }
        }
      }
    }
  }

  /** A mapset answer is refused exactly when one of its records has no rating. */
  lemma TopDifficultyRaisesIff(maps: seq<map<string, string>>)
    ensures TopDifficulty(maps).Err? <==> exists i :: 0 <= i < |maps| && Rating !in maps[i]
  {
  }

  lemma NoSlashInDigits(n: string)
    requires AllDigits(n)
    ensures '/' !in n
  {
    forall i | 0 <= i < |n| ensures n[i] != '/' {
      assert IsDigit(n[i]);
    }
  }

  lemma MatchesSitePrefix(s: string, path: string)
    ensures MatchesAt(Site + path + s, Site + path)
  {
    var t := Site + path + s;
    assert forall i :: 0 <= i < |Site + path| ==> t[i] == (Site + path)[i];
  }

  /** A text that matches the site and a path holds each path character at its place. */
  lemma PathChar(s: string, path: string, j: nat)
    requires MatchesAt(s, Site + path) && j < |path| && path[j] != '.'
    ensures s[|Site| + j] == path[j]
  {
    assert (Site + path)[|Site| + j] == path[j];
  }

  lemma NotMatchingAt(s: string, pat: string, i: nat)
    requires i < |pat| && i < |s| && pat[i] != '.' && s[i] != pat[i]
    ensures !MatchesAt(s, pat)
  {
  }

  /** `https://osu.ppy.sh/b/<id>` names that beatmap. */
  lemma ClassifyShortLink(n: string)
    requires n != [] && AllDigits(n)
    ensures Classify(Site + "b/" + n) == Beatmap(n)
  {
    var s := Site + "b/" + n;
    MatchesSitePrefix(n, "b/");
    assert s[|Site| + 2..] == n;
    assert s[|Site| + 1] == '/';
    NotMatchingAt(s, Site + "beatmapsets/", |Site| + 1);
    NotMatchingAt(s, Site + "beatmaps/", |Site| + 1);
  }

  /** `https://osu.ppy.sh/beatmaps/<id>` names that beatmap. */
  lemma ClassifyBeatmapsLink(n: string)
    requires n != [] && AllDigits(n)
    ensures Classify(Site + "beatmaps/" + n) == Beatmap(n)
  {
    var s := Site + "beatmaps/" + n;
    MatchesSitePrefix(n, "beatmaps/");
    assert s[|Site| + 9..] == n;
    assert s[|Site| + 8] == '/';
    NotMatchingAt(s, Site + "beatmapsets/", |Site| + 8);
  }

  /** `https://osu.ppy.sh/beatmapsets/<id>` names that mapset. */
  lemma ClassifySetLink(n: string)
    requires n != [] && AllDigits(n)
    ensures Classify(Site + "beatmapsets/" + n) == Beatmapset(n)
  {
    var s := Site + "beatmapsets/" + n;
    var pre := Site + "beatmapsets/";
    MatchesSitePrefix(n, "beatmapsets/");
    assert s[|pre|..] == n;
    NoSlashInDigits(n);
    SplitWithoutSeparator(n, "/");
    PathChar(s, "beatmapsets/", 1);
    PathChar(s, "beatmapsets/", 8);
    NotMatchingAt(s, Site + "beatmaps/", |Site| + 8);
    NotMatchingAt(s, Site + "b/", |Site| + 1);
  }

  /**
   * A difficulty link inside a mapset page names the difficulty, not the
   * mapset: `https://osu.ppy.sh/beatmapsets/<mapset>#<mode>/<id>`.
   */
  lemma ClassifyDifficultyLink(setId: string, mode: string, n: string)
    requires setId != [] && AllDigits(setId) && forall i :: 0 <= i < |mode| ==> IsWordOrHash(mode[i])
    requires n != [] && AllDigits(n)
    ensures Classify(Site + "beatmapsets/" + setId + "#" + mode + "/" + n) == Beatmap(n)
  {
    SetDifficultyMatches(setId, mode, n);
  }

  lemma SetDifficultyMatches(setId: string, mode: string, n: string)
    requires setId != [] && AllDigits(setId) && forall i :: 0 <= i < |mode| ==> IsWordOrHash(mode[i])
    requires n != [] && AllDigits(n)
    ensures MatchSetDifficulty(Site + "beatmapsets/" + setId + "#" + mode + "/" + n) == Some(n)
  {
    var pre := Site + "beatmapsets/";
    var x := setId + "#" + mode;
    var s := pre + x + "/" + n;
    assert s == Site + "beatmapsets/" + setId + "#" + mode + "/" + n;
    MatchesSitePrefix(x + "/" + n, "beatmapsets/");
    assert s[|pre|..] == x + "/" + n;
    ModePiece(setId, mode);
    NoSlashInDigits(n);
    SplitAfterPiece(x, "/", n);
    SplitWithoutSeparator(n, "/");
  }

  /** `<mapset>#<mode>` is made of `[\w#]` characters, none of them a slash. */
  lemma ModePiece(setId: string, mode: string)
    requires AllDigits(setId) && forall i :: 0 <= i < |mode| ==> IsWordOrHash(mode[i])
    ensures var x := setId + "#" + mode; forall i :: 0 <= i < |x| ==> IsWordOrHash(x[i]) && x[i] != '/'
  {
    var x := setId + "#" + mode;
    forall i | 0 <= i < |x| ensures IsWordOrHash(x[i]) && x[i] != '/' {
      if i < |setId| {
        assert x[i] == setId[i];
      } else if i > |setId| {
        assert x[i] == mode[i - |setId| - 1];
      }
    }
  }

  /**
   * No request matches both a beatmap pattern and the mapset pattern, so the
   * order in which the module tries them never changes the outcome.
   */
  lemma BeatmapAndSetPatternsExclusive(s: string)
    ensures MatchBeatmapset(s).Some? ==> MatchSetDifficulty(s).None? && MatchBeatmap(s).None?
  {
    var pre := Site + "beatmapsets/";
    if MatchBeatmapset(s).Some? {
      var rest := s[|pre|..];
      assert '/' !in rest;
      SplitWithoutSeparator(rest, "/");
      PathChar(s, "beatmapsets/", 1);
      PathChar(s, "beatmapsets/", 8);
      NotMatchingAt(s, Site + "beatmaps/", |Site| + 8);
      NotMatchingAt(s, Site + "b/", |Site| + 1);
    }
  }
}
