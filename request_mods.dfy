/**
 * The mods argument of the osu! `request` module: the user writes something
 * like `+HDDT`, `hd,dt` or `HDHDXX`, and the module turns it into the
 * canonical `+HD,DT,` form, keeping only real osu! mods, each once, in the
 * order they were written.
 */
module RequestMods {
  import opened Text

  /** Every mod the module accepts. */
  const OsuMods: seq<string> :=
    ["EZ", "NF", "HT", "HR", "SD", "PF", "DT", "NC", "HD", "FL", "RX", "AP", "SO", "V2"]

  predicate IsModChar(c: char) {
    'A' <= c <= 'Z' || '0' <= c <= '9'
  }

  /** Two upper-case letters or digits (so never a `+` or a `,`). */
  predicate IsModToken(m: string) {
    |m| == 2 && IsModChar(m[0]) && IsModChar(m[1])
  }

  /** `mod in OSU_MODS`, decided on the two characters (see IsOsuModIsMembership). */
  predicate IsOsuMod(m: string) {
    |m| == 2 && IsOsuModPair(m[0], m[1])
  }

  predicate IsOsuModPair(a: char, b: char) {
    || (a == 'E' && b == 'Z') || (a == 'N' && b == 'F') || (a == 'H' && b == 'T') || (a == 'H' && b == 'R')
    || (a == 'S' && b == 'D') || (a == 'P' && b == 'F') || (a == 'D' && b == 'T') || (a == 'N' && b == 'C')
    || (a == 'H' && b == 'D') || (a == 'F' && b == 'L') || (a == 'R' && b == 'X') || (a == 'A' && b == 'P')
    || (a == 'S' && b == 'O') || (a == 'V' && b == '2')
  }

  /** The character test is exactly membership in the mod table. */
  lemma IsOsuModIsMembership(m: string)
    ensures IsOsuMod(m) <==> m in OsuMods
  {
    if IsOsuMod(m) {
      assert m == [m[0], m[1]];
    }
  }

  lemma OsuModsAreTokens()
    ensures forall m :: IsOsuMod(m) ==> IsModToken(m)
  {

  }

  /** The leading `+` is dropped, if there is one. */
  function StripPlus(s: string): string {
    if StartsWith(s, "+") then s[1..] else s
  }

  /** `[s[i:i+2] for i in range(0, len(s), 2)]`: pairs, the last one possibly a single character. */
  function Chunks(s: string): (r: seq<string>)
    decreases |s|
  {
    if |s| == 0 then []
    else if |s| <= 2 then [s]
    else [s[..2]] + Chunks(s[2..])
  }

  /**
   * The mods kept from the chunks, in the order the loop meets them: a chunk is
   * kept when it is a mod and has not been kept before.
   */
  function Accept(chunks: seq<string>): seq<string>
    decreases |chunks|
  {
    if chunks == [] then []
    else
      var acc := Accept(chunks[..|chunks| - 1]);
      var m := chunks[|chunks| - 1];
      if IsOsuMod(m) && m !in acc then acc + [m] else acc
  }

  /** The mods kept from the user's argument. */
  function AcceptedMods(mods: string): seq<string> {
    Accept(Chunks(ReplaceAll(StripPlus(mods), ",", "")))
  }

  /** `m1,m2,...,mk,`: every mod followed by a comma. */
  function ModList(acc: seq<string>): string
    decreases |acc|
  {
    if acc == [] then "" else ModList(acc[..|acc| - 1]) + acc[|acc| - 1] + ","
  }

  /** What `generate_mods_string` returns. */
  function ModsString(mods: string): string {
    var acc := AcceptedMods(mods);
    if acc == [] then "" else "+" + ModList(acc)
  }

  /** All mods, no repetitions. */
  predicate ValidModList(acc: seq<string>) {
    && (forall k :: 0 <= k < |acc| ==> IsOsuMod(acc[k]))
    && (forall i, j :: 0 <= i < j < |acc| ==> acc[i] != acc[j])
  }

  // ------------------------------------------------------------ the loop

  /**
   * `generate_mods_string`: strip one leading `+`, delete every comma, cut into
   * pairs, keep the new mods, and give `''` when none was kept.
   */
  method GenerateModsString(mods: string) returns (r: string)
    ensures r == ModsString(mods)
  {
    var s := mods;
    if StartsWith(s, "+") {
      s := s[1..];
    }
    s := ReplaceAll(s, ",", "");
    var modstring := CollectMods(Chunks(s));
    ModListLength(AcceptedMods(mods));
    if modstring == "+" {
      return "";
    }
    return modstring;
  }

  /**
   * The loop of `generate_mods_string`: append each new mod and a comma to
   * `+`.  The duplicate test is the source's substring test on the string
   * built so far, not a test on a list of mods.
   */
  method CollectMods(chunks: seq<string>) returns (modstring: string)
    ensures modstring == "+" + ModList(Accept(chunks))
  {
    modstring := "+";
    assert chunks[..0] == [];
    for i := 0 to |chunks|
      invariant modstring == "+" + ModList(Accept(chunks[..i]))
    {
      var mod := chunks[i];
      CollectStep(chunks, i);
      if IsOsuMod(mod) && !Contains(modstring, mod) {
        modstring := modstring + mod + ",";
      }
    }
    assert chunks[..|chunks|] == chunks;
  }

  /** One turn of the loop of `CollectMods`, where the substring test decides. */
  lemma CollectStep(chunks: seq<string>, i: nat)
    requires i < |chunks|
    ensures var mod, s := chunks[i], "+" + ModList(Accept(chunks[..i]));
      "+" + ModList(Accept(chunks[..i + 1])) == if IsOsuMod(mod) && !Contains(s, mod) then s + mod + "," else s
  {
    var mod, acc := chunks[i], Accept(chunks[..i]);
    AcceptSnoc(chunks, i);
    if IsOsuMod(mod) {
      AcceptIsValid(chunks[..i]);
      SeenIffListed(acc, mod);
      if mod !in acc {
        ModListSnoc(acc, mod);
      }
    }
  }

  lemma AcceptSnoc(chunks: seq<string>, i: nat)
    requires i < |chunks|
    ensures Accept(chunks[..i + 1]) ==
      if IsOsuMod(chunks[i]) && chunks[i] !in Accept(chunks[..i])
      then Accept(chunks[..i]) + [chunks[i]] else Accept(chunks[..i])
  {
    assert chunks[..i + 1][..i] == chunks[..i];
  }

  lemma ModListSnoc(acc: seq<string>, m: string)
    ensures ModList(acc + [m]) == ModList(acc) + m + ","
  {
    assert (acc + [m])[..|acc|] == acc;
  }

  // ------------------------------------------------------------ lemmas

  lemma AcceptStepValid(chunks: seq<string>, i: nat)
    requires i < |chunks| && ValidModList(Accept(chunks[..i]))
    ensures ValidModList(Accept(chunks[..i + 1]))
  {
    AcceptSnoc(chunks, i);
  }

  /** The kept mods are real mods and none is kept twice. */
  lemma {:induction false} AcceptIsValid(chunks: seq<string>)
    ensures ValidModList(Accept(chunks))
    decreases |chunks|
  {
    if chunks != [] {
      AcceptIsValid(chunks[..|chunks| - 1]);
      AcceptStepValid(chunks, |chunks| - 1);
      assert chunks[..|chunks|] == chunks;
    }
  }

  /** A mod is kept exactly when it is one of the chunks. */
  lemma {:induction false} AcceptMembership(chunks: seq<string>, m: string)
    ensures m in Accept(chunks) <==> m in chunks && IsOsuMod(m)
    decreases |chunks|
  {
    if chunks != [] {
      var front := chunks[..|chunks| - 1];
      AcceptMembership(front, m);
      assert chunks == front + [chunks[|chunks| - 1]];
    }
  }

  /** The kept mods appear in the order of the chunks. */
  lemma {:induction false} AcceptKeepsOrder(chunks: seq<string>)
    ensures IsSubsequence(Accept(chunks), chunks)
    decreases |chunks|
  {
    if chunks != [] {
      var front := chunks[..|chunks| - 1];
      AcceptKeepsOrder(front);
      var acc := Accept(front);
      var m := chunks[|chunks| - 1];
      if IsOsuMod(m) && m !in acc {
        assert (acc + [m])[..|acc|] == acc;
      } else {
        SubsequenceExtend(acc, front, m);
      }
    }
  }

  /** Every chunk is a pair except possibly the last, which is then the single trailing character. */
  lemma {:induction false} ChunkSizes(s: string)
    ensures |Chunks(s)| == (|s| + 1) / 2
    ensures forall k :: 0 <= k < |Chunks(s)| ==> |Chunks(s)[k]| == if 2 * k + 1 == |s| then 1 else 2
    decreases |s|
  {
    if |s| > 2 {
      ChunkSizes(s[2..]);
      var c := Chunks(s);
      assert forall k :: 1 <= k < |c| ==> c[k] == Chunks(s[2..])[k - 1];
    }
  }

  /** A trailing odd character is never kept. */
  lemma TrailingOddNeverAccepted(s: string)
    requires |s| % 2 == 1
    ensures Chunks(s)[|Chunks(s)| - 1] == [s[|s| - 1]]
    ensures Chunks(s)[|Chunks(s)| - 1] !in Accept(Chunks(s))
  {
    ChunkSizes(s);
    ChunksLast(s);
    OsuModsAreTokens();
    AcceptMembership(Chunks(s), Chunks(s)[|Chunks(s)| - 1]);
  }

  lemma {:induction false} ChunksLast(s: string)
    requires |s| % 2 == 1
    ensures Chunks(s) != [] && Chunks(s)[|Chunks(s)| - 1] == [s[|s| - 1]]
    decreases |s|
  {
    if |s| > 2 {
      ChunksLast(s[2..]);
    }
  }

  lemma {:induction false} ModListLength(acc: seq<string>)
    ensures |ModList(acc)| >= |acc|
    decreases |acc|
  {
    if acc != [] {
      ModListLength(acc[..|acc| - 1]);
    }
  }

  lemma {:induction false} ModListTokensLength(acc: seq<string>)
    requires forall k :: 0 <= k < |acc| ==> |acc[k]| == 2
    ensures |ModList(acc)| == 3 * |acc|
    decreases |acc|
  {
    if acc != [] {
      ModListTokensLength(acc[..|acc| - 1]);
    }
  }

  /** The `j`-th group of three characters of `ModList(acc)` is the `j`-th mod and a comma. */
  lemma {:induction false} ModListAt(acc: seq<string>, j: nat)
    requires forall k :: 0 <= k < |acc| ==> |acc[k]| == 2
    requires j < |acc|
    ensures |ModList(acc)| == 3 * |acc|
    ensures ModList(acc)[3 * j..3 * j + 3] == acc[j] + ","
    decreases |acc|
  {
    var front := acc[..|acc| - 1];
    ModListTokensLength(acc);
    ModListTokensLength(front);
    var l := ModList(acc);
    assert l == ModList(front) + acc[|acc| - 1] + ",";
    if j < |front| {
      ModListAt(front, j);
      assert acc[j] == front[j];
      assert l[3 * j..3 * j + 3] == ModList(front)[3 * j..3 * j + 3];
    } else {
      assert l[3 * j..3 * j + 3] == acc[|acc| - 1] + ",";
    }
  }

  /** After the `+`, the `j`-th kept mod sits at position 3j + 1. */
  lemma ModAfterPlus(acc: seq<string>, j: nat)
    requires forall k :: 0 <= k < |acc| ==> IsModToken(acc[k])
    requires j < |acc|
    ensures var s := "+" + ModList(acc); 3 * j + 3 <= |s| && s[3 * j + 1..3 * j + 3] == acc[j]
  {
    ModListAt(acc, j);
    var l := ModList(acc);
    var s := "+" + l;
    var p := 3 * j;
    assert s[p + 1..p + 3] == l[p..p + 2];
    assert l[p..p + 2] == l[p..p + 3][..2];
  }

  /** A kept mod occurs in the string. */
  lemma ListedIsSeen(acc: seq<string>, j: nat)
    requires forall k :: 0 <= k < |acc| ==> IsModToken(acc[k])
    requires j < |acc|
    ensures Contains("+" + ModList(acc), acc[j])
  {
    ModAfterPlus(acc, j);
    ContainsAt("+" + ModList(acc), acc[j], 3 * j + 1);
  }

  /** A mod-shaped token found in the string starts at a kept mod's place. */
  lemma SeenIsListed(acc: seq<string>, m: string, i: nat)
    requires forall k :: 0 <= k < |acc| ==> IsModToken(acc[k])
    requires IsModToken(m)
    requires i + 2 <= 1 + |ModList(acc)| && ("+" + ModList(acc))[i..i + 2] == m
    ensures m in acc
  {
    ModListTokensLength(acc);
    var l := ModList(acc);
    var s := "+" + l;
    assert s[i] == m[0] && s[i + 1] == m[1];
    assert i != 0;
    var q := i - 1;
    var j, t := q / 3, q % 3;
    assert q == 3 * j + t && j < |acc|;
    ModListAt(acc, j);
    var g := l[3 * j..3 * j + 3];
    assert g == acc[j] + ",";
    assert l[q] == m[0] && l[q] == g[t];
    if t == 2 {
      assert false;
    } else if t == 1 {
      assert false;
    } else {
      assert acc[j][0] == m[0] && acc[j][1] == l[q + 1] == m[1];
      assert acc[j] == m;
    }
  }

  /**
   * The source's substring test `mod not in modstring` agrees with "the mod is
   * not yet in the list": a mod can only occur in `+m1,m2,...` at a mod's place.
   */
  lemma SeenIffListed(acc: seq<string>, m: string)
    requires ValidModList(acc) && IsOsuMod(m)
    ensures Contains("+" + ModList(acc), m) <==> m in acc
  {
    OsuModsAreTokens();
    assert forall k :: 0 <= k < |acc| ==> IsModToken(acc[k]);
    if m in acc {
      var j :| 0 <= j < |acc| && acc[j] == m;
      ListedIsSeen(acc, j);
    }
    if Contains("+" + ModList(acc), m) {
      var i := ContainsWitness("+" + ModList(acc), m);
      SeenIsListed(acc, m, i);
    }
  }

  /** The output is either empty or `+` followed by each kept mod and a comma: length 1 + 3k. */
  lemma ModsStringShape(mods: string)
    ensures var acc := AcceptedMods(mods); var r := ModsString(mods);
      && (r == "" <==> acc == [])
      && (acc != [] ==>
            && r[0] == '+'
            && |r| == 1 + 3 * |acc|
            && forall j :: 0 <= j < |acc| ==> r[1 + 3 * j..4 + 3 * j] == acc[j] + ",")
  {
    var acc := AcceptedMods(mods);
    AcceptIsValid(Chunks(ReplaceAll(StripPlus(mods), ",", "")));
    OsuModsAreTokens();
    assert forall k :: 0 <= k < |acc| ==> |acc[k]| == 2;
    ModListTokensLength(acc);
    var r := ModsString(mods);
    forall j | 0 <= j < |acc|
      ensures r[1 + 3 * j..4 + 3 * j] == acc[j] + ","
    {
      ModListAt(acc, j);
      assert r[1 + 3 * j..4 + 3 * j] == ModList(acc)[3 * j..3 * j + 3];
    }
  }

  /**
   * What the kept mods are: real mods, each once, exactly those among the
   * chunks, in the order of the chunks.
   */
  lemma AcceptedModsMeaning(mods: string)
    ensures var chunks := Chunks(ReplaceAll(StripPlus(mods), ",", ""));
      && ValidModList(AcceptedMods(mods))
      && IsSubsequence(AcceptedMods(mods), chunks)
      && forall m :: m in AcceptedMods(mods) <==> m in chunks && IsOsuMod(m)
  {
    var chunks := Chunks(ReplaceAll(StripPlus(mods), ",", ""));
    AcceptIsValid(chunks);
    AcceptKeepsOrder(chunks);
    forall m ensures m in AcceptedMods(mods) <==> m in chunks && IsOsuMod(m) {
      AcceptMembership(chunks, m);
    }
  }

  // ---------------------------------------------------------- idempotence

  /** The mods glued together. */
  function Flat(acc: seq<string>): string
    decreases |acc|
  {
    if acc == [] then "" else Flat(acc[..|acc| - 1]) + acc[|acc| - 1]
  }

  /** Deleting a single character distributes over concatenation. */
  lemma {:induction false} DeleteCharAppend(a: string, b: string, c: char)
    ensures ReplaceAll(a + b, [c], "") == ReplaceAll(a, [c], "") + ReplaceAll(b, [c], "")
    decreases |a|
  {
    if a != [] {
      var s := a + b;
      assert s[..1] == [a[0]] && a[..1] == [a[0]];
      assert s[1..] == a[1..] + b;
      DeleteCharAppend(a[1..], b, c);
      if a[0] == c {
        assert ReplaceAll(s, [c], "") == ReplaceAll(s[1..], [c], "");
        assert ReplaceAll(a, [c], "") == ReplaceAll(a[1..], [c], "");
      } else {
        assert ReplaceAll(s, [c], "") == [a[0]] + ReplaceAll(s[1..], [c], "");
        assert ReplaceAll(a, [c], "") == [a[0]] + ReplaceAll(a[1..], [c], "");
      }
    } else {
      assert a + b == b;
    }
  }

  lemma {:induction false} DeleteAbsentChar(s: string, c: char)
    requires c !in s
    ensures ReplaceAll(s, [c], "") == s
    decreases |s|
  {
    if s != [] {
      DeleteAbsentChar(s[1..], c);
      assert [s[0]] + s[1..] == s;
    }
  }

  lemma {:induction false} RemoveCommasOfModList(acc: seq<string>)
    requires forall k :: 0 <= k < |acc| ==> IsModToken(acc[k])
    ensures ReplaceAll(ModList(acc), ",", "") == Flat(acc)
    decreases |acc|
  {
    if acc != [] {
      var front := acc[..|acc| - 1];
      var m := acc[|acc| - 1];
      assert forall k :: 0 <= k < |front| ==> IsModToken(front[k]) by {
        assert forall k :: 0 <= k < |front| ==> front[k] == acc[k];
      }
      RemoveCommasOfModList(front);
      assert ',' !in m by {
        assert IsModToken(m);
      }
      DeleteCharAppend(ModList(front) + m, ",", ',');
      DeleteCharAppend(ModList(front), m, ',');
      DeleteAbsentChar(m, ',');
      assert ReplaceAll(",", ",", "") == "";
    }
  }

  lemma {:induction false} ChunksAppend(a: string, b: string)
    requires |a| % 2 == 0
    ensures Chunks(a + b) == Chunks(a) + Chunks(b)
    decreases |a|
  {
    if a != [] {
      var s := a + b;
      if |s| <= 2 {
        assert b == [] && s == a;
      } else {
        assert s[..2] == a[..2];
        assert s[2..] == a[2..] + b;
        ChunksAppend(a[2..], b);
        assert Chunks(s) == [a[..2]] + Chunks(a[2..]) + Chunks(b);
        if |a| == 2 {
          assert a[..2] == a && a[2..] == [];
          assert Chunks(a) == [a];
        } else {
          assert Chunks(a) == [a[..2]] + Chunks(a[2..]);
        }
      }
    } else {
      assert a + b == b;
    }
  }

  lemma {:induction false} ChunksOfFlat(acc: seq<string>)
    requires forall k :: 0 <= k < |acc| ==> |acc[k]| == 2
    ensures |Flat(acc)| == 2 * |acc| && Chunks(Flat(acc)) == acc
    decreases |acc|
  {
    if acc != [] {
      var front := acc[..|acc| - 1];
      ChunksOfFlat(front);
      ChunksAppend(Flat(front), acc[|acc| - 1]);
      assert acc == front + [acc[|acc| - 1]];
    }
  }

  /** A valid list of mods is kept as it is. */
  lemma {:induction false} AcceptValid(acc: seq<string>)
    requires ValidModList(acc)
    ensures Accept(acc) == acc
    decreases |acc|
  {
    if acc != [] {
      var front := acc[..|acc| - 1];
      AcceptValid(front);
      assert acc == front + [acc[|acc| - 1]];
    }
  }

  /** Feeding the output back in gives the same output, `''` included. */
  lemma ModsStringIdempotent(mods: string)
    ensures ModsString(ModsString(mods)) == ModsString(mods)
  {
    var acc := AcceptedMods(mods);
    if acc == [] {
      assert ModsString(mods) == "";
      assert StripPlus("") == "";
      assert ReplaceAll("", ",", "") == "";
      assert Chunks("") == [];
    } else {
      var r := "+" + ModList(acc);
      AcceptIsValid(Chunks(ReplaceAll(StripPlus(mods), ",", "")));
      OsuModsAreTokens();
      assert StartsWith(r, "+");
      assert StripPlus(r) == ModList(acc);
      assert forall k :: 0 <= k < |acc| ==> IsModToken(acc[k]);
      RemoveCommasOfModList(acc);
      ChunksOfFlat(acc);
      AcceptValid(acc);
      assert AcceptedMods(r) == acc;
    }
  }
}
