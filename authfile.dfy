/**
 * The credentials file both authentication classes read: one `key:value`
 * line per credential.  Each line read from the file loses its last
 * character (taken to be the newline) and is split on ':'; the first two
 * fields are the key and the value, and a later key overrides an earlier one.
 */
module AuthFile {
  import opened Common
  import opened Text
  import opened Dict

  // ------------------------------------------------------------- lines

  /** `a + b + ...` over a list of strings, as `writelines` writes them. */
  function Concat(xs: seq<string>): string {
    if xs == [] then "" else xs[0] + Concat(xs[1..])
  }

  /** Each string with a newline after it. */
  function Terminated(xs: seq<string>): (ys: seq<string>)
    ensures |ys| == |xs|
  {
    if xs == [] then [] else [xs[0] + "\n"] + Terminated(xs[1..])
  }

  /** The lines of the pieces between newlines; an empty last piece is no line. */
  function LinesOf(pieces: seq<string>): seq<string>
    requires |pieces| >= 1
  {
    if |pieces| == 1 then (if pieces[0] == "" then [] else [pieces[0]])
    else [pieces[0] + "\n"] + LinesOf(pieces[1..])
  }

  /** `readlines`: each line keeps its newline; the last line may have none. */
  function ReadLines(text: string): seq<string> {
    LinesOf(Split(text, "\n"))
  }

  // ------------------------------------------------------------ parsing

  /** One line: the last character dropped, split on ':'; fewer than two fields is the IndexError. */
  function ParseLine(line: string): (r: Result<(string, string)>)
    ensures r.Ok? <==> ':' in (if line == "" then "" else line[..|line| - 1])
  {
    var stripped := if line == "" then "" else line[..|line| - 1];
    var fields := Split(stripped, ":");
    SplitWithColonIff(stripped);
    if |fields| < 2 then Err(IndexError) else Ok((fields[0], fields[1]))
  }

  lemma SplitWithColonIff(s: string)
    ensures |Split(s, ":")| >= 2 <==> ':' in s
  {
    if ':' !in s {
      SplitWithoutSeparator(s, ":");
    } else {
      SplitThenJoin(s, ":");
      if |Split(s, ":")| < 2 {
        assert Join(Split(s, ":"), ":") == Split(s, ":")[0];
        SplitPiecesHaveNoSeparator(s);
      }
    }
  }

  /** When a split gives one piece, the separator character never occurs. */
  lemma {:induction false} SplitPiecesHaveNoSeparator(s: string)
    requires |Split(s, ":")| == 1
    ensures ':' !in Split(s, ":")[0]
    decreases |s|
  {
    if |s| >= 1 && s[..1] != ":" {
      SplitPiecesHaveNoSeparator(s[1..]);
    }
  }

  /** What reading the lines leaves: the credentials so far, and the error that stopped it. */
  datatype Parse = Parse(auth: Dict<string>, error: Option<PyError>)

  /** The parsing loop, from the first line on; the first bad line stops it. */
  function ParseAuth(lines: seq<string>): Parse {
    if lines == [] then Parse([], None)
    else
      var before := ParseAuth(lines[..|lines| - 1]);
      if before.error.Some? then before
      else match ParseLine(lines[|lines| - 1])
        case Ok(kv) => Parse(Put(before.auth, kv.0, kv.1), None)
        case Err(e) => Parse(before.auth, Some(e))
  }

  /** The parsing loop of `read_authfile` and of `Authorization.__init__`. */
  method ParseAuthLines(lines: seq<string>) returns (auth: Dict<string>, err: Option<PyError>)
    ensures Parse(auth, err) == ParseAuth(lines)
  {
    auth := [];
    err := None;
    for i := 0 to |lines|
      invariant Parse(auth, err) == ParseAuth(lines[..i])
      invariant err == None
    {
      assert lines[..i + 1][..i] == lines[..i];
      match ParseLine(lines[i]) {
        case Ok(kv) =>
          auth := Put(auth, kv.0, kv.1);
        case Err(e) =>
          err := Some(e);
          ParseAuthStops(lines[..i + 1], lines[i + 1..]);
          assert lines[..i + 1] + lines[i + 1..] == lines;
          return;
      }
    }
    assert lines[..|lines|] == lines;
  }

  // ---------------------------------------------------------- rendering

  /** The `key:value` text of each credential, in dict order. */
  function Entries(d: Dict<string>): (xs: seq<string>)
    ensures |xs| == |d|
  {
    if d == [] then [] else [d[0].0 + ":" + d[0].1] + Entries(d[1..])
  }

  /** The lines `write_authfile` writes. */
  function Rendered(d: Dict<string>): seq<string> {
    Terminated(Entries(d))
  }

  /** `write_authfile`'s loop. */
  method RenderAuthLines(d: Dict<string>) returns (authlines: seq<string>)
    ensures authlines == Rendered(d)
  {
    authlines := [];
    for i := 0 to |d|
      invariant authlines == Rendered(d[..i])
    {
      RenderedSnoc(d[..i + 1]);
      assert d[..i + 1][..i] == d[..i];
      authlines := authlines + [d[i].0 + ":" + d[i].1 + "\n"];
    }
    assert d[..|d|] == d;
  }

  lemma {:induction false} RenderedSnoc(d: Dict<string>)
    requires d != []
    ensures Rendered(d) == Rendered(d[..|d| - 1]) + [d[|d| - 1].0 + ":" + d[|d| - 1].1 + "\n"]
  {
    if |d| > 1 {
      RenderedSnoc(d[1..]);
      assert d[..|d| - 1][1..] == d[1..][..|d| - 2];
    }
  }

  // ----------------------------------------------------------- headers

  const Accept := "application/vnd.twitchtv.v5+json"

  /** `get_headers`: `client_id` is looked up first, then `oauth`; a missing one is the KeyError. */
  function Headers(auth: Dict<string>): Result<Dict<string>> {
    match Get(auth, "client_id")
    case None => Err(KeyError("client_id"))
    case Some(clientId) =>
      match Get(auth, "oauth")
      case None => Err(KeyError("oauth"))
      case Some(oauth) =>
        Ok([("Client-ID", clientId), ("Authorization", "Bearer " + oauth), ("Accept", Accept)])
  }

  // ------------------------------------------------------------ lemmas

  lemma {:induction false} ConcatLines(pieces: seq<string>)
    requires |pieces| >= 1
    ensures Concat(LinesOf(pieces)) == Join(pieces, "\n")
  {
    if |pieces| > 1 {
      ConcatLines(pieces[1..]);
    }
  }

  /** The lines put back together are the text. */
  lemma ReadLinesConcat(text: string)
    ensures Concat(ReadLines(text)) == text
  {
    ConcatLines(Split(text, "\n"));
    SplitThenJoin(text, "\n");
  }

  lemma {:induction false} ConcatTerminated(xs: seq<string>)
    ensures Concat(Terminated(xs)) == Join(xs + [""], "\n")
  {
    if xs != [] {
      ConcatTerminated(xs[1..]);
      assert (xs + [""])[1..] == xs[1..] + [""];
    }
  }

  lemma {:induction false} LinesOfTerminated(xs: seq<string>)
    ensures LinesOf(xs + [""]) == Terminated(xs)
  {
    if xs != [] {
      LinesOfTerminated(xs[1..]);
      assert (xs + [""])[1..] == xs[1..] + [""];
    }
  }

  /** Lines that each end in their only newline are read back as written. */
  lemma ReadTerminated(xs: seq<string>)
    requires NoneContain(xs, '\n')
    ensures ReadLines(Concat(Terminated(xs))) == Terminated(xs)
  {
    ConcatTerminated(xs);
    assert NoneContain(xs + [""], '\n') by {
      forall k | 0 <= k < |xs + [""]| ensures '\n' !in (xs + [""])[k] {
        if k < |xs| {
          assert (xs + [""])[k] == xs[k];
        }
      }
    }
    JoinThenSplit(xs + [""], "\n");
    LinesOfTerminated(xs);
  }

  /** A line `key:value` with its newline gives that key and value. */
  lemma ParseEntryLine(k: string, v: string)
    requires ':' !in k && ':' !in v
    ensures ParseLine(k + ":" + v + "\n") == Ok((k, v))
  {
    var line := k + ":" + v + "\n";
    assert line[..|line| - 1] == k + ":" + v;
    SplitAfterPiece(k, ":", v);
    SplitWithoutSeparator(v, ":");
  }

  /** Fields after a second ':' are dropped. */
  lemma ExtraFieldsDropped(k: string, v: string, rest: string)
    requires ':' !in k && ':' !in v
    ensures ParseLine(k + ":" + v + ":" + rest + "\n") == Ok((k, v))
  {
    var line := k + ":" + v + ":" + rest + "\n";
    assert line[..|line| - 1] == k + ":" + (v + ":" + rest);
    SplitAfterPiece(k, ":", v + ":" + rest);
    SplitAfterPiece(v, ":", rest);
  }

  /** A line without ':' before its last character raises IndexError. */
  lemma MissingColonRaises(line: string)
    requires line != [] && ':' !in line[..|line| - 1]
    ensures ParseLine(line) == Err(IndexError)
  {
  }

  /** After an error nothing further is read. */
  lemma {:induction false} ParseAuthStops(lines: seq<string>, more: seq<string>)
    requires ParseAuth(lines).error.Some?
    ensures ParseAuth(lines + more) == ParseAuth(lines)
    decreases |more|
  {
    if more != [] {
      var init := more[..|more| - 1];
      ParseAuthStops(lines, init);
      assert (lines + more)[..|lines + more| - 1] == lines + init;
    } else {
      assert lines + more == lines;
    }
  }

  /** A later line for a key overrides it and leaves every other key as it was. */
  lemma LaterLineWins(lines: seq<string>, k: string, v: string)
    requires ParseAuth(lines).error == None && ':' !in k && ':' !in v
    ensures ParseAuth(lines + [k + ":" + v + "\n"]).error == None
    ensures Get(ParseAuth(lines + [k + ":" + v + "\n"]).auth, k) == Some(v)
    ensures forall k' :: k' != k ==>
      Get(ParseAuth(lines + [k + ":" + v + "\n"]).auth, k') == Get(ParseAuth(lines).auth, k')
  {
    ParseEntryLine(k, v);
    assert (lines + [k + ":" + v + "\n"])[..|lines|] == lines;
    PutMeaning(ParseAuth(lines).auth, k, v);
  }

  /** No key or value holds ':' or a newline. */
  predicate PlainEntries(d: Dict<string>) {
    forall i :: 0 <= i < |d| ==> ':' !in d[i].0 && ':' !in d[i].1 && '\n' !in d[i].0 && '\n' !in d[i].1
  }

  lemma {:induction false} ParseRendered(d: Dict<string>)
    requires DistinctKeys(d) && PlainEntries(d)
    ensures ParseAuth(Rendered(d)) == Parse(d, None)
    decreases |d|
  {
    if d != [] {
      var init, last := d[..|d| - 1], d[|d| - 1];
      assert DistinctKeys(init) && PlainEntries(init);
      ParseRendered(init);
      RenderedSnoc(d);
      assert Rendered(d)[..|d| - 1] == Rendered(init);
      ParseEntryLine(last.0, last.1);
      LastKeyIsNew(d);
      PutNew(init, last.0, last.1);
      assert init + [(last.0, last.1)] == d;
    }
  }

  lemma {:induction false} EntriesHaveNoNewline(d: Dict<string>)
    requires PlainEntries(d)
    ensures NoneContain(Entries(d), '\n')
    decreases |d|
  {
    if d != [] {
      EntriesHaveNoNewline(d[1..]);
      var e := d[0].0 + ":" + d[0].1;
      assert '\n' !in e by {
        forall i | 0 <= i < |e| ensures e[i] != '\n' {
          if i < |d[0].0| {
            assert e[i] == d[0].0[i];
          } else if i > |d[0].0| {
            assert e[i] == d[0].1[i - |d[0].0| - 1];
          }
        }
      }
    }
  }

  /**
   * Reading back what `write_authfile` wrote gives the same credentials in
   * the same order, when no key or value holds ':' or a newline.
   */
  lemma AuthRoundTrip(d: Dict<string>)
    requires DistinctKeys(d) && PlainEntries(d)
    ensures ParseAuth(ReadLines(Concat(Rendered(d)))) == Parse(d, None)
  {
    EntriesHaveNoNewline(d);
    ReadTerminated(Entries(d));
    ParseRendered(d);
  }

  /** A last line without a newline loses the last character of its value. */
  lemma LastLineLosesChar(k: string, v: string)
    requires ':' !in k && ':' !in v && '\n' !in k && '\n' !in v && v != ""
    ensures ParseAuth(ReadLines(k + ":" + v)) == Parse([(k, v[..|v| - 1])], None)
  {
    var line := k + ":" + v;
    assert '\n' !in line by {
      forall i | 0 <= i < |line| ensures line[i] != '\n' {
        if i < |k| {
          assert line[i] == k[i];
        } else if i > |k| {
          assert line[i] == v[i - |k| - 1];
        }
      }
    }
    SplitWithoutSeparator(line, "\n");
    assert ReadLines(line) == [line];
    assert line[..|line| - 1] == k + ":" + v[..|v| - 1];
    var w := v[..|v| - 1];
    assert ':' !in w by {
      forall i | 0 <= i < |w| ensures w[i] != ':' {
        assert w[i] == v[i];
      }
    }
    SplitAfterPiece(k, ":", v[..|v| - 1]);
    SplitWithoutSeparator(v[..|v| - 1], ":");
    assert [line][..0] == [];
  }

  /**
   * The headers exist exactly when both credentials do; they carry the
   * client id, the OAuth token under the Bearer scheme, and the fixed
   * Accept value.
   */
  lemma HeadersIff(auth: Dict<string>)
    ensures Headers(auth).Ok? <==> "client_id" in Keys(auth) && "oauth" in Keys(auth)
    ensures "client_id" !in Keys(auth) ==> Headers(auth) == Err(KeyError("client_id"))
    ensures Headers(auth).Ok? ==>
      && Get(Headers(auth).value, "Client-ID") == Get(auth, "client_id")
      && Get(Headers(auth).value, "Authorization") == Some("Bearer " + Get(auth, "oauth").value)
      && Get(Headers(auth).value, "Accept") == Some(Accept)
  {
    if Headers(auth).Ok? {
      HeaderFields(Get(auth, "client_id").value, Get(auth, "oauth").value);
    }
  }

  lemma HeaderFields(clientId: string, oauth: string)
    ensures var h := [("Client-ID", clientId), ("Authorization", "Bearer " + oauth), ("Accept", Accept)];
      Get(h, "Client-ID") == Some(clientId) && Get(h, "Authorization") == Some("Bearer " + oauth)
      && Get(h, "Accept") == Some(Accept)
  {
    var h := [("Client-ID", clientId), ("Authorization", "Bearer " + oauth), ("Accept", Accept)];
    assert |"Client-ID"| == 9 && |"Authorization"| == 13 && |"Accept"| == 6;
    GetAt(h, 0, "Client-ID");
    GetAt(h, 1, "Authorization");
    GetAt(h, 2, "Accept");
  }

  /** The token comes back from the Authorization header by dropping the scheme. */
  lemma BearerTokenReadsBack(auth: Dict<string>)
    requires Headers(auth).Ok?
    ensures var a := Get(Headers(auth).value, "Authorization").value;
      StartsWith(a, "Bearer ") && a[7..] == Get(auth, "oauth").value
  {
    HeadersIff(auth);
  }
}
