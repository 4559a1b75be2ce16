/**
 * The `target` module: the user a command is aimed at, which is the first
 * argument with one leading `@` removed, or the caller when no argument is
 * given.
 */
module Target {
  import opened Common

  /** `main`; an empty first argument raises IndexError at `user[0]`. */
  function Target(cmdargs: seq<string>, authorName: string): Result<string> {
    if cmdargs == [] then Ok(authorName)
    else
      var user := cmdargs[0];
      if user == "" then Err(IndexError)
      else if user[0] == '@' then Ok(user[1..])
      else Ok(user)
  }

  /** How a chatter mentions someone in chat. */
  function Mention(name: string): (m: string)
    ensures |m| == |name| + 1 && m[0] == '@'
  {
    "@" + name
  }

  /** A mention gives back the name mentioned, whatever follows it. */
  lemma MentionRoundTrip(name: string, more: seq<string>, authorName: string)
    ensures Target([Mention(name)] + more, authorName) == Ok(name)
  {
    assert ([Mention(name)] + more)[0] == Mention(name);
    assert Mention(name)[1..] == name;
  }

  /** Only one `@` is removed: `@@x` gives `@x`. */
  lemma OnlyOneAtRemoved(x: string)
    ensures Target([Mention(Mention(x))], "") == Ok(Mention(x))
  {
    MentionRoundTrip(Mention(x), [], "");
    assert [Mention(Mention(x))] + [] == [Mention(Mention(x))];
  }

  /** A first argument not starting with `@` is the result as it is. */
  lemma PlainNameKept(user: string, more: seq<string>, authorName: string)
    requires user != "" && user[0] != '@'
    ensures Target([user] + more, authorName) == Ok(user)
  {
    assert ([user] + more)[0] == user;
  }

  /**
   * The result depends on the first argument only (or, without arguments,
   * on the caller): a result that is not an error is the argument or the
   * argument minus its `@`.
   */
  lemma TargetIsFirstArgument(cmdargs: seq<string>, authorName: string)
    ensures Target(cmdargs, authorName).Ok? ==>
      if cmdargs == [] then Target(cmdargs, authorName).value == authorName
      else (cmdargs[0] == Target(cmdargs, authorName).value
            || cmdargs[0] == Mention(Target(cmdargs, authorName).value))
    ensures Target(cmdargs, authorName).Err? <==> cmdargs != [] && cmdargs[0] == ""
  {
    if cmdargs != [] && cmdargs[0] != "" && cmdargs[0][0] == '@' {
      assert cmdargs[0] == Mention(cmdargs[0][1..]);
    }
  }
}
