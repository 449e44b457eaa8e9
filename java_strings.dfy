/** The few java.lang.String operations the plugin's decisions rest on, and
    the space-separated command line it writes to the log. */
module JavaStrings {
  import opened Common

  /** s.startsWith(prefix) */
  predicate StartsWith(s: string, prefix: string) {
    |prefix| <= |s| && s[..|prefix|] == prefix
  }

  /** s.contains(t), equivalently s.indexOf(t) != -1: t occurs at some offset. */
  predicate Contains(s: string, t: string)
    decreases |s|
  {
    StartsWith(s, t) || (|s| > 0 && Contains(s[1..], t))
  }

  /** t occurs in s at offset i. */
  predicate OccursAt(s: string, t: string, i: nat) {
    i + |t| <= |s| && s[i..i + |t|] == t
  }

  /** Contains is the search for an offset at which t occurs. */
  lemma {:induction false} ContainsIffOccurs(s: string, t: string)
    ensures Contains(s, t) <==> exists i: nat :: OccursAt(s, t, i)
    decreases |s|
  {
    if Contains(s, t) {
      if StartsWith(s, t) {
        assert OccursAt(s, t, 0);
      } else {
        ContainsIffOccurs(s[1..], t);
        var i: nat :| OccursAt(s[1..], t, i);
        assert s[1..][i..i + |t|] == s[i + 1..i + 1 + |t|];
        assert OccursAt(s, t, i + 1);
      }
    }
    if exists i: nat :: OccursAt(s, t, i) {
      var i: nat :| OccursAt(s, t, i);
      if i == 0 {
        assert StartsWith(s, t);
      } else {
        assert s[1..][i - 1..i - 1 + |t|] == s[i..i + |t|];
        assert OccursAt(s[1..], t, i - 1);
        ContainsIffOccurs(s[1..], t);
      }
    }
  }

  /** A string in which t's first character never appears does not contain t. */
  lemma {:induction false} MissingFirstCharNotContained(s: string, t: string)
    requires |t| > 0
    requires forall i :: 0 <= i < |s| ==> s[i] != t[0]
    ensures !Contains(s, t)
    decreases |s|
  {
    if |s| > 0 {
      if |t| <= |s| {
        assert s[..|t|][0] != t[0];
      }
      MissingFirstCharNotContained(s[1..], t);
    }
  }

  /** The command line logged before a debug invocation: the head followed by
      " " + argument for each argument, appended in order. */
  function CommandLine(head: string, arguments: seq<string>): (r: string)
    decreases |arguments|
  {
    if arguments == [] then head
    else CommandLine(head, arguments[..|arguments| - 1]) + " " + arguments[|arguments| - 1]
  }

  /** Builds the logged command line the way the source's loop does. */
  method ComposeCommand(head: string, arguments: seq<string>) returns (command: string)
    ensures command == CommandLine(head, arguments)
  {
    command := head;
    var i := 0;
    while i < |arguments|
      invariant 0 <= i <= |arguments|
      invariant command == CommandLine(head, arguments[..i])
    {
      assert arguments[..i + 1][..i] == arguments[..i];
      command := command + " " + arguments[i];
      i := i + 1;
    }
    assert arguments[..i] == arguments;
  }

  predicate SpaceFree(s: string) {
    forall i :: 0 <= i < |s| ==> s[i] != ' '
  }

  /** Index of the last space in s, if any. */
  function LastSpace(s: string): (r: Option<nat>)
    ensures r.Some? ==> r.value < |s| && s[r.value] == ' ' && SpaceFree(s[r.value + 1..])
    ensures r.None? ==> SpaceFree(s)
    decreases |s|
  {
    if s == [] then None
    else if s[|s| - 1] == ' ' then Some(|s| - 1)
    else
      var r := LastSpace(s[..|s| - 1]);
      assert r.Some? ==> s[r.value + 1..] == s[..|s| - 1][r.value + 1..] + [s[|s| - 1]];
      r
  }

  /** Splits s at every space, from the right. */
  function Words(s: string): (r: seq<string>)
    decreases |s|
  {
    match LastSpace(s)
    case None => [s]
    case Some(i) => Words(s[..i]) + [s[i + 1..]]
  }

  /** The last space of `prefix + " " + word` is the one before a space-free word. */
  lemma {:induction false} LastSpaceAfterSpaceFree(prefix: string, word: string)
    requires SpaceFree(word)
    ensures LastSpace(prefix + " " + word) == Some(|prefix|)
    decreases |word|
  {
    var s := prefix + " " + word;
    if word == [] {
      assert s == prefix + " " && s[|s| - 1] == ' ';
    } else {
      var init := word[..|word| - 1];
      assert s[|s| - 1] == word[|word| - 1] != ' ';
      assert s[..|s| - 1] == prefix + " " + init;
      assert SpaceFree(init);
      LastSpaceAfterSpaceFree(prefix, init);
      assert LastSpace(s) == LastSpace(s[..|s| - 1]);
    }
  }

  /** Round trip: splitting the logged command line at spaces gives back the
      head and the arguments, as long as none of them contains a space. */
  lemma {:induction false} CommandLineSplits(head: string, arguments: seq<string>)
    requires SpaceFree(head)
    requires forall i :: 0 <= i < |arguments| ==> SpaceFree(arguments[i])
    ensures Words(CommandLine(head, arguments)) == [head] + arguments
    decreases |arguments|
  {
    if arguments == [] {
      assert LastSpace(head).None?;
    } else {
      var init := arguments[..|arguments| - 1];
      var last := arguments[|arguments| - 1];
      var c := CommandLine(head, init);
      LastSpaceAfterSpaceFree(c, last);
      var s := c + " " + last;
      assert s[..|c|] == c;
      assert s[|c| + 1..] == last;
      CommandLineSplits(head, init);
      assert [head] + init + [last] == [head] + arguments;
    }
  }
}
