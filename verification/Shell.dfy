/** The tokenizer and matcher as the loops they are. */
module Shell {
  import opened Basics
  import opened ShellModel

  /** The state of the loop: two quote flags instead of a mode. */
  function Flags(buf: string, inSingle: bool, inDouble: bool, started: bool, tokens: seq<string>): Lexer {
    Lexer(if inSingle then InSingle else if inDouble then InDouble else Outside, buf, started, tokens)
  }

  lemma FeedStep(l: Lexer, s: string, i: nat)
    requires i < |s|
    ensures FeedAll(l, s[i..]) == FeedAll(Feed(l, s[i]), s[i + 1..])
  {
    assert s[i..][1..] == s[i + 1..];
  }

  /** Within double quotes a backslash before an ordinary character, or at the very
      end, stands for itself, whether it is taken at once or only with what follows. */
  lemma KeptBackslash(l: Lexer, s: string, i: nat)
    requires l.mode == InDouble && i < |s| && s[i] == '\\'
    requires i + 1 == |s| || (s[i + 1] != '"' && s[i + 1] != '\\')
    ensures Finish(FeedAll(l, s[i..])) == Finish(FeedAll(l.(buf := l.buf + "\\"), s[i + 1..]))
  {
    FeedStep(l, s, i);
    var kept := l.(buf := l.buf + "\\");
    if i + 1 < |s| {
      FeedStep(Feed(l, s[i]), s, i + 1);
      FeedStep(kept, s, i + 1);
      assert l.buf + ['\\', s[i + 1]] == l.buf + "\\" + [s[i + 1]];
    }
  }

  method TokenizeShell(input: string) returns (tokens: seq<string>)
    ensures tokens == Tokenize(input)
  {
    tokens := [];
    var buf := "";
    var inSingle, inDouble, bufStarted := false, false, false;
    var i := 0;
    assert input[0..] == input;
    while i < |input|
      invariant 0 <= i <= |input| && !(inSingle && inDouble)
      invariant Finish(FeedAll(Flags(buf, inSingle, inDouble, bufStarted, tokens), input[i..])) == Tokenize(input)
      decreases |input| - i
    {
      ghost var l := Flags(buf, inSingle, inDouble, bufStarted, tokens);
      var ch := input[i];
      FeedStep(l, input, i);
      if inSingle {
        if ch == '\'' { inSingle := false; } else { buf := buf + [ch]; }
        i := i + 1;
        continue;
      }
      if inDouble {
        if ch == '"' {
          inDouble := false;
        } else if ch == '\\' && i + 1 < |input| {
          var next := input[i + 1];
          if next == '"' || next == '\\' {
            FeedStep(Feed(l, ch), input, i + 1);
            buf := buf + [next];
            i := i + 1;
          } else {
            KeptBackslash(l, input, i);
            buf := buf + [ch];
          }
        } else {
          if ch == '\\' { KeptBackslash(l, input, i); }
          buf := buf + [ch];
        }
        i := i + 1;
        continue;
      }
      if ch == '\'' {
        inSingle, bufStarted := true, true;
        i := i + 1;
        continue;
      }
      if ch == '"' {
        inDouble, bufStarted := true, true;
        i := i + 1;
        continue;
      }
      if ch == '\\' && i + 1 < |input| {
        FeedStep(Feed(l, ch), input, i + 1);
        buf := buf + [input[i + 1]];
        bufStarted := true;
        i := i + 2;
        continue;
      }
      if IsSpace(ch) {
        if |buf| > 0 || bufStarted {
          tokens := tokens + [buf];
          buf, bufStarted := "", false;
        }
        i := i + 1;
        continue;
      }
      buf := buf + [ch];
      bufStarted := true;
      i := i + 1;
    }
    if |buf| > 0 || bufStarted { tokens := tokens + [buf]; }
  }

  method ContainsTokenSubsequence(haystack: seq<string>, needle: seq<string>) returns (found: bool)
    ensures found <==> ContainsSlice(haystack, needle)
  {
    if |needle| == 0 || |needle| > |haystack| {
      assert forall i :: SliceAt(haystack, needle, i) ==> 0 <= i <= |haystack| - |needle|;
      return false;
    }
    var i := 0;
    while i <= |haystack| - |needle|
      invariant 0 <= i <= |haystack| - |needle| + 1
      invariant forall k :: 0 <= k < i ==> !SliceAt(haystack, needle, k)
    {
      var j := 0;
      while j < |needle| && haystack[i + j] == needle[j]
        invariant 0 <= j <= |needle|
        invariant haystack[i..i + j] == needle[..j]
      {
        assert haystack[i..i + j + 1] == haystack[i..i + j] + [haystack[i + j]];
        j := j + 1;
      }
      if j == |needle| {
        assert SliceAt(haystack, needle, i);
        return true;
      }
      assert haystack[i..i + |needle|][j] != needle[j];
      i := i + 1;
    }
    return false;
  }

  method MatchesAny(command: string, patterns: seq<string>) returns (found: bool)
    ensures found <==> MatchesSome(command, patterns)
  {
    var cmdTokens := TokenizeShell(command);
    if |cmdTokens| == 0 { return false; }
    for k := 0 to |patterns|
      invariant forall i :: 0 <= i < k ==> !ContainsSlice(cmdTokens, Tokenize(patterns[i]))
    {
      var patTokens := TokenizeShell(patterns[k]);
      if |patTokens| == 0 { continue; }
      var hit := ContainsTokenSubsequence(cmdTokens, patTokens);
      if hit { return true; }
    }
    return false;
  }

  method CheckCommandLine(command: string, denyPatterns: seq<string>, requireAdminPatterns: seq<string>)
    returns (d: CommandDecision)
    ensures d == CheckCommand(command, denyPatterns, requireAdminPatterns)
  {
    var denied := MatchesAny(command, denyPatterns);
    if denied { return Deny("command_denied"); }
    var admin := MatchesAny(command, requireAdminPatterns);
    if admin { return RequireAdmin("admin_required"); }
    return Allow;
  }
}
