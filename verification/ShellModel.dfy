/** The shell-style tokenizer behind command rules, as an automaton that reads
    one character at a time, and the laws its tokens obey. */
module ShellModel {
  import opened Basics

  /** Where the reader is; the two escapes wait for the character after a backslash. */
  datatype Mode = Outside | InSingle | InDouble | OutsideEscape | DoubleEscape

  datatype Lexer = Lexer(mode: Mode, buf: string, started: bool, tokens: seq<string>)

  const Start := Lexer(Outside, "", false, [])

  function Flush(l: Lexer): Lexer {
    if l.buf != "" || l.started then l.(tokens := l.tokens + [l.buf], buf := "", started := false) else l
  }

  function Feed(l: Lexer, c: char): Lexer {
    match l.mode
    case InSingle => if c == '\'' then l.(mode := Outside) else l.(buf := l.buf + [c])
    case InDouble =>
      if c == '"' then l.(mode := Outside)
      else if c == '\\' then l.(mode := DoubleEscape)
      else l.(buf := l.buf + [c])
    case DoubleEscape =>
      if c == '"' || c == '\\' then l.(mode := InDouble, buf := l.buf + [c])
      else l.(mode := InDouble, buf := l.buf + ['\\', c])
    case OutsideEscape => l.(mode := Outside, buf := l.buf + [c], started := true)
    case Outside =>
      if c == '\'' then l.(mode := InSingle, started := true)
      else if c == '"' then l.(mode := InDouble, started := true)
      else if c == '\\' then l.(mode := OutsideEscape)
      else if IsSpace(c) then Flush(l)
      else l.(buf := l.buf + [c], started := true)
  }

  function FeedAll(l: Lexer, s: string): Lexer
    decreases |s|
  {
    if s == "" then l else FeedAll(Feed(l, s[0]), s[1..])
  }

  /** At the end a backslash still waiting stands for itself. */
  function Finish(l: Lexer): seq<string> {
    match l.mode
    case OutsideEscape => l.tokens + [l.buf + "\\"]
    case DoubleEscape => Flush(l.(buf := l.buf + "\\")).tokens
    case _ => Flush(l).tokens
  }

  function Tokenize(s: string): seq<string> { Finish(FeedAll(Start, s)) }

  /** The text ends outside quotes and without a backslash that still waits. */
  predicate Closed(s: string) { FeedAll(Start, s).mode == Outside }

  lemma {:induction false} FeedConcat(l: Lexer, a: string, b: string)
    ensures FeedAll(l, a + b) == FeedAll(FeedAll(l, a), b)
    decreases |a|
  {
    if a == "" {
      assert a + b == b;
    } else {
      assert (a + b)[1..] == a[1..] + b;
      FeedConcat(Feed(l, a[0]), a[1..], b);
    }
  }

  function Before(t: seq<string>, l: Lexer): Lexer { l.(tokens := t + l.tokens) }

  /** Tokens already out do not influence the rest. */
  lemma {:induction false} FeedBefore(t: seq<string>, l: Lexer, s: string)
    ensures FeedAll(Before(t, l), s) == Before(t, FeedAll(l, s))
    decreases |s|
  {
    if s != "" {
      assert t + (l.tokens + [l.buf]) == (t + l.tokens) + [l.buf];
      FeedBefore(t, Feed(l, s[0]), s[1..]);
    }
  }

  lemma FinishBefore(t: seq<string>, l: Lexer)
    ensures Finish(Before(t, l)) == t + Finish(l)
  {
    var f := Flush(l.(buf := if l.mode == DoubleEscape then l.buf + "\\" else l.buf));
    assert t + (l.tokens + [l.buf]) == (t + l.tokens) + [l.buf];
    assert t + (l.tokens + [l.buf + "\\"]) == (t + l.tokens) + [l.buf + "\\"];
  }

  predicate Blank(ws: string) { forall i :: 0 <= i < |ws| ==> IsSpace(ws[i]) }

  lemma {:induction false} FeedBlank(ws: string, t: seq<string>)
    requires Blank(ws)
    ensures FeedAll(Lexer(Outside, "", false, t), ws) == Lexer(Outside, "", false, t)
    decreases |ws|
  {
    if ws != "" {
      assert IsSpace(ws[0]);
      NotSpecial(ws[0]);
      FeedBlank(ws[1..], t);
    }
  }

  lemma NotSpecial(c: char)
    requires IsSpace(c)
    ensures c != '\'' && c != '"' && c != '\\'
  {
  }

  /** White space between two texts splits their tokens, if the first one ends closed. */
  lemma TokensConcat(a: string, ws: string, b: string)
    requires Closed(a) && ws != "" && Blank(ws)
    ensures Tokenize(a + ws + b) == Tokenize(a) + Tokenize(b)
  {
    var l := FeedAll(Start, a);
    var done := Lexer(Outside, "", false, Tokenize(a));
    NotSpecial(ws[0]);
    assert Feed(l, ws[0]) == done;
    FeedBlank(ws[1..], Tokenize(a));
    assert FeedAll(l, ws) == done;
    FeedConcat(Start, a, ws);
    FeedConcat(Start, a + ws, b);
    assert done == Before(Tokenize(a), Start) by { assert Tokenize(a) + [] == Tokenize(a); }
    FeedBefore(Tokenize(a), Start, b);
    FinishBefore(Tokenize(a), FeedAll(Start, b));
  }

  /** Inside quotes a token has started. */
  predicate Sound(l: Lexer) { l.mode in {InSingle, InDouble, DoubleEscape} ==> l.started }

  lemma {:induction false} FeedSound(l: Lexer, s: string)
    requires Sound(l)
    ensures Sound(FeedAll(l, s))
    decreases |s|
  {
    if s != "" { FeedSound(Feed(l, s[0]), s[1..]); }
  }

  /** A text splits off cleanly in front of every continuation if and only if it ends closed. */
  lemma SplitsIffClosed(a: string)
    ensures (forall ws, b :: ws != "" && Blank(ws) ==> Tokenize(a + ws + b) == Tokenize(a) + Tokenize(b)) <==> Closed(a)
  {
    if Closed(a) {
      forall ws, b | ws != "" && Blank(ws) ensures Tokenize(a + ws + b) == Tokenize(a) + Tokenize(b) {
        TokensConcat(a, ws, b);
      }
    } else {
      SpaceSticks(a);
      assert a + " " + "" == a + " ";
      assert Tokenize("") == [] && Tokenize(a) + [] == Tokenize(a);
      assert Blank(" ");
      assert Tokenize(a + " " + "") != Tokenize(a) + Tokenize("");
    }
  }

  /** A space after an unclosed text becomes part of its last token. */
  lemma SpaceSticks(a: string)
    requires !Closed(a)
    ensures Tokenize(a + " ") != Tokenize(a)
  {
    var l := FeedAll(Start, a);
    FeedSound(Start, a);
    FeedConcat(Start, a, " ");
    assert FeedAll(l, " ") == Feed(l, ' ') by { assert " "[1..] == ""; }
    var m := Feed(l, ' ');
    var before, after := Tokenize(a), Finish(m);
    assert IsSpace(' ');
    assert |before| == |l.tokens| + 1 && |after| == |l.tokens| + 1;
    var n := |l.tokens|;
    match l.mode
    case InSingle => assert |after[n]| == |before[n]| + 1;
    case InDouble => assert |after[n]| == |before[n]| + 1;
    case DoubleEscape => assert |after[n]| == |before[n]| + 1;
    case OutsideEscape => assert after[n][|l.buf|] == ' ' && before[n][|l.buf|] == '\\';
  }

  // ---- quoting --------------------------------------------------------

  function EscapeChars(t: string): string {
    if t == "" then ""
    else (if t[0] == '"' || t[0] == '\\' then ['\\', t[0]] else [t[0]]) + EscapeChars(t[1..])
  }

  function Quote(t: string): string { "\"" + EscapeChars(t) + "\"" }

  function QuoteAll(ts: seq<string>): string {
    if ts == [] then "" else if |ts| == 1 then Quote(ts[0]) else Quote(ts[0]) + " " + QuoteAll(ts[1..])
  }

  lemma FeedTwo(l: Lexer, c: char, d: char)
    ensures FeedAll(l, [c, d]) == Feed(Feed(l, c), d)
  {
    assert [c, d][1..] == [d] && [d][1..] == [];
    assert FeedAll(l, [c, d]) == FeedAll(Feed(l, c), [d]);
  }

  lemma FeedOne(l: Lexer, c: char)
    ensures FeedAll(l, [c]) == Feed(l, c)
  {
    assert [c][1..] == [];
  }

  lemma {:induction false} FeedEscaped(l: Lexer, t: string)
    requires l.mode == InDouble
    ensures FeedAll(l, EscapeChars(t)) == l.(buf := l.buf + t)
    decreases |t|
  {
    if t == "" {
      assert l.buf + t == l.buf;
    } else {
      var head := if t[0] == '"' || t[0] == '\\' then ['\\', t[0]] else [t[0]];
      FeedConcat(l, head, EscapeChars(t[1..]));
      FeedTwo(l, '\\', t[0]);
      FeedOne(l, t[0]);
      FeedEscaped(l.(buf := l.buf + [t[0]]), t[1..]);
      assert l.buf + [t[0]] + t[1..] == l.buf + t;
    }
  }

  lemma QuoteIsOneToken(t: string)
    ensures Closed(Quote(t)) && Tokenize(Quote(t)) == [t]
  {
    var open := Lexer(InDouble, "", true, []);
    FeedConcat(Start, "\"" + EscapeChars(t), "\"");
    FeedConcat(Start, "\"", EscapeChars(t));
    FeedOne(Start, '"');
    FeedEscaped(open, t);
    assert "" + t == t;
    FeedOne(open.(buf := t), '"');
    assert FeedAll(Start, Quote(t)) == Lexer(Outside, t, true, []);
    assert [] + [t] == [t];
  }

  /** Any tokens at all, empty ones included, come back from their quoted spelling. */
  lemma {:induction false} QuoteRoundTrip(ts: seq<string>)
    ensures Tokenize(QuoteAll(ts)) == ts
  {
    if ts == [] {
    } else {
      QuoteIsOneToken(ts[0]);
      if |ts| == 1 {
        assert ts == [ts[0]];
      } else {
        QuoteRoundTrip(ts[1..]);
        assert Blank(" ");
        TokensConcat(Quote(ts[0]), " ", QuoteAll(ts[1..]));
        assert [ts[0]] + ts[1..] == ts;
      }
    }
  }

  lemma {:induction false} QuoteAllClosed(ts: seq<string>)
    ensures Closed(QuoteAll(ts))
  {
    if ts != [] {
      QuoteIsOneToken(ts[0]);
      if |ts| > 1 {
        QuoteAllClosed(ts[1..]);
        ClosedConcat(Quote(ts[0]), " ", QuoteAll(ts[1..]));
      }
    }
  }

  lemma ClosedConcat(a: string, ws: string, b: string)
    requires Closed(a) && ws != "" && Blank(ws)
    ensures Closed(a + ws + b) <==> Closed(b)
  {
    var l := FeedAll(Start, a);
    NotSpecial(ws[0]);
    FeedBlank(ws[1..], Tokenize(a));
    FeedConcat(Start, a, ws);
    FeedConcat(Start, a + ws, b);
    assert FeedAll(l, ws) == Before(Tokenize(a), Start) by { assert Tokenize(a) + [] == Tokenize(a); }
    FeedBefore(Tokenize(a), Start, b);
  }

  // ---- matching -------------------------------------------------------

  predicate SliceAt(haystack: seq<string>, needle: seq<string>, i: int) {
    0 <= i <= |haystack| - |needle| && haystack[i..i + |needle|] == needle
  }

  /** A non-empty needle that is a contiguous slice of the haystack. */
  predicate ContainsSlice(haystack: seq<string>, needle: seq<string>) {
    needle != [] && exists i :: 0 <= i <= |haystack| - |needle| && SliceAt(haystack, needle, i)
  }

  predicate MatchesSome(command: string, patterns: seq<string>) {
    exists k :: 0 <= k < |patterns| && ContainsSlice(Tokenize(command), Tokenize(patterns[k]))
  }

  datatype CommandDecision = Allow | Deny(reason: string) | RequireAdmin(reason: string)

  function CheckCommand(command: string, deny: seq<string>, admin: seq<string>): CommandDecision {
    if MatchesSome(command, deny) then Deny("command_denied")
    else if MatchesSome(command, admin) then RequireAdmin("admin_required")
    else Allow
  }

  lemma SliceEmbeds(before: seq<string>, middle: seq<string>, after: seq<string>, needle: seq<string>)
    requires ContainsSlice(middle, needle)
    ensures ContainsSlice(before + middle + after, needle)
  {
    var i :| 0 <= i <= |middle| - |needle| && SliceAt(middle, needle, i);
    var whole, j := before + middle + after, |before| + i;
    assert whole[j..j + |needle|] == middle[i..i + |needle|];
    assert SliceAt(whole, needle, j);
  }

  /** A denied command stays denied in any spelling with the same tokens, and
      inside any longer command that sets it off with white space. */
  lemma DenySurvives(command: string, respelled: string, before: string, ws: string, ws': string, after: string,
                     deny: seq<string>, admin: seq<string>)
    requires CheckCommand(command, deny, admin).Deny?
    requires Tokenize(respelled) == Tokenize(command)
    requires Closed(before) && Closed(respelled)
    requires ws != "" && Blank(ws) && ws' != "" && Blank(ws')
    ensures CheckCommand(respelled, deny, admin).Deny?
    ensures CheckCommand(before + ws + (respelled + ws' + after), deny, admin).Deny?
  {
    hide Tokenize, ContainsSlice, Closed, Blank;
    var k :| 0 <= k < |deny| && ContainsSlice(Tokenize(command), Tokenize(deny[k]));
    TokensConcat(respelled, ws', after);
    TokensConcat(before, ws, respelled + ws' + after);
    SliceEmbeds(Tokenize(before), Tokenize(command), Tokenize(after), Tokenize(deny[k]));
    var longer := before + ws + (respelled + ws' + after);
    assert Tokenize(longer) == Tokenize(before) + Tokenize(command) + Tokenize(after);
    assert ContainsSlice(Tokenize(longer), Tokenize(deny[k]));
  }

  /** Quoting every token of a command changes nothing about the verdict, and a
      denied one stays denied when its quoted form is set off inside a longer command. */
  lemma QuotingDoesNotHelp(command: string, before: string, after: string, deny: seq<string>, admin: seq<string>)
    requires Closed(before)
    ensures var quoted := QuoteAll(Tokenize(command));
      && CheckCommand(quoted, deny, admin) == CheckCommand(command, deny, admin)
      && (CheckCommand(command, deny, admin).Deny? ==>
            CheckCommand(before + " " + (quoted + " " + after), deny, admin).Deny?)
  {
    var quoted := QuoteAll(Tokenize(command));
    QuoteRoundTrip(Tokenize(command));
    QuoteAllClosed(Tokenize(command));
    if CheckCommand(command, deny, admin).Deny? {
      assert Blank(" ");
      DenySurvives(command, quoted, before, " ", " ", after, deny, admin);
    }
  }
}
