/** All the ways to spell a word for the shell-style tokenizer, and the verdicts on
    commands whatever their spelling. */
module ShellSpellings {
  import opened Basics
  import opened ShellModel

  /** A stretch of a word: bare, in either kind of quotes, or behind a backslash. Within
      double quotes a backslash before an ordinary character stays (`Kept`). */
  datatype Piece = Bare(text: string) | Single(text: string) | Double(text: string) | Escaped(c: char) | Kept(c: char)

  predicate IsBare(c: char) { !IsSpace(c) && c != '\'' && c != '"' && c != '\\' }

  predicate Proper(p: Piece) {
    match p
    case Bare(text) => text != "" && forall i :: 0 <= i < |text| ==> IsBare(text[i])
    case Single(text) => '\'' !in text
    case Double(_) => true
    case Escaped(_) => true
    case Kept(c) => c != '"' && c != '\\'
  }

  function Spell(p: Piece): string {
    match p
    case Bare(text) => text
    case Single(text) => "'" + text + "'"
    case Double(text) => Quote(text)
    case Escaped(c) => ['\\', c]
    case Kept(c) => "\"" + ['\\', c] + "\""
  }

  function Content(p: Piece): string {
    match p
    case Bare(text) => text
    case Single(text) => text
    case Double(text) => text
    case Escaped(c) => [c]
    case Kept(c) => ['\\', c]
  }

  function SpellWord(w: seq<Piece>): string { if w == [] then "" else SpellWord(w[..|w| - 1]) + Spell(w[|w| - 1]) }

  function WordContent(w: seq<Piece>): string { if w == [] then "" else WordContent(w[..|w| - 1]) + Content(w[|w| - 1]) }

  predicate ProperWord(w: seq<Piece>) { w != [] && forall i :: 0 <= i < |w| ==> Proper(w[i]) }

  // ---- one piece ------------------------------------------------------

  lemma {:induction false} FeedBare(l: Lexer, s: string)
    requires l.mode == Outside && forall i :: 0 <= i < |s| ==> IsBare(s[i])
    ensures FeedAll(l, s) == if s == "" then l else l.(buf := l.buf + s, started := true)
    decreases |s|
  {
    if s != "" {
      var next := l.(buf := l.buf + [s[0]], started := true);
      assert Feed(l, s[0]) == next by { assert IsBare(s[0]); }
      FeedBare(next, s[1..]);
      assert next.buf + s[1..] == l.buf + s;
    }
  }

  lemma {:induction false} FeedSingle(l: Lexer, s: string)
    requires l.mode == InSingle && '\'' !in s
    ensures FeedAll(l, s) == l.(buf := l.buf + s)
    decreases |s|
  {
    if s == "" {
      assert l.buf + s == l.buf;
    } else {
      assert s[0] in s;
      FeedSingle(l.(buf := l.buf + [s[0]]), s[1..]);
      assert l.buf + [s[0]] + s[1..] == l.buf + s;
    }
  }

  lemma FeedQuoted(l: Lexer, open: char, inside: string, close: char)
    ensures FeedAll(l, [open] + inside + [close]) == Feed(FeedAll(Feed(l, open), inside), close)
  {
    FeedConcat(l, [open] + inside, [close]);
    FeedConcat(l, [open], inside);
    FeedOne(l, open);
    FeedOne(FeedAll(Feed(l, open), inside), close);
  }

  /** Any piece, read outside quotes, adds its content to the token and ends outside again. */
  lemma FeedPiece(l: Lexer, p: Piece)
    requires l.mode == Outside && Proper(p)
    ensures FeedAll(l, Spell(p)) == l.(buf := l.buf + Content(p), started := true)
  {
    match p
    case Bare(text) => FeedBare(l, text);
    case Single(text) =>
      var q := l.(mode := InSingle, started := true);
      FeedQuoted(l, '\'', text, '\'');
      FeedSingle(q, text);
    case Double(text) =>
      var q := l.(mode := InDouble, started := true);
      FeedQuoted(l, '"', EscapeChars(text), '"');
      FeedEscaped(q, text);
    case Escaped(c) => FeedTwo(l, '\\', c);
    case Kept(c) =>
      var q := l.(mode := InDouble, started := true);
      FeedQuoted(l, '"', ['\\', c], '"');
      FeedTwo(q, '\\', c);
  }

  // ---- words and lists of words ---------------------------------------

  lemma {:induction false} FeedWord(w: seq<Piece>)
    requires forall i :: 0 <= i < |w| ==> Proper(w[i])
    ensures FeedAll(Start, SpellWord(w)) == Lexer(Outside, WordContent(w), w != [], [])
  {
    if w != [] {
      var front := w[..|w| - 1];
      FeedWord(front);
      FeedConcat(Start, SpellWord(front), Spell(w[|w| - 1]));
      FeedPiece(FeedAll(Start, SpellWord(front)), w[|w| - 1]);
    }
  }

  /** However a word is pieced together, it is one token: the contents of its pieces. */
  lemma WordIsOneToken(w: seq<Piece>)
    requires ProperWord(w)
    ensures Closed(SpellWord(w)) && Tokenize(SpellWord(w)) == [WordContent(w)]
  {
    FeedWord(w);
    assert [] + [WordContent(w)] == [WordContent(w)];
  }

  function SpellAll(ws: seq<seq<Piece>>): string {
    if ws == [] then "" else if |ws| == 1 then SpellWord(ws[0]) else SpellWord(ws[0]) + " " + SpellAll(ws[1..])
  }

  function Contents(ws: seq<seq<Piece>>): seq<string> {
    seq(|ws|, i requires 0 <= i < |ws| => WordContent(ws[i]))
  }

  lemma OneMoreWord(w: seq<Piece>, rest: string)
    requires ProperWord(w)
    ensures Tokenize(SpellWord(w) + " " + rest) == [WordContent(w)] + Tokenize(rest)
  {
    hide Tokenize, Closed, ProperWord, SpellWord;
    WordIsOneToken(w);
    assert Blank(" ");
    TokensConcat(SpellWord(w), " ", rest);
  }

  lemma ContentsCons(ws: seq<seq<Piece>>)
    requires ws != []
    ensures Contents(ws) == [WordContent(ws[0])] + Contents(ws[1..])
  {
  }

  /** The tokens of a command are the contents of its words, in every spelling. */
  lemma {:induction false} AnySpelling(ws: seq<seq<Piece>>)
    requires forall i :: 0 <= i < |ws| ==> ProperWord(ws[i])
    ensures Tokenize(SpellAll(ws)) == Contents(ws)
  {
    if ws != [] {
      hide Tokenize, ProperWord, SpellWord, Contents;
      ContentsCons(ws);
      if |ws| == 1 {
        WordIsOneToken(ws[0]);
        assert Contents(ws[1..]) == [] by { NoContents(); }
      } else {
        AnySpelling(ws[1..]);
        OneMoreWord(ws[0], SpellAll(ws[1..]));
      }
    }
  }

  lemma NoContents()
    ensures Contents([]) == []
  {
  }

  lemma {:induction false} SpellAllClosed(ws: seq<seq<Piece>>)
    requires forall i :: 0 <= i < |ws| ==> ProperWord(ws[i])
    ensures Closed(SpellAll(ws))
  {
    if ws != [] {
      WordIsOneToken(ws[0]);
      if |ws| > 1 {
        SpellAllClosed(ws[1..]);
        assert Blank(" ");
        ClosedConcat(SpellWord(ws[0]), " ", SpellAll(ws[1..]));
      }
    }
  }

  /** Quotes left open close at the end, and a last backslash stands for itself, behind
      a word as well as within double quotes. */
  lemma OpenEnds(w: seq<Piece>, text: string)
    requires forall i :: 0 <= i < |w| ==> Proper(w[i])
    ensures '\'' !in text ==> Tokenize(SpellWord(w) + "'" + text) == [WordContent(w) + text]
    ensures Tokenize(SpellWord(w) + "\"" + EscapeChars(text)) == [WordContent(w) + text]
    ensures Tokenize(SpellWord(w) + "\"" + EscapeChars(text) + "\\") == [WordContent(w) + text + "\\"]
    ensures Tokenize(SpellWord(w) + "\\") == [WordContent(w) + "\\"]
  {
    FeedWord(w);
    var l := FeedAll(Start, SpellWord(w));
    FeedConcat(Start, SpellWord(w), "'");
    FeedConcat(Start, SpellWord(w) + "'", text);
    FeedOne(l, '\'');
    if '\'' !in text { FeedSingle(l.(mode := InSingle, started := true), text); }
    var q := l.(mode := InDouble, started := true);
    FeedConcat(Start, SpellWord(w), "\"");
    FeedConcat(Start, SpellWord(w) + "\"", EscapeChars(text));
    FeedConcat(Start, SpellWord(w) + "\"" + EscapeChars(text), "\\");
    FeedOne(l, '"');
    FeedEscaped(q, text);
    FeedOne(q.(buf := q.buf + text), '\\');
    FeedConcat(Start, SpellWord(w), "\\");
    FeedOne(l, '\\');
    assert [] + [WordContent(w) + text] == [WordContent(w) + text];
  }

  // ---- verdicts -------------------------------------------------------

  /** Some pattern's tokens, at least one, stand side by side among the command's. */
  predicate Hits(command: seq<string>, patterns: seq<string>) {
    exists k, i :: 0 <= k < |patterns| && 0 <= i <= |command| &&
      Tokenize(patterns[k]) != [] && StandsAt(command, Tokenize(patterns[k]), i)
  }

  predicate StandsAt(command: seq<string>, needle: seq<string>, i: int) {
    0 <= i && i + |needle| <= |command| && forall j :: 0 <= j < |needle| ==> command[i + j] == needle[j]
  }

  lemma SliceStands(haystack: seq<string>, needle: seq<string>, i: int)
    ensures SliceAt(haystack, needle, i) <==> StandsAt(haystack, needle, i)
  {
    if 0 <= i && i + |needle| <= |haystack| {
      var s := haystack[i..i + |needle|];
      assert forall j :: 0 <= j < |needle| ==> s[j] == haystack[i + j];
      if StandsAt(haystack, needle, i) { assert s == needle; }
    }
  }

  lemma MatchIsHit(command: string, patterns: seq<string>)
    ensures MatchesSome(command, patterns) <==> Hits(Tokenize(command), patterns)
  {
    hide Tokenize;
    var c := Tokenize(command);
    forall needle: seq<string>, i ensures SliceAt(c, needle, i) <==> StandsAt(c, needle, i) { SliceStands(c, needle, i); }
    hide SliceAt, StandsAt;
    if MatchesSome(command, patterns) {
      var k :| 0 <= k < |patterns| && ContainsSlice(c, Tokenize(patterns[k]));
      var i :| 0 <= i <= |c| - |Tokenize(patterns[k])| && SliceAt(c, Tokenize(patterns[k]), i);
      assert StandsAt(c, Tokenize(patterns[k]), i);
    }
    if Hits(c, patterns) {
      var k, i :| 0 <= k < |patterns| && 0 <= i <= |c| && Tokenize(patterns[k]) != [] && StandsAt(c, Tokenize(patterns[k]), i);
      StandsWithin(c, Tokenize(patterns[k]), i);
      assert SliceAt(c, Tokenize(patterns[k]), i);
      assert ContainsSlice(c, Tokenize(patterns[k]));
    }
  }

  lemma StandsWithin(command: seq<string>, needle: seq<string>, i: int)
    requires StandsAt(command, needle, i)
    ensures 0 <= i <= |command| - |needle|
  {
  }

  /** Each verdict, told by the tokens alone: a deny rule comes before an admin rule, and
      only what no rule hits is allowed. */
  lemma VerdictIff(command: string, deny: seq<string>, admin: seq<string>)
    ensures var v, c := CheckCommand(command, deny, admin), Tokenize(command);
      && (v == Deny("command_denied") <==> Hits(c, deny))
      && (v == RequireAdmin("admin_required") <==> !Hits(c, deny) && Hits(c, admin))
      && (v == Allow <==> !Hits(c, deny) && !Hits(c, admin))
  {
    MatchIsHit(command, deny);
    MatchIsHit(command, admin);
    hide Hits, MatchesSome;
  }

  function Severity(v: CommandDecision): nat {
    match v
    case Allow => 0
    case RequireAdmin(_) => 1
    case Deny(_) => 2
  }

  lemma HitsEmbed(before: seq<string>, command: seq<string>, after: seq<string>, patterns: seq<string>)
    requires Hits(command, patterns)
    ensures Hits(before + command + after, patterns)
  {
    hide Tokenize;
    var k, i :| 0 <= k < |patterns| && 0 <= i <= |command| &&
                Tokenize(patterns[k]) != [] && StandsAt(command, Tokenize(patterns[k]), i);
    StandsEmbed(before, command, after, Tokenize(patterns[k]), i);
  }

  lemma StandsEmbed(before: seq<string>, command: seq<string>, after: seq<string>, needle: seq<string>, i: int)
    requires StandsAt(command, needle, i)
    ensures StandsAt(before + command + after, needle, |before| + i)
  {
    var whole := before + command + after;
    forall j | 0 <= j < |needle| ensures whole[|before| + i + j] == needle[j] { assert command[i + j] == needle[j]; }
  }

  lemma SeverityByTokens(command: string, deny: seq<string>, admin: seq<string>)
    ensures Severity(CheckCommand(command, deny, admin)) ==
      if Hits(Tokenize(command), deny) then 2 else if Hits(Tokenize(command), admin) then 1 else 0
  {
    VerdictIff(command, deny, admin);
    hide Tokenize, Hits, CheckCommand;
  }

  lemma SameTokensSameVerdict(command: string, respelled: string, deny: seq<string>, admin: seq<string>)
    requires Tokenize(command) == Tokenize(respelled)
    ensures CheckCommand(respelled, deny, admin) == CheckCommand(command, deny, admin)
  {
    hide Tokenize, ContainsSlice;
  }

  /** A command set off with white space within a longer one. */
  lemma EmbeddedTokens(before: string, command: string, after: string)
    requires Closed(before) && Closed(command)
    ensures Tokenize(before + " " + (command + " " + after)) == Tokenize(before) + Tokenize(command) + Tokenize(after)
  {
    hide Tokenize, Closed;
    assert Blank(" ");
    TokensConcat(command, " ", after);
    TokensConcat(before, " ", command + " " + after);
  }

  /** In every spelling of its words, and set off with white space within any longer
      command, a command is judged at least as severely. */
  lemma EmbeddingNeverHelps(command: string, ws: seq<seq<Piece>>, before: string, after: string, deny: seq<string>, admin: seq<string>)
    requires forall i :: 0 <= i < |ws| ==> ProperWord(ws[i])
    requires Tokenize(command) == Contents(ws) && Closed(before)
    ensures CheckCommand(SpellAll(ws), deny, admin) == CheckCommand(command, deny, admin)
    ensures Severity(CheckCommand(before + " " + (SpellAll(ws) + " " + after), deny, admin))
         >= Severity(CheckCommand(command, deny, admin))
  {
    hide *;
    AnySpelling(ws);
    SpellAllClosed(ws);
    SameTokensSameVerdict(command, SpellAll(ws), deny, admin);
    EmbeddedTokens(before, SpellAll(ws), after);
    SeverityByTokens(command, deny, admin);
    SeverityByTokens(before + " " + (SpellAll(ws) + " " + after), deny, admin);
    if Hits(Tokenize(command), deny) { HitsEmbed(Tokenize(before), Tokenize(command), Tokenize(after), deny); }
    if Hits(Tokenize(command), admin) { HitsEmbed(Tokenize(before), Tokenize(command), Tokenize(after), admin); }
  }
}
