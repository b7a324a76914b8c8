/** JSONL framing: one JSON value per line, arriving in chunks that respect no
    line boundary. */
module JsonlModel {
  import opened Basics

  // ---- lines ----------------------------------------------------------

  /** Position of the first newline at or after `start`, or the length. */
  function NewlineFrom(text: string, start: nat): (i: nat)
    requires start <= |text|
    ensures start <= i <= |text|
    ensures forall k :: start <= k < i ==> text[k] != '\n'
    ensures i < |text| ==> text[i] == '\n'
    decreases |text| - start
  {
    if start == |text| then start else if text[start] == '\n' then start else NewlineFrom(text, start + 1)
  }

  /** The terminated lines of a text. */
  function Lines(text: string): seq<string>
    decreases |text|
  {
    var i := NewlineFrom(text, 0);
    if i == |text| then [] else [text[..i]] + Lines(text[i + 1..])
  }

  /** What follows the last newline. */
  function Rest(text: string): string
    decreases |text|
  {
    var i := NewlineFrom(text, 0);
    if i == |text| then text else Rest(text[i + 1..])
  }

  predicate OneLine(text: string) { '\n' !in text }

  lemma NewlineAt(a: string, b: string)
    requires OneLine(a)
    ensures NewlineFrom(a + "\n" + b, 0) == |a|
    ensures (a + "\n" + b)[..|a|] == a && (a + "\n" + b)[|a| + 1..] == b
  {
    var w := a + "\n" + b;
    assert w[|a|] == '\n';
    forall k | 0 <= k < |a| ensures w[k] != '\n' { assert a[k] in a; }
  }

  lemma LinesCons(a: string, b: string)
    requires OneLine(a)
    ensures Lines(a + "\n" + b) == [a] + Lines(b) && Rest(a + "\n" + b) == Rest(b)
  {
    NewlineAt(a, b);
  }

  lemma NoLines(a: string)
    requires OneLine(a)
    ensures Lines(a) == [] && Rest(a) == a
  {
    forall k | 0 <= k < |a| ensures a[k] != '\n' { assert a[k] in a; }
  }

  lemma NoNewline(x: string)
    requires NewlineFrom(x, 0) == |x|
    ensures OneLine(x)
  {
  }

  lemma CutAtNewline(x: string, y: string, i: nat)
    requires i < |x| && i == NewlineFrom(x, 0)
    ensures var a, b := x[..i], x[i + 1..];
      OneLine(a) && x == a + "\n" + b && x + y == a + "\n" + (b + y)
  {
  }

  /** The leftover of a text, with more text after it, goes on where the text left off. */
  lemma {:induction false} SplitConcat(x: string, y: string)
    ensures Lines(x + y) == Lines(x) + Lines(Rest(x) + y)
    ensures Rest(x + y) == Rest(Rest(x) + y)
    decreases |x|
  {
    hide Lines, Rest, NewlineFrom, OneLine;
    var i := NewlineFrom(x, 0);
    if i < |x| {
      var a, b := x[..i], x[i + 1..];
      CutAtNewline(x, y, i);
      LinesCons(a, b);
      LinesCons(a, b + y);
      SplitConcat(b, y);
      var l, m := Lines(b), Lines(Rest(b) + y);
      assert [a] + (l + m) == [a] + l + m;
    } else {
      assert OneLine(x) by { NoNewline(x); }
      NoLines(x);
      assert [] + Lines(x + y) == Lines(x + y);
    }
  }

  lemma {:induction false} RestOneLine(x: string)
    ensures OneLine(Rest(x))
    decreases |x|
  {
    var i := NewlineFrom(x, 0);
    if i < |x| { RestOneLine(x[i + 1..]); }
  }

  // ---- decoding -------------------------------------------------------

  function TrimStart(s: string): string { if s != [] && IsSpace(s[0]) then TrimStart(s[1..]) else s }

  function TrimEnd(s: string): string { if s != [] && IsSpace(s[|s| - 1]) then TrimEnd(s[..|s| - 1]) else s }

  function Trim(s: string): string { TrimEnd(TrimStart(s)) }

  /** The values of the lines, blank ones skipped; none if some line does not parse. */
  function Parsed<V>(lines: seq<string>, parse: string -> Option<V>): Option<seq<V>> {
    if lines == [] then Some([])
    else
      var t := Trim(lines[0]);
      var rest := Parsed(lines[1..], parse);
      if t == "" then rest
      else if parse(t).None? || rest.None? then None
      else Some([parse(t).value] + rest.value)
  }

  lemma {:induction false} ParsedConcat<V>(a: seq<string>, b: seq<string>, parse: string -> Option<V>)
    ensures Parsed(a + b, parse) ==
      if Parsed(a, parse).None? || Parsed(b, parse).None? then None
      else Some(Parsed(a, parse).value + Parsed(b, parse).value)
  {
    if a == [] {
      assert a + b == b;
      if Parsed(b, parse).Some? { assert [] + Parsed(b, parse).value == Parsed(b, parse).value; }
    } else {
      assert (a + b)[1..] == a[1..] + b && (a + b)[0] == a[0];
      ParsedConcat(a[1..], b, parse);
      var t, p, q := Trim(a[0]), Parsed(a[1..], parse), Parsed(b, parse);
      if t != "" && parse(t).Some? && p.Some? && q.Some? {
        assert [parse(t).value] + (p.value + q.value) == ([parse(t).value] + p.value) + q.value;
      }
    }
  }

  /** A push of `text` on the leftover `buffer`: the values, or none for a throw,
      and the new leftover. A throw loses the rest of the chunk. */
  function Push<V>(buffer: string, text: string, parse: string -> Option<V>): (Option<seq<V>>, string) {
    var r := Parsed(Lines(buffer + text), parse);
    (r, if r.None? then "" else Rest(buffer + text))
  }

  function Concat(chunks: seq<string>): string { if chunks == [] then "" else chunks[0] + Concat(chunks[1..]) }

  /** Chunk after chunk, until one throws. */
  function PushAll<V>(buffer: string, chunks: seq<string>, parse: string -> Option<V>): (Option<seq<V>>, string)
    decreases |chunks|
  {
    if chunks == [] then (Some([]), buffer)
    else
      var (first, left) := Push(buffer, chunks[0], parse);
      if first.None? then (None, "")
      else
        var (more, last) := PushAll(left, chunks[1..], parse);
        if more.None? then (None, "") else (Some(first.value + more.value), last)
  }

  /** However a text is cut into chunks, the decoder yields the same values and
      leftover as for the whole text at once, or throws if and only if that does. */
  lemma {:induction false} ChunkingDoesNotMatter<V>(buffer: string, chunks: seq<string>, parse: string -> Option<V>)
    requires OneLine(buffer)
    ensures PushAll(buffer, chunks, parse) == Push(buffer, Concat(chunks), parse)
    decreases |chunks|
  {
    if chunks == [] {
      assert buffer + "" == buffer;
      NoLines(buffer);
    } else {
      var x, y := buffer + chunks[0], Concat(chunks[1..]);
      assert buffer + Concat(chunks) == x + y;
      SplitConcat(x, y);
      ParsedConcat(Lines(x), Lines(Rest(x) + y), parse);
      RestOneLine(x);
      ChunkingDoesNotMatter(Rest(x), chunks[1..], parse);
    }
  }

  lemma OneLineParsed<V>(line: string, rest: seq<string>, parse: string -> Option<V>)
    requires FramedText(line)
    ensures Parsed([line] + rest, parse) ==
      if parse(line).None? || Parsed(rest, parse).None? then None else Some([parse(line).value] + Parsed(rest, parse).value)
  {
    assert ([line] + rest)[1..] == rest;
    assert Trim(line) == line;
  }

  lemma PushFirstLine<V>(line: string, text: string, parse: string -> Option<V>)
    requires FramedText(line)
    ensures var (r, s) := (Push("", line + "\n" + text, parse), Push("", text, parse));
      r == if parse(line).None? || s.0.None? then (None, "") else (Some([parse(line).value] + s.0.value), s.1)
  {
    LinesCons(line, text);
    OneLineParsed(line, Lines(text), parse);
    assert "" + (line + "\n" + text) == line + "\n" + text && "" + text == text;
  }

  lemma PushNothing<V>(parse: string -> Option<V>)
    ensures Push("", "", parse) == (Some([]), "")
  {
    NoLines("");
    assert "" + "" == "";
  }

  /** After a throw the cut does matter: a bad line takes the rest of its own
      chunk with it, but not a later chunk. */
  lemma ThrowLosesChunk<V>(parse: string -> Option<V>, v: V)
    requires parse("x") == None && parse("1") == Some(v)
    ensures Push("", "x" + "\n" + ("1" + "\n" + ""), parse) == (None, "")
    ensures Push("", "x" + "\n" + "", parse) == (None, "") && Push("", "1" + "\n" + "", parse) == (Some([v]), "")
  {
    PushNothing(parse);
    PushFirstLine("1", "", parse);
    PushFirstLine("x", "", parse);
    PushFirstLine("x", "1" + "\n" + "", parse);
    assert [v] + [] == [v];
  }

  // ---- round trip -----------------------------------------------------

  /** These messages are fit for framing: one line each, nothing to trim, read back as themselves. */
  predicate Framed<V(==)>(show: V -> string, parse: string -> Option<V>, vs: seq<V>) {
    forall i :: 0 <= i < |vs| ==> FramedText(show(vs[i])) && parse(show(vs[i])) == Some(vs[i])
  }

  predicate FramedText(s: string) { OneLine(s) && s != "" && !IsSpace(s[0]) && !IsSpace(s[|s| - 1]) }

  function EncodeJsonl<V>(show: V -> string, v: V): string { show(v) + "\n" }

  function EncodeAll<V>(show: V -> string, vs: seq<V>): string {
    if vs == [] then "" else EncodeJsonl(show, vs[0]) + EncodeAll(show, vs[1..])
  }

  lemma {:induction false} EncodedLines<V>(show: V -> string, parse: string -> Option<V>, vs: seq<V>)
    requires Framed(show, parse, vs)
    ensures Parsed(Lines(EncodeAll(show, vs)), parse) == Some(vs) && Rest(EncodeAll(show, vs)) == ""
  {
    if vs == [] {
      NoLines("");
    } else {
      var a, b := show(vs[0]), EncodeAll(show, vs[1..]);
      assert FramedText(a);
      EncodedLines(show, parse, vs[1..]);
      LinesCons(a, b);
      assert EncodeAll(show, vs) == a + "\n" + b;
      OneLineParsed(a, Lines(b), parse);
      assert [vs[0]] + vs[1..] == vs;
    }
  }

  /** Any chunking of encoded messages decodes to the messages, with nothing left over. */
  lemma RoundTrip<V>(show: V -> string, parse: string -> Option<V>, vs: seq<V>, chunks: seq<string>)
    requires Framed(show, parse, vs) && Concat(chunks) == EncodeAll(show, vs)
    ensures PushAll("", chunks, parse) == (Some(vs), "")
  {
    ChunkingDoesNotMatter("", chunks, parse);
    assert "" + Concat(chunks) == Concat(chunks);
    EncodedLines(show, parse, vs);
  }

  // ---- white space around messages ------------------------------------

  /** White space that stays on its line. */
  predicate Padding(s: string) { OneLine(s) && forall i :: 0 <= i < |s| ==> IsSpace(s[i]) }

  /** Nothing, or a text that neither starts nor ends with white space. */
  predicate Bare(s: string) { s == "" || (!IsSpace(s[0]) && !IsSpace(s[|s| - 1])) }

  lemma {:induction false} TrimStartIs(pre: string, s: string)
    requires (forall i :: 0 <= i < |pre| ==> IsSpace(pre[i])) && (s == "" || !IsSpace(s[0]))
    ensures TrimStart(pre + s) == s
  {
    if pre == "" {
      assert pre + s == s;
    } else {
      assert (pre + s)[1..] == pre[1..] + s;
      TrimStartIs(pre[1..], s);
    }
  }

  lemma {:induction false} TrimEndIs(s: string, post: string)
    requires (forall i :: 0 <= i < |post| ==> IsSpace(post[i])) && (s == "" || !IsSpace(s[|s| - 1]))
    ensures TrimEnd(s + post) == s
  {
    if post == "" {
      assert s + post == s;
    } else {
      assert (s + post)[..|s + post| - 1] == s + post[..|post| - 1];
      TrimEndIs(s, post[..|post| - 1]);
    }
  }

  /** Trimming takes off the white space at both ends and nothing else. */
  lemma TrimIs(pre: string, s: string, post: string)
    requires (forall i :: 0 <= i < |pre| ==> IsSpace(pre[i])) && (forall i :: 0 <= i < |post| ==> IsSpace(post[i])) && Bare(s)
    ensures Trim(pre + s + post) == s
  {
    if s == "" {
      assert pre + s + post == (pre + post) + "";
      TrimStartIs(pre + post, "");
    } else {
      assert pre + s + post == pre + (s + post);
      TrimStartIs(pre, s + post);
      TrimEndIs(s, post);
    }
  }

  /** A line of a stream: white space alone, or a message with white space around it. */
  datatype Line<V> = Gap(ws: string) | Message(pre: string, v: V, post: string)

  predicate LineOk<V(==)>(show: V -> string, parse: string -> Option<V>, line: Line<V>) {
    match line
    case Gap(ws) => Padding(ws)
    case Message(pre, v, post) => Padding(pre) && Padding(post) && FramedText(show(v)) && parse(show(v)) == Some(v)
  }

  function LineText<V>(show: V -> string, line: Line<V>): string {
    match line
    case Gap(ws) => ws
    case Message(pre, v, post) => pre + show(v) + post
  }

  function StreamText<V>(show: V -> string, lines: seq<Line<V>>): string {
    if lines == [] then "" else LineText(show, lines[0]) + "\n" + StreamText(show, lines[1..])
  }

  /** The messages among the lines, in order. */
  function Sent<V>(lines: seq<Line<V>>): seq<V> {
    if lines == [] then []
    else (match lines[0] case Gap(_) => [] case Message(_, v, _) => [v]) + Sent(lines[1..])
  }

  lemma LineTrims<V>(show: V -> string, parse: string -> Option<V>, line: Line<V>)
    requires LineOk(show, parse, line)
    ensures OneLine(LineText(show, line))
    ensures Trim(LineText(show, line)) == match line case Gap(_) => "" case Message(_, v, _) => show(v)
  {
    match line
    case Gap(ws) =>
      assert ws + "" + "" == ws;
      TrimIs(ws, "", "");
    case Message(pre, v, post) => TrimIs(pre, show(v), post);
  }

  lemma ParsedFirst<V>(line: string, rest: seq<string>, parse: string -> Option<V>)
    ensures Parsed([line] + rest, parse) ==
      var t, p := Trim(line), Parsed(rest, parse);
      if t == "" then p else if parse(t).None? || p.None? then None else Some([parse(t).value] + p.value)
  {
    assert ([line] + rest)[1..] == rest;
  }

  lemma {:induction false} PaddedLines<V>(show: V -> string, parse: string -> Option<V>, lines: seq<Line<V>>)
    requires forall i :: 0 <= i < |lines| ==> LineOk(show, parse, lines[i])
    ensures Parsed(Lines(StreamText(show, lines)), parse) == Some(Sent(lines)) && Rest(StreamText(show, lines)) == ""
  {
    if lines == [] {
      NoLines("");
    } else {
      hide Lines, Rest, Trim, Parsed;
      var a, b := LineText(show, lines[0]), StreamText(show, lines[1..]);
      PaddedLines(show, parse, lines[1..]);
      LineTrims(show, parse, lines[0]);
      LinesCons(a, b);
      ParsedFirst(a, Lines(b), parse);
      assert lines[0].Gap? ==> [] + Sent(lines[1..]) == Sent(lines[1..]);
    }
  }

  /** Blank lines and white space around the messages do not matter: any chunking of such
      a stream decodes to its messages. */
  lemma WhiteSpaceDoesNotMatter<V>(show: V -> string, parse: string -> Option<V>, lines: seq<Line<V>>, chunks: seq<string>)
    requires forall i :: 0 <= i < |lines| ==> LineOk(show, parse, lines[i])
    requires Concat(chunks) == StreamText(show, lines)
    ensures PushAll("", chunks, parse) == (Some(Sent(lines)), "")
  {
    ChunkingDoesNotMatter("", chunks, parse);
    assert "" + Concat(chunks) == Concat(chunks);
    PaddedLines(show, parse, lines);
  }
}
