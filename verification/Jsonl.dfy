/** The JSONL decoder as a mutable object: the leftover is kept as the list of
    pieces it arrived in. */
module Jsonl {
  import opened Basics
  import opened JsonlModel

  datatype Pushed<V> = Values(out: seq<V>) | Threw(line: string)

  lemma {:induction false} ConcatSnoc(chunks: seq<string>, c: string)
    ensures Concat(chunks + [c]) == Concat(chunks) + c
  {
    if chunks == [] {
      assert [] + [c] == [c] && c + "" == c && "" + c == c;
    } else {
      assert (chunks + [c])[1..] == chunks[1..] + [c];
      ConcatSnoc(chunks[1..], c);
    }
  }

  class JsonlDecoder<V> {
    var pending: seq<string>
    const parse: string -> Option<V>

    ghost function Buffer(): string
      reads this
    {
      Concat(pending)
    }

    ghost predicate Valid()
      reads this
    {
      OneLine(Buffer())
    }

    constructor (parse: string -> Option<V>)
      ensures Valid() && Buffer() == "" && this.parse == parse
    {
      this.parse := parse;
      pending := [];
    }

    /** `indexOf` of a newline, from `start` on. */
    method IndexOfNewline(text: string, start: nat) returns (i: nat)
      requires start <= |text|
      ensures i == NewlineFrom(text, start)
    {
      i := start;
      while i < |text| && text[i] != '\n'
        invariant start <= i <= |text| && NewlineFrom(text, i) == NewlineFrom(text, start)
      {
        i := i + 1;
      }
    }

    method TakeLine(tail: string) returns (line: string)
      modifies this`pending
      ensures line == old(Buffer()) + tail && Buffer() == ""
    {
      if |pending| == 0 {
        assert "" + tail == tail;
        return tail;
      }
      ConcatSnoc(pending, tail);
      pending := pending + [tail];
      line := Concat(pending);
      pending := [];
    }

    /** The unterminated end of a chunk. */
    method KeepPiece(piece: string)
      modifies this`pending
      ensures Buffer() == old(Buffer()) + piece
    {
      ConcatSnoc(pending, piece);
      pending := pending + [piece];
    }

    /** Decodes the lines the chunk completes and keeps what follows them. */
    method PushChunk(text: string) returns (r: Pushed<V>)
      requires Valid()
      modifies this`pending
      ensures Valid()
      ensures var (values, left) := Push(old(Buffer()), text, parse);
        Buffer() == left && (values.Some? ==> r == Values(values.value)) && (values.None? ==> r.Threw?)
      ensures r.Threw? ==> r.line != "" && parse(r.line) == None
    {
      hide Push, Trim, NewlineFrom, Concat;
      ghost var goal := Push(Buffer(), text, parse);
      var out: seq<V> := [];
      var start := 0;
      assert text[0..] == text;
      PrependNothing(Buffer(), text, parse);
      while start < |text|
        invariant 0 <= start <= |text|
        invariant OneLine(Buffer())
        invariant goal == Prepend(out, Push(Buffer(), text[start..], parse))
        decreases |text| - start
      {
        var idx := IndexOfNewline(text, start);
        if idx == |text| {
          LastPiece(Buffer(), text, start, parse);
          PrependLast(out, Buffer() + text[start..]);
          KeepPiece(text[start..]);
          return Values(out);
        }
        NextLine(Buffer(), text, start, idx, parse);
        var line := TakeLine(text[start..idx]);
        start := idx + 1;
        var trimmed := Trim(line);
        if trimmed != "" {
          var v := parse(trimmed);
          if v.None? { return Threw(trimmed); }
          PrependTwice(out, v.value, Push("", text[start..], parse));
          out := out + [v.value];
        }
      }
      LastPiece(Buffer(), text, start, parse);
      assert Buffer() + text[start..] == Buffer();
      PrependLast(out, Buffer());
      return Values(out);
    }
  }

  /** Values decoded before `r`'s; a throw swallows them. */
  function Prepend<V>(out: seq<V>, r: (Option<seq<V>>, string)): (Option<seq<V>>, string) {
    if r.0.None? then (None, "") else (Some(out + r.0.value), r.1)
  }

  lemma PrependNothing<V>(buffer: string, text: string, parse: string -> Option<V>)
    ensures Prepend([], Push(buffer, text, parse)) == Push(buffer, text, parse)
  {
    var r := Push(buffer, text, parse);
    if r.0.Some? { assert [] + r.0.value == r.0.value; }
  }

  lemma PrependLast<V>(out: seq<V>, left: string)
    ensures Prepend(out, (Some([]), left)) == (Some(out), left)
  {
    assert out + [] == out;
  }

  lemma PrependTwice<V>(out: seq<V>, v: V, r: (Option<seq<V>>, string))
    ensures Prepend(out, Prepend([v], r)) == Prepend(out + [v], r)
  {
    if r.0.Some? { assert out + ([v] + r.0.value) == out + [v] + r.0.value; }
  }

  lemma ParsedCons<V>(line: string, lines: seq<string>, parse: string -> Option<V>)
    ensures var t, rest := Trim(line), Parsed(lines, parse);
      Parsed([line] + lines, parse) ==
        if t == "" then rest else if parse(t).None? || rest.None? then None else Some([parse(t).value] + rest.value)
  {
    assert ([line] + lines)[1..] == lines;
  }

  lemma SplitOff(buffer: string, text: string, start: nat, idx: nat)
    requires OneLine(buffer) && start <= idx < |text| && idx == NewlineFrom(text, start)
    ensures var line, rest := buffer + text[start..idx], text[idx + 1..];
      Lines(buffer + text[start..]) == [line] + Lines(rest) && Rest(buffer + text[start..]) == Rest(rest)
  {
    var line, rest := buffer + text[start..idx], text[idx + 1..];
    assert OneLine(line);
    assert buffer + text[start..] == line + "\n" + rest;
    LinesCons(line, rest);
  }

  /** The first line of what is left of a chunk, put behind the buffer. */
  lemma NextLine<V>(buffer: string, text: string, start: nat, idx: nat, parse: string -> Option<V>)
    requires OneLine(buffer) && start <= idx < |text| && idx == NewlineFrom(text, start)
    ensures var line, rest := Trim(buffer + text[start..idx]), Push("", text[idx + 1..], parse);
      Push(buffer, text[start..], parse) ==
        if line == "" then rest else if parse(line).None? then (None, "") else Prepend([parse(line).value], rest)
  {
    SplitOff(buffer, text, start, idx);
    ParsedCons(buffer + text[start..idx], Lines(text[idx + 1..]), parse);
    assert "" + text[idx + 1..] == text[idx + 1..];
  }

  lemma LastPiece<V>(buffer: string, text: string, start: nat, parse: string -> Option<V>)
    requires OneLine(buffer) && start <= |text| && NewlineFrom(text, start) == |text|
    ensures Push(buffer, text[start..], parse) == (Some([]), buffer + text[start..])
    ensures OneLine(buffer + text[start..])
  {
    NoLines(buffer + text[start..]);
  }
}
