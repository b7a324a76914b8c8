/** `JSON.stringify` without indentation, for the values messages are made of.
    Control characters come out escaped, as section 7 of RFC 8259 demands, so
    that an encoded message is one line. */
module Json {
  import opened Basics
  import opened JsonlModel

  datatype Field = Field(name: string, value: Value)

  datatype Value =
    | Null
    | Bool(b: bool)
    | Number(n: int)
    | Text(s: string)
    | List(items: seq<Value>)
    | Object(fields: seq<Field>)

  function HexDigit(n: nat): char
    requires n < 16
  {
    "0123456789abcdef"[n]
  }

  function Escape(c: char): string {
    if c == '"' then "\\\""
    else if c == '\\' then "\\\\"
    else if c as int == 0x08 then "\\b"
    else if c as int == 0x0C then "\\f"
    else if c == '\n' then "\\n"
    else if c == '\r' then "\\r"
    else if c == '\t' then "\\t"
    else if c as int < 0x20 then "\\u00" + [HexDigit(c as int / 16), HexDigit(c as int % 16)]
    else [c]
  }

  function Escaped(s: string): string { if s == "" then "" else Escape(s[0]) + Escaped(s[1..]) }

  function Quote(s: string): string { "\"" + Escaped(s) + "\"" }

  function Show(v: Value): string
    decreases v, 1
  {
    match v
    case Null => "null"
    case Bool(b) => if b then "true" else "false"
    case Number(n) => ShowInt(n)
    case Text(s) => Quote(s)
    case List(items) => "[" + ShowItems(items) + "]"
    case Object(fields) => "{" + ShowFields(fields) + "}"
  }

  function ShowItems(items: seq<Value>): string
    decreases items, 0
  {
    if items == [] then ""
    else if |items| == 1 then Show(items[0])
    else Show(items[0]) + "," + ShowItems(items[1..])
  }

  function ShowFields(fields: seq<Field>): string
    decreases fields, 0
  {
    if fields == [] then ""
    else
      var f := fields[0];
      var shown := Quote(f.name) + ":" + Show(f.value);
      if |fields| == 1 then shown else shown + "," + ShowFields(fields[1..])
  }

  /** No control character at all, newlines included. */
  predicate Printable(s: string) { forall i :: 0 <= i < |s| ==> s[i] as int >= 0x20 }

  lemma {:induction false} EscapedPrintable(s: string)
    ensures Printable(Escaped(s))
  {
    if s != "" {
      EscapedPrintable(s[1..]);
      assert Printable(Escape(s[0]));
    }
  }

  lemma ShowIntShape(n: int)
    ensures var d := ShowInt(n);
      d != "" && (forall i :: 0 <= i < |d| ==> d[i] == '-' || '0' <= d[i] <= '9')
  {
    DigitsShape(if n < 0 then -n else n);
  }

  lemma {:induction false} ShowPrintable(v: Value)
    ensures Printable(Show(v))
    decreases v, 1
  {
    match v
    case Null =>
    case Bool(b) =>
    case Number(n) => ShowIntShape(n);
    case Text(s) => EscapedPrintable(s);
    case List(items) => ItemsPrintable(items);
    case Object(fields) => FieldsPrintable(fields);
  }

  lemma {:induction false} ItemsPrintable(items: seq<Value>)
    ensures Printable(ShowItems(items))
    decreases items, 0
  {
    if items != [] {
      ShowPrintable(items[0]);
      if |items| > 1 { ItemsPrintable(items[1..]); }
    }
  }

  lemma {:induction false} FieldsPrintable(fields: seq<Field>)
    ensures Printable(ShowFields(fields))
    decreases fields, 0
  {
    if fields != [] {
      EscapedPrintable(fields[0].name);
      ShowPrintable(fields[0].value);
      if |fields| > 1 { FieldsPrintable(fields[1..]); }
    }
  }

  /** An encoded value is one non-blank line with nothing to trim. */
  lemma ShowIsFramed(v: Value)
    ensures FramedText(Show(v))
  {
    var s := Show(v);
    ShowPrintable(v);
    if v.Number? { ShowIntShape(v.n); }
    forall i | 0 <= i < |s| ensures s[i] != '\n' {}
  }

  /** Given only that parsing undoes stringifying for the messages sent: any
      chunking of the encoded messages decodes to them in order. */
  lemma MessagesSurviveChunking(parse: string -> Option<Value>, vs: seq<Value>, chunks: seq<string>)
    requires forall i :: 0 <= i < |vs| ==> parse(Show(vs[i])) == Some(vs[i])
    requires Concat(chunks) == EncodeAll(Show, vs)
    ensures PushAll("", chunks, parse) == (Some(vs), "")
  {
    forall i | 0 <= i < |vs| ensures FramedText(Show(vs[i])) { ShowIsFramed(vs[i]); }
    RoundTrip(Show, parse, vs, chunks);
  }
}
