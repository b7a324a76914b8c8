/** The table of streaming turns, as a step function over values: which text each
    open turn has collected and what is posted when a turn ends. */
module TurnOutputModel {
  import opened Basics
  import opened ImText
  import NormalizerModel
  import NormalizerRuns

  datatype Language = English | Chinese

  datatype Ending = Completed | Failed | Interrupted

  /** An open turn: where it is shown and the text collected so far. */
  datatype Output = Output(target: string, language: Language, text: string)

  datatype Posting = Posting(key: string, target: string, body: string)

  /** `posted` is history: every terminal message in order. */
  datatype State = State(outputs: map<string, Output>, posted: seq<Posting>)

  const Empty := State(map[], [])

  datatype Op =
    | Open(threadId: string, turnId: string, target: string, language: Language)
    | Delta(threadId: string, turnId: string, text: string)
    | Finish(threadId: string, turnId: string, ending: Ending)
    | Clear

  /** The same key as the event queue's turn table uses. */
  function OutputKey(threadId: string, turnId: string): string { NormalizerModel.TurnKey(threadId, turnId) }

  // ---- steps ----------------------------------------------------------

  function EmptyTurnMessage(language: Language, ending: Ending): string {
    match (language, ending)
    case (English, Completed) => "Codex turn completed."
    case (English, Failed) => "Codex turn failed."
    case (English, Interrupted) => "Codex turn interrupted."
    case (Chinese, Completed) => "Codex \U{5DF2}\U{5B8C}\U{6210}\U{3002}"
    case (Chinese, Failed) => "Codex \U{6267}\U{884C}\U{5931}\U{8D25}\U{3002}"
    case (Chinese, Interrupted) => "Codex \U{5DF2}\U{505C}\U{6B62}\U{3002}"
  }

  function TerminalBody(language: Language, text: string, ending: Ending): string {
    if text == "" then EmptyTurnMessage(language, ending)
    else match ending
      case Completed => text
      case Failed => text + "\n\n[turn failed]"
      case Interrupted => text + "\n\n[turn interrupted]"
  }

  function OpenTurnOutput(s: State, threadId: string, turnId: string, target: string, language: Language): State {
    s.(outputs := s.outputs[OutputKey(threadId, turnId) := Output(target, language, "")])
  }

  function AppendDelta(s: State, threadId: string, turnId: string, text: string): State {
    var key := OutputKey(threadId, turnId);
    if key !in s.outputs then s
    else
      var o := s.outputs[key];
      s.(outputs := s.outputs[key := o.(text := AppendImText(o.text, text))])
  }

  /** A terminal event or an interrupt: forget the turn and post its body. */
  function FinishTurn(s: State, threadId: string, turnId: string, ending: Ending): State {
    var key := OutputKey(threadId, turnId);
    if key !in s.outputs then s
    else
      var o := s.outputs[key];
      State(s.outputs - {key}, s.posted + [Posting(key, o.target, TerminalBody(o.language, o.text, ending))])
  }

  function Apply(s: State, op: Op): State {
    match op
    case Open(t, u, target, language) => OpenTurnOutput(s, t, u, target, language)
    case Delta(t, u, text) => AppendDelta(s, t, u, text)
    case Finish(t, u, ending) => FinishTurn(s, t, u, ending)
    case Clear => s.(outputs := map[])
  }

  function Run(ops: seq<Op>): State {
    if ops == [] then Empty else Apply(Run(ops[..|ops| - 1]), ops[|ops| - 1])
  }

  // ---- what a single turn sees ----------------------------------------

  /** No turn of another thread named here can have the key of one of this thread's. */
  predicate ThreadsApart(ops: seq<Op>, threadId: string) {
    forall i :: 0 <= i < |ops| ==> ops[i].Clear? || NormalizerRuns.KeysApart(ops[i].threadId, threadId)
  }

  predicate AllApart(ops: seq<Op>) {
    forall i :: 0 <= i < |ops| ==> ops[i].Clear? || ThreadsApart(ops, ops[i].threadId)
  }

  predicate About(op: Op, threadId: string, turnId: string) {
    !op.Clear? && op.threadId == threadId && op.turnId == turnId
  }

  /** The steps of one turn, and the clears. */
  function OwnOps(ops: seq<Op>, threadId: string, turnId: string): seq<Op> {
    if ops == [] then []
    else
      var front, op := OwnOps(ops[..|ops| - 1], threadId, turnId), ops[|ops| - 1];
      if op.Clear? || About(op, threadId, turnId) then front + [op] else front
  }

  /** An open turn, told by its own steps alone: the opening and the deltas since. */
  datatype Story = Story(target: string, language: Language, deltas: seq<string>)

  function Told(ops: seq<Op>, threadId: string, turnId: string): Option<Story> {
    if ops == [] then None
    else
      var told, op := Told(ops[..|ops| - 1], threadId, turnId), ops[|ops| - 1];
      if op.Clear? then None
      else if !About(op, threadId, turnId) then told
      else match op
        case Open(_, _, target, language) => Some(Story(target, language, []))
        case Delta(_, _, text) =>
          if told.None? then None else Some(told.value.(deltas := told.value.deltas + [text]))
        case Finish(_, _, _) => None
  }

  function Postings(ops: seq<Op>): seq<Posting> {
    if ops == [] then []
    else
      var front, op := ops[..|ops| - 1], ops[|ops| - 1];
      if op.Finish? && Told(front, op.threadId, op.turnId).Some? then
        var st := Told(front, op.threadId, op.turnId).value;
        Postings(front) +
        [Posting(OutputKey(op.threadId, op.turnId), st.target, TerminalBody(st.language, Streamed(st.deltas), op.ending))]
      else Postings(front)
  }

  function PostedUnder(posted: seq<Posting>, key: string): seq<Posting> {
    if posted == [] then []
    else
      var front, p := PostedUnder(posted[..|posted| - 1], key), posted[|posted| - 1];
      if p.key == key then front + [p] else front
  }

  function CountOpens(ops: seq<Op>, threadId: string, turnId: string): nat {
    if ops == [] then 0
    else
      var op := ops[|ops| - 1];
      CountOpens(ops[..|ops| - 1], threadId, turnId) + if op.Open? && About(op, threadId, turnId) then 1 else 0
  }

  // ---- theorems -------------------------------------------------------

  predicate Tells(outputs: map<string, Output>, key: string, told: Option<Story>) {
    match told
    case None => key !in outputs
    case Some(st) => key in outputs && outputs[key] == Output(st.target, st.language, Streamed(st.deltas))
  }

  lemma KeyOfAnother(op: Op, threadId: string, turnId: string)
    requires !op.Clear? && NormalizerRuns.KeysApart(op.threadId, threadId)
    ensures OutputKey(op.threadId, op.turnId) == OutputKey(threadId, turnId) <==> About(op, threadId, turnId)
  {
    NormalizerRuns.TurnKeyApart(op.threadId, op.turnId, threadId, turnId);
  }

  lemma StreamedMore(deltas: seq<string>, text: string)
    ensures Streamed(deltas + [text]) == AppendImText(Streamed(deltas), text)
  {
    assert (deltas + [text])[..|deltas|] == deltas;
  }

  /** However many turns interleave, an open turn holds exactly the bounded
      concatenation of its own deltas since it was last opened, and no other turn
      is in the table. */
  lemma {:induction false} TextIsItsOwnDeltas(ops: seq<Op>, threadId: string, turnId: string)
    requires ThreadsApart(ops, threadId)
    ensures Tells(Run(ops).outputs, OutputKey(threadId, turnId), Told(ops, threadId, turnId))
  {
    if ops != [] {
      hide AppendImText, Streamed, OutputKey, NormalizerRuns.KeysApart, TerminalBody;
      var front, op := ops[..|ops| - 1], ops[|ops| - 1];
      assert ThreadsApart(front, threadId);
      TextIsItsOwnDeltas(front, threadId, turnId);
      if !op.Clear? {
        KeyOfAnother(op, threadId, turnId);
        var told := Told(front, threadId, turnId);
        if op.Delta? && told.Some? {
          StreamedMore(told.value.deltas, op.text);
        }
        assert Streamed([]) == "" by { NothingStreamed(); }
      }
    }
  }

  lemma NothingAgrees(key: string)
    ensures Agree(Empty, Empty, key)
  {
  }

  lemma NothingStreamed()
    ensures Streamed([]) == ""
  {
  }

  lemma FrontApart(ops: seq<Op>)
    requires AllApart(ops) && ops != []
    ensures AllApart(ops[..|ops| - 1])
  {
    var front := ops[..|ops| - 1];
    forall i | 0 <= i < |front| && !front[i].Clear? ensures ThreadsApart(front, front[i].threadId) {
      assert ThreadsApart(ops, ops[i].threadId);
    }
  }

  /** What is posted, over a whole run: one message per ending of an open turn,
      to that turn's chat, made from that turn's own deltas. */
  lemma {:induction false} PostedIsTold(ops: seq<Op>)
    requires AllApart(ops)
    ensures Run(ops).posted == Postings(ops)
  {
    if ops != [] {
      hide AppendImText, Streamed, OutputKey, NormalizerRuns.KeysApart, TerminalBody;
      var front, op := ops[..|ops| - 1], ops[|ops| - 1];
      FrontApart(ops);
      PostedIsTold(front);
      if op.Finish? {
        assert ThreadsApart(front, op.threadId);
        TextIsItsOwnDeltas(front, op.threadId, op.turnId);
      }
    }
  }

  /** The two states hold the same about the turn with this key, the second nothing posted about another. */
  predicate Agree(s: State, alone: State, key: string) {
    && (key in s.outputs <==> key in alone.outputs)
    && (key in s.outputs ==> s.outputs[key] == alone.outputs[key])
    && PostedUnder(s.posted, key) == alone.posted
  }

  predicate Concerns(op: Op, key: string) { op.Clear? || OutputKey(op.threadId, op.turnId) == key }

  lemma StepAgrees(s: State, alone: State, op: Op, key: string)
    requires Agree(s, alone, key)
    ensures Agree(Apply(s, op), if Concerns(op, key) then Apply(alone, op) else alone, key)
  {
    hide AppendImText, OutputKey, TerminalBody;
    var t := Apply(s, op);
    if t.posted != s.posted {
      assert t.posted[..|t.posted| - 1] == s.posted;
    }
  }

  /** A turn ends up with the same text, and posts the same messages, as if it
      had been the only one. */
  lemma {:induction false} TurnsDoNotInterfere(ops: seq<Op>, threadId: string, turnId: string)
    requires ThreadsApart(ops, threadId)
    ensures Agree(Run(ops), Run(OwnOps(ops, threadId, turnId)), OutputKey(threadId, turnId))
  {
    if ops == [] {
      NothingAgrees(OutputKey(threadId, turnId));
    } else {
      hide Apply, Agree, OutputKey, NormalizerRuns.KeysApart;
      var front, op := ops[..|ops| - 1], ops[|ops| - 1];
      assert ThreadsApart(front, threadId);
      TurnsDoNotInterfere(front, threadId, turnId);
      var own := OwnOps(front, threadId, turnId);
      assert (own + [op])[..|own|] == own;
      if !op.Clear? {
        KeyOfAnother(op, threadId, turnId);
      }
      StepAgrees(Run(front), Run(own), op, OutputKey(threadId, turnId));
    }
  }

  /** Each opening is answered at most once: a turn has posted no more messages
      than it was opened, and one fewer while it is open. */
  lemma {:induction false} EachOpeningPostsOnce(ops: seq<Op>, threadId: string, turnId: string)
    requires ThreadsApart(ops, threadId)
    ensures var key := OutputKey(threadId, turnId);
      |PostedUnder(Run(ops).posted, key)| + (if key in Run(ops).outputs then 1 else 0) <= CountOpens(ops, threadId, turnId)
  {
    if ops != [] {
      hide AppendImText, OutputKey, NormalizerRuns.KeysApart, TerminalBody;
      var front, op := ops[..|ops| - 1], ops[|ops| - 1];
      assert ThreadsApart(front, threadId);
      EachOpeningPostsOnce(front, threadId, turnId);
      if !op.Clear? {
        KeyOfAnother(op, threadId, turnId);
      }
      var posted, more := Run(front).posted, Run(ops).posted;
      if more != posted {
        assert more[..|more| - 1] == posted;
      }
    }
  }

  /** End to end: the messages of a completed turn, continuation prefixes taken
      off, are the concatenation of its deltas if and only if that has at most
      22740 characters. */
  lemma CompletedTurnArrivesIff(ops: seq<Op>, threadId: string, turnId: string, chunks: seq<string>)
    requires ThreadsApart(ops, threadId)
    requires var told := Told(ops, threadId, turnId); told.Some? && Joined(told.value.deltas) != ""
    requires var after := FinishTurn(Run(ops), threadId, turnId, Completed).posted;
      after != [] && IsSplit(chunks, after[|after| - 1].body)
    ensures var whole := Joined(Told(ops, threadId, turnId).value.deltas);
      Reassembled(chunks) == whole <==> |whole| <= 22740
  {
    hide AppendImText, Streamed, Joined, OutputKey, NormalizerRuns.KeysApart, Prefixes, Reassembled, ChunkCount, Told, Run;
    TextIsItsOwnDeltas(ops, threadId, turnId);
    var deltas := Told(ops, threadId, turnId).value.deltas;
    StreamedBounds(deltas);
    var body := Streamed(deltas);
    SplitLosesNothingIff(body, chunks);
    if |body| > 22740 {
      SplitTruncates(body, chunks);
    }
  }

  /** The word for how a turn ended. */
  function EndingWord(language: Language, ending: Ending): string {
    match ending
    case Completed => if language.English? then "completed" else "\U{5DF2}\U{5B8C}\U{6210}"
    case Failed => if language.English? then "failed" else "\U{6267}\U{884C}\U{5931}\U{8D25}"
    case Interrupted => if language.English? then "interrupted" else "\U{5DF2}\U{505C}\U{6B62}"
  }

  /** The body is the text, with the ending told behind it unless the turn completed; of a
      turn without text only the ending is told. */
  predicate Shows(language: Language, ending: Ending, text: string, body: string) {
    if text == "" then
      body == if language.English? then "Codex turn " + EndingWord(language, ending) + "."
              else "Codex " + EndingWord(language, ending) + "\U{3002}"
    else
      && text <= body
      && body[|text|..] == if ending.Completed? then "" else "\n\n[turn " + EndingWord(English, ending) + "]"
  }

  /** A turn that ends posts one message to its chat, with its text and how it ended, and
      is forgotten. */
  lemma EndingIsShown(ops: seq<Op>, threadId: string, turnId: string, ending: Ending)
    requires ThreadsApart(ops, threadId) && Told(ops, threadId, turnId).Some?
    ensures var st, s, t := Told(ops, threadId, turnId).value, Run(ops), Run(ops + [Finish(threadId, turnId, ending)]);
      && |t.posted| == |s.posted| + 1 && t.posted[..|s.posted|] == s.posted
      && var p := t.posted[|s.posted|];
      && p.key == OutputKey(threadId, turnId) && p.target == st.target
      && Shows(st.language, ending, Streamed(st.deltas), p.body)
      && t.outputs == s.outputs - {OutputKey(threadId, turnId)}
  {
    TextIsItsOwnDeltas(ops, threadId, turnId);
    assert (ops + [Finish(threadId, turnId, ending)])[..|ops|] == ops;
    var st := Told(ops, threadId, turnId).value;
    BodyShows(st.language, Streamed(st.deltas), ending);
    hide TerminalBody, Shows, Streamed, OutputKey, Told;
  }

  lemma BodyShows(language: Language, text: string, ending: Ending)
    ensures Shows(language, ending, text, TerminalBody(language, text, ending))
  {
    var body := TerminalBody(language, text, ending);
    if text != "" { assert body[|text|..] == if ending.Completed? then "" else "\n\n[turn " + EndingWord(English, ending) + "]"; }
  }

  predicate OnlyThreads(ops: seq<Op>, a: string, c: string) {
    forall i :: 0 <= i < |ops| ==> !ops[i].Clear? ==> ops[i].threadId in {a, c}
  }

  /** Turns of two threads keep their texts apart in every run if and only if
      neither id continues the other behind a NUL. */
  lemma NulMixesTurns(a: string, c: string)
    requires a != c
    ensures (forall ops, b :: OnlyThreads(ops, a, c) ==> Tells(Run(ops).outputs, OutputKey(a, b), Told(ops, a, b)))
      <==> NormalizerRuns.KeysApart(a, c)
  {
    hide OutputKey;
    if NormalizerRuns.KeysApart(a, c) {
      forall ops, b | OnlyThreads(ops, a, c) ensures Tells(Run(ops).outputs, OutputKey(a, b), Told(ops, a, b)) {
        TextIsItsOwnDeltas(ops, a, b);
      }
    } else {
      NormalizerRuns.TurnKeyCollision(a, c);
      var b, d :| NormalizerModel.TurnKey(a, b) == NormalizerModel.TurnKey(c, d);
      assert OutputKey(a, b) == OutputKey(c, d) by { SameKeys(a, b, c, d); }
      MixedRun(a, b, c, d);
    }
  }

  lemma SameKeys(a: string, b: string, c: string, d: string)
    requires NormalizerModel.TurnKey(a, b) == NormalizerModel.TurnKey(c, d)
    ensures OutputKey(a, b) == OutputKey(c, d)
  {
  }

  /** One turn is opened, the other one's delta lands in it. */
  lemma MixedRun(a: string, b: string, c: string, d: string)
    requires a != c && OutputKey(a, b) == OutputKey(c, d)
    ensures exists ops :: OnlyThreads(ops, a, c) && !Tells(Run(ops).outputs, OutputKey(a, b), Told(ops, a, b))
  {
    hide OutputKey;
    var first, second := Open(a, b, "room", English), Delta(c, d, "x");
    var ops := [first, second];
    assert ops[..1] == [first] && [first][..0] == [];
    assert Run([first]) == Apply(Empty, first);
    assert AppendImText("", "x") == "x";
    assert Told([first], a, b) == Some(Story("room", English, []));
    assert Told(ops, a, b) == Some(Story("room", English, []));
    NothingStreamed();
    assert Run(ops).outputs[OutputKey(a, b)].text == "x";
    assert OnlyThreads(ops, a, c) && !Tells(Run(ops).outputs, OutputKey(a, b), Told(ops, a, b));
  }
}
