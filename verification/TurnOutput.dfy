/** The turn output manager as a mutable object. */
module TurnOutput {
  import opened Basics
  import opened ImText
  import opened TurnOutputModel

  class TurnOutputManager {
    var outputs: map<string, Output>
    /** Every terminal body handed to the chat, in order. */
    var posted: seq<Posting>

    ghost function Now(): State
      reads this
    {
      State(outputs, posted)
    }

    constructor ()
      ensures Now() == Empty
    {
      outputs, posted := map[], [];
    }

    method OpenTurn(target: string, threadId: string, turnId: string, language: Language)
      modifies this`outputs
      ensures Now() == Apply(old(Now()), Open(threadId, turnId, target, language))
    {
      outputs := outputs[OutputKey(threadId, turnId) := Output(target, language, "")];
    }

    /** The `agent_message_delta` branch of `handle`. */
    method HandleDelta(threadId: string, turnId: string, deltaText: string) returns (known: bool)
      modifies this`outputs
      ensures known <==> OutputKey(threadId, turnId) in old(outputs)
      ensures Now() == Apply(old(Now()), Delta(threadId, turnId, deltaText))
    {
      var key := OutputKey(threadId, turnId);
      if key !in outputs { return false; }
      var state := outputs[key];
      state := state.(text := AppendImText(state.text, deltaText));
      outputs := outputs[key := state];
      return true;
    }

    /** The terminal branch of `handle`, and `interrupt`: the entry is gone before
        anything is sent. `chunks` are the messages of the posted body. */
    method HandleTerminal(threadId: string, turnId: string, ending: Ending) returns (known: bool, chunks: seq<string>)
      modifies this
      ensures known <==> OutputKey(threadId, turnId) in old(outputs)
      ensures Now() == Apply(old(Now()), Finish(threadId, turnId, ending))
      ensures known ==> |posted| == |old(posted)| + 1 && IsSplit(chunks, posted[|posted| - 1].body)
      ensures !known ==> chunks == []
    {
      var key := OutputKey(threadId, turnId);
      if key !in outputs { return false, []; }
      var state := outputs[key];
      outputs := outputs - {key};
      var body := TerminalBody(state.language, state.text, ending);
      chunks := SplitImText(body);
      posted := posted + [Posting(key, state.target, body)];
      known := true;
    }

    method ClearAll()
      modifies this`outputs
      ensures Now() == Apply(old(Now()), Clear)
    {
      outputs := map[];
    }
  }
}
