/** The session state and one run of the chat script: clear, recreate the
    history, replay it, handle a submitted input, offer the download. */
module Chat {
  import opened Optional
  import opened Messages
  import opened Projection
  import opened Prompt
  import opened Typing

  /** What the model call did: returned the reply text, or raised. */
  datatype Outcome = Replied(text: string) | Raised(error: string)

  /** The session's single entry, the history; absent from a clear until the
      next run recreates it. */
  datatype SessionState = SessionState(history: Option<seq<Message>>)

  /** The effect of one input: the history afterwards, the request sent to the
      model (None when it was not called), the text handed to the typing
      effect, and whether a model error was shown. */
  datatype Turn = Turn(history: seq<Message>, request: Option<seq<Message>>, reply: string, failed: bool)

  /** What one run of the script shows: the replayed history, the echoed
      input, the turn, and the download (None when no button is offered). */
  datatype Page = Page(replay: seq<Bubble>, echoed: Option<string>, turn: Turn, download: Option<seq<Record>>)

  /** The clear button drops the history entry, whatever the session held.
      What a reader sees after a clear is stated by ClearThenRerun below. */
  function Clear(s: SessionState): (r: SessionState)
    ensures r.history.None?
  {
    SessionState(None)
  }

  /** The history a run works on: the stored one, or a new empty one when absent. */
  function CurrentHistory(s: SessionState): (h: seq<Message>)
    ensures s.history.None? ==> h == []
    ensures s.history.Some? ==> s.history == Some(h)
  {
    match s.history
    case Some(h) => h
    case None => []
  }

  /** One chat input. A falsy input (none, or "") calls nothing and changes
      nothing; any other input, whitespace included, sends the assembled
      request. A reply is recorded as the human input followed by the ai reply;
      a raised error is shown, records nothing and leaves the reply text "". */
  function SubmitTurn(history: seq<Message>, systemPrompt: string, input: Option<string>, outcome: Outcome): (t: Turn)
    ensures !Truthy(input) ==> t == Turn(history, None, "", false)
    ensures Truthy(input) ==> t.request == Some(Assemble(systemPrompt, history, input.value))
    ensures t.failed <==> Truthy(input) && outcome.Raised?
    ensures t.failed ==> t.reply == "" && t.history == history
    ensures history <= t.history && |t.history| <= |history| + 2
    ensures Truthy(input) && outcome.Replied? ==>
      t.reply == outcome.text && !t.failed &&
      t.history == history + [HumanMessage(input.value), AiMessage(outcome.text)]
  {
    if !Truthy(input) then Turn(history, None, "", false)
    else
      var request := Assemble(systemPrompt, history, input.value);
      match outcome
      case Replied(text) =>
        Turn(history + [HumanMessage(input.value), AiMessage(text)], Some(request), text, false)
      case Raised(_) =>
        Turn(history, Some(request), "", true)
  }

  /** One run of the script after the sidebar: recreate the history if absent,
      replay it, handle the input, and offer the export of the history as it
      stands after the turn, only when that history is non-empty. */
  function RunScript(s: SessionState, systemPrompt: string, input: Option<string>, outcome: Outcome): (r: (SessionState, Page))
    ensures r.1.turn == SubmitTurn(CurrentHistory(s), systemPrompt, input, outcome)
    ensures r.1.replay == Render(CurrentHistory(s))
    ensures r.1.echoed.Some? <==> Truthy(input)
    ensures r.1.echoed.Some? ==> r.1.echoed == input
    ensures r.0.history == Some(r.1.turn.history)
    ensures r.1.download.Some? <==> |r.1.turn.history| > 0
    ensures r.1.download.Some? ==> r.1.download.value == Export(r.1.turn.history)
  {
    var h := CurrentHistory(s);
    var t := SubmitTurn(h, systemPrompt, input, outcome);
    var download := if |t.history| > 0 then Some(Export(t.history)) else None;
    var echoed := if Truthy(input) then input else None;
    (SessionState(Some(t.history)), Page(Render(h), echoed, t, download))
  }

  /** The input branch of a run: the turn, then the typing effect over its
      reply. A falsy input types nothing; a failed call types nothing either,
      since its reply text is "". */
  method AnswerInput(history: seq<Message>, systemPrompt: string, input: Option<string>, outcome: Outcome)
    returns (t: Turn, frames: seq<string>)
    ensures t == SubmitTurn(history, systemPrompt, input, outcome)
    ensures t.failed || !Truthy(input) ==> frames == []
    ensures forall k :: 0 <= k < |frames| ==> |frames[k]| == k + 1 && frames[k] <= t.reply
    ensures Truthy(input) && outcome.Replied? ==> |frames| == |outcome.text| && (|frames| > 0 ==> frames[|frames| - 1] == outcome.text)
  {
    t := SubmitTurn(history, systemPrompt, input, outcome);
    frames := [];
    if Truthy(input) {
      frames := TypeOut(t.reply);
    }
  }

  /** After a clear the script reruns with no input: the history is recreated
      empty, nothing is replayed, the model is not called and no download is offered. */
  lemma ClearThenRerun(s: SessionState, systemPrompt: string, outcome: Outcome)
    ensures RunScript(Clear(s), systemPrompt, None, outcome).0.history == Some([])
    ensures RunScript(Clear(s), systemPrompt, None, outcome).1.replay == []
    ensures RunScript(Clear(s), systemPrompt, None, outcome).1.turn.request.None?
    ensures RunScript(Clear(s), systemPrompt, None, outcome).1.download.None?
  {
  }

  /** The export after a turn is the export before it, extended by the user
      input and the reply when the model replied, and unchanged otherwise. */
  lemma ExportAfterTurn(history: seq<Message>, systemPrompt: string, input: Option<string>, outcome: Outcome)
    ensures Export(SubmitTurn(history, systemPrompt, input, outcome).history) ==
      Export(history) +
      (if Truthy(input) && outcome.Replied?
       then [Record("user", input.value), Record("assistant", outcome.text)]
       else [])
  {
    if Truthy(input) && outcome.Replied? {
      var pair := [HumanMessage(input.value), AiMessage(outcome.text)];
      ExportConcat(history, pair);
      ExportConcat([pair[0]], [pair[1]]);
      assert pair == [pair[0]] + [pair[1]];
      ExportSingle(pair[0]);
      ExportSingle(pair[1]);
    }
  }

  /** Positions alternate human, ai, human, ... */
  ghost predicate Alternates(h: seq<Message>) {
    forall i :: 0 <= i < |h| ==>
      h[i] == (if i % 2 == 0 then HumanMessage(h[i].content) else AiMessage(h[i].content))
  }

  /** The shape every history built by this script has: complete human/ai exchanges. */
  ghost predicate Conversation(h: seq<Message>) {
    Alternates(h) && |h| % 2 == 0
  }

  /** A turn keeps the history a sequence of complete exchanges. */
  lemma TurnKeepsConversation(history: seq<Message>, systemPrompt: string, input: Option<string>, outcome: Outcome)
    requires Conversation(history)
    ensures Conversation(SubmitTurn(history, systemPrompt, input, outcome).history)
  {
  }

  /** An alternating history is exported whole: record k is the user's when k
      is even and the assistant's when k is odd, with the message's text. */
  lemma {:induction false} AlternatesExportsAll(h: seq<Message>)
    requires Alternates(h)
    ensures |Export(h)| == |h|
    ensures forall k :: 0 <= k < |h| ==>
      Export(h)[k] == Record(if k % 2 == 0 then "user" else "assistant", h[k].content)
    decreases |h|
  {
    if |h| > 0 {
      var front := h[..|h| - 1];
      assert forall j :: 0 <= j < |front| ==> front[j] == h[j];
      AlternatesExportsAll(front);
    }
  }

  /** "2+2?" answered "4" on an empty history: the download holds the exchange. */
  lemma ScenarioReply()
    ensures RunScript(SessionState(Some([])), "S", Some("2+2?"), Replied("4")).1.download ==
      Some([Record("user", "2+2?"), Record("assistant", "4")])
  {
    ExportAfterTurn([], "S", Some("2+2?"), Replied("4"));
    var t := SubmitTurn([], "S", Some("2+2?"), Replied("4"));
    var r := RunScript(SessionState(Some([])), "S", Some("2+2?"), Replied("4"));
    assert r.1.turn == t;
    assert Export([]) == [];
    assert Export(t.history) == [Record("user", "2+2?"), Record("assistant", "4")];
  }

  /** A failed call on an empty history records nothing, so no download is offered. */
  lemma ScenarioFailure()
    ensures RunScript(SessionState(Some([])), "S", Some("ping"), Raised("boom")).0.history == Some([])
    ensures RunScript(SessionState(Some([])), "S", Some("ping"), Raised("boom")).1.download.None?
  {
  }
}
