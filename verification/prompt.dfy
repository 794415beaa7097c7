/** The request template: system instruction, then the whole history, then the new input. */
module Prompt {
  import opened Optional
  import opened Messages
  import opened Projection

  /** The three values the template is filled with on each call. */
  datatype Inputs = Inputs(systemPrompt: string, history: seq<Message>, input: string)

  /** The message sequence sent to the model. Nothing is truncated or filtered:
      every history message, system ones included, reaches the model. */
  function Assemble(systemPrompt: string, history: seq<Message>, input: string): (p: seq<Message>)
    ensures |p| == |history| + 2
    ensures ResolvedRole(p[0]) == "system" && p[0].content == systemPrompt
    ensures ResolvedRole(p[|p| - 1]) == "human" && p[|p| - 1].content == input
    ensures forall i :: 0 <= i < |history| ==> p[i + 1] == history[i]
  {
    [SystemMessage(systemPrompt)] + history + [HumanMessage(input)]
  }

  /** Reads the template's parts back out of a request; None when the request
      does not open with a system message and close with a human one. */
  function Split(p: seq<Message>): Option<Inputs> {
    if |p| >= 2 && p[0] == SystemMessage(p[0].content) && p[|p| - 1] == HumanMessage(p[|p| - 1].content)
    then Some(Inputs(p[0].content, p[1..|p| - 1], p[|p| - 1].content))
    else None
  }

  /** Assembly loses nothing: its parts can be read back unchanged. */
  lemma SplitAssemble(systemPrompt: string, history: seq<Message>, input: string)
    ensures Split(Assemble(systemPrompt, history, input)) == Some(Inputs(systemPrompt, history, input))
  {
  }

  /** Every request of the template's shape is the assembly of its parts. */
  lemma AssembleSplit(p: seq<Message>)
    requires Split(p).Some?
    ensures Assemble(Split(p).value.systemPrompt, Split(p).value.history, Split(p).value.input) == p
  {
  }

  /** Seen through the export projection, a request is the history followed by
      the new input as a user record: the system instruction never shows. */
  lemma ExportOfRequest(systemPrompt: string, history: seq<Message>, input: string)
    ensures Export(Assemble(systemPrompt, history, input)) == Export(history) + [Record("user", input)]
  {
    var sys := [SystemMessage(systemPrompt)];
    var hum := [HumanMessage(input)];
    ExportConcat(sys + history, hum);
    ExportConcat(sys, history);
    ExportSingle(SystemMessage(systemPrompt));
    ExportSingle(HumanMessage(input));
  }
}
