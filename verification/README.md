# Groq chat script: verified model of its conversation logic

`cb.py` is a single Streamlit script. It keeps one conversation history in the
session state. It sends each user input to a Groq-hosted model through a
LangChain chain that puts a system prompt, the history and the input into a
template. It replays the history as chat bubbles, reveals each reply one
character at a time, and offers the history as a downloadable JSON file.

This project models the sequential logic behind that script:

- `Messages`: a history message with its `type` and `role` attributes and its
  content. It also holds the role resolution `getattr(m, "type", None) or
  getattr(m, "role", "")` and the kept/speaker classification.
- `Projection`: the export (a list of `{role, text}` records) and the replay
  (a list of chat bubbles). The export is written twice: as a functional
  definition and as the script's loop, proved equal. The replay is a
  functional definition with its own role branching, proved to agree with the export.
- `Prompt`: the request template (system, then history, then human input),
  together with its inverse.
- `Typing`: the typing-effect loop.
- `Chat`: the session state, clear, one submitted input and one run of the script.

`Optional` only defines `Option`. It stands for Python's `None`: a missing
attribute, or no chat input.

Two things are given to the model as parameters because they cannot be
computed here:

- The remote model call is an `Outcome`: `Replied(text)` or `Raised(error)`.
- The chat input is an `Option<string>`.

The history append done inside `RunnableWithMessageHistory` is library code
that `cb.py` does not contain. It is modelled as an assumption: a successful
call appends the human input and then the ai reply, and a raised call appends
nothing.

Behaviour worth knowing:

- Whitespace-only input is truthy in Python, so it is sent to the model
  (`if user_input:` at cb.py:106). It is not ignored.
- A failed call leaves the history unchanged, so no human turn is kept. The
  library writes history only when the chain succeeds, and the script adds
  nothing of its own. As a result, a failure on an empty history offers no
  download.
- The history is a plain list of library messages; nothing validates a
  message before it is appended. A history may hold system messages or
  messages of other roles, and the replay and the export skip them.

## Model

| member | source | states |
|---|---|---|
| `Messages.ResolvedRole` | cb.py:94 | a truthy `type` decides the role; otherwise a non-empty role comes from the `role` attribute; the role is "" exactly when neither attribute is truthy |
| `Projection.ExportEntry` | cb.py:136-140 | a message yields one record exactly when it is kept (human, ai or assistant): `human` maps to "user", `ai`/`assistant` map to "assistant", and the text is the content unchanged; any other message yields nothing |
| `Projection.Export` | cb.py:134-141 | the export has no more records than the history has messages, and every record's role is "user" or "assistant" |
| `Projection.KeptIndicesArePositions` | cb.py:135-141 | the kept positions are strictly increasing, in range, all kept, and include every kept message |
| `Projection.ExportIsOrderedFilter` | cb.py:135-141 | record k is made from the k-th kept message, in history order and with its content unchanged; system, empty-role and other messages never appear |
| `Projection.ExportLengthIff` | cb.py:135-141 | the export is as long as the history if and only if every message is human, ai or assistant |
| `Projection.ExportConcat` | cb.py:134-141 | the export of a concatenation is the concatenation of the exports |
| `Projection.BuildExport` | cb.py:134-141 | the imperative export loop builds exactly the records of the functional export |
| `Projection.RenderEntry` | cb.py:94-99 | a message draws one bubble exactly when it is kept: `human` as "user", `ai`/`assistant` as "assistant", with the content unchanged; any other message draws nothing |
| `Projection.Render` | cb.py:93-99 | the replay draws no more bubbles than the history has messages, and every bubble belongs to "user" or "assistant" |
| `Projection.RenderMatchesExport` | cb.py:93-99 | the replayed bubbles show the same (role, text) pairs as the export, in the same order |
| `Prompt.Assemble` | cb.py:71-75 | the request is two messages longer than the history; it opens with a system message holding the system prompt, ends with a human message holding the input, and has the history unchanged in between |
| `Prompt.SplitAssemble` | cb.py:71-75 | the system prompt, history and input can be read back unchanged from an assembled request |
| `Prompt.AssembleSplit` | cb.py:71-75 | every request that opens with a system message and ends with a human one is the assembly of its parts |
| `Prompt.ExportOfRequest` | cb.py:71-75 | under export, a request is the history's export followed by the input as a user record, so the system instruction never shows |
| `Typing.TypeOut` | cb.py:124-127 | the k-th displayed string is a prefix of the reply of length k+1; there is one per character, and the last one is the whole reply |
| `Chat.Clear` | cb.py:44 | clearing drops the history entry whatever the session held |
| `Chat.SubmitTurn` | cb.py:106-121 | falsy input changes nothing and calls nothing; any other input sends exactly the assembled request; the error shows exactly when a sent call raised, and then the reply text is "" and the history is unchanged; on a reply the reply text is the model's and, by the append assumption, the history gains the human input and then the ai reply; the old history is always a prefix of the new one |
| `Chat.AnswerInput` | cb.py:106-127 | after a falsy input or a failed call nothing is typed; the k-th typed string is the reply's prefix of length k+1; after a reply, one string is typed per character and the last is the reply |
| `Chat.CurrentHistory` | cb.py:57-58 | a run works on the stored history, or on a new empty one when the entry is absent |
| `Chat.RunScript` | cb.py:57-143 | the run works on the stored history (or a new empty one): it replays that history, echoes the input exactly when it is truthy, handles the input as `SubmitTurn` does, stores the history as it stands after the turn, and offers the download exactly when that history is non-empty, holding that history's export |
| `Chat.ClearThenRerun` | cb.py:42-58 | after a clear and the rerun, the history is recreated empty, nothing is replayed, the model is not called and no download is offered |
| `Chat.ExportAfterTurn` | cb.py:106-121 | a successful turn extends the export by the user input and the assistant reply; a falsy input or a failed call leaves the export unchanged |
| `Chat.TurnKeepsConversation` | cb.py:80-87 | under the append assumption, a turn keeps the history a sequence of complete human/ai exchanges |
| `Chat.AlternatesExportsAll` | cb.py:135-141 | an alternating human/ai history is exported whole: record k is the user's at even k and the assistant's at odd k, and carries the message's text |
| `Chat.ScenarioReply` | cb.py:106-141 | "2+2?" answered "4" on an empty history offers the download [user "2+2?", assistant "4"] |
| `Chat.ScenarioFailure` | cb.py:114-132 | a failed call on an empty history leaves it empty, so no download is offered |

## Left out

- Streamlit widgets, page configuration, `st.rerun`, `st.stop` and placeholders are UI mechanics. The rerun after a clear appears only as a run with no input.
- Loading `.env` and the API-key guard (cb.py:16-17, cb.py:50-52) are environment I/O.
- The `ChatGroq` call, its network errors and the error text are a remote call. They are reduced to the `Outcome` parameter.
- The internals of `RunnableWithMessageHistory`, `ChatPromptTemplate` and `StrOutputParser` are library code. The history append on success is an explicit assumption in `SubmitTurn`.
- The model name, temperature and max-tokens settings are passed to the remote call unmodified, and the call is a parameter here.
- `json.dumps` formatting is a library serialiser. The export is modelled as a sequence of records, not bytes.
- Message content that is not a string (LangChain also allows lists of content parts) is not modelled. Content is a string.
- A `role` attribute that holds Python's `None` resolves to `None` in Python and to "" here. Both compare unequal to every role the script tests, so the replay and the export are the same.
