/** Render and export: the two read-only projections of the conversation history. */
module Projection {
  import opened Messages

  /** One entry of the downloadable chat file, `{"role": ..., "text": ...}`. */
  datatype Record = Record(role: string, text: string)

  /** One chat bubble drawn while replaying the history: the role name handed
      to the chat widget and the content written into it. */
  datatype Bubble = Bubble(author: string, body: string)

  /** The export entries one message contributes, branching on the resolved
      role exactly as the export loop does. */
  function ExportEntry(m: Message): (r: seq<Record>)
    ensures Kept(m) ==> r == [Record(SpeakerOf(m).Name(), m.content)]
    ensures !Kept(m) ==> r == []
  {
    var role := ResolvedRole(m);
    if role == "human" then [Record("user", m.content)]
    else if role == "ai" || role == "assistant" then [Record("assistant", m.content)]
    else []
  }

  /** The export of a history: the entries of its messages, in history order. */
  function Export(h: seq<Message>): (r: seq<Record>)
    ensures |r| <= |h|
    ensures forall k :: 0 <= k < |r| ==> r[k].role == "user" || r[k].role == "assistant"
    decreases |h|
  {
    if |h| == 0 then []
    else Export(h[..|h| - 1]) + ExportEntry(h[|h| - 1])
  }

  /** The record the export makes of a kept message. */
  function RecordOf(m: Message): Record
    requires Kept(m)
  {
    Record(SpeakerOf(m).Name(), m.content)
  }

  /** The positions of the kept messages, in increasing order. */
  function KeptIndices(h: seq<Message>): seq<nat>
    decreases |h|
  {
    if |h| == 0 then []
    else KeptIndices(h[..|h| - 1]) + (if Kept(h[|h| - 1]) then [|h| - 1] else [])
  }

  /** `idx` lists, in strictly increasing order, exactly the positions of `h`
      that hold a kept message. */
  ghost predicate KeptPositions(h: seq<Message>, idx: seq<nat>) {
    (forall k :: 0 <= k < |idx| ==> idx[k] < |h| && Kept(h[idx[k]])) &&
    (forall k, l :: 0 <= k < l < |idx| ==> idx[k] < idx[l]) &&
    (forall i :: 0 <= i < |h| && Kept(h[i]) ==> i in idx)
  }

  /** KeptIndices lists exactly the positions of the kept messages, in order. */
  lemma {:induction false} KeptIndicesArePositions(h: seq<Message>)
    ensures KeptPositions(h, KeptIndices(h))
    decreases |h|
  {
    if |h| > 0 {
      var front := h[..|h| - 1];
      KeptIndicesArePositions(front);
      var fi := KeptIndices(front);
      var idx := KeptIndices(h);
      assert forall j :: 0 <= j < |front| ==> front[j] == h[j];
      forall i | 0 <= i < |h| && Kept(h[i])
        ensures i in idx
      {
        if i < |h| - 1 {
          assert front[i] == h[i];
          assert i in fi;
        } else {
          assert idx[|idx| - 1] == i;
        }
      }
    }
  }

  /** Export is an order-preserving filter followed by a map: its k-th record
      is made from the k-th kept message, with the content unchanged, and the
      messages not kept (system, empty role, any other role) contribute nothing. */
  lemma {:induction false} ExportIsOrderedFilter(h: seq<Message>)
    ensures KeptPositions(h, KeptIndices(h))
    ensures |Export(h)| == |KeptIndices(h)|
    ensures forall k :: 0 <= k < |Export(h)| ==>
      Export(h)[k] == RecordOf(h[KeptIndices(h)[k]])
    decreases |h|
  {
    KeptIndicesArePositions(h);
    if |h| > 0 {
      var front := h[..|h| - 1];
      var last := h[|h| - 1];
      ExportIsOrderedFilter(front);
      var fi := KeptIndices(front);
      var idx := KeptIndices(h);
      var r := Export(h);
      assert r == Export(front) + ExportEntry(last);
      forall k | 0 <= k < |r|
        ensures r[k] == RecordOf(h[idx[k]])
      {
        if k < |fi| {
          assert idx[k] == fi[k];
          assert r[k] == Export(front)[k];
          assert front[fi[k]] == h[fi[k]];
        } else {
          assert idx[k] == |h| - 1;
        }
      }
    }
  }

  /** Export keeps every message exactly when every message is human or ai/assistant. */
  lemma {:induction false} ExportLengthIff(h: seq<Message>)
    ensures |Export(h)| == |h| <==> forall i :: 0 <= i < |h| ==> Kept(h[i])
    decreases |h|
  {
    if |h| > 0 {
      var front := h[..|h| - 1];
      ExportLengthIff(front);
      assert forall j :: 0 <= j < |front| ==> front[j] == h[j];
      if !Kept(h[|h| - 1]) {
        assert |Export(h)| == |Export(front)|;
      }
    }
  }

  /** Export distributes over concatenation of histories. */
  lemma {:induction false} ExportConcat(a: seq<Message>, b: seq<Message>)
    ensures Export(a + b) == Export(a) + Export(b)
    decreases |b|
  {
    if |b| == 0 {
      assert a + b == a;
    } else {
      var front := b[..|b| - 1];
      assert (a + b)[..|a + b| - 1] == a + front;
      ExportConcat(a, front);
    }
  }

  /** A one-message history exports that message's entries. */
  lemma ExportSingle(m: Message)
    ensures Export([m]) == ExportEntry(m)
  {
  }

  /** The export loop: walks the history and appends one record per kept message. */
  method BuildExport(h: seq<Message>) returns (records: seq<Record>)
    ensures records == Export(h)
  {
    records := [];
    for i := 0 to |h|
      invariant records == Export(h[..i])
    {
      var m := h[i];
      var role := ResolvedRole(m);
      if role == "human" {
        records := records + [Record("user", m.content)];
      } else if role == "ai" || role == "assistant" {
        records := records + [Record("assistant", m.content)];
      }
      assert h[..i + 1][..i] == h[..i];
    }
    assert h[..|h|] == h;
  }

  /** The bubble one message draws when the history is replayed on screen. */
  function RenderEntry(m: Message): (r: seq<Bubble>)
    ensures Kept(m) ==> r == [Bubble(SpeakerOf(m).Name(), m.content)]
    ensures !Kept(m) ==> r == []
  {
    var role := ResolvedRole(m);
    if role == "human" then [Bubble("user", m.content)]
    else if role in ["ai", "assistant"] then [Bubble("assistant", m.content)]
    else []
  }

  /** The bubbles the replay draws, in history order. */
  function Render(h: seq<Message>): (r: seq<Bubble>)
    ensures |r| <= |h|
    ensures forall k :: 0 <= k < |r| ==> r[k].author == "user" || r[k].author == "assistant"
    decreases |h|
  {
    if |h| == 0 then []
    else Render(h[..|h| - 1]) + RenderEntry(h[|h| - 1])
  }

  /** The replay on screen and the export show the same (role, text) pairs. */
  lemma {:induction false} RenderMatchesExport(h: seq<Message>)
    ensures |Render(h)| == |Export(h)|
    ensures forall k :: 0 <= k < |Render(h)| ==>
      Render(h)[k] == Bubble(Export(h)[k].role, Export(h)[k].text)
    decreases |h|
  {
    if |h| > 0 {
      RenderMatchesExport(h[..|h| - 1]);
    }
  }
}
