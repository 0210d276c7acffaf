/** The continuation gate from the wire: internal/proxy/continuation.go.

    Everything here is said of payloads and event names, as the two APIs define them, and not of
    how the accumulator reads them.  The last theorem is the gate's contract: a stream can be
    continued, and with which text, exactly when its payloads say so. */
module ContinuationWire {
  import opened Wrappers
  import opened Continuation
  import opened ContinuationRuns

  // ---------------------------------------------------------------- members

  predicate Missing(o: Object, key: string) { key !in o || o[key] == JNull }

  predicate IsString(o: Object, key: string) { key in o && o[key].JStr? }

  predicate IsName(o: Object, key: string) { IsString(o, key) && o[key].s != "" }

  predicate IsIndex(o: Object, key: string) { key in o && o[key].JInt? && o[key].n >= 0 }

  predicate IsObject(o: Object, key: string) { key in o && o[key].JObj? }

  predicate Is(o: Object, key: string, s: string) { key in o && o[key] == JStr(s) }

  // ---------------------------------------------------------------- payloads that may be continued from

  /** A Chat delta of plain text, or of nothing. */
  predicate PlainDelta(d: Object)
  {
    Missing(d, "tool_calls") && Missing(d, "function_call") && (Missing(d, "content") || IsString(d, "content"))
  }

  predicate PlainChoice(c: J)
  {
    && c.JObj? && "index" in c.members && c.members["index"] == JInt(0) && Missing(c.members, "finish_reason")
    && (Missing(c.members, "delta") || (IsObject(c.members, "delta") && PlainDelta(c.members["delta"].members)))
  }

  predicate PlainChunk(o: Object)
  {
    && Missing(o, "error")
    && (Missing(o, "choices")
        || (o["choices"].JArr? && (|o["choices"].items| == 0 || (|o["choices"].items| == 1 && PlainChoice(o["choices"].items[0])))))
  }

  /** All three members of a text event's place. */
  predicate Placed(o: Object) { IsName(o, "item_id") && IsIndex(o, "output_index") && IsIndex(o, "content_index") }

  predicate PlainItem(o: Object)
  {
    IsObject(o, "item")
    && var item := o["item"].members;
       Is(item, "type", "reasoning") || (Is(item, "type", "message") && IsName(item, "id") && IsIndex(o, "output_index"))
  }

  predicate PlainPart(o: Object, closing: bool)
  {
    Missing(o, "part")
    || (IsObject(o, "part")
        && var part := o["part"].members;
           Is(part, "type", "output_text") && (!closing || Missing(part, "text") || IsString(part, "text")))
  }

  predicate PlainEnvelope(o: Object)
  {
    Missing(o, "response") || (IsObject(o, "response") && Missing(o["response"].members, "error"))
  }

  predicate PlainEvent(o: Object, kind: string)
  {
    || (kind == "response.output_text.delta" && (Missing(o, "delta") || (IsString(o, "delta") && Placed(o))))
    || (kind == "response.refusal.done" && (Missing(o, "refusal") || Is(o, "refusal", "")))
    || (kind == "response.output_item.added" && PlainItem(o))
    || (kind == "response.output_item.done" && PlainItem(o))
    || (kind == "response.content_part.added" && Placed(o) && PlainPart(o, false))
    || (kind == "response.content_part.done" && Placed(o) && PlainPart(o, true))
    || (kind == "response.output_text.annotation.added" && Placed(o))
    || kind in {"response.created", "response.queued", "response.in_progress", "response.completed",
                "response.reasoning_summary_part.added", "response.reasoning_summary_part.done",
                "response.reasoning_summary_text.delta", "response.reasoning_summary_text.done",
                "response.reasoning_text.delta", "response.reasoning_text.done"}
  }

  /** A payload, under its event name, that neither forbids nor ends the stream. */
  predicate PlainPayload(api: Api, name: string, p: Payload)
  {
    if api.Chat? then
      p == DoneMarker || (p.Doc? && (p.value == JNull || (p.value.JObj? && PlainChunk(p.value.members))))
    else
      && p.Doc? && p.value.JObj? && name != ""
      && var o := p.value.members;
         Missing(o, "error") && Is(o, "type", name) && PlainEnvelope(o) && PlainEvent(o, name)
  }

  lemma {:induction false} ChoiceIff(c: Object)
    ensures Plain(See(ReadChoice(c))) <==> PlainChoice(JObj(c))
  {}

  lemma {:induction false} ChunkIff(o: Object)
    requires Missing(o, "error")
    ensures Plain(See(ReadChunk(o))) <==> PlainChunk(o)
  {
    hide ReadChoice;
    hide PlainChoice;
    if !Missing(o, "choices") && o["choices"].JArr? {
      var items := o["choices"].items;
      if |items| == 1 {
        assert (exists i :: 0 <= i < |items| && AsObject(items[i]).None?) <==> AsObject(items[0]).None?;
        if items[0].JObj? { ChoiceIff(items[0].members); }
        NullChoice(items[0]);
      }
    }
  }

  lemma {:induction false} NullChoice(c: J)
    ensures PlainChoice(c) ==> c.JObj?
    ensures !Plain(See(ReadChoice(map[])))
  {}

  lemma {:induction false} EventIff(o: Object, kind: string)
    ensures Plain(See(ReadEvent(o, kind))) <==> PlainEvent(o, kind)
  {
    if kind in TEXT_EVENTS { TextEventIff(o, kind); } else { OtherEventIff(o, kind); }
  }

  const TEXT_EVENTS := {"response.output_text.delta", "response.output_text.done", "response.content_part.added",
                        "response.content_part.done", "response.output_text.annotation.added"}

  lemma {:induction false} TextEventIff(o: Object, kind: string)
    requires kind in TEXT_EVENTS
    ensures Plain(See(ReadEvent(o, kind))) <==> PlainEvent(o, kind)
  {
    hide PlainItem;
    hide PlainPart;
    hide Placed;
    hide ReadItem;
    hide ReadPart;
    hide PlaceOf;
    PartIff(o, false);
    PartIff(o, true);
    PlaceIff(o);
  }

  lemma {:induction false} OtherEventIff(o: Object, kind: string)
    requires kind !in TEXT_EVENTS
    ensures Plain(See(ReadEvent(o, kind))) <==> PlainEvent(o, kind)
  {
    hide PlainItem;
    hide PlainPart;
    hide Placed;
    hide ReadItem;
    hide ReadPart;
    hide PlaceOf;
    ItemIff(o, true);
    ItemIff(o, false);
  }

  lemma {:induction false} PlaceIff(o: Object)
    ensures PlaceOf(o).Some? <==> Placed(o)
  {}

  lemma {:induction false} ItemIff(o: Object, added: bool)
    ensures Plain(See(ReadItem(o, added))) <==> PlainItem(o)
  {}

  lemma {:induction false} PartIff(o: Object, closing: bool)
    ensures var s := ReadPart(o, closing); (s.Delta? || s.Mark? || s.PartText?) <==> PlainPart(o, closing)
  {}

  /** What the accumulator lets pass is exactly what is plain on the wire. */
  lemma {:induction false} PlainIff(api: Api, name: string, p: Payload)
    ensures Plain(See(Read(api, name, p))) <==> PlainPayload(api, name, p)
  {
    hide ReadChunk;
    hide ReadEvent;
    hide PlainChunk;
    hide PlainEvent;
    if p.Doc? && p.value.JObj? {
      var o := p.value.members;
      ErrorIsNotPlain(o);
      if Missing(o, "error") { ChunkIff(o); }
      EventIff(o, name);
    }
    NullChunk();
  }

  lemma {:induction false} ErrorIsNotPlain(o: Object)
    ensures PlainChunk(o) ==> Missing(o, "error")
  {}

  lemma {:induction false} NullChunk()
    ensures ReadChunk(map[]) == Nothing
  {}

  // ---------------------------------------------------------------- what a plain payload names

  /** The item a Responses event names: a message item it announces or closes, or that of its place. */
  function WireItem(api: Api, name: string, p: Payload): Option<Item>
  {
    if api.Chat? || !p.Doc? || !p.value.JObj? then None
    else
      var o := p.value.members;
      if name == "response.output_item.added" || name == "response.output_item.done" then
        if IsObject(o, "item") && Is(o["item"].members, "type", "message") && IsName(o["item"].members, "id") && IsIndex(o, "output_index")
        then Some(Item(o["item"].members["id"].s, o["output_index"].n)) else None
      else if NamesPlace(o, name) && Placed(o) then Some(Item(o["item_id"].s, o["output_index"].n))
      else None
  }

  /** The events that name a place in the text. */
  predicate NamesPlace(o: Object, name: string)
  {
    || (name == "response.output_text.delta" && !Missing(o, "delta"))
    || name in {"response.output_text.done", "response.content_part.added", "response.content_part.done",
                "response.output_text.annotation.added"}
  }

  function WirePart(api: Api, name: string, p: Payload): Option<nat>
  {
    if api.Chat? || !p.Doc? || !p.value.JObj? then None
    else
      var o := p.value.members;
      if NamesPlace(o, name) && Placed(o) then Some(o["content_index"].n) else None
  }

  predicate WireAnnounces(api: Api, name: string, p: Payload)
  {
    api.Responses? && name == "response.output_item.added" && p.Doc? && p.value.JObj?
    && IsObject(p.value.members, "item") && Is(p.value.members["item"].members, "type", "message")
  }

  /** The text a closing part states. */
  function WireClosing(api: Api, name: string, p: Payload): Option<string>
  {
    if api.Chat? || name != "response.content_part.done" || !p.Doc? || !p.value.JObj? then None
    else
      var o := p.value.members;
      if IsObject(o, "part") && IsName(o["part"].members, "text") then Some(o["part"].members["text"].s) else None
  }

  lemma {:induction false} NamesAreRead(api: Api, name: string, p: Payload)
    requires PlainPayload(api, name, p)
    ensures var m := See(Read(api, name, p));
            && ItemNamed(m) == WireItem(api, name, p) && PartNamed(m) == WirePart(api, name, p)
            && (IsAnnouncement(m) <==> WireAnnounces(api, name, p)) && PartSays(m) == WireClosing(api, name, p)
  {
    hide ReadEvent;
    hide PlainEvent;
    hide WireItem;
    hide WirePart;
    hide WireAnnounces;
    hide WireClosing;
    if api.Chat? {
      ChatNamesNothing(name, p);
      ChatWireNamesNothing(name, p);
    } else {
      EventNames(p.value.members, name);
    }
  }

  lemma {:induction false} ChatWireNamesNothing(name: string, p: Payload)
    ensures WireItem(Chat, name, p).None? && WirePart(Chat, name, p).None? && !WireAnnounces(Chat, name, p) && WireClosing(Chat, name, p).None?
  {}

  lemma {:induction false} ChatNamesNothing(name: string, p: Payload)
    requires PlainPayload(Chat, name, p)
    ensures var m := See(Read(Chat, name, p)); ItemNamed(m).None? && PartNamed(m).None? && !IsAnnouncement(m) && PartSays(m).None?
  {}

  lemma {:induction false} EventNames(o: Object, name: string)
    requires PlainEvent(o, name)
    ensures NamesRight(o, name)
  {
    hide PlainEvent;
    hide NamesRight;
    if name == "response.output_item.added" || name == "response.output_item.done" {
      ItemNames(o, name);
    } else if name == "response.content_part.added" || name == "response.content_part.done" {
      PartNames(o, name);
    } else {
      OtherNames(o, name);
    }
  }

  predicate NamesRight(o: Object, name: string)
  {
    var m, p := See(ReadEvent(o, name)), Doc(JObj(o));
    && ItemNamed(m) == WireItem(Responses, name, p) && PartNamed(m) == WirePart(Responses, name, p)
    && (IsAnnouncement(m) <==> WireAnnounces(Responses, name, p)) && PartSays(m) == WireClosing(Responses, name, p)
  }

  lemma {:induction false} ItemNames(o: Object, name: string)
    requires PlainEvent(o, name) && (name == "response.output_item.added" || name == "response.output_item.done")
    ensures NamesRight(o, name)
  {
    hide ReadPart;
    hide PlaceOf;
    hide Placed;
    hide PlainPart;
  }

  lemma {:induction false} PartNames(o: Object, name: string)
    requires PlainEvent(o, name) && (name == "response.content_part.added" || name == "response.content_part.done")
    ensures NamesRight(o, name)
  {
    hide ReadItem;
    hide PlainItem;
  }

  lemma {:induction false} OtherNames(o: Object, name: string)
    requires PlainEvent(o, name) && name !in {"response.output_item.added", "response.output_item.done", "response.content_part.added", "response.content_part.done"}
    ensures NamesRight(o, name)
  {
    hide ReadItem;
    hide PlainItem;
    hide ReadPart;
    hide PlainPart;
  }

  // ---------------------------------------------------------------- whole streams, from the wire

  predicate PlainInput(api: Api, i: Input) { i.Response? || PlainPayload(api, i.name, i.payload) }

  /** Two payloads name one item and one part, and do not both announce a message. */
  predicate NameAlike(api: Api, a: Input, b: Input)
  {
    a.Data? && b.Data? ==>
      && !(WireAnnounces(api, a.name, a.payload) && WireAnnounces(api, b.name, b.payload))
      && (var x, y := WireItem(api, a.name, a.payload), WireItem(api, b.name, b.payload); x.Some? && y.Some? ==> x == y)
      && (var x, y := WirePart(api, a.name, a.payload), WirePart(api, b.name, b.payload); x.Some? && y.Some? ==> x == y)
  }

  /** No response begins after `i` and up to `j`. */
  predicate OneResponse(inputs: seq<Input>, i: int, j: int)
  {
    0 <= i <= j < |inputs| && forall k :: i < k <= j ==> !inputs[k].Response?
  }

  /** The text of the response being read. */
  function ResponseText(api: Api, inputs: seq<Input>): string
  {
    if inputs == [] || inputs[|inputs| - 1].Response? then ""
    else ResponseText(api, inputs[..|inputs| - 1]) + WireText(api, inputs[|inputs| - 1].payload)
  }

  /** A stream that can be continued: every payload is plain; payloads of one response name one message
      and one place in it; a closing part states the text its response has streamed; and the text
      stays under the limit. */
  ghost predicate Continuable(api: Api, inputs: seq<Input>, limit: int)
  {
    && (forall i :: 0 <= i < |inputs| ==> PlainInput(api, inputs[i]))
    && (forall i, j :: 0 <= i < j < |inputs| && OneResponse(inputs, i, j) ==> NameAlike(api, inputs[i], inputs[j]))
    && (forall i :: 0 <= i < |inputs| && inputs[i].Data? && WireClosing(api, inputs[i].name, inputs[i].payload).Some? ==>
          WireClosing(api, inputs[i].name, inputs[i].payload).value == ResponseText(api, inputs[..i]))
    && (WireTexts(api, inputs) == "" || |WireTexts(api, inputs)| < limit)
  }

  lemma {:induction false} InputIff(api: Api, i: Input)
    ensures Plain(MoveOf(api, i)) <==> PlainInput(api, i)
  {
    hide Read;
    hide PlainPayload;
    if i.Data? { PlainIff(api, i.name, i.payload); }
  }

  lemma {:induction false} InputNames(api: Api, i: Input)
    requires PlainInput(api, i)
    ensures var m := MoveOf(api, i);
            if i.Response? then ItemNamed(m).None? && PartNamed(m).None? && !IsAnnouncement(m) && PartSays(m).None? && Adds(m) == ""
            else
              && ItemNamed(m) == WireItem(api, i.name, i.payload) && PartNamed(m) == WirePart(api, i.name, i.payload)
              && (IsAnnouncement(m) <==> WireAnnounces(api, i.name, i.payload))
              && PartSays(m) == WireClosing(api, i.name, i.payload) && Adds(m) == WireText(api, i.payload)
  {
    hide Read;
    hide PlainPayload;
    hide WireItem;
    hide WirePart;
    hide WireAnnounces;
    hide WireClosing;
    hide WireText;
    if i.Data? {
      NamesAreRead(api, i.name, i.payload);
      PlainIff(api, i.name, i.payload);
      PlainAddsItsText(api, i.name, i.payload);
    }
  }

  lemma {:induction false} ShareIsResponseText(api: Api, inputs: seq<Input>)
    requires forall i :: 0 <= i < |inputs| ==> PlainInput(api, inputs[i])
    ensures Share(Moves(api, inputs)) == ResponseText(api, inputs)
    decreases |inputs|
  {
    hide PlainInput;
    hide WireText;
    hide MoveOf;
    if inputs != [] {
      var n := |inputs| - 1;
      ShareIsResponseText(api, inputs[..n]);
      assert Moves(api, inputs) == Moves(api, inputs[..n]) + [MoveOf(api, inputs[n])];
      JoinedSnoc(Moves(api, inputs[..n]), MoveOf(api, inputs[n]));
      InputNames(api, inputs[n]);
      BoundaryIs(api, inputs[n]);
    }
  }

  lemma {:induction false} BoundaryIs(api: Api, i: Input)
    ensures MoveOf(api, i).NewResponse? <==> i.Response?
  {
    hide Read;
  }

  lemma {:induction false} ResponsesAre(api: Api, inputs: seq<Input>, i: int, j: int)
    ensures SameResponse(Moves(api, inputs), i, j) <==> OneResponse(inputs, i, j)
  {
    hide MoveOf;
    forall k | 0 <= k < |inputs| ensures Moves(api, inputs)[k].NewResponse? <==> inputs[k].Response? {
      BoundaryIs(api, inputs[k]);
    }
    if 0 <= i <= j < |inputs| {
      assert (forall k :: i < k <= j ==> !Moves(api, inputs)[k].NewResponse?) <==> (forall k :: i < k <= j ==> !inputs[k].Response?);
    }
  }

  lemma {:induction false} AgreementIs(api: Api, a: Input, b: Input)
    requires PlainInput(api, a) && PlainInput(api, b)
    ensures Agree(MoveOf(api, a), MoveOf(api, b)) <==> NameAlike(api, a, b)
  {
    hide MoveOf;
    hide PlainInput;
    hide WireItem;
    hide WirePart;
    hide WireAnnounces;
    hide WireClosing;
    hide WireText;
    InputNames(api, a);
    InputNames(api, b);
  }

  /** Clean on what is read is continuable on the wire. */
  lemma {:induction false} CleanIff(api: Api, inputs: seq<Input>, limit: int)
    ensures Clean(Moves(api, inputs), limit) <==> Continuable(api, inputs, limit)
  {
    hide MoveOf;
    hide PlainInput;
    hide Plain;
    hide Agree;
    hide NameAlike;
    hide SameResponse;
    hide OneResponse;
    hide WireClosing;
    hide PartSays;
    hide Share;
    hide Joined;
    hide ResponseText;
    hide WireTexts;
    var run := Moves(api, inputs);
    forall i | 0 <= i < |inputs| ensures Plain(run[i]) <==> PlainInput(api, inputs[i]) { InputIff(api, inputs[i]); }
    if forall i :: 0 <= i < |inputs| ==> PlainInput(api, inputs[i]) {
      forall i, j | 0 <= i < j < |inputs|
        ensures SameResponse(run, i, j) <==> OneResponse(inputs, i, j)
        ensures Agree(run[i], run[j]) <==> NameAlike(api, inputs[i], inputs[j])
      {
        ResponsesAre(api, inputs, i, j);
        AgreementIs(api, inputs[i], inputs[j]);
      }
      forall i | 0 <= i < |inputs|
        ensures Share(run[..i]) == ResponseText(api, inputs[..i])
        ensures PartSays(run[i]) == if inputs[i].Data? then WireClosing(api, inputs[i].name, inputs[i].payload) else None
      {
        assert run[..i] == Moves(api, inputs[..i]);
        ShareIsResponseText(api, inputs[..i]);
        InputNames(api, inputs[i]);
      }
      forall i | 0 <= i < |inputs| ensures Plain(MoveOf(api, inputs[i])) { assert Plain(run[i]); }
      JoinedIsWireText(api, inputs);
    }
  }

  /** A stream can be continued with a text if and only if it is continuable and the text is all the
      text its payloads carried, in order, and not empty. */
  lemma {:induction false} RecoverableFromTheWire(api: Api, inputs: seq<Input>, limit: int, text: string)
    ensures VerdictOf(Run(Moves(api, inputs), limit)) == Recoverable(text)
            <==> Continuable(api, inputs, limit) && text == WireTexts(api, inputs) && text != ""
  {
    hide Run;
    hide Clean;
    hide Plain;
    hide MoveOf;
    hide PlainInput;
    RecoverableIff(Moves(api, inputs), limit, text);
    CleanIff(api, inputs, limit);
    if Continuable(api, inputs, limit) {
      forall i | 0 <= i < |inputs| ensures Plain(MoveOf(api, inputs[i])) { InputIff(api, inputs[i]); }
      JoinedIsWireText(api, inputs);
    }
  }

  /** The gate itself, over any payloads and responses. */
  method GateDecides(api: Api, limit: int, inputs: seq<Input>) returns (v: Verdict)
    ensures v.Recoverable? <==> Continuable(api, inputs, limit) && WireTexts(api, inputs) != ""
    ensures v.Recoverable? ==> v.text == WireTexts(api, inputs)
  {
    hide Continuable;
    hide WireTexts;
    hide Run;
    hide VerdictOf;
    v := Judge(api, limit, inputs);
    RecoverableFromTheWire(api, inputs, limit, WireTexts(api, inputs));
    if v.Recoverable? { RecoverableFromTheWire(api, inputs, limit, v.text); }
  }

  /** One delta of a message, named alike, under the limit: its text is recovered. */
  lemma {:induction false} OneDeltaIsRecovered(o: Object, s: string, limit: int)
    requires 0 < |s| < limit && Is(o, "type", "response.output_text.delta") && Is(o, "delta", s) && Placed(o)
    requires Missing(o, "error") && Missing(o, "response")
    ensures VerdictOf(Run(Moves(Responses, [Data("response.output_text.delta", Doc(JObj(o)))]), limit)) == Recoverable(s)
  {
    hide Run;
    hide Read;
    var one := [Data("response.output_text.delta", Doc(JObj(o)))];
    assert PlainInput(Responses, one[0]);
    hide PlainPayload;
    assert one[..0] == [];
    assert WireTexts(Responses, one) == "" + s == s;
    assert WireClosing(Responses, one[0].name, one[0].payload).None?;
    assert Continuable(Responses, one, limit);
    RecoverableFromTheWire(Responses, one, limit, s);
  }

  // ---------------------------------------------------------------- the end, from the wire

  /** A first choice that is plain but for stating a finish reason. */
  predicate FinishingChoice(c: J)
  {
    && c.JObj? && "index" in c.members && c.members["index"] == JInt(0) && !Missing(c.members, "finish_reason")
    && (Missing(c.members, "delta") || (IsObject(c.members, "delta") && PlainDelta(c.members["delta"].members)))
  }

  predicate FinishingChunk(o: Object)
  {
    Missing(o, "error") && "choices" in o && o["choices"].JArr? && |o["choices"].items| == 1 && FinishingChoice(o["choices"].items[0])
  }

  /** A done event that states its place and its text. */
  predicate DoneEvent(o: Object, name: string)
  {
    && name == "response.output_text.done" && Is(o, "type", name) && Missing(o, "error") && PlainEnvelope(o)
    && Placed(o) && IsString(o, "text")
  }

  /** The payload ends the answer after `before`: a finish reason, or a done event whose text is that of
      its response, or the first of it; and what it adds stays under the limit. */
  predicate EndsOnTheWire(api: Api, before: seq<Input>, i: Input, limit: int)
  {
    && i.Data? && i.payload.Doc? && i.payload.value.JObj?
    && var o, room := i.payload.value.members, limit - |WireTexts(api, before)|;
       if api.Chat? then
         FinishingChunk(o) && (WireText(api, i.payload) == "" || |WireText(api, i.payload)| < room)
       else
         && DoneEvent(o, i.name)
         && (o["text"].s == ResponseText(api, before) || (ResponseText(api, before) == "" && |o["text"].s| < room))
  }

  lemma {:induction false} FinishIff(o: Object)
    requires Missing(o, "error")
    ensures var r := ReadChunk(o);
            (r.Choice? && r.index == Some(0) && r.ends) <==> FinishingChunk(o)
    ensures FinishingChunk(o) ==> ReadChunk(o).content == WireText(Chat, Doc(JObj(o)))
  {
    if !Missing(o, "choices") && o["choices"].JArr? {
      var items := o["choices"].items;
      if |items| == 1 {
        assert (exists i :: 0 <= i < |items| && AsObject(items[i]).None?) <==> AsObject(items[0]).None?;
      }
    }
  }

  lemma {:induction false} ChatEndsIff(before: seq<Input>, i: Input, limit: int)
    requires (forall k :: 0 <= k < |before| ==> PlainInput(Chat, before[k])) && i.Data?
    ensures Ends(Moves(Chat, before), MoveOf(Chat, i), limit) <==> EndsOnTheWire(Chat, before, i, limit)
  {
    hide ReadChunk;
    hide ReadEvent;
    hide FinishingChunk;
    hide WireText;
    hide WireTexts;
    hide Joined;
    hide PlainInput;
    PlainTexts(Chat, before);
    NullChunk();
    if i.payload.Doc? && i.payload.value.JObj? {
      var o := i.payload.value.members;
      FinishMeansNoError(o);
      if Missing(o, "error") { FinishIff(o); ChunkIsChoice(o); }
    }
  }

  lemma {:induction false} FinishMeansNoError(o: Object)
    ensures FinishingChunk(o) ==> Missing(o, "error")
  {}

  lemma {:induction false} ChunkIsChoice(o: Object)
    ensures var r := ReadChunk(o); r.Nothing? || r.Bad? || r.Choice?
  {}

  lemma {:induction false} PlainTexts(api: Api, before: seq<Input>)
    requires forall k :: 0 <= k < |before| ==> PlainInput(api, before[k])
    ensures Joined(Moves(api, before)) == WireTexts(api, before) && Share(Moves(api, before)) == ResponseText(api, before)
  {
    hide PlainInput;
    hide Plain;
    hide MoveOf;
    hide WireTexts;
    hide Joined;
    forall i | 0 <= i < |before| ensures Plain(MoveOf(api, before[i])) { InputIff(api, before[i]); }
    JoinedIsWireText(api, before);
    ShareIsResponseText(api, before);
  }

  lemma {:induction false} DoneIff(o: Object, name: string)
    requires Missing(o, "error") && Is(o, "type", name) && PlainEnvelope(o)
    ensures var r := ReadEvent(o, name);
            (r.Text? && r.place.Some? && r.says.Whole? && r.says.text.Some?) <==> DoneEvent(o, name)
    ensures DoneEvent(o, name) ==> ReadEvent(o, name) == Text(PlaceOf(o), Whole(Some(o["text"].s)))
    ensures !ReadEvent(o, name).Choice?
  {
    hide ReadItem;
    hide ReadPart;
    hide PlaceOf;
    hide Placed;
    PlaceIff(o);
    ItemIsNoText(o, true);
    ItemIsNoText(o, false);
    PartIsNoWhole(o, true);
    PartIsNoWhole(o, false);
  }

  lemma {:induction false} ItemIsNoText(o: Object, added: bool)
    ensures !ReadItem(o, added).Text? && !ReadItem(o, added).Choice?
  {}

  lemma {:induction false} PartIsNoWhole(o: Object, closing: bool)
    ensures !ReadPart(o, closing).Whole?
  {}

  lemma {:induction false} ResponsesEndsIff(before: seq<Input>, i: Input, limit: int)
    requires (forall k :: 0 <= k < |before| ==> PlainInput(Responses, before[k])) && i.Data?
    ensures Ends(Moves(Responses, before), MoveOf(Responses, i), limit) <==> EndsOnTheWire(Responses, before, i, limit)
  {
    hide ReadChunk;
    hide ReadEvent;
    hide DoneEvent;
    hide WireTexts;
    hide Joined;
    hide Share;
    hide ResponseText;
    hide PlainInput;
    hide PlaceOf;
    PlainTexts(Responses, before);
    if i.payload.Doc? && i.payload.value.JObj? {
      var o := i.payload.value.members;
      DoneMeans(o, i.name);
      if Missing(o, "error") && Is(o, "type", i.name) && PlainEnvelope(o) { DoneIff(o, i.name); }
    }
  }

  lemma {:induction false} DoneMeans(o: Object, name: string)
    ensures DoneEvent(o, name) ==> Missing(o, "error") && Is(o, "type", name) && PlainEnvelope(o) && name != "" && IsString(o, "text")
  {}

  lemma {:induction false} EndsIff(api: Api, before: seq<Input>, i: Input, limit: int)
    requires forall k :: 0 <= k < |before| ==> PlainInput(api, before[k])
    ensures Ends(Moves(api, before), MoveOf(api, i), limit) <==> EndsOnTheWire(api, before, i, limit)
  {
    hide Ends;
    hide Read;
    hide PlainInput;
    if i.Response? {
      OnlySeen(Moves(api, before), limit);
    } else if api.Chat? {
      ChatEndsIff(before, i, limit);
    } else {
      ResponsesEndsIff(before, i, limit);
    }
  }

  lemma {:induction false} OnlySeen(run: seq<Move>, limit: int)
    ensures !Ends(run, NewResponse, limit)
  {}

  /** The names an ending payload states. */
  lemma {:induction false} EndNames(api: Api, before: seq<Input>, i: Input, limit: int)
    requires EndsOnTheWire(api, before, i, limit)
    ensures var m := MoveOf(api, i);
            && ItemNamed(m) == WireItem(api, i.name, i.payload) && PartNamed(m) == WirePart(api, i.name, i.payload)
            && !IsAnnouncement(m) && !WireAnnounces(api, i.name, i.payload)
  {
    hide ReadChunk;
    hide ReadEvent;
    hide WireTexts;
    hide ResponseText;
    hide WireText;
    var o := i.payload.value.members;
    if api.Chat? {
      ChunkIsChoice(o);
    } else {
      DoneIff(o, i.name);
    }
  }

  /** The payload agrees with every one before it in its response. */
  predicate AgreesOnTheWire(api: Api, before: seq<Input>, i: Input)
  {
    forall k :: 0 <= k < |before| && (forall j :: k < j < |before| ==> !before[j].Response?) ==> NameAlike(api, before[k], i)
  }

  lemma {:induction false} EndAgreesIff(api: Api, before: seq<Input>, i: Input, limit: int)
    requires (forall k :: 0 <= k < |before| ==> PlainInput(api, before[k])) && EndsOnTheWire(api, before, i, limit)
    ensures AgreesWithResponse(Moves(api, before), MoveOf(api, i)) <==> AgreesOnTheWire(api, before, i)
  {
    hide MoveOf;
    hide PlainInput;
    hide WireItem;
    hide WirePart;
    hide WireAnnounces;
    hide WireClosing;
    hide WireText;
    hide EndsOnTheWire;
    hide Agree;
    hide NameAlike;
    var run := Moves(api, before);
    EndNames(api, before, i, limit);
    EndIsData(api, before, i, limit);
    BoundaryIs(api, i);
    forall k | 0 <= k < |before|
      ensures Agree(run[k], MoveOf(api, i)) <==> NameAlike(api, before[k], i)
      ensures Current(run, k) <==> forall j :: k < j < |before| ==> !before[j].Response?
    {
      EndAgreement(api, before[k], i);
      forall j | 0 <= j < |before| ensures run[j].NewResponse? <==> before[j].Response? { BoundaryIs(api, before[j]); }
    }
  }

  lemma {:induction false} EndIsData(api: Api, before: seq<Input>, i: Input, limit: int)
    requires EndsOnTheWire(api, before, i, limit)
    ensures i.Data?
  {}

  lemma {:induction false} EndAgreement(api: Api, a: Input, i: Input)
    requires PlainInput(api, a) && i.Data?
    requires var m := MoveOf(api, i);
             && ItemNamed(m) == WireItem(api, i.name, i.payload) && PartNamed(m) == WirePart(api, i.name, i.payload)
             && !IsAnnouncement(m) && !WireAnnounces(api, i.name, i.payload)
    ensures Agree(MoveOf(api, a), MoveOf(api, i)) <==> NameAlike(api, a, i)
  {
    hide MoveOf;
    hide PlainInput;
    hide WireItem;
    hide WirePart;
    hide WireAnnounces;
    hide WireClosing;
    hide WireText;
    InputNames(api, a);
  }

  /** The verdict is "finished" exactly when, after a continuable stream, a payload of its response
      ended the answer. */
  lemma {:induction false} TerminalFromTheWire(api: Api, inputs: seq<Input>, limit: int)
    ensures VerdictOf(Run(Moves(api, inputs), limit)) == Terminal <==>
            exists i :: 0 <= i < |inputs| && Continuable(api, inputs[..i], limit)
                        && EndsOnTheWire(api, inputs[..i], inputs[i], limit) && AgreesOnTheWire(api, inputs[..i], inputs[i])
  {
    hide Run;
    hide VerdictOf;
    hide Clean;
    hide Ends;
    hide EndsOnTheWire;
    hide AgreesWithResponse;
    hide AgreesOnTheWire;
    hide PlainInput;
    hide MoveOf;
    var run := Moves(api, inputs);
    TerminalIff(run, limit);
    forall i | 0 <= i < |inputs|
      ensures (Clean(run[..i], limit) && Ends(run[..i], run[i], limit) && AgreesWithResponse(run[..i], run[i]))
              <==> (Continuable(api, inputs[..i], limit) && EndsOnTheWire(api, inputs[..i], inputs[i], limit)
                    && AgreesOnTheWire(api, inputs[..i], inputs[i]))
    {
      assert run[..i] == Moves(api, inputs[..i]) && run[i] == MoveOf(api, inputs[i]);
      CleanIff(api, inputs[..i], limit);
      if Continuable(api, inputs[..i], limit) {
        EndsIff(api, inputs[..i], inputs[i], limit);
        if EndsOnTheWire(api, inputs[..i], inputs[i], limit) { EndAgreesIff(api, inputs[..i], inputs[i], limit); }
      }
    }
  }

  // ---------------------------------------------------------------- why a payload is refused

  /** The reason a payload is refused for by itself names what it carries. */
  lemma {:induction false} ReasonsNameTheCause(name: string, p: Payload)
    ensures p.NotJson? || (p.Doc? && !p.value.JObj? && !p.value.JNull?) ==>
              Read(Chat, name, p) == Read(Responses, name, p) == Bad(NotObject)
    ensures Fails(p) ==> Read(Chat, name, p) == Read(Responses, name, p) == Bad(UpstreamTerminal)
    ensures ChatCallsTool(p) && !Fails(p) ==> Read(Chat, name, p) == Bad(ToolCalls)
  {}

  lemma {:induction false} EventReasonsNameTheCause(name: string, o: Object)
    requires NamedAlike(name, Doc(JObj(o))) && Missing(o, "error") && PlainEnvelope(o)
    ensures var r := Read(Responses, name, Doc(JObj(o)));
            var calls := {"response.function_call_arguments.delta", "response.function_call_arguments.done",
                          "response.custom_tool_call_input.delta", "response.custom_tool_call_input.done"};
            && (name in calls ==> r == Bad(ToolCalls))
            && (name == "response.refusal.delta" ==> r == Bad(Refusal))
            && (name == "response.refusal.done" && IsName(o, "refusal") ==> r == Bad(Refusal))
            && (name in {"response.failed", "response.incomplete", "response.error"} ==> r == Bad(UpstreamTerminal))
  {
    hide ReadItem;
    hide ReadPart;
    hide PlaceOf;
  }
}
