/** The fail-closed continuation accumulator: internal/proxy/continuation.go.

    `Read` says what one payload states, whatever came before it.  `Step` says what the accumulator
    makes of it.  The class carries the source's fields through the source's methods and is proved
    to do exactly `Step`.  What whole runs mean is in ContinuationRuns.
 */
module Continuation {
  import opened Wrappers

  /** A decoded JSON value.  `JInt` is an integer literal that fits an int, `JNum` any other number. */
  datatype J =
    | JNull | JBool(b: bool) | JInt(n: int) | JNum(spelling: string) | JStr(s: string)
    | JArr(items: seq<J>) | JObj(members: map<string, J>)

  type Object = map<string, J>

  /** A data payload: the Chat end marker, bytes that are not JSON, or a JSON document. */
  datatype Payload = DoneMarker | NotJson | Doc(value: J)

  datatype Api = Chat | Responses

  datatype Reason = NotObject | ToolCalls | Refusal | UnknownShape | UpstreamTerminal | MultipleOutputs | Oversize | NoPrefix

  datatype Verdict = Recoverable(text: string) | Terminal | Unsafe(reason: Reason)

  // ---------------------------------------------------------------- reading members

  /** A member that is there and not null. */
  function Stated(o: Object, key: string): Option<J>
  {
    if key in o && !o[key].JNull? then Some(o[key]) else None
  }

  /** json.Unmarshal into a map: null gives an empty one. */
  function AsObject(v: J): Option<Object>
  {
    if v.JObj? then Some(v.members) else if v.JNull? then Some(map[]) else None
  }

  function AsString(v: J): Option<string> { if v.JStr? then Some(v.s) else if v.JNull? then Some("") else None }

  /** responsesStringMember */
  function StringMember(o: Object, key: string): Option<string>
  {
    match Stated(o, key)
    case Some(JStr(s)) => if s == "" then None else Some(s)
    case _ => None
  }

  /** responsesIndexMember */
  function IndexMember(o: Object, key: string): Option<nat>
  {
    match Stated(o, key)
    case Some(JInt(n)) => if n < 0 then None else Some(n)
    case _ => None
  }

  // ---------------------------------------------------------------- what one payload states

  /** The output item, and the content part of it, that an event names. */
  datatype Item = Item(id: string, outputIndex: nat)
  datatype Place = Place(item: Item, contentIndex: nat)

  datatype Saying = Delta(s: string) | Whole(text: Option<string>) | Mark | PartText(t: string) | Spoiled(why: Reason)

  datatype Claim =
    | Nothing
    | Bad(reason: Reason)
    | Choice(index: Option<nat>, content: string, ends: bool)
    | Announces(item: Option<Item>)
    | Closes(item: Option<Item>)
    | Text(place: Option<Place>, says: Saying)

  function Read(api: Api, name: string, p: Payload): Claim
  {
    match p
    case DoneMarker => if api.Chat? then Nothing else Bad(NotObject)
    case NotJson => Bad(NotObject)
    case Doc(v) =>
      match AsObject(v)
      case None => Bad(NotObject)
      case Some(o) =>
        if Stated(o, "error").Some? then Bad(UpstreamTerminal)
        else if api.Chat? then ReadChunk(o)
        else if !NameAgrees(o, name) then Bad(UnknownShape)
        else if EnvelopeFault(o).Some? then Bad(EnvelopeFault(o).value)
        else ReadEvent(o, o["type"].s)
  }

  predicate NameAgrees(o: Object, name: string) { name != "" && Stated(o, "type") == Some(JStr(name)) }

  function EnvelopeFault(o: Object): Option<Reason>
  {
    match Stated(o, "response")
    case None => None
    case Some(r) =>
      if !r.JObj? then Some(UnknownShape) else if Stated(r.members, "error").Some? then Some(UpstreamTerminal) else None
  }

  function ReadChunk(o: Object): Claim
  {
    match Stated(o, "choices")
    case None => Nothing
    case Some(JArr(items)) =>
      if exists i :: 0 <= i < |items| && AsObject(items[i]).None? then Bad(UnknownShape)
      else if |items| > 1 then Bad(MultipleOutputs)
      else if |items| == 0 then Nothing
      else ReadChoice(AsObject(items[0]).value)
    case Some(_) => Bad(UnknownShape)
  }

  function ReadChoice(c: Object): Claim
  {
    var ends := Stated(c, "finish_reason").Some?;
    match Stated(c, "delta")
    case None => Choice(IndexMember(c, "index"), "", ends)
    case Some(JObj(d)) =>
      if Stated(d, "tool_calls").Some? || Stated(d, "function_call").Some? then Bad(ToolCalls)
      else (match Stated(d, "content")
            case None => Choice(IndexMember(c, "index"), "", ends)
            case Some(JStr(s)) => Choice(IndexMember(c, "index"), s, ends)
            case Some(_) => Bad(UnknownShape))
    case Some(_) => Bad(UnknownShape)
  }

  const CALL_EVENTS := {"response.function_call_arguments.delta", "response.function_call_arguments.done",
                        "response.custom_tool_call_input.delta", "response.custom_tool_call_input.done"}

  const FAILURE_EVENTS := {"response.failed", "response.incomplete", "response.error"}

  const METADATA_EVENTS := {"response.created", "response.queued", "response.in_progress", "response.completed",
                            "response.reasoning_summary_part.added", "response.reasoning_summary_part.done",
                            "response.reasoning_summary_text.delta", "response.reasoning_summary_text.done",
                            "response.reasoning_text.delta", "response.reasoning_text.done"}

  const TEXT_DELTA := "response.output_text.delta"

  function ReadEvent(o: Object, kind: string): Claim
  {
    if kind == TEXT_DELTA then ReadDelta(o)
    else if kind == "response.output_text.done" then Text(PlaceOf(o), Whole(StatedText(o, "text")))
    else if kind == "response.refusal.delta" then Bad(Refusal)
    else if kind == "response.refusal.done" then ReadRefusal(o)
    else if kind == "response.output_item.added" then ReadItem(o, true)
    else if kind == "response.output_item.done" then ReadItem(o, false)
    else if kind in CALL_EVENTS then Bad(ToolCalls)
    else if kind in FAILURE_EVENTS then Bad(UpstreamTerminal)
    else if kind == "response.content_part.added" then Text(PlaceOf(o), ReadPart(o, false))
    else if kind == "response.content_part.done" then Text(PlaceOf(o), ReadPart(o, true))
    else if kind == "response.output_text.annotation.added" then Text(PlaceOf(o), Mark)
    else if kind in METADATA_EVENTS then Nothing
    else Bad(UnknownShape)
  }

  function StatedText(o: Object, key: string): Option<string>
  {
    match Stated(o, key)
    case Some(JStr(s)) => Some(s)
    case _ => None
  }

  function PlaceOf(o: Object): Option<Place>
  {
    var id, out, part := StringMember(o, "item_id"), IndexMember(o, "output_index"), IndexMember(o, "content_index");
    if id.Some? && out.Some? && part.Some? then Some(Place(Item(id.value, out.value), part.value)) else None
  }

  function ReadDelta(o: Object): Claim
  {
    match Stated(o, "delta")
    case None => Nothing
    case Some(JStr(s)) => Text(PlaceOf(o), Delta(s))
    case Some(_) => Bad(UnknownShape)
  }

  function ReadRefusal(o: Object): Claim
  {
    match Stated(o, "refusal")
    case None => Nothing
    case Some(JStr(s)) => if s == "" then Nothing else Bad(Refusal)
    case Some(_) => Bad(UnknownShape)
  }

  function ReadItem(o: Object, added: bool): Claim
  {
    match Stated(o, "item")
    case Some(JObj(item)) =>
      (match Stated(item, "type")
       case Some(JStr(kind)) =>
         if kind == "message" then
           var id, out := StringMember(item, "id"), IndexMember(o, "output_index");
           var named := if id.Some? && out.Some? then Some(Item(id.value, out.value)) else None;
           if added then Announces(named) else Closes(named)
         else if kind == "reasoning" then Nothing
         else Bad(ToolCalls)
       case _ => Bad(UnknownShape))
    case _ => Bad(UnknownShape)
  }

  function ReadPart(o: Object, done: bool): Saying
  {
    match Stated(o, "part")
    case None => Mark
    case Some(JObj(part)) =>
      (match Stated(part, "type")
       case Some(JStr(kind)) =>
         if kind == "output_text" then if done then ReadPartText(part) else Mark
         else if kind == "refusal" then Spoiled(Refusal)
         else Spoiled(UnknownShape)
       case _ => Spoiled(UnknownShape))
    case Some(_) => Spoiled(UnknownShape)
  }

  function ReadPartText(part: Object): Saying
  {
    match Stated(part, "text")
    case None => Mark
    case Some(JStr(t)) => if t == "" then Mark else PartText(t)
    case Some(_) => Spoiled(UnknownShape)
  }

  // ---------------------------------------------------------------- what is made of it

  /** A live accumulator: the prefix, where the current response's share of it begins, and the
      identity that response has stated so far.  Otherwise a latched verdict. */
  datatype View =
    | Live(text: string, start: nat, seen: bool, item: Option<Item>, part: Option<nat>)
    | Refused(reason: Reason)
    | Over

  const FRESH := Live("", 0, false, None, None)

  function Begin(v: View): View { if v.Live? then Live(v.text, |v.text|, false, None, None) else v }

  function Append(v: View, s: string, limit: int): View
    requires v.Live?
  {
    if s == "" then v else if |v.text + s| >= limit then Refused(Oversize) else v.(text := v.text + s)
  }

  function BindItem(v: View, item: Item): View
    requires v.Live?
  {
    if v.item.None? || v.item.value == item then v.(item := Some(item)) else Refused(MultipleOutputs)
  }

  function BindPlace(v: View, p: Place): View
    requires v.Live?
  {
    var w := BindItem(v, p.item);
    if !w.Live? then w
    else if w.part.None? || w.part.value == p.contentIndex then w.(part := Some(p.contentIndex))
    else Refused(MultipleOutputs)
  }

  function Region(v: View): string
    requires v.Live? && v.start <= |v.text|
  {
    v.text[v.start..]
  }

  function EndIfLive(v: View): View { if v.Live? then Over else v }

  function Hear(v: View, says: Saying, limit: int): View
    requires v.Live? && v.start <= |v.text|
  {
    match says
    case Delta(s) => Append(v, s, limit)
    case Whole(None) => Refused(UnknownShape)
    case Whole(Some(t)) =>
      if Region(v) == "" then EndIfLive(Append(v, t, limit)) else if Region(v) == t then Over else Refused(UnknownShape)
    case Mark => v
    case PartText(t) => if Region(v) == t then v else Refused(UnknownShape)
    case Spoiled(r) => Refused(r)
  }

  predicate Sound(v: View) { v.Live? ==> v.start <= |v.text| }

  function Step(v: View, c: Claim, limit: int): (w: View)
    requires Sound(v)
    ensures Sound(w)
  {
    if !v.Live? then v
    else
      match c
      case Nothing => v
      case Bad(r) => Refused(r)
      case Choice(index, content, ends) =>
        if index.None? then Refused(UnknownShape)
        else if index.value != 0 then Refused(MultipleOutputs)
        else if ends then EndIfLive(Append(v, content, limit))
        else Append(v, content, limit)
      case Announces(item) =>
        if v.seen then Refused(MultipleOutputs)
        else if item.None? then Refused(UnknownShape)
        else BindItem(v.(seen := true), item.value)
      case Closes(item) => if item.None? then Refused(UnknownShape) else BindItem(v, item.value)
      case Text(place, says) =>
        if place.None? then Refused(UnknownShape)
        else
          var w := BindPlace(v, place.value);
          if w.Live? then Hear(w, says, limit) else w
  }

  function VerdictOf(v: View): Verdict
  {
    match v
    case Refused(r) => Unsafe(r)
    case Over => Terminal
    case Live(text, _, _, _, _) => if text == "" then Unsafe(NoPrefix) else Recoverable(text)
  }

  // ---------------------------------------------------------------- the accumulator itself

  class PartialText {
    const api: Api
    const limit: int
    var text: string
    var refusal: Option<Reason>
    var terminal: bool
    var itemSeen: bool
    var itemBound: bool
    var itemID: string
    var outputIndex: nat
    var streamBound: bool
    var contentIndex: nat
    var streamKind: string
    var choiceBound: bool
    var choiceIndex: nat
    var passStart: nat

    ghost predicate Valid()
      reads this
    {
      && passStart <= |text|
      && !(refusal.Some? && terminal)
      && (refusal.Some? || terminal ==> text == "")
      && (Alive() && streamBound ==> streamKind == TEXT_DELTA)
      && (Alive() && choiceBound ==> choiceIndex == 0)
    }

    ghost predicate Alive()
      reads this
    {
      refusal.None? && !terminal
    }

    ghost function View(): View
      reads this
    {
      if refusal.Some? then Refused(refusal.value)
      else if terminal then Over
      else
        Live(text, passStart, itemSeen, if itemBound then Some(Item(itemID, outputIndex)) else None,
             if streamBound then Some(contentIndex) else None)
    }

    constructor (api: Api, limit: int)
      ensures Valid() && View() == FRESH && this.api == api && this.limit == limit
    {
      this.api, this.limit := api, limit;
      text, refusal, terminal, passStart := "", None, false, 0;
      itemSeen, itemBound, itemID, outputIndex := false, false, "", 0;
      streamBound, contentIndex, streamKind := false, 0, "";
      choiceBound, choiceIndex := false, 0;
    }

    method BeginUpstreamStream()
      requires Valid()
      modifies this
      ensures Valid() && View() == Begin(old(View()))
    {
      passStart := |text|;
      itemSeen, itemBound, itemID, outputIndex := false, false, "", 0;
      streamBound, contentIndex, streamKind := false, 0, "";
      choiceBound, choiceIndex := false, 0;
    }

    method PassText() returns (s: string)
      requires Valid()
      ensures s == text[passStart..]
    {
      s := text[passStart..];
    }

    method Refuse(reason: Reason)
      requires !terminal
      modifies this
      ensures Valid() && View() == Refused(if old(refusal).Some? then old(refusal).value else reason)
    {
      if refusal.None? {
        refusal := Some(reason);
      }
      text := "";
      passStart := 0;
    }

    method Finish()
      requires Valid() && Alive()
      modifies this
      ensures Valid() && View() == Over
    {
      terminal := true;
      text := "";
      passStart := 0;
    }

    method AppendText(s: string)
      requires Valid() && Alive()
      modifies this
      ensures Valid() && !terminal && View() == Append(old(View()), s, limit)
    {
      if s == "" {
        return;
      }
      text := text + s;
      if |text| >= limit {
        Refuse(Oversize);
      }
    }

    method Observe(name: string, payload: Payload)
      requires Valid()
      modifies this
      ensures Valid() && View() == Step(old(View()), Read(api, name, payload), limit)
    {
      hide ReadChunk;
      hide ReadEvent;
      if refusal.Some? || terminal {
        return;
      }
      if api == Chat && payload == DoneMarker {
        return;
      }
      if !payload.Doc? || AsObject(payload.value).None? {
        Refuse(NotObject);
        return;
      }
      var obj := AsObject(payload.value).value;
      if Stated(obj, "error").Some? {
        Refuse(UpstreamTerminal);
        return;
      }
      if api == Chat {
        ObserveChatChunk(obj);
        return;
      }
      var agrees := FrameNameAgrees(obj, name);
      if !agrees {
        Refuse(UnknownShape);
        return;
      }
      var raw := Stated(obj, "response");
      if raw.Some? {
        if !raw.value.JObj? {
          Refuse(UnknownShape);
          return;
        }
        if Stated(raw.value.members, "error").Some? {
          Refuse(UpstreamTerminal);
          return;
        }
      }
      ObserveResponsesEvent(obj);
    }

    method FrameNameAgrees(obj: Object, name: string) returns (ok: bool)
      ensures ok <==> NameAgrees(obj, name)
    {
      if name == "" || "type" !in obj {
        return false;
      }
      var kind := AsString(obj["type"]);
      if kind.None? {
        return false;
      }
      ok := name == kind.value;
    }

    method ObserveChatChunk(obj: Object)
      requires Valid() && Alive()
      modifies this
      ensures Valid() && View() == Step(old(View()), ReadChunk(obj), limit)
    {
      hide ReadChoice;
      var raw := Stated(obj, "choices");
      if raw.None? {
        return;
      }
      if !raw.value.JArr? || exists i :: 0 <= i < |raw.value.items| && AsObject(raw.value.items[i]).None? {
        Refuse(UnknownShape);
        return;
      }
      var choices := raw.value.items;
      if |choices| > 1 {
        Refuse(MultipleOutputs);
        return;
      }
      if |choices| == 1 {
        ObserveChoice(AsObject(choices[0]).value);
      }
    }

    /** The one turn of the loop over choices. */
    method ObserveChoice(choice: Object)
      requires Valid() && Alive()
      modifies this
      ensures Valid() && View() == Step(old(View()), ReadChoice(choice), limit)
    {
      hide Append;
      var content, hasContent := "", false;
      var raw := Stated(choice, "delta");
      if raw.Some? {
        if !raw.value.JObj? {
          Refuse(UnknownShape);
          return;
        }
        var delta := raw.value.members;
        if Stated(delta, "tool_calls").Some? || Stated(delta, "function_call").Some? {
          Refuse(ToolCalls);
          return;
        }
        var c := Stated(delta, "content");
        if c.Some? {
          if !c.value.JStr? {
            Refuse(UnknownShape);
            return;
          }
          content, hasContent := c.value.s, true;
        }
      }
      var bound := BindChoiceIndex(choice);
      if !bound {
        return;
      }
      if hasContent {
        AppendText(content);
        if refusal.Some? {
          return;
        }
      } else {
        NothingAppended(View(), limit);
      }
      if Stated(choice, "finish_reason").Some? {
        Finish();
      }
    }

    method BindChoiceIndex(choice: Object) returns (ok: bool)
      requires Valid() && Alive()
      modifies this
      ensures Valid() && (ok <==> IndexMember(choice, "index") == Some(0))
      ensures View() ==
              if ok then old(View())
              else if IndexMember(choice, "index").None? then Refused(UnknownShape) else Refused(MultipleOutputs)
    {
      var index := IndexMember(choice, "index");
      if index.None? {
        Refuse(UnknownShape);
        return false;
      }
      if !choiceBound {
        choiceBound, choiceIndex := true, index.value;
      }
      if choiceIndex != index.value || choiceIndex != 0 {
        Refuse(MultipleOutputs);
        return false;
      }
      ok := true;
    }

    method ObserveResponsesEvent(obj: Object)
      requires Valid() && Alive() && Stated(obj, "type").Some? && Stated(obj, "type").value.JStr?
      modifies this
      ensures Valid() && View() == Step(old(View()), ReadEvent(obj, obj["type"].s), limit)
    {
      hide Step;
      hide ReadDelta;
      hide ReadRefusal;
      hide ReadItem;
      hide ReadPart;
      hide PlaceOf;
      hide StatedText;
      var kind := obj["type"].s;
      BadRefuses(View(), limit);
      if kind == TEXT_DELTA {
        AppendDelta(kind, obj);
      } else if kind == "response.output_text.done" {
        ObserveTextDone(obj);
      } else if kind == "response.refusal.delta" {
        Refuse(Refusal);
      } else if kind == "response.refusal.done" {
        ObserveRefusalDone(obj);
      } else if kind == "response.output_item.added" {
        ObserveItem(obj);
      } else if kind == "response.output_item.done" {
        ObserveItemDone(obj);
      } else if kind in CALL_EVENTS {
        Refuse(ToolCalls);
      } else if kind in FAILURE_EVENTS {
        Refuse(UpstreamTerminal);
      } else if kind == "response.content_part.added" {
        ObserveContentPart(obj, false);
      } else if kind == "response.content_part.done" {
        ObserveContentPart(obj, true);
      } else if kind == "response.output_text.annotation.added" {
        ObserveAnnotation(obj);
      } else if kind !in METADATA_EVENTS {
        Refuse(UnknownShape);
      }
    }

    method ObserveTextDone(obj: Object)
      requires Valid() && Alive()
      modifies this
      ensures Valid() && View() == Step(old(View()), Text(PlaceOf(obj), Whole(StatedText(obj, "text"))), limit)
    {
      hide PlaceOf;
      hide BindPlace;
      hide Append;
      var bound := BindTextStream(TEXT_DELTA, obj);
      if !bound {
        return;
      }
      var raw := Stated(obj, "text");
      if raw.None? || !raw.value.JStr? {
        Refuse(UnknownShape);
        return;
      }
      var whole := raw.value.s;
      var pass := PassText();
      if pass == "" {
        AppendText(whole);
      } else if pass != whole {
        Refuse(UnknownShape);
      }
      if refusal.None? {
        Finish();
      }
    }

    method ObserveRefusalDone(obj: Object)
      requires Valid() && Alive()
      modifies this
      ensures Valid() && View() == Step(old(View()), ReadRefusal(obj), limit)
    {
      var raw := Stated(obj, "refusal");
      if raw.None? {
        return;
      }
      if !raw.value.JStr? {
        Refuse(UnknownShape);
        return;
      }
      if raw.value.s == "" {
        return;
      }
      Refuse(Refusal);
    }

    method ObserveItem(obj: Object)
      requires Valid() && Alive()
      modifies this
      ensures Valid() && View() == Step(old(View()), ReadItem(obj, true), limit)
    {
      var item, kind := ResponsesItem(obj);
      if kind.None? {
        Refuse(UnknownShape);
        return;
      }
      if kind.value == "message" {
        if itemSeen {
          Refuse(MultipleOutputs);
          return;
        }
        itemSeen := true;
        BindMessageItem(item, obj);
      } else if kind.value != "reasoning" {
        Refuse(ToolCalls);
      }
    }

    method ObserveItemDone(obj: Object)
      requires Valid() && Alive()
      modifies this
      ensures Valid() && View() == Step(old(View()), ReadItem(obj, false), limit)
    {
      var item, kind := ResponsesItem(obj);
      if kind.None? {
        Refuse(UnknownShape);
        return;
      }
      if kind.value == "message" {
        BindMessageItem(item, obj);
      } else if kind.value != "reasoning" {
        Refuse(ToolCalls);
      }
    }

    method BindMessageItem(item: Object, obj: Object)
      requires Valid() && Alive()
      modifies this
      ensures Valid()
      ensures var id, out := StringMember(item, "id"), IndexMember(obj, "output_index");
              View() == if id.Some? && out.Some? then BindItem(old(View()), Item(id.value, out.value))
                        else Refused(UnknownShape)
    {
      var id := StringMember(item, "id");
      if id.None? {
        Refuse(UnknownShape);
        return;
      }
      var index := IndexMember(obj, "output_index");
      if index.None? {
        Refuse(UnknownShape);
        return;
      }
      var ok := BindItemIdentity(id.value, index.value);
    }

    /** responsesItem: the item and its type, when both can be read. */
    method ResponsesItem(obj: Object) returns (item: Object, kind: Option<string>)
      ensures match Stated(obj, "item")
              case Some(JObj(m)) =>
                (match Stated(m, "type")
                 case Some(JStr(s)) => item == m && kind == Some(s)
                 case _ => kind.None?)
              case _ => kind.None?
    {
      item, kind := map[], None;
      var raw := Stated(obj, "item");
      if raw.Some? && raw.value.JObj? {
        var t := Stated(raw.value.members, "type");
        if t.Some? && t.value.JStr? {
          item, kind := raw.value.members, Some(t.value.s);
        }
      }
    }

    method ObserveContentPart(obj: Object, done: bool)
      requires Valid() && Alive()
      modifies this
      ensures Valid() && View() == Step(old(View()), Text(PlaceOf(obj), ReadPart(obj, done)), limit)
    {
      hide PlaceOf;
      hide BindPlace;
      hide ReadPartText;
      var bound := BindTextStream(TEXT_DELTA, obj);
      if !bound {
        return;
      }
      var raw := Stated(obj, "part");
      if raw.None? {
        return;
      }
      if !raw.value.JObj? {
        Refuse(UnknownShape);
        return;
      }
      var part := raw.value.members;
      var kind := Stated(part, "type");
      if kind.None? || !kind.value.JStr? {
        Refuse(UnknownShape);
        return;
      }
      if kind.value.s == "output_text" {
        if done {
          VerifyPartText(part);
        }
      } else if kind.value.s == "refusal" {
        Refuse(Refusal);
      } else {
        Refuse(UnknownShape);
      }
    }

    method VerifyPartText(part: Object)
      requires Valid() && Alive()
      modifies this
      ensures Valid() && View() == Hear(old(View()), ReadPartText(part), limit)
    {
      var raw := Stated(part, "text");
      if raw.None? {
        return;
      }
      if !raw.value.JStr? {
        Refuse(UnknownShape);
        return;
      }
      if raw.value.s == "" {
        return;
      }
      var pass := PassText();
      if pass != raw.value.s {
        Refuse(UnknownShape);
      }
    }

    method ObserveAnnotation(obj: Object)
      requires Valid() && Alive()
      modifies this
      ensures Valid() && View() == Step(old(View()), Text(PlaceOf(obj), Mark), limit)
    {
      hide PlaceOf;
      hide BindPlace;
      var bound := BindTextStream(TEXT_DELTA, obj);
    }

    method AppendDelta(kind: string, obj: Object)
      requires Valid() && Alive() && kind == TEXT_DELTA
      modifies this
      ensures Valid() && View() == Step(old(View()), ReadDelta(obj), limit)
    {
      hide PlaceOf;
      hide BindPlace;
      hide Append;
      var raw := Stated(obj, "delta");
      if raw.None? {
        return;
      }
      if !raw.value.JStr? {
        Refuse(UnknownShape);
        return;
      }
      var bound := BindTextStream(kind, obj);
      if !bound {
        return;
      }
      AppendText(raw.value.s);
    }

    method BindTextStream(kind: string, obj: Object) returns (ok: bool)
      requires Valid() && Alive() && kind == TEXT_DELTA
      modifies this
      ensures Valid() && (ok <==> Alive())
      ensures View() == if PlaceOf(obj).None? then Refused(UnknownShape) else BindPlace(old(View()), PlaceOf(obj).value)
      ensures ok ==> text == old(text) && passStart == old(passStart)
    {
      var id := StringMember(obj, "item_id");
      if id.None? {
        Refuse(UnknownShape);
        return false;
      }
      var out := IndexMember(obj, "output_index");
      if out.None? {
        Refuse(UnknownShape);
        return false;
      }
      var index := IndexMember(obj, "content_index");
      if index.None? {
        Refuse(UnknownShape);
        return false;
      }
      var bound := BindItemIdentity(id.value, out.value);
      if !bound {
        return false;
      }
      if !streamBound {
        streamBound, contentIndex, streamKind := true, index.value, kind;
        return true;
      }
      if contentIndex != index.value || streamKind != kind {
        Refuse(MultipleOutputs);
        return false;
      }
      ok := true;
    }

    method BindItemIdentity(id: string, index: nat) returns (ok: bool)
      requires Valid() && Alive()
      modifies this
      ensures Valid() && (ok <==> Alive()) && View() == BindItem(old(View()), Item(id, index))
    {
      if !itemBound {
        itemBound, itemID, outputIndex := true, id, index;
        return true;
      }
      if itemID != id || outputIndex != index {
        Refuse(MultipleOutputs);
        return false;
      }
      ok := true;
    }

    method Verdict() returns (v: Verdict)
      requires Valid()
      ensures v == VerdictOf(View())
    {
      if refusal.Some? {
        return Unsafe(refusal.value);
      }
      if terminal {
        return Terminal;
      }
      if text == "" {
        return Unsafe(NoPrefix);
      }
      v := Recoverable(text);
    }
  }

  lemma {:induction false} NothingAppended(v: View, limit: int)
    requires v.Live?
    ensures Append(v, "", limit) == v
  {}

  lemma {:induction false} BadRefuses(v: View, limit: int)
    requires v.Live? && Sound(v)
    ensures (forall r :: Step(v, Bad(r), limit) == Refused(r)) && Step(v, Nothing, limit) == v
  {}
}
