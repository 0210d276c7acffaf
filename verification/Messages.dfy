/** The Chat-to-Anthropic event translator: internal/inject/messages_stream.go.

    `Take` is an Anthropic client reading events: it accepts exactly the well-formed streams and
    assembles the message.  `Tell` says, without events, what message a payload sequence amounts
    to.  The translator is proved to emit, on every payload sequence, events the client accepts
    and assembles into that message.
 */
module Messages {
  import opened Wrappers

  // ---------------------------------------------------------------- upstream payloads

  /** A tool call's arguments member: absent or null, a string, an object as written, or other. */
  datatype Args = NoArgs | Spelled(s: string) | Whole(raw: string) | Odd

  datatype Call = Call(id: string, name: string, args: Args)

  /** The first choice of a chunk; a chunk without a readable one states an empty one. */
  datatype Choice = Choice(text: Option<string>, calls: seq<Call>, finish: Option<string>)

  /** A usage object's two counts, where they are counts. */
  datatype Usage = Usage(prompt: Option<int>, completion: Option<int>)

  datatype Payload =
    | Blank | EndMarker | Unreadable
    | Chunk(fails: bool, id: Option<string>, usage: Option<Usage>, choice: Choice)

  /** argumentFragment */
  function Fragment(a: Args): string
  {
    match a
    case Spelled(s) => s
    case Whole(raw) => raw
    case _ => ""
  }

  /** stopReason; None is null. */
  function StopReason(finish: Option<string>): Option<string>
  {
    if finish.None? || finish.value == "" then None
    else if finish.value == "length" then Some("max_tokens")
    else if finish.value == "tool_calls" || finish.value == "function_call" then Some("tool_use")
    else if finish.value == "content_filter" then Some("refusal")
    else Some("end_turn")
  }

  datatype Counts = Counts(input: int, output: int)

  /** chatAnswerUsage */
  function CountsOf(u: Option<Usage>): Counts
  {
    if u.None? then Counts(0, 0)
    else Counts(if u.value.prompt.Some? then u.value.prompt.value else 0,
                if u.value.completion.Some? then u.value.completion.value else 0)
  }

  // ---------------------------------------------------------------- Anthropic events and their client

  datatype Opened = OpenText | OpenTool(id: string, name: string)

  datatype Event =
    | MessageStart(id: string, model: string, usage: Counts)
    | BlockStart(index: nat, block: Opened)
    | TextDelta(index: nat, text: string)
    | JsonDelta(index: nat, fragment: string)
    | BlockStop(index: nat)
    | MessageDelta(stop: Option<string>, counts: Counts)
    | MessageStop
    | ErrorEvent

  datatype Content = TextOf(text: string) | ToolOf(id: string, name: string, args: string)

  datatype Phase = Before | During | Summed | Stopped | Errored

  /** `opening` is the usage message_start carried, `counts` the usage last stated. */
  datatype Client = Client(phase: Phase, id: string, model: string, opening: Option<Counts>, blocks: seq<Content>, open: bool,
                           stop: Option<string>, counts: Counts)

  const UNSENT := Client(Before, "", "", None, [], false, None, Counts(0, 0))

  function WithLast(blocks: seq<Content>, b: Content): seq<Content>
    requires blocks != []
  {
    blocks[..|blocks| - 1] + [b]
  }

  /** One event, or None where a well-formed stream has no such event. */
  function Take(c: Client, e: Event): Option<Client>
  {
    var n := |c.blocks|;
    match e
    case MessageStart(id, model, usage) =>
      if c.phase.Before? then Some(c.(phase := During, id := id, model := model, opening := Some(usage), counts := usage)) else None
    case BlockStart(i, b) =>
      if c.phase.During? && !c.open && i == n then
        Some(c.(open := true, blocks := c.blocks + [if b.OpenText? then TextOf("") else ToolOf(b.id, b.name, "")]))
      else None
    case TextDelta(i, t) =>
      if c.phase.During? && c.open && i == n - 1 && c.blocks[n - 1].TextOf? && t != "" then
        Some(c.(blocks := WithLast(c.blocks, TextOf(c.blocks[n - 1].text + t))))
      else None
    case JsonDelta(i, f) =>
      if c.phase.During? && c.open && i == n - 1 && c.blocks[n - 1].ToolOf? && f != "" then
        Some(c.(blocks := WithLast(c.blocks, c.blocks[n - 1].(args := c.blocks[n - 1].args + f))))
      else None
    case BlockStop(i) => if c.phase.During? && c.open && i == n - 1 then Some(c.(open := false)) else None
    case MessageDelta(stop, counts) =>
      if c.phase.During? && !c.open then Some(c.(phase := Summed, stop := stop, counts := counts)) else None
    case MessageStop => if c.phase.Summed? then Some(c.(phase := Stopped)) else None
    case ErrorEvent => if c.phase.Before? || c.phase.During? then Some(c.(phase := Errored)) else None
  }

  function Parse(es: seq<Event>): (r: Option<Client>)
    ensures r.Some? && r.value.open ==> r.value.blocks != []
  {
    if es == [] then Some(UNSENT)
    else
      var r := Parse(es[..|es| - 1]);
      if r.None? then None else Take(r.value, es[|es| - 1])
  }

  lemma {:induction false} ParseSnoc(es: seq<Event>, e: Event)
    ensures Parse(es + [e]) == if Parse(es).None? then None else Take(Parse(es).value, e)
  {
    hide Take;
    assert (es + [e])[..|es|] == es;
  }

  lemma {:induction false} Emitted(out: seq<Event>, buf: seq<Event>, e: Event)
    ensures Parse(out + (buf + [e])) == if Parse(out + buf).None? then None else Take(Parse(out + buf).value, e)
  {
    hide Take;
    hide Parse;
    assert out + (buf + [e]) == (out + buf) + [e];
    ParseSnoc(out + buf, e);
  }

  lemma {:induction false} TakeText(c: Client, i: nat, t: string)
    requires c.phase.During? && c.open && i == |c.blocks| - 1 && c.blocks[i].TextOf? && t != ""
    ensures Take(c, TextDelta(i, t)) == Some(c.(blocks := WithLast(c.blocks, TextOf(c.blocks[i].text + t))))
  {}

  lemma {:induction false} TakeJson(c: Client, i: nat, f: string)
    requires c.phase.During? && c.open && i == |c.blocks| - 1 && c.blocks[i].ToolOf? && f != ""
    ensures Take(c, JsonDelta(i, f)) == Some(c.(blocks := WithLast(c.blocks, c.blocks[i].(args := c.blocks[i].args + f))))
  {}

  lemma {:induction false} LastKept(blocks: seq<Content>, b: Content)
    requires blocks != []
    ensures var r := WithLast(blocks, b); |r| == |blocks| && r[|r| - 1] == b
  {}

  lemma {:induction false} TextBegun(blocks: seq<Content>, text: string)
    ensures WithLast(blocks + [TextOf("")], TextOf("" + text)) == blocks + [TextOf(text)]
  {
    assert "" + text == text;
    assert (blocks + [TextOf("")])[..|blocks|] == blocks;
  }

  // ---------------------------------------------------------------- what a payload sequence amounts to

  datatype End = Going | Finished | Failed

  /** The answer so far: the id announced, the content, and what the upstream has stated. */
  datatype Told = Told(id: Option<string>, blocks: seq<Content>, finish: Option<string>, usage: Option<Usage>, end: End)

  const UNTOLD := Told(None, [], None, None, Going)

  /** Text extends the text block it follows, or begins one. */
  function AddText(blocks: seq<Content>, text: string): seq<Content>
  {
    var n := |blocks|;
    if text == "" then blocks
    else if n > 0 && blocks[n - 1].TextOf? then WithLast(blocks, TextOf(blocks[n - 1].text + text))
    else blocks + [TextOf(text)]
  }

  /** A call that names itself begins a block; a fragment extends the call it follows, or is lost. */
  function AddCall(blocks: seq<Content>, call: Call): seq<Content>
  {
    var b := if call.id != "" || call.name != "" then blocks + [ToolOf(call.id, call.name, "")] else blocks;
    AddFragment(b, Fragment(call.args))
  }

  function AddFragment(blocks: seq<Content>, f: string): seq<Content>
  {
    var n := |blocks|;
    if n == 0 || !blocks[n - 1].ToolOf? || f == "" then blocks
    else WithLast(blocks, blocks[n - 1].(args := blocks[n - 1].args + f))
  }

  function AddCalls(blocks: seq<Content>, calls: seq<Call>): seq<Content>
  {
    if calls == [] then blocks else AddCall(AddCalls(blocks, calls[..|calls| - 1]), calls[|calls| - 1])
  }

  function TextIn(c: Choice): string { if c.text.Some? then c.text.value else "" }

  function AddChoice(blocks: seq<Content>, c: Choice): seq<Content> { AddCalls(AddText(blocks, TextIn(c)), c.calls) }

  function Latest<T>(old_: Option<T>, new_: Option<T>): Option<T> { if new_.Some? then new_ else old_ }

  function Tell(t: Told, p: Payload): Told
  {
    if !t.end.Going? then t
    else
      match p
      case Blank => t
      case Unreadable => t
      case EndMarker => if t.finish.None? then t else t.(end := Finished)
      case Chunk(fails, id, usage, choice) =>
        if fails then t.(end := Failed)
        else
          var h := Heard(t, id, usage, choice);
          if h.finish.Some? && h.usage.Some? then h.(end := Finished) else h
  }

  function Heard(t: Told, id: Option<string>, usage: Option<Usage>, choice: Choice): Told
  {
    Told(if t.id.Some? then t.id else Some(if id.Some? then id.value else ""), AddChoice(t.blocks, choice),
         Latest(t.finish, choice.finish), Latest(t.usage, usage), t.end)
  }

  function TellAll(ps: seq<Payload>): Told
  {
    if ps == [] then UNTOLD else Tell(TellAll(ps[..|ps| - 1]), ps[|ps| - 1])
  }

  /** A clean end of input. */
  function TellEnd(t: Told): Told { if t.end.Going? && t.finish.Some? then t.(end := Finished) else t }

  /** The client that has read exactly this answer. */
  function ClientOf(t: Told, model: string): Client
  {
    Client(if t.end.Failed? then Errored else if t.end.Finished? then Stopped else if t.id.Some? then During else Before,
           if t.id.Some? then t.id.value else "", if t.id.Some? then model else "",
           if t.id.Some? then Some(Counts(0, 0)) else None,
           t.blocks, !t.end.Finished? && t.blocks != [],
           if t.end.Finished? then StopReason(t.finish) else None,
           if t.end.Finished? then CountsOf(t.usage) else Counts(0, 0))
  }

  // ---------------------------------------------------------------- the translator

  datatype Kind = BlockNone | BlockText | BlockTool

  class ChatToMessagesStream {
    const publicModel: string
    var id: string
    var started: bool
    var stopped: bool
    var failed: bool
    var finish: Option<string>
    var usage: Option<Usage>
    var nextIndex: nat
    var openIndex: nat
    var openKind: Kind
    ghost var out: seq<Event>
    ghost var told: Told

    /** The block fields describe the client that has read `es`. */
    ghost predicate Linked(es: seq<Event>)
      reads this
    {
      Parse(es).Some? && var c := Parse(es).value;
      && nextIndex == |c.blocks|
      && (openKind.BlockNone? <==> !c.open)
      && (c.open ==> openIndex == nextIndex - 1 && (openKind.BlockText? <==> c.blocks[nextIndex - 1].TextOf?))
    }

    /** What was sent is what was told. */
    ghost predicate Valid()
      reads this
    {
      && Parse(out) == Some(ClientOf(told, publicModel))
      && (told.end.Going? ==> Linked(out))
      && started == told.id.Some? && stopped == told.end.Finished? && failed == told.end.Failed?
      && finish == told.finish && usage == told.usage
      && (!started ==> id == "" && told.blocks == [] && finish.None? && !stopped)
    }

    constructor (model: string)
      ensures Valid() && told == UNTOLD && out == [] && publicModel == model
    {
      publicModel, id, started, stopped, failed := model, "", false, false, false;
      finish, usage, nextIndex, openIndex, openKind := None, None, 0, 0, BlockNone;
      out, told := [], UNTOLD;
    }

    method Frame(p: Payload) returns (es: seq<Event>)
      requires Valid()
      modifies this
      ensures Valid() && told == Tell(old(told), p) && out == old(out) + es
    {
      hide AddChoice;
      hide Take;
      hide Parse;
      es := [];
      assert out + [] == out;
      if stopped || failed || p.Blank? || p.Unreadable? {
        return;
      }
      if p.EndMarker? {
        es := Finish();
        return;
      }
      if p.fails {
        failed := true;
        es := [ErrorEvent];
        ErrorTaken(out, told, publicModel);
        told := Tell(told, p);
        out := out + es;
        return;
      }
      es := FrameChunk(p);
    }

    /** The part of Frame that handles a readable chunk. */
    method FrameChunk(p: Payload) returns (es: seq<Event>)
      requires Valid() && told.end.Going? && p.Chunk? && !p.fails
      modifies this
      ensures Valid() && told == Tell(old(told), p) && out == old(out) + es
    {
      hide AddChoice;
      hide Take;
      hide Parse;
      es := [];
      assert out + [] == out;
      es := FrameContent(p);
      if finish.Some? && usage.Some? {
        es := AppendTerminate(es);
      }
      told := Tell(told, p);
      out := out + es;
    }

    /** Latch what the chunk states, then emit its opening and its content. */
    method FrameContent(p: Payload) returns (es: seq<Event>)
      requires Valid() && told.end.Going? && p.Chunk? && !p.fails
      modifies this`id, this`usage, this`finish, this`started, this`nextIndex, this`openIndex, this`openKind
      ensures Linked(out + es) && started && !stopped && !failed
      ensures var h := Heard(told, p.id, p.usage, p.choice);
              finish == h.finish && usage == h.usage && Parse(out + es) == Some(ClientOf(h, publicModel))
    {
      hide AddChoice;
      hide Take;
      hide Parse;
      es := [];
      assert out + [] == out;
      if id == "" && p.id.Some? {
        id := p.id.value;
      }
      if p.usage.Some? {
        usage := p.usage;
      }
      if p.choice.finish.Some? {
        finish := p.choice.finish;
      }
      if !started {
        started := true;
        es := AppendMessageStart(es);
      }
      es := AppendContent(es, p.choice);
    }

    method Finish() returns (es: seq<Event>)
      requires Valid()
      modifies this
      ensures Valid() && told == TellEnd(old(told)) && out == old(out) + es
    {
      hide Take;
      hide Parse;
      es := [];
      assert out + [] == out;
      if stopped || failed || finish.None? {
        return;
      }
      es := AppendTerminate(es);
      told := TellEnd(told);
      out := out + es;
    }

    method AppendMessageStart(buf: seq<Event>) returns (r: seq<Event>)
      requires Linked(out + buf) && Parse(out + buf) == Some(UNSENT)
      ensures Linked(out + r) && Parse(out + r) == Some(UNSENT.(phase := During, id := id, model := publicModel, opening := Some(Counts(0, 0))))
    {
      var e := MessageStart(id, publicModel, CountsOf(None));
      r := buf + [e];
      Emitted(out, buf, e);
    }

    method AppendContent(buf: seq<Event>, choice: Choice) returns (r: seq<Event>)
      requires Linked(out + buf) && Ready(Parse(out + buf).value)
      modifies this`nextIndex, this`openIndex, this`openKind
      ensures Linked(out + r) && Ready(Parse(out + r).value)
      ensures Parse(out + r).value == Having(Parse(out + buf).value, AddChoice(Parse(out + buf).value.blocks, choice))
    {
      hide Take;
      hide Parse;
      hide AddText;
      hide AddCall;
      ghost var c := Parse(out + buf).value;
      r := AppendText(buf, TextIn(choice));
      ghost var base := AddText(c.blocks, TextIn(choice));
      var i := 0;
      while i < |choice.calls|
        invariant 0 <= i <= |choice.calls|
        invariant Linked(out + r) && Parse(out + r).Some? && Ready(Parse(out + r).value)
        invariant Parse(out + r).value == Having(c, AddCalls(base, choice.calls[..i]))
      {
        r := AppendCall(r, choice.calls[i]);
        assert choice.calls[..i + 1][..i] == choice.calls[..i];
        i := i + 1;
      }
      assert choice.calls[..i] == choice.calls;
    }

    method AppendText(buf: seq<Event>, text: string) returns (r: seq<Event>)
      requires Linked(out + buf) && Ready(Parse(out + buf).value)
      modifies this`nextIndex, this`openIndex, this`openKind
      ensures Linked(out + r) && Ready(Parse(out + r).value)
      ensures Parse(out + r).value == Having(Parse(out + buf).value, AddText(Parse(out + buf).value.blocks, text))
    {
      hide Take;
      hide Parse;
      r := buf;
      if text != "" {
        if !openKind.BlockText? {
          r := AppendOpen(r, OpenText);
        }
        var e := TextDelta(openIndex, text);
        Emitted(out, r, e);
        ghost var c := Parse(out + r).value;
        TakeText(c, openIndex, text);
        TextBegun(Parse(out + buf).value.blocks, text);
        LastKept(c.blocks, TextOf(c.blocks[openIndex].text + text));
        r := r + [e];
      }
    }

    method AppendCall(buf: seq<Event>, call: Call) returns (r: seq<Event>)
      requires Linked(out + buf) && Ready(Parse(out + buf).value)
      modifies this`nextIndex, this`openIndex, this`openKind
      ensures Linked(out + r) && Ready(Parse(out + r).value)
      ensures Parse(out + r).value == Having(Parse(out + buf).value, AddCall(Parse(out + buf).value.blocks, call))
    {
      hide Parse;
      hide Linked;
      hide AddFragment;
      hide Fragment;
      r := buf;
      if call.id != "" || call.name != "" {
        r := AppendOpen(r, OpenTool(call.id, call.name));
      }
      r := AppendFragment(r, Fragment(call.args));
    }

    method AppendFragment(buf: seq<Event>, fragment: string) returns (r: seq<Event>)
      requires Linked(out + buf) && Ready(Parse(out + buf).value)
      ensures Linked(out + r) && Ready(Parse(out + r).value)
      ensures Parse(out + r).value == Having(Parse(out + buf).value, AddFragment(Parse(out + buf).value.blocks, fragment))
    {
      hide Take;
      hide Parse;
      r := buf;
      if openKind.BlockTool? && fragment != "" {
        var e := JsonDelta(openIndex, fragment);
        Emitted(out, r, e);
        ghost var c := Parse(out + r).value;
        TakeJson(c, openIndex, fragment);
        LastKept(c.blocks, c.blocks[openIndex].(args := c.blocks[openIndex].args + fragment));
        r := r + [e];
      }
    }

    /** Close whatever is open and begin the next block. */
    method AppendOpen(buf: seq<Event>, b: Opened) returns (r: seq<Event>)
      requires Linked(out + buf) && Ready(Parse(out + buf).value)
      modifies this`nextIndex, this`openIndex, this`openKind
      ensures Linked(out + r) && Ready(Parse(out + r).value)
      ensures var c := Parse(out + buf).value;
              Parse(out + r).value ==
              Having(c, c.blocks + [if b.OpenText? then TextOf("") else ToolOf(b.id, b.name, "")])
      ensures openKind == if b.OpenText? then BlockText else BlockTool
    {
      hide Parse;
      r := AppendClose(buf);
      openIndex, openKind, nextIndex := nextIndex, if b.OpenText? then BlockText else BlockTool, nextIndex + 1;
      var e := BlockStart(openIndex, b);
      Emitted(out, r, e);
      r := r + [e];
    }

    method AppendClose(buf: seq<Event>) returns (r: seq<Event>)
      requires Linked(out + buf) && Parse(out + buf).value.phase.During?
      modifies this`openKind
      ensures Linked(out + r) && Parse(out + r) == Some(Parse(out + buf).value.(open := false))
    {
      if openKind.BlockNone? {
        return buf;
      }
      var e := BlockStop(openIndex);
      r := buf + [e];
      Emitted(out, buf, e);
      openKind := BlockNone;
    }

    method AppendTerminate(buf: seq<Event>) returns (r: seq<Event>)
      requires !stopped && Linked(out + buf) && Parse(out + buf).value.phase.During?
      modifies this`openKind, this`stopped
      ensures stopped
      ensures Parse(out + r) == Some(Parse(out + buf).value.(open := false, phase := Stopped, stop := StopReason(finish),
                                                             counts := CountsOf(usage)))
    {
      hide Parse;
      stopped := true;
      r := AppendClose(buf);
      var d := MessageDelta(StopReason(finish), CountsOf(usage));
      Emitted(out, r, d);
      r := r + [d];
      Emitted(out, r, MessageStop);
      r := r + [MessageStop];
    }
  }

  /** Between payloads the last block, if any, is open. */
  predicate Ready(c: Client) { c.phase.During? && (c.open <==> c.blocks != []) }

  function Having(c: Client, blocks: seq<Content>): Client { c.(blocks := blocks, open := blocks != []) }

  lemma {:induction false} ErrorTaken(es: seq<Event>, t: Told, model: string)
    requires t.end.Going? && Parse(es) == Some(ClientOf(t, model))
    ensures Parse(es + [ErrorEvent]) == Some(ClientOf(t.(end := Failed), model))
  {
    ParseSnoc(es, ErrorEvent);
  }
}
