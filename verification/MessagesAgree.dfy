/** Whole streams through the translator, and its buffered twin: internal/inject/messages_stream.go
    and ChatToMessages of internal/inject/messages.go. */
module MessagesAgree {
  import opened Wrappers
  import opened Messages

  // ---------------------------------------------------------------- every stream is well formed

  /** The answer after all payloads, and after a clean end of input. */
  function Answer(ps: seq<Payload>, clean: bool): Told { if clean then TellEnd(TellAll(ps)) else TellAll(ps) }

  /** One upstream stream, payload by payload; `clean` tells whether it ended in EOF. */
  method Translate(model: string, ps: seq<Payload>, clean: bool) returns (es: seq<Event>)
    ensures Parse(es) == Some(ClientOf(Answer(ps, clean), model))
  {
    hide Tell;
    hide Parse;
    hide ClientOf;
    var s := new ChatToMessagesStream(model);
    es := [];
    var i := 0;
    while i < |ps|
      invariant 0 <= i <= |ps| && fresh(s) && s.Valid() && s.publicModel == model
      invariant s.out == es && s.told == TellAll(ps[..i])
    {
      assert ps[..i + 1][..i] == ps[..i];
      var frames := s.Frame(ps[i]);
      es := es + frames;
      i := i + 1;
    }
    assert ps[..i] == ps;
    if clean {
      var frames := s.Finish();
      es := es + frames;
    }
  }

  lemma {:induction false} PrefixesParse(es: seq<Event>, n: nat)
    requires Parse(es).Some? && n <= |es|
    ensures Parse(es[..n]).Some?
    decreases |es|
  {
    hide Take;
    if n < |es| {
      PrefixesParse(es[..|es| - 1], n);
      assert es[..|es| - 1][..n] == es[..n];
    } else {
      assert es[..n] == es;
    }
  }

  lemma {:induction false} NothingTakenAfterEnd(c: Client, e: Event)
    requires c.phase.Stopped? || c.phase.Errored?
    ensures Take(c, e).None?
  {}

  lemma {:induction false} EndingEvents(c: Client, e: Event)
    requires Take(c, e).Some?
    ensures e.MessageStop? <==> Take(c, e).value.phase.Stopped?
    ensures e.ErrorEvent? <==> Take(c, e).value.phase.Errored?
  {}

  /** Nothing follows message_stop or an error, so each comes at most once. */
  lemma {:induction false} EndIsLast(es: seq<Event>, i: nat)
    requires Parse(es).Some? && i < |es| && (es[i].MessageStop? || es[i].ErrorEvent?)
    ensures i == |es| - 1
  {
    hide Take;
    PrefixesParse(es, i);
    PrefixesParse(es, i + 1);
    assert es[..i + 1][..i] == es[..i];
    EndingEvents(Parse(es[..i]).value, es[i]);
    if i + 1 < |es| {
      PrefixesParse(es, i + 2);
      assert es[..i + 2][..i + 1] == es[..i + 1];
      NothingTakenAfterEnd(Parse(es[..i + 1]).value, es[i + 1]);
    }
  }

  function Starts(es: seq<Event>): nat
  {
    if es == [] then 0 else Starts(es[..|es| - 1]) + if es[|es| - 1].BlockStart? then 1 else 0
  }

  /** Blocks are numbered 0, 1, 2, ... and every delta or stop names the block last begun. */
  lemma {:induction false} BlocksAreNumbered(es: seq<Event>)
    requires Parse(es).Some?
    ensures |Parse(es).value.blocks| == Starts(es)
    ensures es != [] ==>
              match es[|es| - 1]
              case BlockStart(i, _) => i == Starts(es) - 1
              case TextDelta(i, _) => i == Starts(es) - 1
              case JsonDelta(i, _) => i == Starts(es) - 1
              case BlockStop(i) => i == Starts(es) - 1
              case _ => true
    decreases |es|
  {
    if es != [] {
      PrefixesParse(es, |es| - 1);
      BlocksAreNumbered(es[..|es| - 1]);
    }
  }

  /** The finish reason and the usage last stated. */
  function LastFinish(ps: seq<Payload>): Option<string>
  {
    if ps == [] then None
    else
      var p := ps[|ps| - 1];
      if p.Chunk? && p.choice.finish.Some? then p.choice.finish else LastFinish(ps[..|ps| - 1])
  }

  function LastUsage(ps: seq<Payload>): Option<Usage>
  {
    if ps == [] then None
    else
      var p := ps[|ps| - 1];
      if p.Chunk? && p.usage.Some? then p.usage else LastUsage(ps[..|ps| - 1])
  }

  /** A message is only ever stopped by a finish reason the upstream stated: some first part of the
      payloads states it last, and nothing after that part counts. */
  lemma {:induction false} StopNeedsFinish(ps: seq<Payload>, clean: bool) returns (n: nat)
    requires Answer(ps, clean).end.Finished?
    ensures n <= |ps| && LastFinish(ps[..n]).Some? && Answer(ps, clean).finish == Answer(ps[..n], true).finish
    ensures (exists i :: 0 <= i < n && ps[i].Chunk? && ps[i].choice.finish == Answer(ps, clean).finish)
    decreases |ps|
  {
    hide AddChoice;
    var t := TellAll(ps);
    if t.end.Going? {
      n := |ps|;
      assert ps[..n] == ps;
      FinishIsStated(ps);
    } else {
      var m := |ps| - 1;
      var before := TellAll(ps[..m]);
      if before.end.Going? {
        n := |ps|;
        assert ps[..n] == ps;
        FinishIsStated(ps);
      } else {
        n := StopNeedsFinish(ps[..m], clean);
        assert ps[..m][..n] == ps[..n];
      }
    }
  }

  lemma {:induction false} FinishIsStated(ps: seq<Payload>)
    requires TellAll(ps).finish.Some?
    ensures exists i :: 0 <= i < |ps| && ps[i].Chunk? && ps[i].choice.finish == TellAll(ps).finish
    ensures LastFinish(ps).Some?
    decreases |ps|
  {
    hide AddChoice;
    var n := |ps| - 1;
    var before, p := TellAll(ps[..n]), ps[n];
    if before.end.Going? && p.Chunk? && !p.fails && p.choice.finish.Some? {
      assert TellAll(ps).finish == ps[n].choice.finish;
    } else {
      FinishIsStated(ps[..n]);
      var i :| 0 <= i < n && ps[..n][i].Chunk? && ps[..n][i].choice.finish == before.finish;
      assert ps[i] == ps[..n][i];
    }
  }

  // ---------------------------------------------------------------- what the summary says

  /** Each Anthropic stop reason stands for exactly these finish reasons. */
  lemma {:induction false} StopReasonsStandFor(finish: Option<string>)
    ensures StopReason(finish) == None <==> finish == None || finish == Some("")
    ensures StopReason(finish) == Some("max_tokens") <==> finish == Some("length")
    ensures StopReason(finish) == Some("tool_use") <==> finish == Some("tool_calls") || finish == Some("function_call")
    ensures StopReason(finish) == Some("refusal") <==> finish == Some("content_filter")
    ensures StopReason(finish) == Some("end_turn") <==>
            finish.Some? && finish.value !in {"", "length", "tool_calls", "function_call", "content_filter"}
  {}

  /** The payload at `i` completes the answer: an end marker after a finish reason, or the chunk by
      which both a finish reason and counts have been stated. */
  predicate CompletesAt(ps: seq<Payload>, i: nat)
    requires i < |ps|
  {
    match ps[i]
    case EndMarker => LastFinish(ps[..i]).Some?
    case Chunk(fails, _, _, _) => !fails && LastFinish(ps[..i + 1]).Some? && LastUsage(ps[..i + 1]).Some?
    case _ => false
  }

  predicate FailsAt(ps: seq<Payload>, i: nat)
    requires i < |ps|
  {
    ps[i].Chunk? && ps[i].fails
  }

  predicate Unended(ps: seq<Payload>) { forall i :: 0 <= i < |ps| ==> !CompletesAt(ps, i) && !FailsAt(ps, i) }

  /** Exactly one thing decides how an answer ends: the first payload that completes it or fails. */
  lemma {:induction false} FirstEndDecides(ps: seq<Payload>)
    ensures TellAll(ps).end.Going? <==> Unended(ps)
    ensures TellAll(ps).end.Finished? <==> exists i :: 0 <= i < |ps| && Unended(ps[..i]) && CompletesAt(ps, i)
    ensures TellAll(ps).end.Failed? <==> exists i :: 0 <= i < |ps| && Unended(ps[..i]) && FailsAt(ps, i)
    ensures Unended(ps) ==> TellAll(ps).finish == LastFinish(ps) && TellAll(ps).usage == LastUsage(ps)
    decreases |ps|
  {
    hide AddChoice;
    hide CompletesAt;
    hide FailsAt;
    hide Unended;
    if ps == [] {
      NothingEnds();
    } else {
      var n := |ps| - 1;
      var before := ps[..n];
      FirstEndDecides(before);
      UnendedSnoc(ps);
      forall i | 0 <= i < n
        ensures ps[..i] == before[..i] && CompletesAt(ps, i) == CompletesAt(before, i) && FailsAt(ps, i) == FailsAt(before, i)
      {
        EndStays(ps, n, i);
      }
      LastEnds(ps);
      if Unended(before) {
        forall i | 0 <= i < n ensures !CompletesAt(ps, i) && !FailsAt(ps, i) { UnendedAt(before, i); }
      } else {
        forall i | 0 <= i <= n && Unended(ps[..i]) ensures i < n {}
      }
    }
  }

  lemma {:induction false} NothingEnds()
    ensures Unended([])
  {}

  lemma {:induction false} UnendedAt(ps: seq<Payload>, i: nat)
    requires Unended(ps) && i < |ps|
    ensures !CompletesAt(ps, i) && !FailsAt(ps, i)
  {}

  lemma {:induction false} EndStays(ps: seq<Payload>, n: nat, i: nat)
    requires i < n <= |ps|
    ensures ps[..i] == ps[..n][..i] && CompletesAt(ps, i) == CompletesAt(ps[..n], i) && FailsAt(ps, i) == FailsAt(ps[..n], i)
  {
    assert ps[..n][..i + 1] == ps[..i + 1];
  }

  lemma {:induction false} UnendedSnoc(ps: seq<Payload>)
    requires ps != []
    ensures var n := |ps| - 1; Unended(ps) <==> Unended(ps[..n]) && !CompletesAt(ps, n) && !FailsAt(ps, n)
  {
    hide CompletesAt;
    hide FailsAt;
    var n := |ps| - 1;
    forall i | 0 <= i < n ensures CompletesAt(ps, i) == CompletesAt(ps[..n], i) && FailsAt(ps, i) == FailsAt(ps[..n], i) {
      EndStays(ps, n, i);
    }
  }

  /** One payload, while the answer goes on. */
  lemma {:induction false} LastEnds(ps: seq<Payload>)
    requires ps != []
    ensures var n := |ps| - 1;
            var t, u := TellAll(ps[..n]), TellAll(ps);
            t.end.Going? && t.finish == LastFinish(ps[..n]) && t.usage == LastUsage(ps[..n]) ==>
              && (u.end.Finished? <==> CompletesAt(ps, n)) && (u.end.Failed? <==> FailsAt(ps, n))
              && (u.end.Going? ==> u.finish == LastFinish(ps) && u.usage == LastUsage(ps))
  {
    hide AddChoice;
    var n := |ps| - 1;
    assert ps[..n + 1] == ps;
  }

  /** The counts of a summary: the prompt's are the input, the completion's the output. */
  lemma {:induction false} CountsReport(prompt: int, completion: int)
    ensures CountsOf(Some(Usage(Some(prompt), Some(completion)))).input == prompt
    ensures CountsOf(Some(Usage(Some(prompt), None))).input == prompt
    ensures CountsOf(Some(Usage(Some(prompt), Some(completion)))).output == completion
    ensures CountsOf(Some(Usage(None, Some(completion)))).output == completion
    ensures CountsOf(None) == CountsOf(Some(Usage(None, None))) == Counts(0, 0)
  {}

  /** The argument text a fragment carries. */
  lemma {:induction false} FragmentsCarry(t: string)
    ensures Fragment(Spelled(t)) == t && Fragment(Whole(t)) == t && Fragment(NoArgs) == Fragment(Odd) == ""
  {}

  // ---------------------------------------------------------------- nothing said is lost

  function TextsOf(bs: seq<Content>): string
  {
    if bs == [] then "" else TextsOf(bs[..|bs| - 1]) + if bs[|bs| - 1].TextOf? then bs[|bs| - 1].text else ""
  }

  /** The ids and names of the tool blocks, in order. */
  function NamesOf(bs: seq<Content>): seq<(string, string)>
  {
    if bs == [] then []
    else NamesOf(bs[..|bs| - 1]) + if bs[|bs| - 1].ToolOf? then [(bs[|bs| - 1].id, bs[|bs| - 1].name)] else []
  }

  /** The ids and names the entries announce. */
  function AnnouncedNames(entries: seq<Call>): seq<(string, string)>
  {
    if entries == [] then []
    else
      var e := entries[|entries| - 1];
      AnnouncedNames(entries[..|entries| - 1]) + if e.id != "" || e.name != "" then [(e.id, e.name)] else []
  }

  lemma {:induction false} BlocksSnoc(bs: seq<Content>, b: Content)
    ensures TextsOf(bs + [b]) == TextsOf(bs) + if b.TextOf? then b.text else ""
    ensures NamesOf(bs + [b]) == NamesOf(bs) + if b.ToolOf? then [(b.id, b.name)] else []
  {
    assert (bs + [b])[..|bs|] == bs;
  }

  lemma {:induction false} TextAdded(bs: seq<Content>, text: string)
    ensures TextsOf(AddText(bs, text)) == TextsOf(bs) + text && NamesOf(AddText(bs, text)) == NamesOf(bs)
  {
    hide TextsOf;
    hide NamesOf;
    var n := |bs| - 1;
    if text == "" {
      assert TextsOf(bs) + text == TextsOf(bs);
    } else if n >= 0 && bs[n].TextOf? {
      assert bs == bs[..n] + [bs[n]];
      BlocksSnoc(bs[..n], bs[n]);
      BlocksSnoc(bs[..n], TextOf(bs[n].text + text));
      assert TextsOf(bs[..n]) + (bs[n].text + text) == TextsOf(bs[..n]) + bs[n].text + text;
    } else {
      BlocksSnoc(bs, TextOf(text));
      assert NamesOf(bs) + [] == NamesOf(bs);
    }
  }

  lemma {:induction false} FragmentAdded(bs: seq<Content>, f: string)
    ensures TextsOf(AddFragment(bs, f)) == TextsOf(bs) && NamesOf(AddFragment(bs, f)) == NamesOf(bs)
  {
    hide TextsOf;
    hide NamesOf;
    var n := |bs| - 1;
    if n >= 0 && bs[n].ToolOf? && f != "" {
      assert bs == bs[..n] + [bs[n]];
      BlocksSnoc(bs[..n], bs[n]);
      BlocksSnoc(bs[..n], bs[n].(args := bs[n].args + f));
    }
  }

  lemma {:induction false} CallsAdded(bs: seq<Content>, calls: seq<Call>)
    ensures TextsOf(AddCalls(bs, calls)) == TextsOf(bs) && NamesOf(AddCalls(bs, calls)) == NamesOf(bs) + AnnouncedNames(calls)
    decreases |calls|
  {
    hide TextsOf;
    hide NamesOf;
    hide AddFragment;
    if calls != [] {
      var n := |calls| - 1;
      var c, done := calls[n], AddCalls(bs, calls[..n]);
      CallsAdded(bs, calls[..n]);
      BlocksSnoc(done, ToolOf(c.id, c.name, ""));
      var b := if c.id != "" || c.name != "" then done + [ToolOf(c.id, c.name, "")] else done;
      FragmentAdded(b, Fragment(c.args));
      assert TextsOf(done) + "" == TextsOf(done);
    }
  }

  lemma {:induction false} AnnouncedConcat(a: seq<Call>, b: seq<Call>)
    ensures AnnouncedNames(a + b) == AnnouncedNames(a) + AnnouncedNames(b)
    decreases |b|
  {
    if b == [] {
      assert a + b == a;
    } else {
      var n := |b| - 1;
      assert (a + b)[..|a| + n] == a + b[..n];
      AnnouncedConcat(a, b[..n]);
    }
  }

  /** In any order of text and calls: while the answer goes on, the client's text is all the text
      stated, and its tool blocks are all the calls announced, in order. */
  lemma {:induction false} NothingSaidIsLost(ps: seq<Payload>)
    requires TellAll(ps).end.Going?
    ensures TextsOf(TellAll(ps).blocks) == AllText(ps) && NamesOf(TellAll(ps).blocks) == AnnouncedNames(AllCalls(ps))
    decreases |ps|
  {
    hide TextsOf;
    hide NamesOf;
    hide AddText;
    hide AddCalls;
    hide AnnouncedNames;
    if ps == [] {
      NothingToLose();
    } else {
      var n := |ps| - 1;
      var t, p := TellAll(ps[..n]), ps[n];
      NothingSaidIsLost(ps[..n]);
      if p.Chunk? {
        TextAdded(t.blocks, TextIn(p.choice));
        CallsAdded(AddText(t.blocks, TextIn(p.choice)), p.choice.calls);
        AnnouncedConcat(AllCalls(ps[..n]), p.choice.calls);
      } else {
        assert AllText(ps) == AllText(ps[..n]) + "" == AllText(ps[..n]);
        assert AllCalls(ps) == AllCalls(ps[..n]) + [] == AllCalls(ps[..n]);
      }
    }
  }

  lemma {:induction false} NothingToLose()
    ensures TextsOf([]) == "" && NamesOf([]) == [] && AnnouncedNames([]) == []
  {}

  // ---------------------------------------------------------------- the opening usage

  /** The usage message_start carried is what the client keeps of it. */
  lemma {:induction false} StartIsOpening(es: seq<Event>, i: nat)
    requires Parse(es).Some? && i < |es| && es[i].MessageStart?
    ensures Parse(es).value.opening == Some(es[i].usage)
    decreases |es|
  {
    var n := |es| - 1;
    PrefixesParse(es, n);
    if i < n {
      StartIsOpening(es[..n], i);
      StartedOnce(es[..n]);
    }
  }

  lemma {:induction false} StartedOnce(es: seq<Event>)
    requires Parse(es).Some?
    ensures Parse(es).value.opening.Some? ==> !Parse(es).value.phase.Before?
    ensures Parse(es).value.opening.Some? ==> exists i :: 0 <= i < |es| && es[i].MessageStart?
    decreases |es|
  {
    if es != [] {
      var n := |es| - 1;
      PrefixesParse(es, n);
      StartedOnce(es[..n]);
      if i :| 0 <= i < n && es[..n][i].MessageStart? { assert es[i].MessageStart?; }
    }
  }

  /** For every payload sequence, every message_start carries zeros. */
  lemma {:induction false} OpeningIsZeros(es: seq<Event>, t: Told, model: string, i: nat)
    requires Parse(es) == Some(ClientOf(t, model)) && i < |es| && es[i].MessageStart?
    ensures es[i].usage == Counts(0, 0)
  {
    hide Parse;
    StartIsOpening(es, i);
  }

  /** The first readable chunk. */
  function FirstChunk(ps: seq<Payload>): (r: Option<Payload>)
    ensures r.Some? ==> r.value.Chunk?
  {
    if ps == [] then None else if ps[0].Chunk? then Some(ps[0]) else FirstChunk(ps[1..])
  }

  lemma {:induction false} NothingBeforeFirst(ps: seq<Payload>)
    requires forall i :: 0 <= i < |ps| ==> !ps[i].Chunk?
    ensures TellAll(ps) == UNTOLD
    decreases |ps|
  {
    if ps != [] { NothingBeforeFirst(ps[..|ps| - 1]); }
  }

  lemma {:induction false} FirstChunkSplit(ps: seq<Payload>) returns (n: nat)
    requires FirstChunk(ps).Some?
    ensures n < |ps| && FirstChunk(ps) == Some(ps[n]) && ps[n].Chunk? && forall i :: 0 <= i < n ==> !ps[i].Chunk?
    decreases |ps|
  {
    if ps[0].Chunk? {
      n := 0;
    } else {
      var m := FirstChunkSplit(ps[1..]);
      n := m + 1;
      forall i | 0 <= i < n ensures !ps[i].Chunk? {
        if i > 0 { assert ps[i] == ps[1..][i - 1]; }
      }
    }
  }

  lemma {:induction false} IdStays(ps: seq<Payload>, n: nat)
    requires n <= |ps| && TellAll(ps[..n]).id.Some?
    ensures TellAll(ps).id.Some?
    decreases |ps|
  {
    hide AddChoice;
    if n < |ps| {
      var m := |ps| - 1;
      assert ps[..m][..n] == ps[..n];
      IdStays(ps[..m], n);
    } else {
      assert ps[..n] == ps;
    }
  }

  /** A first chunk that is no failure opens the message. */
  lemma {:induction false} FirstChunkOpens(ps: seq<Payload>)
    requires FirstChunk(ps).Some? && !FirstChunk(ps).value.fails
    ensures TellAll(ps).id.Some?
  {
    hide AddChoice;
    var n := FirstChunkSplit(ps);
    NothingBeforeFirst(ps[..n]);
    assert ps[..n + 1][..n] == ps[..n];
    IdStays(ps, n + 1);
  }

  /** The first chunk states no count above zero: no usage, or none of its counts. */
  predicate NoCounts(u: Option<Usage>)
  {
    u.Some? ==> (u.value.prompt.Some? ==> u.value.prompt.value == 0) && (u.value.completion.Some? ==> u.value.completion.value == 0)
  }

  /** A message is opened, and its opening carries the first chunk's counts, as the comment says,
      exactly when that chunk has none to carry. */
  lemma {:induction false} OpeningAsPromisedIff(model: string, ps: seq<Payload>, clean: bool, es: seq<Event>)
    requires Parse(es) == Some(ClientOf(Answer(ps, clean), model)) && FirstChunk(ps).Some? && !FirstChunk(ps).value.fails
    ensures exists i :: 0 <= i < |es| && es[i].MessageStart?
    ensures forall i :: 0 <= i < |es| && es[i].MessageStart? ==>
              (es[i].usage == CountsOf(FirstChunk(ps).value.usage) <==> NoCounts(FirstChunk(ps).value.usage))
  {
    hide Parse;
    hide TellAll;
    hide FirstChunk;
    FirstChunkOpens(ps);
    StartedOnce(es);
    forall i | 0 <= i < |es| && es[i].MessageStart? ensures es[i].usage == Counts(0, 0) {
      OpeningIsZeros(es, Answer(ps, clean), model, i);
    }
  }

  const STATES_USAGE := Chunk(false, Some("m"), Some(Usage(Some(7), None)), Choice(None, [], None))

  /** A first chunk with an id and seven prompt tokens: the message opens with none. */
  lemma {:induction false} OpeningUsageIsDropped(model: string, es: seq<Event>)
    requires Parse(es) == Some(ClientOf(Answer([STATES_USAGE], false), model))
    ensures exists i :: 0 <= i < |es| && es[i] == MessageStart("m", model, Counts(0, 0))
    ensures CountsOf(STATES_USAGE.usage) == Counts(7, 0)
  {
    hide Parse;
    var ps := [STATES_USAGE];
    assert FirstChunk(ps) == Some(STATES_USAGE);
    OpeningAsPromisedIff(model, ps, false, es);
    var i :| 0 <= i < |es| && es[i].MessageStart?;
    OpeningIsZeros(es, Answer(ps, false), model, i);
    assert ps[..0] == [];
    assert TellAll([]) == UNTOLD;
    StartNames(es, i);
  }

  lemma {:induction false} StartNames(es: seq<Event>, i: nat)
    requires Parse(es).Some? && i < |es| && es[i].MessageStart?
    ensures Parse(es).value.id == es[i].id && Parse(es).value.model == es[i].model
    decreases |es|
  {
    var n := |es| - 1;
    PrefixesParse(es, n);
    if i < n {
      StartNames(es[..n], i);
      StartIsOpening(es[..n], i);
      StartedOnce(es[..n]);
    }
  }

  // ---------------------------------------------------------------- the buffered translation

  datatype Message = Message(role: string, text: Option<string>, calls: seq<Call>, finish: Option<string>)

  /** A buffered Chat answer: not an object, or an object with what was decoded of its first choice,
      and whether that was all of it. */
  datatype Body = NotAnObject | Answered(id: Option<string>, usage: Option<Usage>, choice: Message, whole: bool)

  datatype Part = TextPart(text: string) | ToolUse(id: string, name: string, input: string)

  datatype Reply = Reply(id: Option<string>, model: string, role: string, content: seq<Part>, stop: Option<string>, counts: Counts)

  predicate OpensObject(s: string)
  {
    s != "" && (s[0] == '{' || ((s[0] == ' ' || s[0] == '\t' || s[0] == '\n' || s[0] == '\r') && OpensObject(s[1..])))
  }

  /** The arguments as an input object; `valid` is json.Valid. */
  function InputOf(s: string, valid: string -> bool): string { if valid(s) && OpensObject(s) then s else "{}" }

  function ArgsInput(a: Args, valid: string -> bool): string
  {
    match a
    case Spelled(s) => InputOf(s, valid)
    case Whole(raw) => InputOf(raw, valid)
    case _ => "{}"
  }

  predicate Complete(c: Call) { c.id != "" && c.name != "" }

  /** The calls a client can answer, as tool_use blocks. */
  function ToolUses(calls: seq<Call>, valid: string -> bool): seq<Part>
  {
    if calls == [] then []
    else
      var c := calls[|calls| - 1];
      ToolUses(calls[..|calls| - 1], valid) + if Complete(c) then [ToolUse(c.id, c.name, ArgsInput(c.args, valid))] else []
  }

  function TextParts(text: string): seq<Part> { if text == "" then [] else [TextPart(text)] }

  /** chatAnswerContent */
  method ChatAnswerContent(text: Option<string>, calls: seq<Call>, valid: string -> bool) returns (parts: seq<Part>)
    ensures parts == TextParts(if text.Some? then text.value else "") + ToolUses(calls, valid)
  {
    parts := [];
    if text.Some? && text.value != "" {
      parts := parts + [TextPart(text.value)];
    }
    ghost var first := parts;
    var i := 0;
    while i < |calls|
      invariant 0 <= i <= |calls| && parts == first + ToolUses(calls[..i], valid)
    {
      assert calls[..i + 1][..i] == calls[..i];
      var call := calls[i];
      if call.id != "" && call.name != "" {
        var input := "{}";
        match call.args {
          case Spelled(s) => if valid(s) && OpensObject(s) { input := s; }
          case Whole(raw) => if valid(raw) && OpensObject(raw) { input := raw; }
          case _ =>
        }
        parts := parts + [ToolUse(call.id, call.name, input)];
      }
      i := i + 1;
    }
    assert calls[..i] == calls;
  }

  /** The first byte that is not blank opens an object. */
  lemma {:induction false} OpensAtFirstByte(s: string)
    ensures OpensObject(s) <==>
            exists i :: 0 <= i < |s| && s[i] == '{' && forall k :: 0 <= k < i ==> s[k] == ' ' || s[k] == '\t' || s[k] == '\n' || s[k] == '\r'
    decreases |s|
  {
    if s != "" && s[0] != '{' {
      OpensAtFirstByte(s[1..]);
      if i :| 0 <= i < |s| && s[i] == '{' && forall k :: 0 <= k < i ==> s[k] == ' ' || s[k] == '\t' || s[k] == '\n' || s[k] == '\r' {
        assert s[1..][i - 1] == '{' && forall k :: 0 <= k < i - 1 ==> s[1..][k] == s[k + 1];
      }
      if i :| 0 <= i < |s[1..]| && s[1..][i] == '{' && forall k :: 0 <= k < i ==> s[1..][k] == ' ' || s[1..][k] == '\t' || s[1..][k] == '\n' || s[1..][k] == '\r' {
        assert s[i + 1] == '{' && forall k :: 0 < k < i + 1 ==> s[k] == s[1..][k - 1];
      }
    }
  }

  /** The calls with an id and a name, in order. */
  function Answerable(calls: seq<Call>): seq<Call>
  {
    if calls == [] then []
    else Answerable(calls[..|calls| - 1]) + if calls[|calls| - 1].id == "" || calls[|calls| - 1].name == "" then [] else [calls[|calls| - 1]]
  }

  /** A call's arguments carry the object `t`, written out or as a string. */
  predicate Carries(a: Args, t: string, valid: string -> bool)
  {
    (a == Spelled(t) || a == Whole(t)) && valid(t)
    && exists i :: 0 <= i < |t| && t[i] == '{' && forall k :: 0 <= k < i ==> t[k] == ' ' || t[k] == '\t' || t[k] == '\n' || t[k] == '\r'
  }

  /** Every answerable call becomes a tool_use of its id and name, whose input is the object its
      arguments carry, byte for byte, and the empty object exactly when they carry none. */
  lemma {:induction false} CallsAreAnswered(calls: seq<Call>, valid: string -> bool)
    ensures |ToolUses(calls, valid)| == |Answerable(calls)|
    ensures forall k :: 0 <= k < |Answerable(calls)| ==>
              var c, part := Answerable(calls)[k], ToolUses(calls, valid)[k];
              && part.ToolUse? && part.id == c.id && part.name == c.name
              && (forall t :: Carries(c.args, t, valid) ==> part.input == t)
              && ((forall t :: !Carries(c.args, t, valid)) ==> part.input == "{}")
    decreases |calls|
  {
    if calls != [] {
      var n := |calls| - 1;
      CallsAreAnswered(calls[..n], valid);
      InputIsCarried(calls[n].args, valid);
    }
  }

  lemma {:induction false} InputIsCarried(a: Args, valid: string -> bool)
    ensures forall t :: Carries(a, t, valid) ==> ArgsInput(a, valid) == t
    ensures (forall t :: !Carries(a, t, valid)) ==> ArgsInput(a, valid) == "{}"
  {
    match a
    case Spelled(s) =>
      OpensAtFirstByte(s);
      assert valid(s) && OpensObject(s) ==> Carries(a, s, valid);
    case Whole(s) =>
      OpensAtFirstByte(s);
      assert valid(s) && OpensObject(s) ==> Carries(a, s, valid);
    case NoArgs =>
    case Odd =>
  }

  /** A first choice that decodes only in part still gives its text and calls, but neither its role
      nor a stop reason. */
  method ChatToMessages(body: Body, model: string, valid: string -> bool) returns (r: Option<Reply>)
    ensures r.None? <==> body.NotAnObject?
    ensures body.Answered? ==>
              var m := body.choice;
              r == Some(Reply(body.id, model, if body.whole && m.role != "" then m.role else "assistant",
                              TextParts(if m.text.Some? then m.text.value else "") + ToolUses(m.calls, valid),
                              if body.whole then StopReason(m.finish) else None, CountsOf(body.usage)))
  {
    if body.NotAnObject? {
      return None;
    }
    var m := body.choice;
    var content := ChatAnswerContent(m.text, m.calls, valid);
    var role, stop := "assistant", None;
    if body.whole {
      if m.role != "" {
        role := m.role;
      }
      stop := StopReason(m.finish);
    }
    r := Some(Reply(body.id, model, role, content, stop, CountsOf(body.usage)));
  }

  // ---------------------------------------------------------------- a stream as one message

  /** All the text, and all the call entries, of a stream. */
  function AllText(ps: seq<Payload>): string
  {
    if ps == [] then "" else AllText(ps[..|ps| - 1]) + if ps[|ps| - 1].Chunk? then TextIn(ps[|ps| - 1].choice) else ""
  }

  function AllCalls(ps: seq<Payload>): seq<Call>
  {
    if ps == [] then [] else AllCalls(ps[..|ps| - 1]) + if ps[|ps| - 1].Chunk? then ps[|ps| - 1].choice.calls else []
  }

  /** The calls that entries spell out: an entry that names itself begins one, any other extends
      the arguments of the one before it. */
  function Assembled(entries: seq<Call>): seq<Call>
  {
    if entries == [] then []
    else
      var done, e := Assembled(entries[..|entries| - 1]), entries[|entries| - 1];
      if e.id != "" || e.name != "" then done + [Call(e.id, e.name, Spelled(Fragment(e.args)))]
      else if done == [] then []
      else Extended(done, Fragment(e.args))
  }

  function Extended(calls: seq<Call>, f: string): seq<Call>
    requires calls != []
  {
    var last := calls[|calls| - 1];
    calls[..|calls| - 1] + [last.(args := Spelled(Fragment(last.args) + f))]
  }

  /** The id the first chunk states. */
  function FirstId(ps: seq<Payload>): Option<string>
  {
    if ps == [] then None else if ps[0].Chunk? then ps[0].id else FirstId(ps[1..])
  }

  /** The Chat message the stream is a stream of. */
  function Folded(ps: seq<Payload>): Body
  {
    Answered(FirstId(ps), LastUsage(ps),
             Message("assistant", Some(AllText(ps)), Assembled(AllCalls(ps)), LastFinish(ps)), true)
  }

  /** Text comes before calls; a call is announced with both its id and its name, fragments follow
      it; no chunk fails; and nothing more is said once the end is known. */
  predicate Orderly(ps: seq<Payload>)
  {
    && (forall i :: 0 <= i < |ps| && ps[i].Chunk? ==> !ps[i].fails)
    && (forall i, j :: 0 <= i < j < |ps| && ps[i].Chunk? && ps[j].Chunk? && ps[i].choice.calls != [] ==> TextIn(ps[j].choice) == "")
    && Announced(AllCalls(ps))
    && (forall i :: 0 <= i < |ps| && ps[i].Chunk? ==> !EndKnown(ps[..i]))
  }

  predicate Announced(entries: seq<Call>)
  {
    && (forall i :: 0 <= i < |entries| ==> Complete(entries[i]) || (entries[i].id == "" && entries[i].name == ""))
    && (entries != [] ==> Complete(entries[0]))
  }

  predicate EndKnown(ps: seq<Payload>)
  {
    EndMarker in ps || (LastFinish(ps).Some? && LastUsage(ps).Some?)
  }

  // ---------------------------------------------------------------- the two translations agree

  function AsTool(c: Call): Content { ToolOf(c.id, c.name, Fragment(c.args)) }

  function AsTools(calls: seq<Call>): (r: seq<Content>)
    ensures |r| == |calls| && forall i :: 0 <= i < |r| ==> r[i] == AsTool(calls[i])
  {
    seq(|calls|, i requires 0 <= i < |calls| => AsTool(calls[i]))
  }

  function AsText(s: string): seq<Content> { if s == "" then [] else [TextOf(s)] }

  lemma {:induction false} AssembledSnoc(entries: seq<Call>, e: Call)
    ensures Assembled(entries + [e]) ==
            if e.id != "" || e.name != "" then Assembled(entries) + [Call(e.id, e.name, Spelled(Fragment(e.args)))]
            else if Assembled(entries) == [] then [] else Extended(Assembled(entries), Fragment(e.args))
  {
    assert (entries + [e])[..|entries|] == entries;
  }

  lemma {:induction false} AssembledSome(entries: seq<Call>)
    requires Announced(entries)
    ensures entries != [] ==> Assembled(entries) != []
    ensures forall i :: 0 <= i < |Assembled(entries)| ==> Complete(Assembled(entries)[i]) && Assembled(entries)[i].args.Spelled?
    decreases |entries|
  {
    if entries != [] {
      AssembledSome(entries[..|entries| - 1]);
    }
  }

  /** One entry adds to the content what it adds to the assembled calls. */
  lemma {:induction false} EntryAgrees(head: seq<Content>, entries: seq<Call>, e: Call)
    requires Announced(entries + [e])
    ensures AddCall(head + AsTools(Assembled(entries)), e) == head + AsTools(Assembled(entries + [e]))
  {
    hide Assembled;
    hide AddFragment;
    var done := Assembled(entries);
    AssembledSnoc(entries, e);
    assert forall i :: 0 <= i < |entries| ==> (entries + [e])[i] == entries[i];
    assert (entries + [e])[|entries|] == e;
    AssembledSome(entries);
    if e.id != "" || e.name != "" {
      CallBegun(head, done, e);
    } else {
      assert entries != [];
      CallExtended(head, done, Fragment(e.args));
    }
  }

  lemma {:induction false} CallBegun(head: seq<Content>, done: seq<Call>, e: Call)
    ensures AddFragment(head + AsTools(done) + [ToolOf(e.id, e.name, "")], Fragment(e.args))
            == head + AsTools(done + [Call(e.id, e.name, Spelled(Fragment(e.args)))])
  {
    hide AddFragment;
    FragmentEnds(head + AsTools(done), ToolOf(e.id, e.name, ""), Fragment(e.args));
    assert "" + Fragment(e.args) == Fragment(e.args);
    ToolsSnoc(done, Call(e.id, e.name, Spelled(Fragment(e.args))));
  }

  lemma {:induction false} CallExtended(head: seq<Content>, done: seq<Call>, f: string)
    requires done != [] && done[|done| - 1].args.Spelled?
    ensures AddFragment(head + AsTools(done), f) == head + AsTools(Extended(done, f))
  {
    hide AddFragment;
    var n := |done| - 1;
    var last := done[n];
    assert done == done[..n] + [last];
    ToolsSnoc(done[..n], last);
    assert head + AsTools(done) == (head + AsTools(done[..n])) + [AsTool(last)];
    FragmentEnds(head + AsTools(done[..n]), AsTool(last), f);
    ToolsSnoc(done[..n], last.(args := Spelled(Fragment(last.args) + f)));
  }

  lemma {:induction false} ToolsSnoc(calls: seq<Call>, c: Call)
    ensures AsTools(calls + [c]) == AsTools(calls) + [AsTool(c)]
  {}

  lemma {:induction false} FragmentEnds(blocks: seq<Content>, last: Content, f: string)
    requires last.ToolOf?
    ensures AddFragment(blocks + [last], f) == blocks + [last.(args := last.args + f)]
  {
    var all := blocks + [last];
    assert all[..|all| - 1] == blocks;
    if f == "" { assert last.args + f == last.args; }
  }

  lemma {:induction false} AnnouncedPrefix(entries: seq<Call>, n: nat)
    requires Announced(entries) && n <= |entries|
    ensures Announced(entries[..n])
  {}

  lemma {:induction false} EntriesAgree(head: seq<Content>, entries: seq<Call>, more: seq<Call>)
    requires Announced(entries + more)
    ensures AddCalls(head + AsTools(Assembled(entries)), more) == head + AsTools(Assembled(entries + more))
    decreases |more|
  {
    hide AddCall;
    hide Assembled;
    hide Announced;
    if more == [] {
      assert entries + more == entries;
    } else {
      var n := |more| - 1;
      assert (entries + more)[..|entries| + n] == entries + more[..n];
      AnnouncedPrefix(entries + more, |entries| + n);
      EntriesAgree(head, entries, more[..n]);
      assert entries + more == (entries + more[..n]) + [more[n]];
      EntryAgrees(head, entries + more[..n], more[n]);
    }
  }

  lemma {:induction false} OrderlyPrefix(ps: seq<Payload>, n: nat)
    requires Orderly(ps) && n <= |ps|
    ensures Orderly(ps[..n])
  {
    hide EndKnown;
    hide Announced;
    CallsPrefix(ps, n);
    AnnouncedPrefix(AllCalls(ps), |AllCalls(ps[..n])|);
    assert AllCalls(ps)[..|AllCalls(ps[..n])|] == AllCalls(ps[..n]);
    forall i | 0 <= i < n && ps[i].Chunk? ensures !EndKnown(ps[..n][..i]) {
      assert ps[..n][..i] == ps[..i];
    }
  }

  lemma {:induction false} CallsPrefix(ps: seq<Payload>, n: nat)
    requires n <= |ps|
    ensures AllCalls(ps[..n]) <= AllCalls(ps)
    decreases |ps|
  {
    if n < |ps| {
      CallsPrefix(ps[..|ps| - 1], n);
      assert ps[..|ps| - 1][..n] == ps[..n];
    } else {
      assert ps[..n] == ps;
    }
  }

  lemma {:induction false} CallsCome(ps: seq<Payload>)
    ensures AllCalls(ps) != [] ==> exists i :: 0 <= i < |ps| && ps[i].Chunk? && ps[i].choice.calls != []
    decreases |ps|
  {
    if ps != [] {
      var n := |ps| - 1;
      CallsCome(ps[..n]);
      if AllCalls(ps[..n]) != [] {
        var i :| 0 <= i < n && ps[..n][i].Chunk? && ps[..n][i].choice.calls != [];
        assert ps[i] == ps[..n][i];
      }
    }
  }

  /** The translator before the end of an orderly stream holds what was said and nothing else. */
  predicate InStep(t: Told, ps: seq<Payload>)
  {
    && t.blocks == AsText(AllText(ps)) + AsTools(Assembled(AllCalls(ps)))
    && t.finish == LastFinish(ps) && t.usage == LastUsage(ps)
    && !t.end.Failed? && (t.end.Finished? ==> EndKnown(ps)) && (t.finish.Some? && t.usage.Some? ==> t.end.Finished?)
  }

  lemma {:induction false} StreamHolds(ps: seq<Payload>)
    requires Orderly(ps)
    ensures InStep(TellAll(ps), ps)
    decreases |ps|
  {
    hide Tell;
    hide Orderly;
    hide InStep;
    if ps == [] {
      NothingSaid();
    } else {
      var n := |ps| - 1;
      OrderlyPrefix(ps, n);
      StreamHolds(ps[..n]);
      assert ps == ps[..n] + [ps[n]];
      if ps[n].Chunk? {
        ChunkHolds(TellAll(ps[..n]), ps);
      } else {
        OtherHolds(TellAll(ps[..n]), ps);
      }
    }
  }

  lemma {:induction false} NothingSaid()
    ensures InStep(UNTOLD, [])
  {}

  lemma {:induction false} OtherHolds(t: Told, ps: seq<Payload>)
    requires ps != [] && InStep(t, ps[..|ps| - 1]) && !ps[|ps| - 1].Chunk?
    ensures InStep(Tell(t, ps[|ps| - 1]), ps)
  {
    var n := |ps| - 1;
    var before := ps[..n];
    assert AllText(ps) == AllText(before) + "" && AllCalls(ps) == AllCalls(before) + [];
    assert AllText(ps) == AllText(before) && AllCalls(ps) == AllCalls(before);
    assert EndMarker in before ==> EndMarker in ps;
  }

  lemma {:induction false} ChunkHolds(t: Told, ps: seq<Payload>)
    requires ps != [] && Orderly(ps) && InStep(t, ps[..|ps| - 1]) && ps[|ps| - 1].Chunk?
    ensures InStep(Tell(t, ps[|ps| - 1]), ps)
  {
    hide AddChoice;
    hide AllText;
    hide AllCalls;
    hide Assembled;
    hide Announced;
    var n := |ps| - 1;
    ChunkContent(t.blocks, ps);
    assert !EndKnown(ps[..n]);
    assert t.end.Going?;
  }

  lemma {:induction false} ChunkContent(blocks: seq<Content>, ps: seq<Payload>)
    requires ps != [] && Orderly(ps) && ps[|ps| - 1].Chunk?
    requires var before := ps[..|ps| - 1]; blocks == AsText(AllText(before)) + AsTools(Assembled(AllCalls(before)))
    ensures AddChoice(blocks, ps[|ps| - 1].choice) == AsText(AllText(ps)) + AsTools(Assembled(AllCalls(ps)))
  {
    hide Assembled;
    hide AddCalls;
    hide EndKnown;
    hide Announced;
    var n := |ps| - 1;
    var before, c := ps[..n], ps[n].choice;
    CallsCome(before);
    TextAgrees(AllText(before), Assembled(AllCalls(before)), TextIn(c), before);
    if AllCalls(before) != [] {
      var i :| 0 <= i < n && before[i].Chunk? && before[i].choice.calls != [];
      assert ps[i] == before[i] && TextIn(c) == "";
      assert AllText(ps) == AllText(before);
    } else {
      NothingAssembled(AllCalls(before));
    }
    EntriesAgree(AsText(AllText(ps)), AllCalls(before), c.calls);
  }

  lemma {:induction false} NothingAssembled(entries: seq<Call>)
    requires entries == []
    ensures Assembled(entries) == []
  {}

  lemma {:induction false} TextAgrees(text: string, done: seq<Call>, more: string, before: seq<Payload>)
    ensures done == [] ==> AddText(AsText(text) + AsTools(done), more) == AsText(text + more) + AsTools(done)
    ensures AddText(AsText(text) + AsTools(done), "") == AsText(text) + AsTools(done)
  {
    if done == [] {
      assert AsText(text) + AsTools(done) == AsText(text);
      assert AsText(text + more) + AsTools(done) == AsText(text + more);
      if more == "" { assert text + more == text; }
      if text == "" { assert text + more == more; }
    }
  }

  /** A client's content, as the buffered reply spells it. */
  function Rendered(b: Content, valid: string -> bool): Part
  {
    if b.TextOf? then TextPart(b.text) else ToolUse(b.id, b.name, InputOf(b.args, valid))
  }

  function AllRendered(bs: seq<Content>, valid: string -> bool): (r: seq<Part>)
    ensures |r| == |bs| && forall i :: 0 <= i < |r| ==> r[i] == Rendered(bs[i], valid)
  {
    seq(|bs|, i requires 0 <= i < |bs| => Rendered(bs[i], valid))
  }

  lemma {:induction false} ToolsRendered(calls: seq<Call>, valid: string -> bool)
    requires forall i :: 0 <= i < |calls| ==> Complete(calls[i]) && calls[i].args.Spelled?
    ensures AllRendered(AsTools(calls), valid) == ToolUses(calls, valid)
    decreases |calls|
  {
    if calls != [] {
      var n := |calls| - 1;
      ToolsRendered(calls[..n], valid);
      assert AsTools(calls) == AsTools(calls[..n]) + [AsTool(calls[n])];
      assert AllRendered(AsTools(calls), valid) == AllRendered(AsTools(calls[..n]), valid) + [Rendered(AsTool(calls[n]), valid)];
    }
  }

  /** The streamed and the buffered translation of an orderly answer agree: the client that reads
      the events holds the content, the stop reason and the counts of the buffered reply. */
  method StreamedAsBuffered(model: string, ps: seq<Payload>, valid: string -> bool) returns (es: seq<Event>, r: Reply)
    requires Orderly(ps) && LastFinish(ps).Some?
    ensures Parse(es).Some? && Parse(es).value.phase.Stopped?
    ensures Parse(es).value.blocks == AsText(AllText(ps)) + AsTools(Assembled(AllCalls(ps)))
    ensures r.content == TextParts(AllText(ps)) + ToolUses(Assembled(AllCalls(ps)), valid)
    ensures var c := Parse(es).value;
            && AllRendered(c.blocks, valid) == r.content && c.stop == r.stop && c.counts == r.counts
            && c.model == r.model && (r.id.Some? ==> c.id == r.id.value) && r.role == "assistant"
  {
    hide Orderly;
    hide TellAll;
    hide Folded;
    hide ClientOf;
    hide ToolUses;
    es := Translate(model, ps, true);
    var reply := ChatToMessages(Folded(ps), model, valid);
    FoldedParts(ps);
    r := reply.value;
    AnswerHolds(ps, model);
    ContentAgrees(ps, valid);
  }

  /** What the client holds after an orderly stream with a finish reason. */
  lemma {:induction false} AnswerHolds(ps: seq<Payload>, model: string)
    requires Orderly(ps) && LastFinish(ps).Some?
    ensures var c := ClientOf(Answer(ps, true), model);
            && c.phase.Stopped? && c.blocks == AsText(AllText(ps)) + AsTools(Assembled(AllCalls(ps)))
            && c.stop == StopReason(LastFinish(ps)) && c.counts == CountsOf(LastUsage(ps))
            && c.model == model && (FirstId(ps).Some? ==> c.id == FirstId(ps).value)
  {
    hide Orderly;
    hide TellAll;
    hide AllCalls;
    hide Assembled;
    StreamHolds(ps);
    IdAgrees(ps);
    FinishIsStated(ps);
  }

  lemma {:induction false} FoldedParts(ps: seq<Payload>)
    ensures var b := Folded(ps);
            && b.Answered? && b.usage == LastUsage(ps) && b.id == FirstId(ps) && b.whole
            && b.choice == Message("assistant", Some(AllText(ps)), Assembled(AllCalls(ps)), LastFinish(ps))
  {}

  lemma {:induction false} ContentAgrees(ps: seq<Payload>, valid: string -> bool)
    requires Orderly(ps)
    ensures AllRendered(AsText(AllText(ps)) + AsTools(Assembled(AllCalls(ps))), valid)
            == TextParts(AllText(ps)) + ToolUses(Assembled(AllCalls(ps)), valid)
  {
    hide Assembled;
    hide AllCalls;
    hide AllText;
    var calls := Assembled(AllCalls(ps));
    AssembledSome(AllCalls(ps));
    ToolsRendered(calls, valid);
    var t := AsText(AllText(ps));
    assert AllRendered(t + AsTools(calls), valid) == AllRendered(t, valid) + AllRendered(AsTools(calls), valid);
    assert AllRendered(t, valid) == TextParts(AllText(ps));
  }

  /** The announced id is the first chunk's. */
  lemma {:induction false} IdAgrees(ps: seq<Payload>)
    requires Orderly(ps)
    ensures FirstId(ps).Some? ==> TellAll(ps).id == FirstId(ps)
    ensures TellAll(ps).id.None? <==> forall i :: 0 <= i < |ps| ==> !ps[i].Chunk?
    decreases |ps|
  {
    hide AddChoice;
    hide Orderly;
    hide Tell;
    if ps != [] {
      var n := |ps| - 1;
      OrderlyPrefix(ps, n);
      IdAgrees(ps[..n]);
      FirstIdSnoc(ps[..n], ps[n]);
      assert ps == ps[..n] + [ps[n]];
      OrderlyAt(ps, n);
      StreamHolds(ps[..n]);
      IdStep(TellAll(ps[..n]), ps[n]);
    }
  }

  lemma {:induction false} IdStep(t: Told, p: Payload)
    ensures Tell(t, p).id ==
            if t.end.Going? && p.Chunk? && !p.fails && t.id.None? then Some(if p.id.Some? then p.id.value else "") else t.id
  {
    hide AddChoice;
  }

  lemma {:induction false} OrderlyAt(ps: seq<Payload>, n: nat)
    requires Orderly(ps) && n < |ps|
    ensures ps[n].Chunk? ==> !ps[n].fails && !EndKnown(ps[..n])
  {}

  lemma {:induction false} FirstIdSnoc(ps: seq<Payload>, p: Payload)
    ensures FirstId(ps + [p]) ==
            if exists i :: 0 <= i < |ps| && ps[i].Chunk? then FirstId(ps) else if p.Chunk? then p.id else None
    decreases |ps|
  {
    if ps == [] {
      assert ps + [p] == [p];
      assert [p][1..] == [];
    } else {
      FirstIdSnoc(ps[1..], p);
      assert (ps + [p])[1..] == ps[1..] + [p];
      if i :| 0 <= i < |ps| && ps[i].Chunk? { assert i > 0 ==> ps[1..][i - 1] == ps[i]; }
      if i :| 0 <= i < |ps| - 1 && ps[1..][i].Chunk? { assert ps[i + 1] == ps[1..][i]; }
    }
  }
}
