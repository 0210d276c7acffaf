/** What a whole pass of the streaming relay amounts to, said on the lines of the stream:
    internal/proxy/sse.go. */
module SseRuns {
  import opened Wrappers
  import opened Sse
  import opened Heartbeat
  import opened RelayedHeartbeat

  /** The name in force after a line: a blank line clears it, the last event field wins. */
  function NameAfter(name: Option<string>, l: Line): Option<string>
  {
    if l.content == "" then None
    else if EventName(l.content).Some? then EventName(l.content)
    else name
  }

  /** Every data payload, in order, with the name its own frame stated before it. */
  function Observations(name: Option<string>, ls: seq<Line>): seq<(Option<string>, string)>
    decreases |ls|
  {
    if ls == [] then []
    else
      var now, payload := NameAfter(name, ls[0]), DataPayload(ls[0].content);
      (if payload.Some? then [(now, payload.value)] else []) + Observations(now, ls[1..])
  }

  function BlankLines(ls: seq<Line>): nat
    decreases |ls|
  {
    if ls == [] then 0 else (if ls[0].content == "" then 1 else 0) + BlankLines(ls[1..])
  }

  /** The bytes a line takes on the client's side. */
  function Cost(l: Line, rw: Rewriter): nat { |RewriteLine(l.content, rw)| + |l.term| }

  function Costs(ls: seq<Line>, rw: Rewriter): nat
    decreases |ls|
  {
    if ls == [] then 0 else Cost(ls[0], rw) + Costs(ls[1..], rw)
  }

  /** Lines within their limit, and events within theirs; `pending` is what the open event holds. */
  predicate Within(pending: nat, ls: seq<Line>)
    decreases |ls|
  {
    ls == []
    || (|Head(ls[0])| <= MAX_LINE_BYTES
        && if ls[0].content == "" then Within(0, ls[1..])
           else pending + |Head(ls[0])| <= MAX_EVENT_BYTES && Within(pending + |Head(ls[0])|, ls[1..]))
  }

  /** The client is sent a terminal marker. */
  predicate Marked(ls: seq<Line>, rw: Rewriter) { exists i :: 0 <= i < |ls| && IsTerminalLine(RewriteLine(Head(ls[i]), rw)) }

  // ---------------------------------------------------------------- one line

  lemma {:induction false} HeadReads(l: Line)
    requires StdLine(l)
    ensures Content(Head(l)) == l.content && Content(l.content) == l.content
    ensures IsEventBoundary(Head(l)) <==> l.content == ""
    ensures Head(l) != "" && (Head(l)[|Head(l)| - 1] == '\r' <==> l.term == "\r" || l.term == "\r\n")
  {
    StdTerm(l);
    ContentIs(l.content);
    if l.term != "" {
      TermBytes(l);
      ContentBefore(l.content, l.term[0]);
    } else {
      assert Head(l) == l.content;
    }
  }

  lemma {:induction false} ContentIs(c: string)
    requires NoBreaks(c)
    ensures Content(c) == c && !IsEventBoundary(c) && (c != "" ==> c[|c| - 1] != '\r')
  {}

  lemma {:induction false} ContentBefore(c: string, b: char)
    requires NoBreaks(c) && IsBreak(b)
    ensures Content(c + [b]) == c && (IsEventBoundary(c + [b]) <==> c == "") && (c + [b])[|c|] == b
  {
    var line := c + [b];
    assert line[..|c|] == c;
    assert c != "" ==> line[|c| - 1] == c[|c| - 1] && line[0] == c[0];
  }

  lemma {:induction false} FieldsRead(l: Line)
    requires StdLine(l)
    ensures DataPayload(Head(l)) == DataPayload(l.content) && EventName(Head(l)) == EventName(l.content)
    ensures l.content == "" ==> DataPayload(l.content).None?
  {
    hide Content;
    hide StdLine;
    hide Head;
    HeadReads(l);
  }

  /** How much of the rewritten first write the client has room for. */
  lemma {:induction false} CostIs(l: Line, rw: Rewriter)
    requires StdLine(l)
    ensures Cost(l, rw) == |RewriteLine(Head(l), rw)| + if l.term == "\r\n" then 1 else 0
  {
    hide RewriteLine;
    StdTerm(l);
    TermIsCarried(l.content, l.term[..if l.term == "" then 0 else 1], rw);
  }

  /** The state after a line that went through. */
  predicate Took(p: Pass, q: Pass, l: Line, rw: Rewriter)
  {
    var name, payload := NameAfter(p.eventName, l), DataPayload(l.content);
    && q.outcome.Running? && q.eventName == name && q.room == p.room - Cost(l, rw) && q.bytes == p.bytes + Cost(l, rw)
    && q.observed == p.observed + (if payload.Some? then [(name, payload.value)] else [])
    && q.events == p.events + (if l.content == "" then 1 else 0) && q.flushes == p.flushes + (q.events - p.events)
    && q.pending == (if l.content == "" then 0 else p.pending + |Head(l)|)
    && q.terminal == (p.terminal || IsTerminalLine(RewriteLine(Head(l), rw)))
  }

  predicate Passes(p: Pass, l: Line, rw: Rewriter)
  {
    && |Head(l)| <= MAX_LINE_BYTES && (l.content == "" || p.pending + |Head(l)| <= MAX_EVENT_BYTES) && Cost(l, rw) <= p.room
  }

  lemma {:induction false} LineTakes(p: Pass, l: Line, rw: Rewriter)
    requires p.outcome.Running? && StdLine(l) && p.pending <= MAX_EVENT_BYTES
    ensures RelayStdLine(p, l, rw).outcome.Running? <==> Passes(p, l, rw)
    ensures RelayStdLine(p, l, rw).outcome.Running? ==> Took(p, RelayStdLine(p, l, rw), l, rw)
  {
    hide RewriteLine;
    hide IsTerminalLine;
    hide Content;
    hide StdLine;
    hide DataPayload;
    hide EventName;
    hide Cost;
    HeadReads(l);
    FieldsRead(l);
    CostIs(l, rw);
  }

  // ---------------------------------------------------------------- the whole pass

  lemma {:induction false} MarkedCons(ls: seq<Line>, rw: Rewriter)
    requires ls != []
    ensures Marked(ls, rw) <==> IsTerminalLine(RewriteLine(Head(ls[0]), rw)) || Marked(ls[1..], rw)
  {
    hide IsTerminalLine;
    hide RewriteLine;
    if Marked(ls[1..], rw) {
      var i :| 0 <= i < |ls[1..]| && IsTerminalLine(RewriteLine(Head(ls[1..][i]), rw));
      assert ls[i + 1] == ls[1..][i];
    }
    if i :| 1 <= i < |ls| && IsTerminalLine(RewriteLine(Head(ls[i]), rw)) { assert ls[1..][i - 1] == ls[i]; }
  }

  /** A pass reads its stream to the end exactly when every line and event is within its limit and
      the client takes all of it; and then it has observed every data payload with its frame's name,
      counted and flushed every blank line, and knows whether a terminal marker was sent. */
  lemma {:induction false} PassIsItsLines(p: Pass, ls: seq<Line>, rw: Rewriter, failed: bool)
    requires p.outcome.Running? && StdLines(ls) && p.pending <= MAX_EVENT_BYTES
    ensures var q := RelayLines(p, ls, rw, failed);
            && (ReadToEnd(q) <==> Within(p.pending, ls) && Costs(ls, rw) <= p.room)
            && (ReadToEnd(q) ==>
                  && q.outcome == (if failed then ReadFailed else Finished)
                  && q.observed == p.observed + Observations(p.eventName, ls)
                  && q.events == p.events + BlankLines(ls) && q.flushes == p.flushes + BlankLines(ls)
                  && q.bytes == p.bytes + Costs(ls, rw) && q.terminal == (p.terminal || Marked(ls, rw)))
    decreases |ls|
  {
    hide RelayStdLine;
    hide StdLines;
    hide Marked;
    hide IsTerminalLine;
    hide RewriteLine;
    hide DataPayload;
    hide NameAfter;
    hide Cost;
    hide Head;
    if ls == [] {
      NothingMarked(ls, rw);
    } else {
      var l, q := ls[0], RelayStdLine(p, ls[0], rw);
      SuffixStd(ls);
      LineTakes(p, l, rw);
      MarkedCons(ls, rw);
      if q.outcome.Running? {
        PassIsItsLines(q, ls[1..], rw, failed);
      } else {
        LineNeverFinishes(p, l, rw);
        StoppedStays(q, ls[1..], rw, failed);
      }
    }
  }

  lemma {:induction false} NothingMarked(ls: seq<Line>, rw: Rewriter)
    requires ls == []
    ensures !Marked(ls, rw)
  {}

  lemma {:induction false} LinesAreStandard(body: string)
    ensures StdLines(Lines(body))
  {
    LinesAreStd(body);
  }

  /** CopySSE on a body read to its end, whatever the reads: the observer's view, the counts and the
      terminal fact are functions of the body's lines. */
  method CopyObserves(body: string, sizes: seq<nat>, failed: bool, rw: Rewriter, room: nat) returns (p: Pass)
    ensures ReadToEnd(p) <==> Within(0, Lines(body)) && Costs(Lines(body), rw) <= room
    ensures ReadToEnd(p) ==>
              && p.observed == Observations(None, Lines(body)) && p.events == p.flushes == BlankLines(Lines(body))
              && p.bytes == Costs(Lines(body), rw) && p.terminal == Marked(Lines(body), rw)
  {
    hide RelayLines;
    hide Lines;
    hide Marked;
    var src := new Upstream(body, sizes, failed);
    p := CopySSE(src, rw, room);
    LinesAreStd(body);
    PassIsItsLines(Start(room), Lines(body), rw, failed);
    assert [] + Observations(None, Lines(body)) == Observations(None, Lines(body));
  }

  /** Without rewriting, what CopySSE hands the client is a first part of the body, byte for byte, and
      all of it when the body is read to its end, whatever the reads. */
  method CopyCopies(body: string, sizes: seq<nat>, failed: bool, rw: Rewriter, room: nat) returns (p: Pass)
    requires forall s :: rw.apply(s) == s
    ensures Flat(p.writes) <= body && (ReadToEnd(p) ==> Flat(p.writes) == body)
  {
    hide RelayLines;
    hide Lines;
    hide Unlines;
    hide StdTerms;
    var src := new Upstream(body, sizes, failed);
    p := CopySSE(src, rw, room);
    LinesHaveStdTerms(body);
    LinesAreExact(body);
    RelayCopies(Start(room), Lines(body), rw, failed);
    CopiedFromNothing(Flat(p.writes), body, ReadToEnd(p));
  }

  lemma {:induction false} CopiedFromNothing(b: string, text: string, whole: bool)
    requires Copied(Flat([]), b, text, whole)
    ensures b <= text && (whole ==> b == text)
  {
    var k :| 0 <= k <= |text| && b == Flat([]) + text[..k] && (whole ==> k == |text|);
    assert Flat([]) == "" && b == text[..k];
  }
}
