/** Heartbeats over what the relay really writes: internal/proxy/sse.go and internal/proxy/keepalive.go. */
module RelayedHeartbeat {
  import opened Wrappers
  import opened Sse
  import opened EventStream
  import opened KeepAlive
  import opened Heartbeat

  // ---------------------------------------------------------------- the relay's writes are such writes

  /** The stream as the client gets it: data payloads rewritten, terminators kept. */
  function Rewritten(ls: seq<Line>, rw: Rewriter): (r: seq<Line>)
    ensures |r| == |ls| && forall i :: 0 <= i < |ls| ==> r[i] == Line(RewriteLine(ls[i].content, rw), ls[i].term)
  {
    seq(|ls|, i requires 0 <= i < |ls| => Line(RewriteLine(ls[i].content, rw), ls[i].term))
  }

  /** Rewriting the payload of a line, if it has one, brings no line break into it. */
  predicate KeepsLine(c: string, rw: Rewriter) { DataPayload(c).Some? ==> NoBreaks(rw.apply(DataPayload(c).value)) }

  predicate KeepsLines(ls: seq<Line>, rw: Rewriter) { forall i :: 0 <= i < |ls| ==> KeepsLine(ls[i].content, rw) }

  /** Rewriting works on the content alone, whatever ends the line. */
  lemma {:induction false} TermIsCarried(c: string, b: string, rw: Rewriter)
    requires NoBreaks(c) && (b == "" || b == "\n" || b == "\r")
    ensures RewriteLine(c + b, rw) == RewriteLine(c, rw) + b
  {
    hide GateOpen;
    assert (c + b)[..|c|] == c;
    assert Content(c + b) == c && Content(c) == c;
    assert (c + b)[|c|..] == b;
  }

  lemma {:induction false} ContentKept(c: string, rw: Rewriter)
    requires NoBreaks(c) && KeepsLine(c, rw)
    ensures NoBreaks(RewriteLine(c, rw)) && (c == "" <==> RewriteLine(c, rw) == "")
  {
    hide GateOpen;
    assert Content(c) == c;
    var p := DataPayload(c);
    if p.Some? {
      assert p.value == c[|c| - |p.value|..];
      assert NoBreaks(p.value);
    }
  }

  lemma {:induction false} RewrittenStd(ls: seq<Line>, rw: Rewriter)
    requires StdLines(ls) && KeepsLines(ls, rw)
    ensures StdLines(Rewritten(ls, rw))
  {
    hide RewriteLine;
    hide KeepsLine;
    forall i | 0 <= i < |ls| ensures StdLine(Rewritten(ls, rw)[i]) && (Rewritten(ls, rw)[i].content == "" <==> ls[i].content == "") {
      ContentKept(ls[i].content, rw);
    }
  }

  lemma {:induction false} LinesAreStd(t: string)
    ensures StdLines(Lines(t))
    ensures t != "" && t[0] != '\n' ==> Lines(t) != [] && Lines(t)[0] != Line("", "\n")
    decreases |t|
  {
    hide Lines;
    hide Terminator;
    hide ContentLength;
    hide StdLine;
    if t == "" {
      NoLines();
    } else {
      var n := ContentLength(t);
      var term := Terminator(t[n..]);
      var l, rest := Line(t[..n], term), t[n + |term|..];
      LinesCons(t);
      LinesAreStd(rest);
      FirstIsStd(t);
      if rest == "" { NoLines(); }
      StdCons(l, Lines(rest));
    }
  }

  lemma {:induction false} FirstIsStd(t: string)
    requires t != ""
    ensures var n := ContentLength(t);
            var term := Terminator(t[n..]);
            var l, rest := Line(t[..n], term), t[n + |term|..];
            && StdLine(l) && (term == "" ==> rest == "") && (term == "\r" && rest != "" ==> rest[0] != '\n')
            && (t[0] != '\n' ==> l != Line("", "\n"))
  {
    hide ContentLength;
    hide Terminator;
    TerminatorKinds(t);
    var n := ContentLength(t);
    var term := Terminator(t[n..]);
    if |term| == 1 { assert term == [t[n]]; }
  }

  /** `ws` is a first part of `ps`, the last write perhaps cut short. */
  ghost predicate Delivered(ws: seq<string>, ps: seq<string>)
  {
    ws <= ps || exists k, c :: 0 <= k < |ps| && ws == ps[..k] + [c] && c <= ps[k] && c != "" && c != ps[k]
  }

  lemma {:induction false} NothingDelivered(ps: seq<string>)
    ensures Delivered([], ps)
  {}

  lemma {:induction false} DeliveredThen(a: seq<string>, b: seq<string>, ps: seq<string>)
    requires Delivered(b, ps)
    ensures Delivered(a + b, a + ps)
  {
    if !(b <= ps) {
      var k, c :| 0 <= k < |ps| && b == ps[..k] + [c] && c <= ps[k] && c != "" && c != ps[k];
      assert a + b == (a + ps)[..|a| + k] + [c] && (a + ps)[|a| + k] == ps[k];
    }
  }

  lemma {:induction false} DeliveredPart(ws: seq<string>, a: seq<string>, b: seq<string>)
    requires Delivered(ws, a)
    ensures Delivered(ws, a + b)
  {
    if !(ws <= a) {
      var k, c :| 0 <= k < |a| && ws == a[..k] + [c] && c <= a[k] && c != "" && c != a[k];
      assert ws == (a + b)[..k] + [c] && (a + b)[k] == a[k];
    }
  }

  /** What was written between two states of a pass. */
  ghost predicate Adds(p: Pass, q: Pass, ps: seq<string>)
  {
    p.writes <= q.writes
    && if q.outcome.Running? then q.writes == p.writes + ps else Delivered(q.writes[|p.writes|..], ps)
  }

  lemma {:induction false} WriteAdds(p: Pass, b: string)
    requires p.outcome.Running? && b != ""
    ensures Adds(p, WriteOut(p, b), [b])
  {
    var q := WriteOut(p, b);
    var d := q.writes[|p.writes|..];
    assert b[..|b|] == b;
    if d != [] && !q.outcome.Running? {
      assert d == [b][..0] + [b[..p.room]];
    }
  }

  lemma {:induction false} LineAdds(p: Pass, line: string, rw: Rewriter)
    requires p.outcome.Running? && RewriteLine(line, rw) != ""
    ensures Adds(p, RelayLine(p, line, rw), [RewriteLine(line, rw)])
  {
    hide RewriteLine;
    hide Delivered;
    var q := RelayLine(p, line, rw);
    NothingDelivered([RewriteLine(line, rw)]);
    assert p.writes[|p.writes|..] == [];
    if !q.outcome.EventTooLarge? {
      var boundary := IsEventBoundary(line);
      var name := if boundary then None else if EventName(line).Some? then EventName(line) else p.eventName;
      var payload := DataPayload(line);
      var seen := p.observed + if payload.Some? then [(name, payload.value)] else [];
      WriteAdds(p.(pending := p.pending + if boundary then 0 else |line|, eventName := name, observed := seen),
                RewriteLine(line, rw));
    }
  }

  lemma {:induction false} AddsThen(p: Pass, q: Pass, r: Pass, a: seq<string>, b: seq<string>)
    requires q.outcome.Running? && Adds(p, q, a) && Adds(q, r, b)
    ensures Adds(p, r, a + b)
  {
    hide Delivered;
    var d := r.writes[|q.writes|..];
    assert r.writes == q.writes + d;
    assert r.writes[|p.writes|..] == a + d;
    if r.outcome.Running? {
      assert r.writes == p.writes + (a + b);
    } else {
      DeliveredThen(a, d, b);
    }
  }

  lemma {:induction false} AddsPart(p: Pass, q: Pass, a: seq<string>, b: seq<string>)
    requires !q.outcome.Running? && Adds(p, q, a)
    ensures Adds(p, q, a + b)
  {
    hide Delivered;
    DeliveredPart(q.writes[|p.writes|..], a, b);
  }

  lemma {:induction false} StdLineAdds(p: Pass, l: Line, rw: Rewriter)
    requires p.outcome.Running? && StdLine(l) && KeepsLine(l.content, rw)
    ensures Adds(p, RelayStdLine(p, l, rw), LinePieces(Line(RewriteLine(l.content, rw), l.term)))
  {
    hide RewriteLine;
    hide RelayLine;
    hide Delivered;
    hide Adds;
    var line := Head(l);
    var out := Line(RewriteLine(l.content, rw), l.term);
    StdTerm(l);
    TermIsCarried(l.content, l.term[..if l.term == "" then 0 else 1], rw);
    ContentKept(l.content, rw);
    if |line| > MAX_LINE_BYTES {
      StopAdds(p, LinePieces(out));
    } else {
      LineAdds(p, line, rw);
      var q := RelayLine(p, line, rw);
      if l.term == "\r\n" {
        if q.outcome.Running? {
          WriteAdds(q, "\n");
          LFAdds(q);
          AddsThen(p, q, RelayLF(q), [Head(out)], ["\n"]);
        } else {
          AddsPart(p, q, [Head(out)], ["\n"]);
        }
      }
      assert l.term != "\r\n" ==> LinePieces(out) == [Head(out)];
    }
  }

  lemma {:induction false} LFAdds(p: Pass)
    requires Adds(p, WriteOut(p, "\n"), ["\n"])
    ensures Adds(p, RelayLF(p), ["\n"])
  {}

  lemma {:induction false} StopAdds(p: Pass, ps: seq<string>)
    ensures Adds(p, p.(outcome := LineTooLong), ps)
  {}

  /** What a pass hands the client is the writes of its lines, up to where it stops. */
  lemma {:induction false} RelayDelivers(p: Pass, ls: seq<Line>, rw: Rewriter, failed: bool)
    requires p.outcome.Running? && StdLines(ls) && KeepsLines(ls, rw)
    ensures Adds(p, RelayLines(p, ls, rw, failed), Written(Rewritten(ls, rw)))
    decreases |ls|
  {
    hide RelayStdLine;
    hide RelayLines;
    hide Adds;
    hide RewriteLine;
    hide StdLines;
    hide Written;
    hide LinePieces;
    hide KeepsLine;
    if ls == [] {
      EndAdds(p, ls, rw, failed);
    } else {
      var l, rest := ls[0], ls[1..];
      SuffixStd(ls);
      StepLine(p, l, rest, rw, failed);
      var q, out := RelayStdLine(p, l, rw), Line(RewriteLine(l.content, rw), l.term);
      assert Rewritten(ls, rw) == [out] + Rewritten(rest, rw);
      WrittenCons(out, Rewritten(rest, rw));
      assert ls == [l] + rest;
      StdLineAdds(p, l, rw);
      if q.outcome.Running? {
        RelayDelivers(q, rest, rw, failed);
        AddsThen(p, q, RelayLines(q, rest, rw, failed), LinePieces(out), Written(Rewritten(rest, rw)));
      } else {
        AddsPart(p, q, LinePieces(out), Written(Rewritten(rest, rw)));
        StoppedStays(q, rest, rw, failed);
      }
    }
  }

  lemma {:induction false} EndAdds(p: Pass, ls: seq<Line>, rw: Rewriter, failed: bool)
    requires ls == [] && p.outcome.Running?
    ensures Adds(p, RelayLines(p, ls, rw, failed), Written(Rewritten(ls, rw)))
  {}

  /** A write cut short is no place for a ping. */
  lemma {:induction false} CutLooksBlank(l: Line, c: string, piece: string)
    requires StdLine(l) && piece in LinePieces(l) && c <= piece && c != piece && c != ""
    ensures !EndsWithBlankLine(c)
  {
    assert forall i :: 0 <= i < |c| ==> c[i] == piece[i];
    assert LastLF(c) < 0;
  }

  lemma {:induction false} PieceOfALine(ls: seq<Line>, k: nat) returns (i: nat)
    requires k < |Written(ls)|
    ensures i < |ls| && Written(ls)[k] in LinePieces(ls[i])
    decreases |ls|
  {
    var n := |ls| - 1;
    if k < |Written(ls[..n])| { i := PieceOfALine(ls[..n], k); } else { i := n; }
  }

  lemma {:induction false} CutIsNoPlace(ps: seq<string>, c: string, ws: seq<string>)
    requires ws == ps + [c] && !EndsWithBlankLine(c)
    ensures !Eligible(ws)
  {
    hide AnyTerminal;
    hide EndsWithBlankLine;
    assert ws[|ws| - 1] == c;
  }

  lemma {:induction false} DeliveredIdle(ls: seq<Line>, ws: seq<string>)
    requires StdLines(ls) && PlacesIdle(Written(ls)) && Delivered(ws, Written(ls))
    ensures PlacesIdle(ws)
  {
    hide Written;
    hide Reads;
    hide Idle;
    hide IsTerminalLine;
    hide EndsWithBlankLine;
    hide AnyTerminal;
    hide StdLine;
    var ps := Written(ls);
    if ws <= ps {
      PrefixIdle(ps, |ws|);
      assert ps[..|ws|] == ws;
    } else {
      var k, c :| 0 <= k < |ps| && ws == ps[..k] + [c] && c <= ps[k] && c != "" && c != ps[k];
      var i := PieceOfALine(ls, k);
      CutLooksBlank(ls[i], c, ps[k]);
      CutIsNoPlace(ps[..k], c, ws);
      assert ws[..|ws|] == ws;
      forall j | 0 <= j <= |ws| && Eligible(ws[..j]) ensures Idle(Reads(ws[..j])) {
        assert ws[..j] == ps[..j];
      }
    }
  }

  /** Without a byte order mark in front, a ping before the first write is nothing to it. */
  lemma {:induction false} FirstDelivered(ls: seq<Line>, ws: seq<string>)
    requires StdLines(ls) && (ls != [] ==> !(BOM <= ls[0].content)) && Delivered(ws, Written(ls))
    ensures FirstPieceOk(ws)
  {
    hide Take;
    hide StdLine;
    hide Written;
    if ws != [] {
      var ps := Written(ls);
      if ls == [] { NothingWritten(); }
      var l := ls[0];
      assert ls == [l] + ls[1..];
      WrittenCons(l, ls[1..]);
      assert ps[0] == Head(l);
      SuffixStd(ls);
      HeadUnbom(l);
      PartHasNoMark(Head(l), ws[0]);
      if |ws| > 1 {
        assert ws[0] == ps[0] && |ps| > 1;
        if l.term == "" {
          assert ls[1..] == [];
          NothingWritten();
        }
        HeadIsSettled(l);
      }
    }
  }

  lemma {:induction false} PartHasNoMark(t: string, c: string)
    requires Unbom(t) == t && c <= t
    ensures Unbom(c) == c
  {
    assert BOM <= c ==> BOM <= t;
  }

  /** The first line keeps what it begins with, unless its payload starts there. */
  lemma {:induction false} MarkIsNotMade(c: string, rw: Rewriter)
    requires NoBreaks(c) && !(BOM <= c)
    ensures !(BOM <= RewriteLine(c, rw))
  {
    hide GateOpen;
    assert Content(c) == c;
    var r := RewriteLine(c, rw);
    if DataPayload(c).Some? && r != c {
      assert "data:" <= c && r[0] == c[0] == 'd';
      assert BOM[0] != 'd';
    }
  }

  lemma {:induction false} FirstContent(t: string)
    requires !(BOM <= t) && Lines(t) != []
    ensures !(BOM <= Lines(t)[0].content)
  {
    var n := ContentLength(t);
    assert t != "";
    assert Lines(t)[0].content == t[..n];
    assert BOM <= t[..n] ==> BOM <= t;
  }

  /** The whole path: over every body, every client and every interleaving of the relay's writes
      with ticks, the client reads what it would read without heartbeats, as long as the relayed
      stream opens no event at a line that only looks blank and the body no byte order mark. */
  lemma {:induction false} RelayedHeartbeatsUnseen(t: string, rw: Rewriter, room: nat, failed: bool, steps: seq<Step>, interval: int)
    requires KeepsLines(Lines(t), rw) && NoEventSplit(Rewritten(Lines(t), rw)) && !(BOM <= t)
    requires Pieces(steps) <= RelayLines(Start(room), Lines(t), rw, failed).writes
    ensures Unseen(steps, interval)
  {
    hide Lines;
    hide RelayLines;
    hide Written;
    hide StdLines;
    hide NoEventSplit;
    hide PlacesIdle;
    hide Delivered;
    hide Pieces;
    hide RewriteLine;
    var ls := Rewritten(Lines(t), rw);
    LinesAreStd(t);
    RewrittenStd(Lines(t), rw);
    IdleIff(ls);
    RelayDelivers(Start(room), Lines(t), rw, failed);
    var ws := RelayLines(Start(room), Lines(t), rw, failed).writes;
    assert ws[0..] == ws && [] + Written(ls) == Written(ls);
    if RelayLines(Start(room), Lines(t), rw, failed).outcome.Running? { AllDelivered(ws); }
    DeliveredIdle(ls, ws);
    if ls != [] {
      FirstContent(t);
      FirstLineIsStd(Lines(t));
      MarkIsNotMade(Lines(t)[0].content, rw);
    }
    FirstDelivered(ls, ws);
    PrefixFirst(ws, Pieces(steps));
    PrefixIdle(ws, |Pieces(steps)|);
    assert ws[..|Pieces(steps)|] == Pieces(steps);
    PingsAreInvisible(steps, 0, interval);
  }

  lemma {:induction false} FirstLineIsStd(ls: seq<Line>)
    requires StdLines(ls) && ls != []
    ensures NoBreaks(ls[0].content)
  {}

  lemma {:induction false} AllDelivered(ps: seq<string>)
    ensures Delivered(ps, ps)
  {}
}
