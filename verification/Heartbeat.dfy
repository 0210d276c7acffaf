/** Heartbeats over a relayed stream: internal/proxy/keepalive.go together with internal/proxy/sse.go.

    The relay writes a line up to its first terminator byte, and the LF of a CRLF on its own.  That
    lone LF looks like a blank line to the heartbeat.  The theorems say exactly which streams are
    safe, in the two senses of the promise: where a ping may stand, and what the client makes of it.
 */
module Heartbeat {
  import opened Wrappers
  import opened Sse
  import opened EventStream
  import opened KeepAlive

  predicate NoBreaks(s: string) { forall i :: 0 <= i < |s| ==> !IsBreak(s[i]) }

  /** The first write of a line. */
  function Head(l: Line): string { l.content + l.term[..if l.term == "" then 0 else 1] }

  function LinePieces(l: Line): seq<string> { [Head(l)] + if l.term == "\r\n" then ["\n"] else [] }

  /** The writes of a whole stream. */
  function Written(ls: seq<Line>): seq<string>
  {
    if ls == [] then [] else Written(ls[..|ls| - 1]) + LinePieces(ls[|ls| - 1])
  }

  predicate StdLine(l: Line)
  {
    NoBreaks(l.content) && (l.term == "\n" || l.term == "\r" || l.term == "\r\n" || (l.term == "" && l.content != ""))
  }

  /** Lines as section 9.2.5 makes them: an LF after a CR belongs to it, only the last is cut short. */
  predicate StdLines(ls: seq<Line>)
  {
    (forall i :: 0 <= i < |ls| ==> StdLine(ls[i]))
    && (forall i :: 0 <= i < |ls| - 1 ==> ls[i].term != "" && !(ls[i].term == "\r" && ls[i + 1] == Line("", "\n")))
  }

  /** What the client has understood after the lines. */
  function Said(ls: seq<Line>): Client
  {
    if ls == [] then FRESH.client else TakeLine(Said(ls[..|ls| - 1]), ls[|ls| - 1].content)
  }

  predicate Ended(ls: seq<Line>) { exists i :: 0 <= i < |ls| && IsTerminalLine(Head(ls[i])) }

  /** What the client has of line `i`: a byte order mark at the very start is not part of it. */
  function HeardContent(ls: seq<Line>, i: nat): string
    requires i < |ls|
  {
    if i == 0 then Unbom(ls[0].content) else ls[i].content
  }

  /** The lines as the client has them. */
  function Heard(ls: seq<Line>): seq<Line>
  {
    if ls == [] then []
    else if ls[0].content == BOM && ls[0].term == "" then ls[1..]
    else [Line(Unbom(ls[0].content), ls[0].term)] + ls[1..]
  }

  /** Line `i` is not blank, ends in CRLF, and no terminal marker has been seen. */
  predicate LooksBlank(ls: seq<Line>, i: nat)
  {
    i < |ls| && ls[i].term == "\r\n" && HeardContent(ls, i) != "" && !Ended(ls[..i + 1])
  }

  /** The text is empty or ends in a blank line. */
  predicate AtBoundary(t: string)
  {
    t == "" || (Terminated(t) && (Content(t) == "" || Terminated(Content(t))))
  }

  // ---------------------------------------------------------------- the writes and the lines

  lemma {:induction false} PrefixStd(ls: seq<Line>, n: nat)
    requires StdLines(ls) && n <= |ls|
    ensures StdLines(ls[..n])
  {
    hide StdLine;
  }

  lemma {:induction false} EndedSnoc(ls: seq<Line>, l: Line)
    ensures Ended(ls + [l]) <==> Ended(ls) || IsTerminalLine(Head(l))
  {
    hide IsTerminalLine;
    if Ended(ls) {
      var i :| 0 <= i < |ls| && IsTerminalLine(Head(ls[i]));
      assert (ls + [l])[i] == ls[i];
    }
    if IsTerminalLine(Head(l)) { assert (ls + [l])[|ls|] == l; }
  }

  /** A terminal marker is seen by the writer exactly when a line is one. */
  lemma {:induction false} MarkersAreLines(ls: seq<Line>)
    ensures AnyTerminal(Written(ls)) <==> Ended(ls)
    decreases |ls|
  {
    hide AnyTerminal;
    hide Ended;
    hide IsTerminalLine;
    if ls == [] {
      NoMarkers();
    } else {
      var n := |ls| - 1;
      var l := ls[n];
      MarkersAreLines(ls[..n]);
      assert ls == ls[..n] + [l];
      EndedSnoc(ls[..n], l);
      TerminalSnoc(Written(ls[..n]), Head(l));
      TerminalSnoc(Written(ls[..n]) + [Head(l)], "\n");
      LFIsNoMarker();
      LinesWrite(ls[..n], l);
    }
  }

  lemma {:induction false} NoMarkers()
    ensures !AnyTerminal([]) && !Ended([])
  {}

  lemma {:induction false} LFIsNoMarker()
    ensures !IsTerminalLine("\n")
  {
    assert Content("\n") == "";
  }

  lemma {:induction false} LinesWrite(ls: seq<Line>, l: Line)
    ensures Written(ls + [l]) ==
            if l.term == "\r\n" then Written(ls) + [Head(l)] + ["\n"] else Written(ls) + [Head(l)]
  {
    assert (ls + [l])[..|ls|] == ls;
  }

  lemma {:induction false} WrittenPrefix(ls: seq<Line>, n: nat)
    requires n <= |ls|
    ensures Written(ls[..n]) <= Written(ls)
    decreases |ls|
  {
    if n < |ls| {
      var m := |ls| - 1;
      WrittenPrefix(ls[..m], n);
      assert ls[..m][..n] == ls[..n];
    } else {
      assert ls[..n] == ls;
    }
  }

  /** Of the relay's writes only a lone LF ends in a blank line. */
  lemma {:induction false} HeadLooksBlank(l: Line)
    requires StdLine(l)
    ensures EndsWithBlankLine(Head(l)) <==> l == Line("", "\n")
    ensures EndsWithBlankLine("\n")
  {
    var h := Head(l);
    var i := LastLF(h);
    if l.term == "\n" {
      assert i == |h| - 1;
      assert h[..i] == l.content;
      assert LastLF(l.content) == -1;
    } else {
      assert forall k :: 0 <= k < |h| ==> h[k] != '\n';
    }
    assert LastLF("\n") == 0 && "\n"[..0] == "";
  }

  /** Where line `n` ends as the heartbeat sees it: it is blank, or its LF came alone. */
  predicate Pause(ls: seq<Line>, n: nat)
  {
    n <= |ls| && !Ended(ls[..n]) && (n == 0 || ls[n - 1].term == "\r\n" || ls[n - 1] == Line("", "\n"))
  }

  /** The places open to a ping are the pauses. */
  lemma {:induction false} PlacesArePauses(ls: seq<Line>, k: nat) returns (n: nat)
    requires StdLines(ls) && k <= |Written(ls)| && Eligible(Written(ls)[..k])
    ensures Pause(ls, n) && Written(ls)[..k] == Written(ls[..n])
    decreases |ls|
  {
    hide IsTerminalLine;
    hide EndsWithBlankLine;
    hide AnyTerminal;
    hide StdLines;
    hide Ended;
    if k == 0 {
      n := 0;
      assert ls[..0] == [];
      NoMarkers();
    } else {
      var m := |ls| - 1;
      var before, l := ls[..m], ls[m];
      assert ls == before + [l];
      PrefixStd(ls, m);
      LinesWrite(before, l);
      if k <= |Written(before)| {
        assert Written(ls)[..k] == Written(before)[..k];
        n := PlacesArePauses(before, k);
        assert before[..n] == ls[..n];
      } else {
        n := |ls|;
        assert ls[..n] == ls;
        LastIsStd(ls);
        HeadLooksBlank(l);
        if k == |Written(before)| + 1 {
          assert Written(ls)[..k] == Written(before) + [Head(l)];
          assert l != Line("", "\r\n");
        }
        assert Written(ls)[..k] == Written(ls);
        MarkersAreLines(ls);
      }
    }
  }

  lemma {:induction false} LastIsStd(ls: seq<Line>)
    requires StdLines(ls) && ls != []
    ensures StdLine(ls[|ls| - 1])
  {}

  lemma {:induction false} PausesArePlaces(ls: seq<Line>, n: nat)
    requires StdLines(ls) && Pause(ls, n)
    ensures Written(ls[..n]) <= Written(ls) && Eligible(Written(ls[..n]))
  {
    hide IsTerminalLine;
    hide EndsWithBlankLine;
    hide AnyTerminal;
    hide StdLines;
    hide Ended;
    hide Written;
    WrittenPrefix(ls, n);
    MarkersAreLines(ls[..n]);
    if n == 0 {
      assert ls[..0] == [];
      NothingWritten();
    } else {
      PrefixStd(ls, n);
      PauseLooksBlank(ls[..n]);
    }
  }

  lemma {:induction false} NothingWritten()
    ensures Written([]) == []
  {}

  lemma {:induction false} PauseLooksBlank(ls: seq<Line>)
    requires StdLines(ls) && ls != []
    requires var l := ls[|ls| - 1]; l.term == "\r\n" || l == Line("", "\n")
    ensures Written(ls) != [] && EndsWithBlankLine(Written(ls)[|Written(ls)| - 1])
  {
    hide EndsWithBlankLine;
    hide StdLines;
    hide Written;
    var n := |ls| - 1;
    LastIsStd(ls);
    HeadLooksBlank(ls[n]);
    assert ls == ls[..n] + [ls[n]];
    LinesWrite(ls[..n], ls[n]);
  }

  lemma {:induction false} WrittenCons(l: Line, ls: seq<Line>)
    ensures Written([l] + ls) == LinePieces(l) + Written(ls)
    decreases |ls|
  {
    if ls == [] {
      assert [l] + ls == [] + [l];
    } else {
      var n := |ls| - 1;
      WrittenCons(l, ls[..n]);
      assert ([l] + ls)[..n + 1] == [l] + ls[..n];
    }
  }

  lemma {:induction false} SuffixStd(ls: seq<Line>)
    requires StdLines(ls) && ls != []
    ensures StdLine(ls[0]) && StdLines(ls[1..])
  {
    hide StdLine;
  }

  lemma {:induction false} StdCons(l: Line, ls: seq<Line>)
    requires StdLine(l) && StdLines(ls) && (ls != [] ==> l.term != "" && !(l.term == "\r" && ls[0] == Line("", "\n")))
    ensures StdLines([l] + ls)
  {
    hide StdLine;
    var all := [l] + ls;
    assert forall i :: 1 <= i < |all| ==> all[i] == ls[i - 1];
  }

  // ---------------------------------------------------------------- the client at a line's end

  predicate AllEnded(ls: seq<Line>) { ls == [] || ls[|ls| - 1].term != "" }

  predicate AfterCR(ls: seq<Line>) { ls != [] && ls[|ls| - 1].term == "\r" }

  lemma {:induction false} TermBytes(l: Line)
    requires StdLine(l) && l.term != ""
    ensures Head(l) == l.content + [l.term[0]] && IsBreak(l.term[0])
    ensures l.term[0] == '\r' <==> l.term != "\n"
  {}

  lemma {:induction false} LineTaken(p: Parser, l: Line)
    requires p.line == "" && StdLine(l) && l.term != "" && (l == Line("", "\n") ==> !p.afterCR)
    ensures Take(p, Head(l)) == Parser("", l.term != "\n", TakeLine(p.client, l.content))
  {
    hide Take;
    hide TakeLine;
    TermBytes(l);
    TakePiece(p, l.content, l.term[0]);
  }

  /** The pieces read as they are, a byte order mark included. */
  function RawReads(ps: seq<string>): Parser { Take(FRESH, Flat(ps)) }

  lemma {:induction false} ReadsSnoc(ps: seq<string>, b: string)
    ensures RawReads(ps + [b]) == Take(RawReads(ps), b)
  {
    hide Take;
    FlatSnoc(ps, b);
    TakeConcat(FRESH, Flat(ps), b);
  }

  /** At a line's end the client has read the lines, and no more. */
  lemma {:induction false} LineEnd(ls: seq<Line>)
    requires StdLines(ls) && AllEnded(ls)
    ensures RawReads(Written(ls)) == Parser("", AfterCR(ls), Said(ls))
    decreases |ls|
  {
    hide Take;
    hide TakeLine;
    hide StdLine;
    hide RawReads;
    hide Written;
    if ls == [] {
      NothingRawRead();
    } else {
      var n := |ls| - 1;
      var before, l := ls[..n], ls[n];
      assert ls == before + [l];
      PrefixStd(ls, n);
      LineEnd(before);
      LinesWrite(before, l);
      ReadsSnoc(Written(before), Head(l));
      LineTaken(RawReads(Written(before)), l);
      if l.term == "\r\n" {
        ReadsSnoc(Written(before) + [Head(l)], "\n");
        GluedTaken(RawReads(Written(before) + [Head(l)]));
      } else {
        LastIsStd(ls);
        StdTerm(l);
      }
    }
  }

  lemma {:induction false} StdTerm(l: Line)
    requires StdLine(l)
    ensures l.term == "\n" || l.term == "\r" || l.term == "\r\n" || l.term == ""
  {}

  lemma {:induction false} NothingRawRead()
    ensures RawReads(Written([])) == FRESH
  {
    assert Flat([]) == "";
    TakeNothing(FRESH);
  }

  lemma {:induction false} TextEnds(ls: seq<Line>)
    requires StdLines(ls) && AllEnded(ls)
    ensures var t := Flat(Written(ls)); if ls == [] then t == "" else t != "" && (t[|t| - 1] == '\r' <==> AfterCR(ls))
    ensures ls != [] ==> Terminated(Flat(Written(ls)))
  {
    if ls != [] {
      var n := |ls| - 1;
      var before, l := ls[..n], ls[n];
      assert ls == before + [l];
      LinesWrite(before, l);
      FlatSnoc(Written(before), Head(l));
      FlatSnoc(Written(before) + [Head(l)], "\n");
      TermBytes(l);
    }
  }

  lemma {:induction false} LineText(ls: seq<Line>, l: Line)
    requires StdLine(l)
    ensures Flat(Written(ls + [l])) == Flat(Written(ls)) + l.content + l.term
  {
    LinesWrite(ls, l);
    FlatSnoc(Written(ls), Head(l));
    FlatSnoc(Written(ls) + [Head(l)], "\n");
    StdTerm(l);
  }

  predicate EndsInLF(ls: seq<Line>) { ls != [] && var l := ls[|ls| - 1]; l.term == "\r\n" || l == Line("", "\n") }

  /** A line's end is an event boundary exactly when the line is blank. */
  lemma {:induction false} LineAtBoundary(ls: seq<Line>)
    requires StdLines(ls) && EndsInLF(ls)
    ensures AtBoundary(Flat(Written(ls))) <==> ls[|ls| - 1].content == ""
  {
    hide Written;
    hide Flat;
    hide AtBoundary;
    var n := |ls| - 1;
    var before, l := ls[..n], ls[n];
    assert ls == before + [l];
    PrefixStd(ls, n);
    LineText(before, l);
    TextEnds(before);
    PauseText(Flat(Written(before)), l);
  }

  lemma {:induction false} PauseText(a: string, l: Line)
    requires StdLine(l) && (l.term == "\r\n" || l == Line("", "\n"))
    requires a == "" || Terminated(a)
    requires l.term == "\n" ==> a == "" || a[|a| - 1] != '\r'
    ensures AtBoundary(a + l.content + l.term) <==> l.content == ""
  {
    hide Content;
    ContentOf(a, l);
    if l.content == "" {
      assert a + l.content == a;
    } else {
      assert (a + l.content)[|a + l.content| - 1] == l.content[|l.content| - 1];
    }
  }

  lemma {:induction false} ContentOf(a: string, l: Line)
    requires StdLine(l) && (l.term == "\r\n" || l == Line("", "\n"))
    requires l.term == "\n" ==> a == "" || a[|a| - 1] != '\r'
    ensures var t := a + l.content + l.term; Terminated(t) && Content(t) == a + l.content
  {
    var t := a + l.content + l.term;
    assert t[..|t| - |l.term|] == a + l.content;
  }

  // ---------------------------------------------------------------- the theorems

  /** Splitting off the byte order mark of the text is splitting it off the first line. */
  lemma {:induction false} HeardText(ls: seq<Line>)
    requires StdLines(ls)
    ensures Flat(Written(Heard(ls))) == Unbom(Flat(Written(ls)))
  {
    hide Written;
    hide Flat;
    hide Unbom;
    hide StdLine;
    if ls == [] {
      NothingFlat();
      EmptyHasNoBom();
      assert Written([]) == [] by { NothingWritten(); }
    } else {
      var l, rest := ls[0], ls[1..];
      assert ls == [l] + rest;
      StdTerm(l);
      var after := l.term + Flat(Written(rest));
      if l.term == "" {
        assert rest == [];
        NothingWritten();
        NothingFlat();
      }
      FirstText(l, rest);
      FirstUnbom(l, after);
      if l.content == BOM && l.term == "" {
        UnbomOfBom();
        assert "" + Flat(Written(rest)) == Flat(Written(rest));
        assert "" + after == after;
      } else {
        FirstText(Line(Unbom(l.content), l.term), rest);
      }
    }
  }

  lemma {:induction false} UnbomOfBom() ensures Unbom(BOM) == "" {}

  lemma {:induction false} FirstText(l: Line, rest: seq<Line>)
    requires l.term == "\n" || l.term == "\r" || l.term == "\r\n" || l.term == ""
    ensures Flat(Written([l] + rest)) == l.content + (l.term + Flat(Written(rest)))
  {
    hide Written;
    WrittenCons(l, rest);
    FlatConcat(LinePieces(l), Written(rest));
    assert Flat(LinePieces(l)) == l.content + l.term by { PiecesText(l); }
    assert l.content + l.term + Flat(Written(rest)) == l.content + (l.term + Flat(Written(rest)));
  }

  lemma {:induction false} PiecesText(l: Line)
    requires l.term == "\n" || l.term == "\r" || l.term == "\r\n" || l.term == ""
    ensures Flat(LinePieces(l)) == l.content + l.term
  {
    hide Flat;
    NothingFlat();
    FlatSnoc([], Head(l));
    assert [] + [Head(l)] == [Head(l)] && "" + Head(l) == Head(l);
    FlatSnoc([Head(l)], "\n");
    if l.term == "\r\n" {
      assert LinePieces(l) == [Head(l)] + ["\n"];
      assert l.term == "\r" + "\n";
      assert l.content + "\r" + "\n" == l.content + l.term;
    } else {
      assert LinePieces(l) == [Head(l)];
    }
  }

  lemma {:induction false} FlatConcat(a: seq<string>, b: seq<string>)
    ensures Flat(a + b) == Flat(a) + Flat(b)
    decreases |b|
  {
    if b == [] {
      assert a + b == a;
    } else {
      var n := |b| - 1;
      assert (a + b)[..|a| + n] == a + b[..n];
      FlatConcat(a, b[..n]);
    }
  }

  /** A byte order mark leads a line exactly when it leads what begins with that line. */
  lemma {:induction false} FirstUnbom(l: Line, after: string)
    requires StdLine(l) && l.term <= after && (l.term == "" ==> after == "")
    ensures Unbom(l.content + after) == Unbom(l.content) + after
  {
    var t := l.content + after;
    assert |BOM| == 3 && forall k :: 0 <= k < 3 ==> !IsBreak(BOM[k]);
    if BOM <= l.content {
      assert BOM <= t && t[3..] == l.content[3..] + after;
    } else if |l.content| < 3 && l.term != "" {
      assert t[|l.content|] == after[0] == l.term[0];
      assert IsBreak(l.term[0]);
    }
    assert |l.content| >= 3 && BOM <= t ==> l.content[..3] == t[..3] == BOM;
  }

  lemma {:induction false} HeardStd(ls: seq<Line>)
    requires StdLines(ls)
    ensures StdLines(Heard(ls))
  {
    if ls != [] && !(ls[0].content == BOM && ls[0].term == "") {
      var first := Line(Unbom(ls[0].content), ls[0].term);
      HeardLine(ls[0]);
      SuffixStd(ls);
      hide StdLine;
      StdCons(first, ls[1..]);
    }
  }

  lemma {:induction false} HeardLine(l: Line)
    requires StdLine(l) && !(l.content == BOM && l.term == "")
    ensures StdLine(Line(Unbom(l.content), l.term))
  {
    if BOM <= l.content {
      assert forall i :: 0 <= i < |l.content[3..]| ==> l.content[3..][i] == l.content[i + 3];
    }
  }

  lemma {:induction false} PauseAtBoundary(ls: seq<Line>)
    requires StdLines(ls) && ls != [] && Pause(ls, |ls|)
    ensures AtBoundary(Unbom(Flat(Written(ls)))) <==> HeardContent(ls, |ls| - 1) == ""
  {
    hide Ended;
    hide Written;
    hide Flat;
    hide AtBoundary;
    hide StdLines;
    hide Heard;
    hide Unbom;
    HeardText(ls);
    HeardStd(ls);
    HeardEnds(ls);
    LineAtBoundary(Heard(ls));
  }

  /** The last line as heard still ends where the writer pauses. */
  lemma {:induction false} HeardEnds(ls: seq<Line>)
    requires StdLines(ls) && ls != [] && Pause(ls, |ls|)
    ensures Heard(ls) != [] && EndsInLF(Heard(ls)) && Heard(ls)[|Heard(ls)| - 1].content == HeardContent(ls, |ls| - 1)
    ensures !AfterCR(Heard(ls)) && AllEnded(Heard(ls))
  {
    hide Ended;
    var n := |ls| - 1;
    if n > 0 { assert ls[0].term != ""; }
    if ls[n] == Line("", "\n") { EmptyHasNoBom(); }
  }

  /** Every place open to a ping is an event boundary, exactly when no line that is not blank ends
      in CRLF before the terminal marker. */
  lemma {:induction false} BoundariesIff(ls: seq<Line>)
    requires StdLines(ls)
    ensures (forall k :: 0 <= k <= |Written(ls)| && Eligible(Written(ls)[..k]) ==> AtBoundary(Unbom(Flat(Written(ls)[..k]))))
            <==> (forall i :: 0 <= i < |ls| ==> !LooksBlank(ls, i))
  {
    hide Ended;
    hide Written;
    hide Flat;
    hide AtBoundary;
    hide Eligible;
    hide StdLines;
    hide Unbom;
    if i :| 0 <= i < |ls| && LooksBlank(ls, i) {
      PausesArePlaces(ls, i + 1);
      PrefixStd(ls, i + 1);
      assert ls[..i + 1][..i + 1] == ls[..i + 1];
      PauseAtBoundary(ls[..i + 1]);
      var k := |Written(ls[..i + 1])|;
      assert Written(ls)[..k] == Written(ls[..i + 1]);
    } else {
      forall k | 0 <= k <= |Written(ls)| && Eligible(Written(ls)[..k]) ensures AtBoundary(Unbom(Flat(Written(ls)[..k]))) {
        var n := PlacesArePauses(ls, k);
        if n == 0 {
          assert ls[..0] == [];
          StartIsBoundary();
        } else {
          assert !LooksBlank(ls, n - 1);
          BlankLFIsHeard(ls, n - 1);
          PrefixStd(ls, n);
          assert ls[..n][..n] == ls[..n];
          PauseAtBoundary(ls[..n]);
        }
      }
    }
  }

  lemma {:induction false} StartIsBoundary()
    ensures AtBoundary(Unbom(Flat(Written([]))))
  {
    assert Flat([]) == "";
  }

  lemma {:induction false} BlankQuiets(c: Client)
    ensures Quiet(TakeLine(c, ""))
  {}

  lemma {:induction false} PauseReads(ls: seq<Line>, n: nat)
    requires StdLines(ls) && Pause(ls, n)
    ensures Reads(Written(ls[..n])) == Parser("", false, Said(Heard(ls[..n])))
  {
    hide Ended;
    hide Said;
    hide Heard;
    hide Take;
    hide StdLines;
    PrefixStd(ls, n);
    HeardText(ls[..n]);
    HeardStd(ls[..n]);
    if n > 0 {
      assert ls[..n][..n] == ls[..n];
      HeardEnds(ls[..n]);
    } else {
      assert Heard(ls[..n]) == [] by { NothingHeard(); }
    }
    LineEnd(Heard(ls[..n]));
  }

  lemma {:induction false} NothingHeard() ensures Heard([]) == [] {}

  lemma {:induction false} PauseIdle(ls: seq<Line>, n: nat)
    requires StdLines(ls) && Pause(ls, n)
    ensures Idle(Reads(Written(ls[..n]))) <==> Quiet(Said(Heard(ls[..n])))
    ensures n == 0 || HeardContent(ls, n - 1) == "" ==> Quiet(Said(Heard(ls[..n])))
  {
    hide Ended;
    hide Reads;
    hide TakeLine;
    hide StdLines;
    hide Heard;
    PauseReads(ls, n);
    if n == 0 {
      NothingHeard();
    } else {
      assert ls[..n][..n] == ls[..n];
      PrefixStd(ls, n);
      HeardEnds(ls[..n]);
      var hs := Heard(ls[..n]);
      BlankQuiets(Said(hs[..|hs| - 1]));
    }
  }

  /** No line that looks blank leaves the client in the middle of an event. */
  predicate NoEventSplit(ls: seq<Line>)
  {
    forall i :: 0 <= i < |ls| && LooksBlank(ls, i) ==> Quiet(Said(Heard(ls[..i + 1])))
  }

  lemma {:induction false} IdleIff(ls: seq<Line>)
    requires StdLines(ls)
    ensures PlacesIdle(Written(ls)) <==> NoEventSplit(ls)
  {
    hide Ended;
    hide Written;
    hide Reads;
    hide Idle;
    hide Quiet;
    hide Said;
    hide Eligible;
    hide StdLines;
    hide Heard;
    hide HeardContent;
    if NoEventSplit(ls) {
      forall k | 0 <= k <= |Written(ls)| && Eligible(Written(ls)[..k]) ensures Idle(Reads(Written(ls)[..k])) {
        var n := PlacesArePauses(ls, k);
        PauseIdle(ls, n);
        if n > 0 && HeardContent(ls, n - 1) != "" {
          BlankLFIsHeard(ls, n - 1);
          assert LooksBlank(ls, n - 1);
        }
      }
    }
    if PlacesIdle(Written(ls)) {
      forall i | 0 <= i < |ls| && LooksBlank(ls, i) ensures Quiet(Said(Heard(ls[..i + 1]))) {
        PausesArePlaces(ls, i + 1);
        PauseIdle(ls, i + 1);
        assert Written(ls)[..|Written(ls[..i + 1])|] == Written(ls[..i + 1]);
      }
    }
  }

  lemma {:induction false} BlankLFIsHeard(ls: seq<Line>, i: nat)
    requires i < |ls|
    ensures ls[i] == Line("", "\n") ==> HeardContent(ls, i) == ""
  {
    EmptyHasNoBom();
  }

  // ---------------------------------------------------------------- a byte order mark at the start

  /** A ping before the first write pushes a byte order mark aside, and the first line is then lost
      on the client, or still to come with the mark in it. */
  predicate BomMatters(ls: seq<Line>)
  {
    ls != [] && BOM <= ls[0].content && (ls[0].term == "" || TakeLine(FRESH.client, ls[0].content[3..]) != FRESH.client)
  }

  /** A line that begins with the mark means nothing. */
  lemma {:induction false} MarkedLineIsLost(c: Client, x: string)
    ensures TakeLine(c, BOM + x) == c
  {
    var line := BOM + x;
    assert line[0] == BOM[0] && line[0] != ':' && line[0] != 'e' && line[0] != 'd' && line[0] != 'i' && line[0] != 'r';
    assert ColonAt(line) > 0;
    assert line[..ColonAt(line)][0] == line[0];
  }

  /** The first write, read after a ping and read first. */
  lemma {:induction false} FirstPieceIff(l: Line)
    requires StdLine(l)
    ensures Take(FRESH, Head(l)) == Take(FRESH, Unbom(Head(l))) <==> !BomMatters([l])
    ensures l.term != "" ==> Settled(Head(l))
  {
    hide Take;
    hide TakeLine;
    hide StdLine;
    HeadUnbom(l);
    if l.term != "" { HeadIsSettled(l); }
    if BOM <= l.content {
      var x := l.content[3..];
      assert l.content == BOM + x;
      MarkedLineIsLost(FRESH.client, x);
      if l.term == "" {
        UnendedTaken(l);
        if x != "" { HeardLine(l); UnendedTaken(Line(x, "")); } else { TakeNothing(FRESH); }
      } else {
        HeardLine(l);
        LineTaken(FRESH, l);
        LineTaken(FRESH, Line(x, l.term));
      }
    }
  }

  lemma {:induction false} HeadUnbom(l: Line)
    requires StdLine(l)
    ensures Unbom(Head(l)) == Head(Line(Unbom(l.content), l.term))
    ensures !(BOM <= l.content) ==> Unbom(Head(l)) == Head(l)
  {
    FirstUnbomHead(l, l.term[..if l.term == "" then 0 else 1]);
  }

  lemma {:induction false} FirstUnbomHead(l: Line, b: string)
    requires StdLine(l) && (b == "" || (|b| == 1 && IsBreak(b[0])))
    ensures Unbom(l.content + b) == Unbom(l.content) + b
  {
    var t := l.content + b;
    assert |BOM| == 3 && forall k :: 0 <= k < 3 ==> !IsBreak(BOM[k]);
    if BOM <= l.content {
      assert BOM <= t && t[3..] == l.content[3..] + b;
    }
    assert |l.content| < 3 && b != "" ==> t[|l.content|] == b[0];
    assert |l.content| >= 3 && BOM <= t ==> l.content[..3] == t[..3] == BOM;
  }

  lemma {:induction false} HeadIsSettled(l: Line)
    requires StdLine(l) && l.term != ""
    ensures Settled(Head(l))
  {
    TermBytes(l);
    BrokenIsSettled(Head(l), |l.content|);
  }

  lemma {:induction false} UnendedTaken(l: Line)
    requires StdLine(l) && l.term == ""
    ensures Take(FRESH, Head(l)) == Parser(l.content, false, FRESH.client)
  {
    assert Head(l) == l.content;
    TakeContent(FRESH, l.content);
    assert "" + l.content == l.content;
  }

  lemma {:induction false} FirstPieceIs(ls: seq<Line>)
    requires StdLines(ls)
    ensures FirstPieceOk(Written(ls)) <==> !BomMatters(ls)
  {
    hide Take;
    hide TakeLine;
    hide StdLine;
    hide Written;
    if ls != [] {
      var l, rest := ls[0], ls[1..];
      assert ls == [l] + rest;
      WrittenCons(l, rest);
      assert Written(ls)[0] == Head(l);
      FirstPieceIff(l);
      if l.term == "" {
        assert rest == [];
        NothingWritten();
        assert |Written(ls)| == 1;
      }
    } else {
      NothingWritten();
    }
  }

  // ---------------------------------------------------------------- a run that pings at one place

  function RelayAll(ps: seq<string>): seq<Step>
  {
    if ps == [] then [] else RelayAll(ps[..|ps| - 1]) + [Relay(ps[|ps| - 1], 0)]
  }

  lemma {:induction false} RelayAllRuns(ps: seq<string>, interval: int)
    requires forall i :: 0 <= i < |ps| ==> ps[i] != ""
    ensures Pieces(RelayAll(ps)) == ps && ClientText(Run(RelayAll(ps), 0, interval).out) == Flat(ps)
    ensures Run(RelayAll(ps), 0, interval).last == 0
    decreases |ps|
  {
    hide Do;
    hide Run;
    hide Pieces;
    hide ClientText;
    if ps == [] {
      NothingRun(interval);
    } else {
      var n := |ps| - 1;
      var before := RelayAll(ps[..n]);
      RelayAllRuns(ps[..n], interval);
      StepsSnoc(before, Relay(ps[n], 0), interval);
      RelayDone(Run(before, 0, interval), ps[n], interval);
    }
  }

  lemma {:induction false} NothingRun(interval: int)
    ensures Pieces([]) == [] && Run([], 0, interval) == NewWriter(0) && ClientText([]) == ""
  {}

  lemma {:induction false} StepsSnoc(steps: seq<Step>, s: Step, interval: int)
    ensures Pieces(steps + [s]) == Pieces(steps) + PieceOf(s)
    ensures Run(steps + [s], 0, interval) == Do(Run(steps, 0, interval), s, interval)
  {
    hide Do;
    assert (steps + [s])[..|steps|] == steps;
  }

  lemma {:induction false} RelayDone(w: Writer, b: string, interval: int)
    requires b != ""
    ensures var v := Do(w, Relay(b, 0), interval); v.last == 0 && ClientText(v.out) == ClientText(w.out) + b
  {
    hide EndsWithBlankLine;
    hide IsTerminalLine;
    OutSnoc(w.out, Relayed(b));
  }

  /** Relay up to a place, then let the interval pass: the ping is sent. */
  lemma {:induction false} PingSent(ps: seq<string>, interval: int) returns (steps: seq<Step>)
    requires Eligible(ps) && (forall i :: 0 <= i < |ps| ==> ps[i] != "")
    ensures Pieces(steps) == ps && ClientText(Run(steps, 0, interval).out) == Flat(ps) + PING
  {
    hide EndsWithBlankLine;
    hide AnyTerminal;
    hide ClientText;
    hide Flat;
    hide Run;
    hide Pieces;
    var before := RelayAll(ps);
    RelayAllRuns(ps, interval);
    FieldsTellPosition(before, 0, interval);
    steps := before + [Tick(interval)];
    StepsSnoc(before, Tick(interval), interval);
    var w := Run(before, 0, interval);
    assert Due(w, interval, interval);
    OutSnoc(w.out, Ping);
  }

  lemma {:induction false} WrittenNonempty(ls: seq<Line>)
    requires StdLines(ls)
    ensures forall i :: 0 <= i < |Written(ls)| ==> Written(ls)[i] != ""
    decreases |ls|
  {
    if ls != [] {
      PrefixStd(ls, |ls| - 1);
      WrittenNonempty(ls[..|ls| - 1]);
    }
  }

  /** In the run, the client with pings and the client without are in the same state. */
  ghost predicate Unseen(steps: seq<Step>, interval: int)
  {
    ClientReads(Run(steps, 0, interval).out) == Reads(Pieces(steps))
  }

  /** Heartbeats never show, at any moment of any interleaving over the stream, exactly when no
      event is open at a line that only looks blank, and the stream does not open with a byte order
      mark that matters. */
  lemma {:induction false} HeartbeatsUnseenIff(ls: seq<Line>, interval: int)
    requires StdLines(ls)
    ensures (forall steps :: Pieces(steps) <= Written(ls) ==> Unseen(steps, interval)) <==> NoEventSplit(ls) && !BomMatters(ls)
  {
    hide StdLines;
    hide NoEventSplit;
    hide Written;
    hide Pieces;
    hide BomMatters;
    hide FirstPieceOk;
    IdleIff(ls);
    FirstPieceIs(ls);
    if !PlacesIdle(Written(ls)) {
      var steps := SplitShows(ls, interval);
    } else if BomMatters(ls) {
      var steps := BomShows(ls, interval);
    } else {
      forall steps | Pieces(steps) <= Written(ls) ensures Unseen(steps, interval) {
        PrefixIdle(Written(ls), |Pieces(steps)|);
        PrefixFirst(Written(ls), Pieces(steps));
        assert Written(ls)[..|Pieces(steps)|] == Pieces(steps);
        PingsAreInvisible(steps, 0, interval);
      }
    }
  }

  lemma {:induction false} PrefixFirst(ps: seq<string>, qs: seq<string>)
    requires FirstPieceOk(ps) && qs <= ps
    ensures FirstPieceOk(qs)
  {
    hide Take;
    hide Unbom;
  }

  /** A ping, then the first write. */
  lemma {:induction false} BomShows(ls: seq<Line>, interval: int) returns (steps: seq<Step>)
    requires StdLines(ls) && BomMatters(ls)
    ensures Pieces(steps) <= Written(ls) && !Unseen(steps, interval)
  {
    hide Take;
    hide StdLine;
    hide BomMatters;
    hide Written;
    hide ClientText;
    assert ls != [] by { MattersMeans(ls); }
    var l := ls[0];
    assert ls == [l] + ls[1..];
    MattersMeans(ls);
    WrittenCons(l, ls[1..]);
    FirstPieceIff(l);
    var none: seq<string> := [];
    assert Eligible(none);
    var ping := PingSent(none, interval);
    steps := ping + [Relay(Head(l), 0)];
    StepsSnoc(ping, Relay(Head(l), 0), interval);
    HeadReadsAfterPing(ping, Head(l), interval);
  }

  lemma {:induction false} MattersMeans(ls: seq<Line>)
    requires BomMatters(ls)
    ensures ls != [] && BomMatters([ls[0]]) && (StdLines(ls) ==> Head(ls[0]) != "")
  {}

  lemma {:induction false} HeadReadsAfterPing(ping: seq<Step>, head: string, interval: int)
    requires Pieces(ping) == [] && ClientText(Run(ping, 0, interval).out) == Flat([]) + PING && head != ""
    ensures var steps := ping + [Relay(head, 0)];
            Pieces(steps) == [head] && ClientReads(Run(steps, 0, interval).out) == Take(FRESH, head)
            && Reads(Pieces(steps)) == Take(FRESH, Unbom(head))
  {
    hide Take;
    hide Unbom;
    hide Run;
    hide Pieces;
    hide Do;
    hide ClientText;
    hide Flat;
    StepsSnoc(ping, Relay(head, 0), interval);
    RelayDone(Run(ping, 0, interval), head, interval);
    NothingFlat();
    assert "" + PING == PING;
    FirstRead(head);
    PingIsSettled();
    ReadOn(PING, head);
    PingIsInert(FRESH);
    assert [] + PieceOf(Relay(head, 0)) == [head];
  }

  lemma {:induction false} SplitShows(ls: seq<Line>, interval: int) returns (steps: seq<Step>)
    requires StdLines(ls) && !PlacesIdle(Written(ls))
    ensures Pieces(steps) <= Written(ls) && !Unseen(steps, interval)
  {
    hide StdLines;
    hide Written;
    hide Pieces;
    hide Take;
    hide Run;
    hide EndsWithBlankLine;
    hide AnyTerminal;
    hide ClientText;
    var k :| 0 <= k <= |Written(ls)| && Eligible(Written(ls)[..k]) && !Idle(Reads(Written(ls)[..k]));
    var n := PlacesArePauses(ls, k);
    PauseReads(ls, n);
    var ps := Written(ls)[..k];
    WrittenNonempty(ls);
    steps := PingSent(ps, interval);
    if ps == [] {
      StartIsIdle();
    } else {
      PlaceIsSettled(ps);
      ReadOn(Flat(ps), PING);
      PingElsewhereShows(Reads(ps));
    }
  }

  lemma {:induction false} StartIsIdle()
    ensures Idle(Reads([]))
  {
    assert Flat([]) == "";
  }

  /** On a stream without CRLF and without a byte order mark, every ping stands at an event boundary
      and no interleaving shows. */
  lemma {:induction false} LFStreamsAreSafe(ls: seq<Line>, steps: seq<Step>, interval: int, k: nat)
    requires StdLines(ls) && (forall i :: 0 <= i < |ls| ==> ls[i].term != "\r\n") && (ls != [] ==> !(BOM <= ls[0].content))
    ensures Pieces(steps) <= Written(ls) ==> Unseen(steps, interval)
    ensures k <= |Written(ls)| && Eligible(Written(ls)[..k]) ==> AtBoundary(Unbom(Flat(Written(ls)[..k])))
  {
    hide StdLines;
    hide Written;
    hide Pieces;
    hide Eligible;
    hide AtBoundary;
    hide Unseen;
    BoundariesIff(ls);
    HeartbeatsUnseenIff(ls, interval);
  }

  /** A two-line event whose lines end in CRLF: a ping after the first line splits it in two. */
  lemma {:induction false} CrlfEventIsSplit()
    ensures var ls := [Line("data: a", "\r\n"), Line("data: b", "\r\n"), Line("", "\r\n")];
            StdLines(ls) && LooksBlank(ls, 0) && !NoEventSplit(ls)
  {
    var ls := [Line("data: a", "\r\n"), Line("data: b", "\r\n"), Line("", "\r\n")];
    var first := [Line("data: a", "\r\n")];
    hide IsTerminalLine;
    hide TakeLine;
    hide Said;
    assert forall i :: 0 <= i < |ls| ==> NoBreaks(ls[i].content);
    assert ls[..0 + 1] == first;
    PlainDataIsNoMarker();
    assert Head(first[0]) == "data: a\r";
    assert !Ended(first);
    PlainDataHasNoMark();
    assert Heard(first) == first by { assert first[1..] == []; }
    OneSaid(first[0]);
    DataLineBuffers(Said([]));
  }

  lemma {:induction false} PlainDataHasNoMark()
    ensures Unbom("data: a") == "data: a" && !(BOM <= "data: a")
  {
    assert BOM[0] != "data: a"[0];
  }

  /** An ordinary event behind a byte order mark: no line looks blank, and yet a ping in front of it
      costs the client the event. */
  lemma {:induction false} MarkedEventIsLost(interval: int) returns (steps: seq<Step>)
    ensures var ls := [Line(BOM + "data: a", "\n"), Line("", "\n")];
            && StdLines(ls) && NoEventSplit(ls) && BomMatters(ls)
            && Pieces(steps) <= Written(ls) && !Unseen(steps, interval)
  {
    var ls := [Line(BOM + "data: a", "\n"), Line("", "\n")];
    assert StdLines(ls) by { MarkedLineIsStd(); }
    assert NoEventSplit(ls) by { assert forall i :: 0 <= i < |ls| ==> ls[i].term != "\r\n"; }
    assert BomMatters(ls) by {
      assert (BOM + "data: a")[3..] == "data: a";
      DataLineBuffers(FRESH.client);
    }
    steps := BomShows(ls, interval);
  }

  lemma {:induction false} MarkedLineIsStd()
    ensures NoBreaks(BOM + "data: a") && NoBreaks("")
  {}

  lemma {:induction false} OneSaid(l: Line)
    ensures Said([l]) == TakeLine(Said([]), l.content)
  {
    hide TakeLine;
    assert [l][..0] == [];
  }

  lemma {:induction false} PlainDataIsNoMarker()
    ensures !IsTerminalLine("data: a\r")
  {
    assert Content("data: a\r") == "data: a";
  }

  lemma {:induction false} DataLineBuffers(c: Client)
    ensures !Quiet(TakeLine(c, "data: a"))
  {
    var line := "data: a";
    assert line[4] == ':' && line[..4] == "data" && line[5..] == " a";
    assert ColonAt(line[4..]) == 0;
    assert ColonAt(line[3..]) == 1 by { assert line[3..][1..] == line[4..]; }
    assert ColonAt(line[2..]) == 2 by { assert line[2..][1..] == line[3..]; }
    assert ColonAt(line[1..]) == 3 by { assert line[1..][1..] == line[2..]; }
    assert ColonAt(line) == 4;
  }
}
