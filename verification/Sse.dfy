/** The streaming relay: internal/proxy/sse.go.

    `RelayLines` says what CopySSE does with the lines of the stream, the lines being those of
    WHATWG HTML section 9.2.5.  `CopySSE` reads through a buffer whose fills are arbitrary, and is
    proved to do exactly that: writes, observations, flushes, statistics and outcome depend on the
    bytes alone, never on how they were split into reads.
 */
module Sse {
  import opened Wrappers
  import Json

  const MAX_LINE_BYTES := 0x10_0000
  const MAX_EVENT_BYTES := 0x20_0000

  // ---------------------------------------------------------------- lines of the standard

  predicate IsBreak(c: char) { c == '\n' || c == '\r' }

  /** A line and the LF, CR or CRLF that ended it; only a last line has no terminator. */
  datatype Line = Line(content: string, term: string)

  function ContentLength(t: string): (n: nat)
    ensures n <= |t| && (n < |t| ==> IsBreak(t[n]))
    ensures forall i :: 0 <= i < n ==> !IsBreak(t[i])
  {
    if t == "" || IsBreak(t[0]) then 0 else 1 + ContentLength(t[1..])
  }

  function Terminator(t: string): (r: string)
    ensures |r| <= |t| && r <= t && (t != "" && IsBreak(t[0]) ==> r != "")
  {
    if t == "" || !IsBreak(t[0]) then "" else if t[0] == '\r' && |t| > 1 && t[1] == '\n' then "\r\n" else t[..1]
  }

  function Lines(t: string): seq<Line>
    decreases |t|
  {
    if t == "" then []
    else
      var n := ContentLength(t);
      var term := Terminator(t[n..]);
      [Line(t[..n], term)] + Lines(t[n + |term|..])
  }

  function Raw(l: Line): string { l.content + l.term }

  function Unlines(ls: seq<Line>): string { if ls == [] then "" else Raw(ls[0]) + Unlines(ls[1..]) }

  lemma {:induction false} CutTwice(t: string, n: nat, k: nat)
    requires n + k <= |t|
    ensures t == t[..n] + t[n..][..k] + t[n + k..]
  {}

  /** No byte is lost or moved by splitting into lines. */
  lemma {:induction false} LinesAreExact(t: string)
    ensures Unlines(Lines(t)) == t
    decreases |t|
  {
    hide ContentLength;
    hide Terminator;
    if t != "" {
      var n := ContentLength(t);
      var term := Terminator(t[n..]);
      assert term == t[n..][..|term|];
      var rest := t[n + |term|..];
      LinesAreExact(rest);
      CutTwice(t, n, |term|);
      var ls := Lines(t);
      assert ls[0] == Line(t[..n], term) && ls[1..] == Lines(rest);
    }
  }

  // ---------------------------------------------------------------- what one line says

  function Content(line: string): string
  {
    var n := |line|;
    if n >= 2 && line[n - 2] == '\r' && line[n - 1] == '\n' then line[..n - 2]
    else if n >= 1 && IsBreak(line[n - 1]) then line[..n - 1]
    else line
  }

  predicate IsEventBoundary(line: string) { line == "\n" || line == "\r" || line == "\r\n" }

  predicate IsTerminalLine(line: string)
  {
    var c := Content(line);
    c == "data: [DONE]" || c == "event: response.completed" || c == "event: message_stop"
  }

  /** The bytes after a field name and one optional space, when the line is that field. */
  function FieldValue(line: string, field: string): Option<string>
  {
    var c := Content(line);
    if field <= c then
      var v := c[|field|..];
      Some(if v != "" && v[0] == ' ' then v[1..] else v)
    else None
  }

  function DataPayload(line: string): Option<string> { FieldValue(line, "data:") }

  function EventName(line: string): Option<string> { FieldValue(line, "event:") }

  predicate GateOpen(payload: string, stripKeys: seq<string>)
  {
    Json.Contains(payload, "\"model\"") || Json.Contains(payload, "\"usage\"")
    || exists i :: 0 <= i < |stripKeys| && Json.Contains(payload, stripKeys[i])
  }

  /** What the relay is asked to do with data payloads. */
  datatype Rewriter = Rewriter(apply: string -> string, stripKeys: seq<string>)

  /** A data line with its payload replaced: prefix, separator and terminator kept. */
  function WithPayload(line: string, payload: string): string
    requires DataPayload(line).Some?
  {
    var c := Content(line);
    c[..|c| - |DataPayload(line).value|] + payload + line[|c|..]
  }

  /** rewriteSSELine */
  function RewriteLine(line: string, rw: Rewriter): string
  {
    var p := DataPayload(line);
    if p.None? || !GateOpen(p.value, rw.stripKeys) then line else WithPayload(line, rw.apply(p.value))
  }

  lemma {:induction false} PayloadInPlace(line: string)
    requires DataPayload(line).Some?
    ensures WithPayload(line, DataPayload(line).value) == line
  {
    var c, p := Content(line), DataPayload(line).value;
    assert c == c[..|c| - |p|] + p;
    assert line == c + line[|c|..];
  }

  /** With a rewriter that leaves alone what the gate turns away, the gate is invisible: every data
      payload is rewritten, and every byte around it stays. */
  lemma {:induction false} GateIsInvisible(line: string, rw: Rewriter)
    requires forall p :: !GateOpen(p, rw.stripKeys) ==> rw.apply(p) == p
    ensures RewriteLine(line, rw) ==
            if DataPayload(line).Some? then WithPayload(line, rw.apply(DataPayload(line).value)) else line
  {
    if DataPayload(line).Some? { PayloadInPlace(line); }
  }

  // ---------------------------------------------------------------- the relay, line by line

  datatype Outcome = Running | Finished | LineTooLong | EventTooLarge | ClientGone | ReadFailed

  /** Everything observable about a pass, and what it carries from line to line.  `room` is how
      many more bytes the client accepts before it is gone. */
  datatype Pass = Pass(
    writes: seq<string>, observed: seq<(Option<string>, string)>, flushes: nat, bytes: nat, events: nat,
    terminal: bool, pending: nat, pendingCRLF: bool, eventName: Option<string>, room: nat, outcome: Outcome)

  function Start(room: nat): Pass { Pass([], [], 0, 0, 0, false, 0, false, None, room, Running) }

  function WriteOut(p: Pass, b: string): Pass
  {
    var n := if |b| <= p.room then |b| else p.room;
    p.(writes := if n == 0 then p.writes else p.writes + [b[..n]], bytes := p.bytes + n, room := p.room - n,
       outcome := if n < |b| then ClientGone else p.outcome)
  }

  /** The LF of a CRLF whose CR has already been relayed. */
  function RelayLF(p: Pass): Pass
  {
    var q := WriteOut(p, "\n");
    if q.outcome.Running? then q.(pendingCRLF := false) else q
  }

  function RelayLine(p: Pass, line: string, rw: Rewriter): Pass
  {
    var boundary := IsEventBoundary(line);
    var pending := p.pending + if boundary then 0 else |line|;
    if pending > MAX_EVENT_BYTES then p.(pending := pending, outcome := EventTooLarge)
    else
      var name := if boundary then None else if EventName(line).Some? then EventName(line) else p.eventName;
      var payload := DataPayload(line);
      var seen := p.observed + if payload.Some? then [(name, payload.value)] else [];
      var out := RewriteLine(line, rw);
      var q := WriteOut(p.(pending := pending, eventName := name, observed := seen), out);
      if !q.outcome.Running? then q
      else
        q.(terminal := q.terminal || IsTerminalLine(out),
           flushes := q.flushes + if boundary then 1 else 0,
           events := q.events + if boundary then 1 else 0,
           pending := if boundary then 0 else pending,
           pendingCRLF := line != "" && line[|line| - 1] == '\r')
  }

  /** A line of the standard as the relay takes it: up to its first terminator byte, then the LF
      of a CRLF. */
  function RelayStdLine(p: Pass, l: Line, rw: Rewriter): Pass
  {
    var line := l.content + l.term[..if l.term == "" then 0 else 1];
    if |line| > MAX_LINE_BYTES then p.(outcome := LineTooLong)
    else
      var q := RelayLine(p, line, rw);
      if l.term == "\r\n" && q.outcome.Running? then RelayLF(q) else q
  }

  function RelayLines(p: Pass, ls: seq<Line>, rw: Rewriter, failed: bool): Pass
    decreases |ls|
  {
    if !p.outcome.Running? then p
    else if ls == [] then p.(outcome := if failed then ReadFailed else Finished)
    else RelayLines(RelayStdLine(p, ls[0], rw), ls[1..], rw, failed)
  }

  // ---------------------------------------------------------------- the relay as it reads

  /** The length of the line the reader cuts: through its first CR or LF, or all there is. */
  function LineLength(t: string): (n: nat)
    ensures n <= |t| && (t != "" ==> n > 0)
  {
    var n := ContentLength(t);
    if n < |t| then n + 1 else n
  }

  predicate Terminated(line: string) { line != "" && IsBreak(line[|line| - 1]) }

  /** One line as the reader returns it. */
  function RelayRead(p: Pass, line: string, rw: Rewriter): Pass
  {
    if line == "" then p
    else if p.pendingCRLF && line == "\n" then RelayLF(p)
    else RelayLine(p, line, rw)
  }

  function RelayBytes(p: Pass, t: string, rw: Rewriter, failed: bool): Pass
    decreases |t|
  {
    var n := LineLength(t);
    if n > MAX_LINE_BYTES then p.(outcome := LineTooLong)
    else
      var q := RelayRead(p, t[..n], rw);
      if !q.outcome.Running? then q
      else if Terminated(t[..n]) then RelayBytes(q, t[n..], rw, failed)
      else q.(outcome := if failed then ReadFailed else Finished)
  }

  // ---------------------------------------------------------------- the buffered reader

  /** The upstream body behind a bufio.Reader: `rest` is what has not been consumed, the first
      `buffered` bytes of it are in the buffer, and `fills` gives the sizes of the reads to come.
      `failed` tells whether the body ends in an error instead of EOF. */
  class Upstream {
    var rest: string
    var buffered: nat
    var fills: seq<nat>
    const failed: bool

    ghost predicate Valid()
      reads this
    {
      buffered <= |rest|
    }

    constructor (body: string, sizes: seq<nat>, fails: bool)
      ensures Valid() && rest == body && buffered == 0 && fills == sizes && failed == fails
    {
      rest, buffered, fills, failed := body, 0, sizes, fails;
    }

    /** Peek(max(Buffered(), 1)): everything buffered, or, after a read, one byte; empty at the end. */
    method Peek() returns (b: string)
      requires Valid()
      modifies this
      ensures Valid() && rest == old(rest)
      ensures |b| <= |rest| && b == rest[..|b|] && (rest != "" ==> b != "")
    {
      if buffered >= 1 {
        return rest[..buffered];
      }
      if rest == "" {
        return "";
      }
      var size := if fills == [] then |rest| else fills[0];
      if fills != [] { fills := fills[1..]; }
      buffered := if size < 1 then 1 else if size > |rest| then |rest| else size;
      b := rest[..1];
    }

    method Consume(n: nat)
      requires Valid() && n <= |rest|
      modifies this
      ensures Valid() && rest == old(rest)[n..]
    {
      rest := rest[n..];
      buffered := if buffered >= n then buffered - n else 0;
    }

    /** readToLineEnd: a line, or a piece of one without its end, or nothing at the end. */
    method ReadToLineEnd() returns (chunk: string, full: bool)
      requires Valid()
      modifies this
      ensures Valid() && |chunk| <= |old(rest)| && chunk == old(rest)[..|chunk|] && rest == old(rest)[|chunk|..]
      ensures full ==> |chunk| == LineLength(old(rest)) && Terminated(chunk)
      ensures !full ==> |chunk| <= ContentLength(old(rest)) && (old(rest) != "" ==> chunk != "")
    {
      var b := Peek();
      var lf := IndexOf(b, '\n');
      var scan := if lf < |b| then b[..lf] else b;
      var cr := IndexOf(scan, '\r');
      CutFound(rest, b, lf, cr);
      if cr < |scan| {
        chunk, full := b[..cr + 1], true;
      } else if lf < |b| {
        chunk, full := b[..lf + 1], true;
      } else {
        chunk, full := b, false;
      }
      Consume(|chunk|);
    }

    /** readBoundedLine: accumulates pieces up to the line limit. */
    method ReadBoundedLine() returns (line: string, tooLong: bool)
      requires Valid()
      modifies this
      ensures Valid()
      ensures tooLong <==> LineLength(old(rest)) > MAX_LINE_BYTES
      ensures !tooLong ==> line == old(rest)[..LineLength(old(rest))] && rest == old(rest)[|line|..]
    {
      ghost var all := rest;
      line, tooLong := "", false;
      while true
        invariant Valid() && |line| <= MAX_LINE_BYTES && |line| <= ContentLength(all)
        invariant line == all[..|line|] && rest == all[|line|..]
        decreases |rest|
      {
        ghost var before, left := line, rest;
        var chunk, full := ReadToLineEnd();
        LengthFrom(all, |before|);
        assert left == all[|before|..];
        if |line| + |chunk| > MAX_LINE_BYTES {
          return "", true;
        }
        assert before + chunk == all[..|before| + |chunk|];
        line := line + chunk;
        if full || chunk == "" {
          return;
        }
      }
    }
  }

  /** bytes.IndexByte, with the length for "not there". */
  method IndexOf(b: string, c: char) returns (i: nat)
    ensures i <= |b| && (i < |b| ==> b[i] == c) && forall k :: 0 <= k < i ==> b[k] != c
  {
    i := 0;
    while i < |b| && b[i] != c
      invariant i <= |b| && forall k :: 0 <= k < i ==> b[k] != c
    {
      i := i + 1;
    }
  }

  /** Cutting at the earlier of the first LF and the first CR before it is cutting at the first
      line break. */
  lemma {:induction false} CutFound(t: string, b: string, lf: nat, cr: nat)
    requires |b| <= |t| && b == t[..|b|] && lf <= |b| && (lf < |b| ==> b[lf] == '\n')
    requires forall k :: 0 <= k < lf ==> b[k] != '\n'
    requires cr <= lf && (cr < lf ==> b[cr] == '\r') && forall k :: 0 <= k < cr ==> b[k] != '\r'
    ensures cr < lf ==> ContentLength(t) == cr
    ensures cr == lf < |b| ==> ContentLength(t) == lf
    ensures cr == lf == |b| ==> ContentLength(t) >= |b|
  {
    var n := ContentLength(t);
    assert forall k :: 0 <= k < |b| ==> t[k] == b[k];
    if cr < lf {
      assert IsBreak(t[cr]);
    } else if lf < |b| {
      assert IsBreak(t[lf]);
    }
  }

  lemma {:induction false} LengthFrom(t: string, k: nat)
    requires k <= ContentLength(t)
    ensures ContentLength(t[k..]) == ContentLength(t) - k && LineLength(t[k..]) == LineLength(t) - k
  {
    var n, m := ContentLength(t), ContentLength(t[k..]);
    if k + m < |t| { assert t[k..][m] == t[k + m]; }
    if n < |t| { assert t[k..][n - k] == t[n]; }
  }

  // ---------------------------------------------------------------- CopySSE

  method CopySSE(src: Upstream, rw: Rewriter, room: nat) returns (p: Pass)
    requires src.Valid()
    modifies src
    ensures p == RelayLines(Start(room), Lines(old(src.rest)), rw, src.failed)
  {
    hide RelayLines;
    hide Lines;
    hide RelayRead;
    hide LineLength;
    ghost var all := src.rest;
    p := Start(room);
    BytesAreLines(p, all, rw, src.failed);
    while true
      invariant src.Valid() && p.outcome.Running?
      invariant RelayBytes(p, src.rest, rw, src.failed) == RelayBytes(Start(room), all, rw, src.failed)
      decreases |src.rest|
    {
      var line, tooLong := src.ReadBoundedLine();
      if tooLong {
        return p.(outcome := LineTooLong);
      }
      p := RelayRead(p, line, rw);
      if !p.outcome.Running? {
        return;
      }
      if !Terminated(line) {
        return p.(outcome := if src.failed then ReadFailed else Finished);
      }
    }
  }

  /** The relay's own cuts and glued LFs amount to the lines of the standard. */
  lemma {:induction false} BytesAreLines(p: Pass, t: string, rw: Rewriter, failed: bool)
    requires p.outcome.Running? && (p.pendingCRLF ==> t == "" || t[0] != '\n')
    ensures RelayBytes(p, t, rw, failed) == RelayLines(p, Lines(t), rw, failed)
    decreases |t|
  {
    hide RelayLine;
    hide RelayLF;
    hide ContentLength;
    hide RelayBytes;
    hide RelayLines;
    hide Lines;
    hide Terminator;
    if t == "" {
      NothingMore(p, t, rw, failed);
    } else {
      var n := ContentLength(t);
      var term := Terminator(t[n..]);
      var rest, line := t[n + |term|..], t[..LineLength(t)];
      LinesFirst(p, t, rw, failed);
      BytesFirst(p, t, rw, failed);
      if |line| <= MAX_LINE_BYTES {
        var q := RelayLine(p, line, rw);
        if q.outcome.Running? {
          CarriesCR(p, line, rw);
          TerminatorKinds(t);
          if term == "\r\n" {
            GluedLF(q, t[n + 1..], rest, rw, failed);
            var r := RelayLF(q);
            if r.outcome.Running? {
              LFClears(q);
              BytesAreLines(r, rest, rw, failed);
            } else {
              StoppedStays(r, Lines(rest), rw, failed);
            }
          } else if term == "" {
            NothingMore(q, rest, rw, failed);
          } else {
            BytesAreLines(q, rest, rw, failed);
          }
        }
      }
    }
  }

  lemma {:induction false} StoppedStays(p: Pass, ls: seq<Line>, rw: Rewriter, failed: bool)
    requires !p.outcome.Running?
    ensures RelayLines(p, ls, rw, failed) == p
  {}

  lemma {:induction false} TerminatorKinds(t: string)
    requires t != ""
    ensures var n := ContentLength(t);
            var term, line := Terminator(t[n..]), t[..LineLength(t)];
            && (term == "" <==> n == |t|)
            && (term != "" ==> line[|line| - 1] == term[0] && (term == "\r\n" || |term| == 1))
            && (term == "\r\n" ==> t[n + 1..] == "\n" + t[n + 2..])
            && (|term| == 1 && term[0] == '\r' ==> t[n + 1..] == "" || t[n + 1..][0] != '\n')
  {
    hide ContentLength;
    var n := ContentLength(t);
    if n < |t| { assert t[n..][0] == t[n]; }
    if n + 1 < |t| { assert t[n..][1] == t[n + 1]; }
  }

  lemma {:induction false} LinesFirst(p: Pass, t: string, rw: Rewriter, failed: bool)
    requires t != "" && p.outcome.Running?
    ensures var n := ContentLength(t);
            var term, line := Terminator(t[n..]), t[..LineLength(t)];
            var rest := Lines(t[n + |term|..]);
            RelayLines(p, Lines(t), rw, failed) ==
            if |line| > MAX_LINE_BYTES then p.(outcome := LineTooLong)
            else
              var q := RelayLine(p, line, rw);
              if !q.outcome.Running? then q
              else RelayLines(if term == "\r\n" then RelayLF(q) else q, rest, rw, failed)
  {
    hide RelayLine;
    hide RelayLF;
    hide ContentLength;
    hide Lines;
    hide Terminator;
    hide RelayLines;
    var n := ContentLength(t);
    var term := Terminator(t[n..]);
    var l, rest := Line(t[..n], term), Lines(t[n + |term|..]);
    LinesCons(t);
    FirstPiece(t);
    StepLine(p, l, rest, rw, failed);
    var q := RelayStdLine(p, l, rw);
    if !q.outcome.Running? { StoppedStays(q, rest, rw, failed); }
  }

  lemma {:induction false} LinesCons(t: string)
    requires t != ""
    ensures var n := ContentLength(t);
            var term := Terminator(t[n..]);
            Lines(t) == [Line(t[..n], term)] + Lines(t[n + |term|..])
  {
    hide ContentLength;
    hide Terminator;
  }

  lemma {:induction false} FirstPiece(t: string)
    requires t != ""
    ensures var n := ContentLength(t);
            var term := Terminator(t[n..]);
            t[..n] + term[..if term == "" then 0 else 1] == t[..LineLength(t)]
  {
    hide ContentLength;
    var n := ContentLength(t);
    if n < |t| { assert t[..n + 1] == t[..n] + t[n..][..1]; }
  }

  lemma {:induction false} StepLine(p: Pass, l: Line, rest: seq<Line>, rw: Rewriter, failed: bool)
    requires p.outcome.Running?
    ensures RelayLines(p, [l] + rest, rw, failed) == RelayLines(RelayStdLine(p, l, rw), rest, rw, failed)
  {
    assert ([l] + rest)[1..] == rest;
  }

  lemma {:induction false} BytesFirst(p: Pass, t: string, rw: Rewriter, failed: bool)
    requires t != "" && p.outcome.Running? && (p.pendingCRLF ==> t[0] != '\n')
    ensures var line := t[..LineLength(t)];
            RelayBytes(p, t, rw, failed) ==
            if |line| > MAX_LINE_BYTES then p.(outcome := LineTooLong)
            else
              var q := RelayLine(p, line, rw);
              if !q.outcome.Running? then q
              else if ContentLength(t) < |t| then RelayBytes(q, t[|line|..], rw, failed)
              else q.(outcome := if failed then ReadFailed else Finished)
  {
    hide RelayLine;
    hide ContentLength;
    FirstLineRelayed(p, t, rw);
  }

  lemma {:induction false} FirstLineRelayed(p: Pass, t: string, rw: Rewriter)
    requires t != "" && (p.pendingCRLF ==> t[0] != '\n')
    ensures RelayRead(p, t[..LineLength(t)], rw) == RelayLine(p, t[..LineLength(t)], rw)
    ensures Terminated(t[..LineLength(t)]) <==> ContentLength(t) < |t|
  {
    hide RelayLine;
    var line := t[..LineLength(t)];
    assert line[0] == t[0];
  }

  lemma {:induction false} CarriesCR(p: Pass, line: string, rw: Rewriter)
    requires line != "" && p.outcome.Running? && RelayLine(p, line, rw).outcome.Running?
    ensures RelayLine(p, line, rw).pendingCRLF <==> line[|line| - 1] == '\r'
  {}

  lemma {:induction false} LFClears(p: Pass)
    requires p.outcome.Running? && RelayLF(p).outcome.Running?
    ensures !RelayLF(p).pendingCRLF
  {}

  lemma {:induction false} NothingMore(p: Pass, rest: string, rw: Rewriter, failed: bool)
    requires rest == "" && p.outcome.Running?
    ensures RelayLines(p, Lines(rest), rw, failed) == p.(outcome := if failed then ReadFailed else Finished)
    ensures RelayBytes(p, rest, rw, failed) == p.(outcome := if failed then ReadFailed else Finished)
  {
    assert ContentLength(rest) == 0;
  }

  lemma {:induction false} GluedLF(p: Pass, t: string, rest: string, rw: Rewriter, failed: bool)
    requires p.pendingCRLF && p.outcome.Running? && t == "\n" + rest
    ensures RelayBytes(p, t, rw, failed) ==
            if RelayLF(p).outcome.Running? then RelayBytes(RelayLF(p), rest, rw, failed) else RelayLF(p)
  {
    hide RelayLF;
    assert ContentLength(t) == 0 && t[..1] == "\n" && t[1..] == rest;
  }

  // ---------------------------------------------------------------- what reaches the client

  function Flat(ws: seq<string>): string { if ws == [] then "" else Flat(ws[..|ws| - 1]) + ws[|ws| - 1] }

  lemma {:induction false} FlatSnoc(ws: seq<string>, w: string)
    ensures Flat(ws + [w]) == Flat(ws) + w
  {
    assert (ws + [w])[..|ws|] == ws;
  }

  lemma {:induction false} LineUnchanged(line: string, rw: Rewriter)
    requires forall s :: rw.apply(s) == s
    ensures RewriteLine(line, rw) == line
  {
    if DataPayload(line).Some? { PayloadInPlace(line); }
  }

  /** `b` is `a` and a first part of `text`; all of it if `whole`. */
  ghost predicate Copied(a: string, b: string, text: string, whole: bool)
  {
    exists k :: 0 <= k <= |text| && b == a + text[..k] && (whole ==> k == |text|)
  }

  lemma {:induction false} NothingCopied(a: string, text: string)
    ensures Copied(a, a, text, false)
  {
    assert a == a + text[..0];
  }

  lemma {:induction false} CopiedThen(a: string, b: string, c: string, x: string, y: string, whole: bool)
    requires Copied(a, b, x, true) && Copied(b, c, y, whole)
    ensures Copied(a, c, x + y, whole)
  {
    var k :| 0 <= k <= |y| && c == b + y[..k] && (whole ==> k == |y|);
    assert x[..|x|] == x;
    assert a + x + y[..k] == a + (x + y)[..|x| + k];
  }

  lemma {:induction false} CopiedPart(a: string, b: string, x: string, y: string)
    requires Copied(a, b, x, false)
    ensures Copied(a, b, x + y, false)
  {
    var k :| 0 <= k <= |x| && b == a + x[..k];
    assert (x + y)[..k] == x[..k];
  }

  lemma {:induction false} WriteCopies(p: Pass, b: string)
    requires p.outcome.Running?
    ensures var q := WriteOut(p, b); Copied(Flat(p.writes), Flat(q.writes), b, q.outcome.Running?)
  {
    var n := if |b| <= p.room then |b| else p.room;
    FlatSnoc(p.writes, b[..n]);
    assert Flat(p.writes) + b[..0] == Flat(p.writes);
  }

  /** One line relayed unchanged: all of it, or a first part when the pass stops there. */
  lemma {:induction false} LineCopied(p: Pass, line: string, rw: Rewriter)
    requires p.outcome.Running? && forall s :: rw.apply(s) == s
    ensures var q := RelayLine(p, line, rw); Copied(Flat(p.writes), Flat(q.writes), line, q.outcome.Running?)
  {
    hide RewriteLine;
    hide Flat;
    hide Copied;
    LineUnchanged(line, rw);
    NothingCopied(Flat(p.writes), line);
    var q := RelayLine(p, line, rw);
    if !q.outcome.EventTooLarge? {
      var boundary := IsEventBoundary(line);
      var name := if boundary then None else if EventName(line).Some? then EventName(line) else p.eventName;
      var payload := DataPayload(line);
      var seen := p.observed + if payload.Some? then [(name, payload.value)] else [];
      WriteCopies(p.(pending := p.pending + if boundary then 0 else |line|, eventName := name, observed := seen), line);
    }
  }

  lemma {:induction false} StdLineCopied(p: Pass, l: Line, rw: Rewriter)
    requires p.outcome.Running? && (forall s :: rw.apply(s) == s) && (|l.term| <= 1 || l.term == "\r\n")
    ensures var q := RelayStdLine(p, l, rw); Copied(Flat(p.writes), Flat(q.writes), Raw(l), q.outcome.Running?)
  {
    hide RelayLine;
    hide Flat;
    hide Copied;
    var line := l.content + l.term[..if l.term == "" then 0 else 1];
    NothingCopied(Flat(p.writes), Raw(l));
    if |line| <= MAX_LINE_BYTES {
      LineCopied(p, line, rw);
      var q := RelayLine(p, line, rw);
      if l.term == "\r\n" {
        assert Raw(l) == line + "\n";
        if q.outcome.Running? {
          WriteCopies(q, "\n");
          var r := RelayLF(q);
          CopiedThen(Flat(p.writes), Flat(q.writes), Flat(r.writes), line, "\n", r.outcome.Running?);
        } else {
          CopiedPart(Flat(p.writes), Flat(q.writes), line, "\n");
        }
      } else {
        assert Raw(l) == line;
      }
    }
  }

  predicate StdTerms(ls: seq<Line>) { forall i :: 0 <= i < |ls| ==> |ls[i].term| <= 1 || ls[i].term == "\r\n" }

  predicate ReadToEnd(p: Pass) { p.outcome.Finished? || p.outcome.ReadFailed? }

  /** A relay that rewrites nothing copies: what reached the client is a first part of the stream,
      and all of it when the stream was read to its end. */
  lemma {:induction false} RelayCopies(p: Pass, ls: seq<Line>, rw: Rewriter, failed: bool)
    requires p.outcome.Running? && (forall s :: rw.apply(s) == s) && StdTerms(ls)
    ensures var q := RelayLines(p, ls, rw, failed); Copied(Flat(p.writes), Flat(q.writes), Unlines(ls), ReadToEnd(q))
    decreases |ls|
  {
    hide RelayStdLine;
    hide Flat;
    if ls == [] {
      assert Flat(p.writes) == Flat(p.writes) + ""[..0];
    } else {
      hide Copied;
      StdLineCopied(p, ls[0], rw);
      var q, raw, more := RelayStdLine(p, ls[0], rw), Raw(ls[0]), Unlines(ls[1..]);
      if q.outcome.Running? {
        RelayCopies(q, ls[1..], rw, failed);
        var r := RelayLines(q, ls[1..], rw, failed);
        CopiedThen(Flat(p.writes), Flat(q.writes), Flat(r.writes), raw, more, ReadToEnd(r));
      } else {
        CopiedPart(Flat(p.writes), Flat(q.writes), raw, more);
        LineNeverFinishes(p, ls[0], rw);
        StoppedStays(q, ls[1..], rw, failed);
      }
    }
  }

  lemma {:induction false} LineNeverFinishes(p: Pass, l: Line, rw: Rewriter)
    requires p.outcome.Running?
    ensures !RelayStdLine(p, l, rw).outcome.Finished? && !RelayStdLine(p, l, rw).outcome.ReadFailed?
  {
    hide RewriteLine;
  }

  lemma {:induction false} LinesHaveStdTerms(t: string)
    ensures StdTerms(Lines(t))
    decreases |t|
  {
    if t != "" {
      var n := ContentLength(t);
      LinesHaveStdTerms(t[n + |Terminator(t[n..])|..]);
    }
  }
}
