/** How a client reads an event stream: WHATWG HTML sections 9.2.5 and 9.2.6, byte by byte. */
module EventStream {
  import opened Sse

  datatype Event = Event(kind: string, data: string, id: string)

  /** The buffers of section 9.2.6, the last event ID string and the reconnection time they set, and
      the events dispatched so far. */
  datatype Client = Client(data: string, kind: string, id: string, lastId: string, retry: string, fired: seq<Event>)

  /** A client in the middle of a stream: the line read so far, and whether the last byte was a
      CR whose LF, should it follow, belongs to it. */
  datatype Parser = Parser(line: string, afterCR: bool, client: Client)

  const FRESH := Parser("", false, Client("", "", "", "", "", []))

  function ColonAt(line: string): (i: nat)
    ensures i <= |line|
  {
    if line == "" || line[0] == ':' then 0 else 1 + ColonAt(line[1..])
  }

  function Dispatch(c: Client): Client
  {
    if c.data == "" then c.(kind := "", lastId := c.id)
    else c.(data := "", kind := "", lastId := c.id, fired := c.fired + [Event(c.kind, c.data[..|c.data| - 1], c.id)])
  }

  function Field(c: Client, name: string, value: string): Client
  {
    if name == "event" then c.(kind := value)
    else if name == "data" then c.(data := c.data + value + "\n")
    else if name == "id" && '\0' !in value then c.(id := value)
    else if name == "retry" && value != "" && (forall i :: 0 <= i < |value| ==> '0' <= value[i] <= '9') then c.(retry := value)
    else c
  }

  /** One complete line. */
  function TakeLine(c: Client, line: string): Client
  {
    if line == "" then Dispatch(c)
    else if line[0] == ':' then c
    else
      var i := ColonAt(line);
      if i == |line| then Field(c, line, "")
      else
        var v := line[i + 1..];
        Field(c, line[..i], if v != "" && v[0] == ' ' then v[1..] else v)
  }

  function TakeByte(p: Parser, b: char): Parser
  {
    if b == '\n' && p.afterCR then p.(afterCR := false)
    else if IsBreak(b) then Parser("", b == '\r', TakeLine(p.client, p.line))
    else Parser(p.line + [b], false, p.client)
  }

  function Take(p: Parser, s: string): Parser
  {
    if s == "" then p else TakeByte(Take(p, s[..|s| - 1]), s[|s| - 1])
  }

  lemma {:induction false} TakeConcat(p: Parser, a: string, b: string)
    ensures Take(p, a + b) == Take(Take(p, a), b)
    decreases |b|
  {
    if b == "" {
      assert a + b == a;
    } else {
      var n := |b| - 1;
      assert (a + b)[..|a + b| - 1] == a + b[..n];
      TakeConcat(p, a, b[..n]);
    }
  }

  /** Nothing is buffered that a blank line would dispatch, clear or adopt. */
  predicate Quiet(c: Client) { c.data == "" && c.kind == "" && c.lastId == c.id }

  /** Between events: nothing buffered, no line begun. */
  predicate Idle(p: Parser) { p.line == "" && !p.afterCR && Quiet(p.client) }

  // ---------------------------------------------------------------- the byte order mark

  /** EF BB BF; one at the very start of a stream is not part of it. */
  const BOM := "\U{EF}\U{BB}\U{BF}"

  function Unbom(t: string): string { if BOM <= t then t[3..] else t }

  /** What is to come can no longer complete a byte order mark. */
  predicate Settled(t: string) { !(t <= BOM) || t == BOM }

  lemma {:induction false} UnbomMore(t: string, more: string)
    requires Settled(t)
    ensures Unbom(t + more) == Unbom(t) + more && Settled(t + more)
  {
    var all := t + more;
    assert BOM <= t ==> BOM <= all && all[3..] == t[3..] + more;
    assert |t| <= 3 && BOM <= all ==> t == all[..|t|] == BOM[..|t|];
    assert |t| >= 3 && BOM <= all ==> t[..3] == all[..3] == BOM;
  }

  lemma {:induction false} BrokenIsSettled(t: string, i: nat)
    requires i < |t| && IsBreak(t[i])
    ensures Settled(t)
  {
    assert |BOM| == 3 && forall k :: 0 <= k < 3 ==> !IsBreak(BOM[k]);
  }

  lemma {:induction false} TakeContent(p: Parser, s: string)
    requires forall i :: 0 <= i < |s| ==> !IsBreak(s[i])
    ensures s != "" ==> Take(p, s) == Parser(p.line + s, false, p.client)
    decreases |s|
  {
    if s != "" {
      var n := |s| - 1;
      TakeContent(p, s[..n]);
      assert p.line + s == p.line + s[..n] + [s[n]];
    }
  }

  lemma {:induction false} TakeSnoc(p: Parser, s: string, b: char)
    ensures Take(p, s + [b]) == TakeByte(Take(p, s), b)
  {
    hide TakeByte;
    assert (s + [b])[..|s|] == s;
  }

  /** A content and its break, from the start of a line. */
  lemma {:induction false} TakePiece(p: Parser, content: string, b: char)
    requires p.line == "" && IsBreak(b) && (forall i :: 0 <= i < |content| ==> !IsBreak(content[i]))
    requires content == "" && b == '\n' ==> !p.afterCR
    ensures Take(p, content + [b]) == Parser("", b == '\r', TakeLine(p.client, content))
  {
    hide TakeLine;
    hide Take;
    TakeSnoc(p, content, b);
    if content == "" {
      TakeNothing(p);
    } else {
      TakeContent(p, content);
      assert "" + content == content;
    }
  }

  lemma {:induction false} TakeNothing(p: Parser) ensures Take(p, "") == p {}

  const PING := ": ping\n\n"

  /** A ping between events leaves no trace. */
  lemma {:induction false} PingIsInert(p: Parser)
    requires Idle(p)
    ensures Take(p, PING) == p
  {
    assert PING == ": ping\n" + "\n" && ": ping\n" == ": ping" + ['\n'] && "\n" == "" + ['\n'];
    TakeConcat(p, ": ping\n", "\n");
    TakePiece(p, ": ping", '\n');
    TakePiece(Take(p, ": ping\n"), "", '\n');
  }

  /** A ping inside an event shows: whatever data or name was buffered is gone, or dispatched early. */
  lemma {:induction false} PingElsewhereShows(p: Parser)
    requires p.line == "" && !p.afterCR && !Idle(p)
    ensures Take(p, PING) != p
  {
    assert PING == ": ping\n" + "\n" && ": ping\n" == ": ping" + ['\n'] && "\n" == "" + ['\n'];
    TakeConcat(p, ": ping\n", "\n");
    TakePiece(p, ": ping", '\n');
    TakePiece(Take(p, ": ping\n"), "", '\n');
  }

  function TakeLines(c: Client, ls: seq<Line>): Client
    decreases ls
  {
    if ls == [] then c else TakeLines(TakeLine(c, ls[0].content), ls[1..])
  }

  /** A whole stream is read as its lines, the byte order mark left out. */
  lemma {:induction false} StreamIsItsLines(t: string)
    requires t == "" || IsBreak(t[|t| - 1])
    ensures Take(FRESH, Unbom(t)).client == TakeLines(FRESH.client, Lines(Unbom(t)))
  {
    hide Take;
    hide TakeLines;
    hide Lines;
    BytesAreLines(FRESH, Unbom(t));
  }

  /** Read byte by byte, a stream whose last line is complete is read as its lines. */
  lemma {:induction false} BytesAreLines(p: Parser, t: string)
    requires p.line == "" && (p.afterCR ==> t == "" || t[0] != '\n') && (t == "" || IsBreak(t[|t| - 1]))
    ensures Take(p, t).client == TakeLines(p.client, Lines(t))
    decreases |t|
  {
    hide Take;
    hide Lines;
    hide Terminator;
    hide TakeLine;
    hide ContentLength;
    if t == "" {
      TakeNothing(p);
      NoLines();
    } else {
      var n := ContentLength(t);
      var term := Terminator(t[n..]);
      LinesCons(t);
      var rest := t[n + |term|..];
      FirstTaken(p.client, Line(t[..n], term), Lines(rest));
      OneLineTaken(p, t);
      BytesAreLines(Parser("", term == "\r", TakeLine(p.client, t[..n])), rest);
    }
  }

  lemma {:induction false} TermIs(t: string)
    requires t != "" && IsBreak(t[|t| - 1])
    ensures var n := ContentLength(t);
            var term := Terminator(t[n..]);
            && n < |t| && IsBreak(t[n]) && (term == "\r\n" || term == [t[n]]) && (term == "\r" <==> term != "\r\n" && t[n] == '\r')
            && (term == "\r\n" ==> t[n] == '\r')
  {
    hide ContentLength;
    var n := ContentLength(t);
    if n < |t| { assert t[n..][0] == t[n] && t[n..][..1] == [t[n]]; }
  }

  lemma {:induction false} OneLineTaken(p: Parser, t: string)
    requires p.line == "" && (p.afterCR && t != "" ==> t[0] != '\n') && t != "" && IsBreak(t[|t| - 1])
    ensures var n := ContentLength(t);
            var term := Terminator(t[n..]);
            var rest, q := t[n + |term|..], Parser("", term == "\r", TakeLine(p.client, t[..n]));
            && Take(p, t) == Take(q, rest) && (q.afterCR ==> rest == "" || rest[0] != '\n')
            && (rest == "" || IsBreak(rest[|rest| - 1]))
  {
    hide Take;
    hide TakeLine;
    hide ContentLength;
    hide Terminator;
    hide LineLength;
    hide IsBreak;
    var n := ContentLength(t);
    var term := Terminator(t[n..]);
    TerminatorKinds(t);
    TermIs(t);
    HeadTaken(p, t, n);
    if term == "\r\n" {
      var q := Parser("", true, TakeLine(p.client, t[..n]));
      TakeConcat(q, "\n", t[n + 2..]);
      GluedTaken(q);
    }
  }

  lemma {:induction false} HeadTaken(p: Parser, t: string, n: nat)
    requires p.line == "" && n < |t| && IsBreak(t[n]) && (forall i :: 0 <= i < n ==> !IsBreak(t[i]))
    requires n == 0 && t[n] == '\n' ==> !p.afterCR
    ensures Take(p, t) == Take(Parser("", t[n] == '\r', TakeLine(p.client, t[..n])), t[n + 1..])
  {
    hide Take;
    hide TakeLine;
    hide IsBreak;
    var head := t[..n] + [t[n]];
    assert t == head + t[n + 1..];
    TakeConcat(p, head, t[n + 1..]);
    TakePiece(p, t[..n], t[n]);
  }

  /** The LF of a CRLF. */
  lemma {:induction false} GluedTaken(p: Parser)
    requires p.afterCR
    ensures Take(p, "\n") == p.(afterCR := false)
  {
    TakeSnoc(p, "", '\n');
    assert "" + ['\n'] == "\n";
    TakeNothing(p);
  }

  lemma {:induction false} NoLines() ensures Lines("") == [] {}

  lemma {:induction false} FirstTaken(c: Client, l: Line, rest: seq<Line>)
    ensures TakeLines(c, [l] + rest) == TakeLines(TakeLine(c, l.content), rest)
  {
    assert ([l] + rest)[1..] == rest;
  }
}
