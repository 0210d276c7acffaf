/** What CopySSE shows its observer, against the client of the standard: internal/proxy/sse.go.

    The relay finds names and payloads by its own prefix tests.  The client of section 9.2.6 of the
    WHATWG HTML standard processes fields.  The two are proved to agree. */
module Observer {
  import opened Wrappers
  import opened Sse
  import opened EventStream
  import opened Heartbeat
  import opened SseRuns

  // ---------------------------------------------------------------- one line

  lemma {:induction false} ColonAfter(name: string, line: string)
    requires name + ":" <= line && ':' !in name
    ensures ColonAt(line) == |name|
    decreases |name|
  {
    if name != "" {
      assert line[0] == (name + ":")[0] == name[0] && name[0] in name;
      assert name[1..] + ":" == (name + ":")[1..];
      assert forall c :: c in name[1..] ==> c in name;
      ColonAfter(name[1..], line[1..]);
    } else {
      assert line[0] == (name + ":")[0];
    }
  }

  /** A line with that field and a colon is one the client takes as that field. */
  lemma {:induction false} FieldIsTaken(c: Client, line: string, name: string)
    requires NoBreaks(line) && name != "" && ':' !in name && name + ":" <= line
    ensures FieldValue(line, name + ":").Some? && TakeLine(c, line) == Field(c, name, FieldValue(line, name + ":").value)
  {
    hide Field;
    ColonAfter(name, line);
    assert line[0] == (name + ":")[0] == name[0] && name[0] in name;
    assert line[..|name|] == (name + ":")[..|name|] == name;
    ContentIs(line);
  }

  lemma {:induction false} FieldIsNot(line: string, field: string)
    requires NoBreaks(line)
    ensures FieldValue(line, field).Some? <==> field <= line
  {
    ContentIs(line);
  }

  /** A line that is not blank and does not start with the field and a colon is that field for the
      client only when it is the bare name. */
  lemma {:induction false} FieldNameIs(line: string, name: string)
    requires line != "" && name != "" && ':' !in name && !(name + ":" <= line)
    ensures ColonAt(line) < |line| ==> line[..ColonAt(line)] != name
  {
    var i := ColonAt(line);
    ColonIsThere(line);
    assert i < |line| ==> line[..i] + ":" == line[..i + 1];
  }

  lemma {:induction false} ColonIsThere(line: string)
    ensures ColonAt(line) < |line| ==> line[ColonAt(line)] == ':'
    decreases |line|
  {
    if line != "" && line[0] != ':' { ColonIsThere(line[1..]); }
  }

  /** The payload the relay reads off a line is what the line adds to the client's data, and the name
      what it sets the client's event type to.  Only a bare field name is a field for the client alone. */
  lemma {:induction false} LineIsReadAsTaken(c: Client, line: string)
    requires NoBreaks(line) && line != ""
    ensures TakeLine(c, line).data ==
            c.data + (if DataPayload(line).Some? then DataPayload(line).value + "\n" else if line == "data" then "\n" else "")
    ensures TakeLine(c, line).kind == if EventName(line).Some? then EventName(line).value else if line == "event" then "" else c.kind
  {
    hide Content;
    FieldIsNot(line, "data:");
    FieldIsNot(line, "event:");
    assert "data" + ":" == "data:" && "event" + ":" == "event:";
    if "data:" <= line {
      FieldIsTaken(c, line, "data");
      assert line[0] == "data:"[0] && "event:"[0] != "data:"[0];
      assert c.data + DataPayload(line).value + "\n" == c.data + (DataPayload(line).value + "\n");
    } else if "event:" <= line {
      FieldIsTaken(c, line, "event");
      assert line[0] == "event:"[0] && c.data + "" == c.data;
    } else {
      NeitherField(c, line);
    }
  }

  lemma {:induction false} NeitherField(c: Client, line: string)
    requires line != "" && !("data:" <= line) && !("event:" <= line)
    ensures TakeLine(c, line).data == c.data + (if line == "data" then "\n" else "")
    ensures TakeLine(c, line).kind == if line == "event" then "" else c.kind
  {
    assert "data" + ":" == "data:" && "event" + ":" == "event:";
    FieldNameIs(line, "data");
    FieldNameIs(line, "event");
    assert c.data + "" == c.data;
    if line == "data" { NoColon("data"); assert c.data + "" + "\n" == c.data + "\n"; }
    if line == "event" { NoColon("event"); }
  }

  lemma {:induction false} NoColon(s: string)
    requires ':' !in s
    ensures ColonAt(s) == |s| && (s != "" ==> s[0] != ':')
    decreases |s|
  {
    if s != "" {
      assert s[0] in s;
      assert forall c :: c in s[1..] ==> c in s;
      NoColon(s[1..]);
    }
  }

  // ---------------------------------------------------------------- a rewritten line

  /** The value survives being put behind a separator, or behind the bare colon when it starts with no space. */
  predicate Carried(line: string, v: string) { NoBreaks(v) && ("data: " <= line || v == "" || v[0] != ' ') }

  lemma {:induction false} PayloadReadBack(line: string, v: string)
    requires NoBreaks(line) && DataPayload(line).Some? && Carried(line, v)
    ensures var out := WithPayload(line, v); NoBreaks(out) && "data:" <= out && DataPayload(out) == Some(v)
  {
    ContentIs(line);
    var p, out := DataPayload(line).value, WithPayload(line, v);
    var head := line[..|line| - |p|];
    assert line[|line|..] == "" && out == head + v;
    assert "data:" <= line;
    assert head == (if "data: " <= line then "data: " else "data:");
    assert NoBreaks(out);
    ContentIs(out);
    assert out[..5] == "data:" && out[5..] == (if "data: " <= line then " " + v else v);
  }

  /** The client of a rewritten stream takes a data line for exactly the rewritten payload. */
  lemma {:induction false} ClientTakesTheRewritten(c: Client, line: string, rw: Rewriter)
    requires NoBreaks(line) && DataPayload(line).Some? && Carried(line, rw.apply(DataPayload(line).value))
    ensures var p := DataPayload(line).value;
            TakeLine(c, RewriteLine(line, rw)) ==
            c.(data := c.data + (if GateOpen(p, rw.stripKeys) then rw.apply(p) else p) + "\n")
  {
    hide GateOpen;
    hide TakeLine;
    hide WithPayload;
    hide Content;
    hide Carried;
    var p := DataPayload(line).value;
    FieldIsNot(line, "data:");
    assert "data" + ":" == "data:";
    if GateOpen(p, rw.stripKeys) {
      PayloadReadBack(line, rw.apply(p));
      FieldIsTaken(c, RewriteLine(line, rw), "data");
    } else {
      FieldIsTaken(c, line, "data");
    }
  }

  // ---------------------------------------------------------------- a whole stream

  /** The event type and the data each line adds, as the client has them. */
  function ClientView(c: Client, ls: seq<Line>): seq<(string, string)>
    decreases |ls|
  {
    if ls == [] then []
    else
      var d := TakeLine(c, ls[0].content);
      (if ls[0].content != "" && |d.data| > |c.data| && c.data <= d.data then [(d.kind, d.data[|c.data|..])] else [])
      + ClientView(d, ls[1..])
  }

  /** An observation in the client's terms: no name is the empty type, and data ends in a line feed. */
  function AsClientSees(o: (Option<string>, string)): (string, string)
  {
    (if o.0.Some? then o.0.value else "", o.1 + "\n")
  }

  function AllAsClientSees(os: seq<(Option<string>, string)>): (r: seq<(string, string)>)
    ensures |r| == |os| && forall i :: 0 <= i < |r| ==> r[i] == AsClientSees(os[i])
  {
    seq(|os|, i requires 0 <= i < |os| => AsClientSees(os[i]))
  }

  /** No line is a bare field name. */
  predicate NoBareFields(ls: seq<Line>) { forall i :: 0 <= i < |ls| ==> ls[i].content != "data" && ls[i].content != "event" }

  /** The observer is shown, in order, exactly what each line adds to the client's data, with the
      event type the client has at that line. */
  lemma {:induction false} ObservationsAreTheClients(c: Client, name: Option<string>, ls: seq<Line>)
    requires StdLines(ls) && NoBareFields(ls) && c.kind == (if name.Some? then name.value else "")
    ensures AllAsClientSees(Observations(name, ls)) == ClientView(c, ls)
    decreases |ls|
  {
    hide TakeLine;
    hide DataPayload;
    hide EventName;
    if ls != [] {
      var l, rest := ls[0], ls[1..];
      SuffixStd(ls);
      var d, now := TakeLine(c, l.content), NameAfter(name, l);
      if l.content == "" {
        BlankLineTaken(c);
      } else {
        LineIsReadAsTaken(c, l.content);
        var payload := DataPayload(l.content);
        assert payload.Some? ==> d.data[|c.data|..] == payload.value + "\n";
        assert payload.None? ==> d.data == c.data;
      }
      ObservationsAreTheClients(d, now, rest);
      var here := if DataPayload(l.content).Some? then [(now, DataPayload(l.content).value)] else [];
      assert AllAsClientSees(here + Observations(now, rest)) == AllAsClientSees(here) + AllAsClientSees(Observations(now, rest));
    }
  }

  lemma {:induction false} BlankLineTaken(c: Client)
    ensures TakeLine(c, "").kind == "" && DataPayload("").None?
  {
    ContentIs("");
  }

  /** CopySSE on a body read to its end shows its observer what the client of the standard makes of
      that body's lines, whatever the reads. */
  method ObservedAsTheClient(body: string, sizes: seq<nat>, failed: bool, rw: Rewriter, room: nat) returns (p: Pass)
    requires NoBareFields(Lines(body))
    ensures ReadToEnd(p) ==> AllAsClientSees(p.observed) == ClientView(FRESH.client, Lines(body))
  {
    hide Lines;
    hide ClientView;
    hide Observations;
    hide NoBareFields;
    hide StdLines;
    p := CopyObserves(body, sizes, failed, rw, room);
    LinesAreStandard(body);
    ObservationsAreTheClients(FRESH.client, None, Lines(body));
  }

  /** The three lines after which nothing may follow. */
  lemma {:induction false} TerminalMarkersAre(l: Line)
    requires StdLine(l)
    ensures IsTerminalLine(Head(l)) <==>
            l.content == "data: [DONE]" || l.content == "event: response.completed" || l.content == "event: message_stop"
  {
    HeadReads(l);
  }
}
