/** Strip paths as operators write them: ParseStripPath of internal/config/runtime.go.

    A path is accepted exactly when it is a spelling of an acceptable segment list: every segment
    bare or single-quoted (a quote inside doubled), dots between them.
 */
module StripPath {

  datatype PathError =
    | EmptySegment | Unterminated | MissingDot | StrayQuote | DoubleQuote | EmptyPath | TooDeep | Reserved

  datatype Parsed = Ok(segments: seq<string>) | Err(error: PathError)

  const MAX_STRIP_DEPTH := 8

  /** The members the proxy writes itself, bare and inside the response envelope. */
  const RESERVED: seq<seq<string>> :=
    [["model"], ["usage"], ["response", "model"], ["response", "usage"],
     ["usage", "completion_tokens_details", "reasoning_tokens"],
     ["usage", "output_tokens_details", "reasoning_tokens"],
     ["response", "usage", "completion_tokens_details", "reasoning_tokens"],
     ["response", "usage", "output_tokens_details", "reasoning_tokens"]]

  predicate ValidSegment(seg: string) { seg != "" && '"' !in seg }

  predicate Acceptable(segs: seq<string>)
  {
    0 < |segs| <= MAX_STRIP_DEPTH && (forall i :: 0 <= i < |segs| ==> ValidSegment(segs[i])) && segs !in RESERVED
  }

  // ---------------------------------------------------------------- spelling

  /** Quotes doubled. */
  function Doubled(seg: string): string
  {
    if seg == "" then "" else (if seg[0] == '\'' then "''" else [seg[0]]) + Doubled(seg[1..])
  }

  predicate BareWritable(seg: string) { '.' !in seg && '\'' !in seg }

  function Spell(seg: string, quoted: bool): string { if quoted then "'" + Doubled(seg) + "'" else seg }

  /** Each segment written bare or quoted, with dots between. */
  function Join(segs: seq<string>, quoted: seq<bool>): string
    requires |segs| == |quoted|
  {
    if segs == [] then ""
    else Spell(segs[0], quoted[0]) + if |segs| == 1 then "" else "." + Join(segs[1..], quoted[1..])
  }

  predicate Spelling(segs: seq<string>, quoted: seq<bool>)
  {
    && |segs| == |quoted| && (forall i :: 0 <= i < |segs| ==> ValidSegment(segs[i]))
    && (forall i :: 0 <= i < |segs| && !quoted[i] ==> BareWritable(segs[i]))
  }

  // ---------------------------------------------------------------- parsing, by suffix

  datatype Quoted = Open | Closed(seg: string, length: nat)

  /** From just inside the opening quote to just past the closing one. */
  function ReadQuoted(t: string): Quoted
  {
    if t == "" then Open
    else if t[0] == '\'' && !(|t| > 1 && t[1] == '\'') then Closed("", 1)
    else
      var k := if t[0] == '\'' then 2 else 1;
      var q := ReadQuoted(t[k..]);
      if q.Open? then Open else Closed([t[0]] + q.seg, q.length + k)
  }

  function BareLength(t: string): nat
  {
    if t == "" || t[0] == '.' || t[0] == '\'' then 0 else 1 + BareLength(t[1..])
  }

  lemma {:induction false} QuotedShape(t: string)
    ensures ReadQuoted(t).Closed? ==>
              ReadQuoted(t).length <= |t| && t[..ReadQuoted(t).length] == Doubled(ReadQuoted(t).seg) + "'"
    decreases |t|
  {
    if t != "" && !(t[0] == '\'' && !(|t| > 1 && t[1] == '\'')) {
      var k := if t[0] == '\'' then 2 else 1;
      QuotedShape(t[k..]);
      var q := ReadQuoted(t[k..]);
      if q.Closed? {
        var seg := [t[0]] + q.seg;
        assert seg[1..] == q.seg;
        assert t[..q.length + k] == t[..k] + t[k..][..q.length];
        assert t[..k] == if t[0] == '\'' then "''" else [t[0]];
      }
    }
  }

  lemma {:induction false} BareShape(t: string)
    ensures BareLength(t) <= |t| && BareWritable(t[..BareLength(t)])
    ensures BareLength(t) < |t| ==> t[BareLength(t)] == '.' || t[BareLength(t)] == '\''
    decreases |t|
  {
    if BareLength(t) > 0 {
      BareShape(t[1..]);
      assert t[..BareLength(t)] == [t[0]] + t[1..][..BareLength(t[1..])];
    }
  }

  function Prepend(seg: string, r: Parsed): Parsed { if r.Ok? then Ok([seg] + r.segments) else r }

  /** What follows a segment: nothing, or a dot and another segment. */
  function AfterSegment(seg: string, rest: string): Parsed
    decreases |rest|
  {
    if seg == "" then Err(EmptySegment)
    else if '"' in seg then Err(DoubleQuote)
    else if rest == "" then Ok([seg])
    else if rest[0] != '.' then Err(MissingDot)
    else if |rest| == 1 then Err(EmptySegment)
    else Prepend(seg, ParseSegments(rest[1..]))
  }

  function ParseSegments(t: string): Parsed
    decreases |t|, 1
  {
    if t == "" then Ok([])
    else if t[0] == '.' then Err(EmptySegment)
    else if t[0] == '\'' then
      QuotedShape(t[1..]);
      var q := ReadQuoted(t[1..]);
      if q.Open? then Err(Unterminated) else AfterSegment(q.seg, t[1 + q.length..])
    else
      BareShape(t);
      var n := BareLength(t);
      if n < |t| && t[n] == '\'' then Err(StrayQuote) else AfterSegment(t[..n], t[n..])
  }

  function ParsePath(s: string): Parsed
  {
    var r := ParseSegments(s);
    if r.Err? then r else CheckedPath(r.segments)
  }

  /** The checks on the path as a whole. */
  function CheckedPath(segs: seq<string>): Parsed
  {
    if |segs| == 0 then Err(EmptyPath)
    else if |segs| > MAX_STRIP_DEPTH then Err(TooDeep)
    else if segs in RESERVED then Err(Reserved)
    else Ok(segs)
  }

  // ---------------------------------------------------------------- the cursor loop

  function Joined(done: seq<string>, r: Parsed): Parsed { if r.Ok? then Ok(done + r.segments) else r }

  method ParseStripPath(s: string) returns (r: Parsed)
    ensures r == ParsePath(s)
  {
    hide ParseSegments;
    hide AfterSegment;
    hide CheckedPath;
    var segments: seq<string>, i := [], 0;
    assert s[0..] == s;
    while i < |s|
      invariant 0 <= i <= |s|
      invariant Joined(segments, ParseSegments(s[i..])) == ParseSegments(s)
    {
      var e := NextSegment(s, i);
      if e.Refused? {
        return Err(e.error);
      }
      var seg, end := e.seg, e.end;
      AfterSegmentCases(segments, seg, s[end..]);
      if seg == "" { return Err(EmptySegment); }
      if '"' in seg { return Err(DoubleQuote); }
      segments := segments + [seg];
      i := end;
      if i < |s| {
        if s[i] != '.' { return Err(MissingDot); }
        i := i + 1;
        if i == |s| { return Err(EmptySegment); }
        assert s[end..][1..] == s[i..];
      }
    }
    NothingLeft();
    assert s[i..] == "" && segments + [] == segments;
    r := CheckedPath(segments);
  }

  lemma {:induction false} NothingLeft() ensures ParseSegments("") == Ok([]) {}

  datatype Segment = Refused(error: PathError) | Read(seg: string, end: nat)

  /** One turn of the cursor: the segment that starts at `i`. */
  method NextSegment(s: string, i: nat) returns (e: Segment)
    requires i < |s|
    ensures e.Refused? ==> ParseSegments(s[i..]) == Err(e.error)
    ensures e.Read? ==> i < e.end <= |s| && ParseSegments(s[i..]) == AfterSegment(e.seg, s[e.end..])
  {
    hide AfterSegment;
    ghost var t := s[i..];
    if s[i] == '.' {
      return Refused(EmptySegment);
    }
    if s[i] == '\'' {
      assert t[1..] == s[i + 1..];
      var open, seg, end := QuotedSegment(s, i);
      if open { return Refused(Unterminated); }
      assert t[1 + (end - (i + 1))..] == s[end..];
      return Read(seg, end);
    }
    var end := i;
    while end < |s| && s[end] != '.' && s[end] != '\''
      invariant i <= end <= |s| && (end == i ==> s[i] != '.' && s[i] != '\'')
      invariant BareLength(t) == end - i + BareLength(s[end..])
    {
      assert s[end..][1..] == s[end + 1..];
      end := end + 1;
    }
    assert BareLength(t) == end - i;
    if end < |s| && s[end] == '\'' { return Refused(StrayQuote); }
    assert t[..end - i] == s[i..end] && t[end - i..] == s[end..];
    e := Read(s[i..end], end);
  }

  lemma {:induction false} AfterSegmentCases(done: seq<string>, seg: string, rest: string)
    ensures var r := AfterSegment(seg, rest);
            if seg == "" then r == Err(EmptySegment)
            else if '"' in seg then r == Err(DoubleQuote)
            else if rest == "" then Joined(done, r) == Joined(done + [seg], ParseSegments(rest))
            else if rest[0] != '.' then r == Err(MissingDot)
            else if |rest| == 1 then r == Err(EmptySegment)
            else Joined(done, r) == Joined(done + [seg], ParseSegments(rest[1..]))
  {
    if ValidSegment(seg) {
      if rest == "" {
        assert done + [seg] == (done + [seg]) + [];
      } else if rest[0] == '.' && |rest| > 1 {
        var r := ParseSegments(rest[1..]);
        hide ParseSegments;
        if r.Ok? { assert done + ([seg] + r.segments) == (done + [seg]) + r.segments; }
      }
    }
  }

  /** The builder loop of a quoted segment opening at `i`. */
  method QuotedSegment(s: string, i: nat) returns (open: bool, seg: string, end: nat)
    requires i < |s|
    ensures open <==> ReadQuoted(s[i + 1..]).Open?
    ensures !open ==> i < end <= |s| && ReadQuoted(s[i + 1..]) == Closed(seg, end - (i + 1))
  {
    hide ReadQuoted;
    var j := i + 1;
    seg, end := "", 0;
    NothingYet(s[j..]);
    while j < |s|
      invariant i + 1 <= j <= |s|
      invariant ReadQuoted(s[i + 1..]) == Extended(seg, j - (i + 1), ReadQuoted(s[j..]))
      decreases |s| - j
    {
      OneMore(s, j, seg, j - (i + 1));
      if s[j] == '\'' && !(j + 1 < |s| && s[j + 1] == '\'') {
        return false, seg, j + 1;
      }
      seg := seg + [s[j]];
      j := if s[j] == '\'' then j + 2 else j + 1;
    }
    open := true;
    assert s[j..] == "";
    NothingYet("");
  }

  lemma {:induction false} NothingYet(t: string)
    ensures Extended("", 0, ReadQuoted(t)) == ReadQuoted(t)
    ensures ReadQuoted("") == Open
  {
    var q := ReadQuoted(t);
    assert q.Closed? ==> "" + q.seg == q.seg;
  }

  /** One round of that loop. */
  lemma {:induction false} OneMore(s: string, j: nat, seg: string, n: nat)
    requires j < |s|
    ensures var ends := s[j] == '\'' && !(j + 1 < |s| && s[j + 1] == '\'');
            var k := if s[j] == '\'' then 2 else 1;
            if ends then Extended(seg, n, ReadQuoted(s[j..])) == Closed(seg, n + 1)
            else j + k <= |s| && Extended(seg, n, ReadQuoted(s[j..])) == Extended(seg + [s[j]], n + k, ReadQuoted(s[j + k..]))
  {
    var t := s[j..];
    var k := if s[j] == '\'' then 2 else 1;
    assert t[0] == s[j] && (|t| > 1 ==> t[1] == s[j + 1]);
    if s[j] == '\'' && !(j + 1 < |s| && s[j + 1] == '\'') {
      assert ReadQuoted(t) == Closed("", 1);
    } else {
      assert t[k..] == s[j + k..];
      var q := ReadQuoted(s[j + k..]);
      assert ReadQuoted(t) == if q.Open? then Open else Closed([t[0]] + q.seg, q.length + k);
      if q.Closed? { assert seg + ([s[j]] + q.seg) == seg + [s[j]] + q.seg; }
    }
  }

  function Extended(seg: string, n: nat, q: Quoted): Quoted { if q.Open? then Open else Closed(seg + q.seg, n + q.length) }

  // ---------------------------------------------------------------- accepted means spelled

  lemma {:induction false} ReadBack(seg: string, tail: string)
    requires tail == "" || tail[0] != '\''
    ensures ReadQuoted(Doubled(seg) + "'" + tail) == Closed(seg, |Doubled(seg)| + 1)
    decreases |seg|
  {
    var t := Doubled(seg) + "'" + tail;
    if seg == "" {
      assert t == "'" + tail;
    } else {
      var more := Doubled(seg[1..]) + "'" + tail;
      ReadBack(seg[1..], tail);
      assert [seg[0]] + seg[1..] == seg;
      if seg[0] == '\'' {
        assert t == "''" + more;
        assert t[2..] == more;
      } else {
        assert t == [seg[0]] + more;
        assert t[1..] == more;
      }
    }
  }

  lemma {:induction false} BareReadBack(seg: string, tail: string)
    requires BareWritable(seg) && (tail == "" || tail[0] == '.')
    ensures BareLength(seg + tail) == |seg|
    decreases |seg|
  {
    if seg == "" {
      assert seg + tail == tail;
    } else {
      assert (seg + tail)[1..] == seg[1..] + tail;
      BareReadBack(seg[1..], tail);
    }
  }

  /** A spelled segment in front of what may follow it. */
  lemma {:induction false} SpelledFirst(seg: string, quoted: bool, tail: string)
    requires seg != "" && (quoted || BareWritable(seg)) && (tail == "" || tail[0] == '.')
    ensures ParseSegments(Spell(seg, quoted) + tail) == AfterSegment(seg, tail)
  {
    hide AfterSegment;
    hide ReadQuoted;
    hide Doubled;
    hide BareLength;
    var t := Spell(seg, quoted) + tail;
    if quoted {
      assert t[0] == '\'';
      ReadBack(seg, tail);
      assert t[1..] == Doubled(seg) + "'" + tail;
      assert t[1 + |Doubled(seg)| + 1..] == tail;
    } else {
      BareReadBack(seg, tail);
      assert t[..|seg|] == seg && t[|seg|..] == tail;
    }
  }

  /** Every spelling of a segment list is parsed back to it. */
  lemma {:induction false} SpelledParses(segs: seq<string>, quoted: seq<bool>)
    requires Spelling(segs, quoted)
    ensures ParseSegments(Join(segs, quoted)) == Ok(segs)
    decreases |segs|
  {
    hide ParseSegments;
    hide Spell;
    if segs == [] {
      NothingLeft();
    } else {
      var seg, more := segs[0], |segs| > 1;
      var tail := if more then "." + Join(segs[1..], quoted[1..]) else "";
      assert Join(segs, quoted) == Spell(seg, quoted[0]) + tail;
      SpelledFirst(seg, quoted[0], tail);
      if more {
        SpelledParses(segs[1..], quoted[1..]);
        JoinNonempty(segs[1..], quoted[1..]);
        assert tail[1..] == Join(segs[1..], quoted[1..]);
        assert [seg] + segs[1..] == segs;
      } else {
        assert segs == [seg];
      }
    }
  }

  lemma {:induction false} JoinNonempty(segs: seq<string>, quoted: seq<bool>)
    requires Spelling(segs, quoted) && segs != []
    ensures Join(segs, quoted) != ""
  {}

  /** A text that parses starts with a spelled segment. */
  lemma {:induction false} FirstIsSpelled(t: string) returns (seg: string, quoted: bool, rest: string)
    requires t != "" && ParseSegments(t).Ok?
    ensures t == Spell(seg, quoted) + rest && |rest| < |t| && (quoted || BareWritable(seg))
    ensures ParseSegments(t) == AfterSegment(seg, rest)
  {
    hide AfterSegment;
    quoted := t[0] == '\'';
    if quoted {
      QuotedShape(t[1..]);
      var q := ReadQuoted(t[1..]);
      seg, rest := q.seg, t[1 + q.length..];
      assert t == [t[0]] + t[1..][..q.length] + rest;
    } else {
      BareShape(t);
      seg, rest := t[..BareLength(t)], t[BareLength(t)..];
    }
  }

  /** Whatever parses is a spelling of what it parses to. */
  lemma {:induction false} ParsedIsSpelled(t: string) returns (quoted: seq<bool>)
    requires ParseSegments(t).Ok?
    ensures Spelling(ParseSegments(t).segments, quoted) && Join(ParseSegments(t).segments, quoted) == t
    decreases |t|
  {
    hide ParseSegments;
    hide Spell;
    NothingLeft();
    if t == "" {
      quoted := [];
    } else {
      var seg, q, rest := FirstIsSpelled(t);
      var segs := ParseSegments(t).segments;
      if rest == "" {
        quoted := [q];
        assert segs == [seg] && t == Spell(seg, q) + "";
      } else {
        var more := ParsedIsSpelled(rest[1..]);
        quoted := [q] + more;
        var later := ParseSegments(rest[1..]).segments;
        assert segs == [seg] + later && segs[1..] == later && quoted[1..] == more;
        assert rest == "." + rest[1..];
        SomethingLeft(rest[1..]);
      }
    }
  }

  lemma {:induction false} SomethingLeft(t: string)
    requires t != "" && ParseSegments(t).Ok?
    ensures ParseSegments(t).segments != []
  {}

  /** ParseStripPath accepts exactly the spellings of acceptable segment lists, and returns the
      list that was spelled. */
  lemma {:induction false} AcceptedIffSpelled(s: string, segs: seq<string>)
    ensures ParsePath(s) == Ok(segs) <==>
            Acceptable(segs) && exists quoted :: Spelling(segs, quoted) && Join(segs, quoted) == s
  {
    if ParsePath(s) == Ok(segs) {
      var quoted := ParsedIsSpelled(s);
    }
    if Acceptable(segs) && exists quoted :: Spelling(segs, quoted) && Join(segs, quoted) == s {
      var quoted :| Spelling(segs, quoted) && Join(segs, quoted) == s;
      SpelledParses(segs, quoted);
    }
  }

  /** The members the proxy writes itself cannot be named. */
  lemma {:induction false} OwnMembersAreRefused(s: string, p: seq<string>)
    requires p in {["model"], ["usage"], ["response", "model"], ["response", "usage"],
                   ["usage", "completion_tokens_details", "reasoning_tokens"],
                   ["usage", "output_tokens_details", "reasoning_tokens"],
                   ["response", "usage", "completion_tokens_details", "reasoning_tokens"],
                   ["response", "usage", "output_tokens_details", "reasoning_tokens"]}
    ensures ParsePath(s) != Ok(p)
  {
    hide ParsePath;
    AcceptedIffSpelled(s, p);
    assert p in RESERVED by {
      assert RESERVED[0] in RESERVED && RESERVED[1] in RESERVED && RESERVED[2] in RESERVED && RESERVED[3] in RESERVED;
      assert RESERVED[4] in RESERVED && RESERVED[5] in RESERVED && RESERVED[6] in RESERVED && RESERVED[7] in RESERVED;
    }
  }
}
