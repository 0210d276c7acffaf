/** The model rename: internal/inject/rewrite.go.

    `RenameValue` is the rename on trees; the scanner's spans, spliced, render exactly that tree.
 */
module Model {
  import opened Json
  import opened OnlyAt
  import opened Edits
  import opened Scan
  import opened Walk
  import opened Patch

  // ---------------------------------------------------------------- the renamed tree

  /** In-scope string-valued "model" members take the public name; with `descend`, also those
      directly inside "response" objects.  Nothing else changes. */
  function RenameMembers(ms: Members, name: string, descend: bool): (r: Members)
    ensures r.Member? <==> ms.Member?
    decreases ms
  {
    if ms.NoMembers? then NoMembers
    else ms.(val := RenamedMember(ms, name, descend), rest := RenameMembers(ms.rest, name, descend))
  }

  function RenamedMember(ms: Members, name: string, descend: bool): Value
    requires ms.Member?
    decreases ms, 0
  {
    if ms.key == "model" && ms.val.Str? then Str(name)
    else if descend && ms.key == "response" && ms.val.Obj? then RenameValue(ms.val, name, false)
    else ms.val
  }

  function RenameValue(v: Value, name: string, descend: bool): Value
    decreases v
  {
    if v.Obj? then v.(members := RenameMembers(v.members, name, descend)) else v
  }

  function RenameDoc(d: Doc, name: string, descend: bool): Doc { d.(root := RenameValue(d.root, name, descend)) }

  // ---------------------------------------------------------------- the spans the scan collects

  function SpanEdits(ms: Members, pos: int, name: string, descend: bool): seq<Edit>
    decreases ms
  {
    if ms.NoMembers? then []
    else SpansInside(ms, pos, name, descend) + SpanEdits(ms.rest, Sep(ms, pos) + 1, name, descend)
  }

  function SpansInside(ms: Members, pos: int, name: string, descend: bool): seq<Edit>
    requires ms.Member?
    decreases ms, 0
  {
    if ms.key == "model" && ms.val.Str? then [Edit(ValStart(ms, pos), ValStop(ms, pos), Quote(name))]
    else if descend && ms.key == "response" && ms.val.Obj? then ObjectSpans(ms.val, ValStart(ms, pos), name, false)
    else []
  }

  function ObjectSpans(v: Value, pos: int, name: string, descend: bool): seq<Edit>
    decreases v
  {
    if v.Obj? then SpanEdits(v.members, pos + 1 + |v.open|, name, descend) else []
  }

  // ---------------------------------------------------------------- the scan

  /** scanModelSpans; each span is recorded with the quoted public name that will replace it. */
  method ScanModelSpans(body: string, start: nat, end: nat, name: string, descend: bool, acc: seq<Edit>,
                        ghost lead: string, ghost v: Value)
      returns (spans: seq<Edit>)
    requires At(body, start, lead) && Blank(lead) && At(body, start + |lead|, Render(v)) && WF(v)
    requires start + |lead| + |Render(v)| <= end <= |body|
    ensures spans == acc + ObjectSpans(v, start + |lead|, name, descend)
    decreases v
  {
    hide StringBody;
    hide SpanEdits;
    spans := acc;
    FirstByte(v);
    AtIndex(body, start + |lead|, Render(v), 0);
    var i := SkipWS(body, start);
    WhitespaceRunEnds(body, start, lead, i);
    if body[i] != '{' {
      assert acc + [] == acc;
      return;
    }
    StartOfObject(body, i, v);
    ghost var all := ObjectSpans(v, i, name, descend);
    ghost var rest, blanks := v.members, v.open;
    ghost var close := i + |Render(v)| - 1;
    NoMembersNoSpans(i + 1 + |v.open|, name, descend);
    NoMembersNoSpans(i + 1, name, descend);
    i := i + 1;
    var done := false;
    while !done
      invariant Ahead(body, i, close, blanks, rest) && close < end <= |body|
      invariant done ==> rest.NoMembers?
      invariant acc + all == spans + SpanEdits(rest, i, name, descend)
      invariant rest == v.members || rest < v.members
      decreases rest, !done
    {
      i, spans, done := ScanMember(body, i, end, name, descend, spans, close, blanks, rest);
      if rest.Member? {
        if rest.rest.NoMembers? { blanks := ""; }
        rest := rest.rest;
      }
    }
    NoMembersNoSpans(i, name, descend);
  }

  lemma {:induction false} NoMembersNoSpans(pos: int, name: string, descend: bool)
    ensures SpanEdits(NoMembers, pos, name, descend) == []
  {}

  method ScanMember(body: string, i: nat, end: nat, name: string, descend: bool, acc: seq<Edit>,
                    ghost close: int, ghost blanks: string, ghost ms: Members)
      returns (next: nat, spans: seq<Edit>, done: bool)
    requires Ahead(body, i, close, blanks, ms) && close < end <= |body|
    ensures done <==> ms.NoMembers?
    ensures done ==> next == i && spans == acc
    ensures !done ==>
              && Ahead(body, next, close, if ms.rest.Member? then blanks else "", ms.rest)
              && acc + SpanEdits(ms, i, name, descend) == spans + SpanEdits(ms.rest, next, name, descend)
    decreases ms
  {
    hide StringBody;
    hide At;
    hide SpanEdits;
    hide SpansInside;
    hide Render;
    hide WF;
    hide Quote;
    var keyStart, keyEnd, valStart;
    done, keyStart, keyEnd, valStart := ReadHeader(body, i, close, blanks, ms);
    if done {
      return i, acc, true;
    }
    AfterMember(body, i, close, blanks, ms);
    var valEnd;
    valEnd, spans := ScanMemberValue(body, i, end, name, descend, acc, keyStart, keyEnd, valStart, ms);
    SpansOfMember(ms, i, name, descend, acc);
    next := SkipWS(body, valEnd);
    SeparatorFound(body, i, ms, valEnd, next);
    if next < end && body[next] == ',' {
      next := next + 1;
    }
  }

  /** The switch in scanModelSpans: rename, descend or skip. */
  method ScanMemberValue(body: string, ghost i: nat, end: nat, name: string, descend: bool, acc: seq<Edit>,
                         keyStart: nat, keyEnd: nat, valStart: nat, ghost ms: Members)
      returns (valEnd: nat, spans: seq<Edit>)
    requires ms.Member? && MembersAt(body, i, ms) && WFMembers(ms) && valStart == ValStart(ms, i) < |body|
    requires keyStart <= keyEnd <= |body| && body[keyStart..keyEnd] == Quote(ms.key)
    requires Sep(ms, i) < end <= |body| && Delimiter(body[Sep(ms, i)])
    requires Render(ms.val) != "" && body[valStart] == Render(ms.val)[0]
    ensures valEnd == ValEnd(ms, i) || valEnd == ValStop(ms, i)
    ensures spans == acc + SpansInside(ms, i, name, descend)
    decreases ms, 0
  {
    hide StringBody;
    hide At;
    hide Render;
    hide WF;
    hide CloseFrom;
    hide Quote;
    hide ObjectSpans;
    FirstByte(ms.val);
    QuoteInjective(ms.key, "model");
    QuoteInjective(ms.key, "response");
    if IsKey(body, keyStart, keyEnd, "model") && body[valStart] == '"' {
      valEnd := StringValueEnd(body, valStart, ms.val);
      spans := acc + [Edit(valStart, valEnd, Quote(name))];
    } else if descend && IsKey(body, keyStart, keyEnd, "response") && body[valStart] == '{' {
      CollectionEndsAtItsBracket(body, valStart, end, ms.val);
      valEnd := CollectionEnd(body, valStart, end);
      EmptyAt(body, valStart);
      spans := ScanModelSpans(body, valStart, valEnd, name, false, acc, "", ms.val);
    } else {
      valEnd := SkipValue(body, valStart, end, ms.val, ms.after);
      spans := acc;
    }
  }

  method StringValueEnd(body: string, i: nat, ghost v: Value) returns (r: nat)
    requires v.Str? && WF(v) && At(body, i, Render(v))
    ensures r == i + |Render(v)|
  {
    QuotedEnds(body, i, v.raw);
    r := ValueEnd(body, i);
  }

  lemma {:induction false} SpansOfMember(ms: Members, i: int, name: string, descend: bool, acc: seq<Edit>)
    requires ms.Member?
    ensures var next := if ms.rest.Member? then Sep(ms, i) + 1 else Sep(ms, i);
            acc + SpanEdits(ms, i, name, descend) ==
            acc + SpansInside(ms, i, name, descend) + SpanEdits(ms.rest, next, name, descend)
  {
    hide SpansInside;
  }

  /** rewriteModel.  `name` is the public model name as a JSON string body (json.Marshal without
      its quotes), `valid` the answer of json.Valid. */
  method RewriteModel(body: string, valid: bool, name: string, nested: bool, ghost d: Doc) returns (out: string)
    requires valid <==> IsJson(body)
    requires valid ==> WFDoc(d) && RenderDoc(d) == body
    ensures out == if valid then RenderDoc(RenameDoc(d, name, nested)) else body
  {
    if !valid {
      return body;
    }
    DocAt(d);
    var spans := ScanModelSpans(body, 0, |body|, name, nested, [], d.lead, d.root);
    assert [] + ObjectSpans(d.root, |d.lead|, name, nested) == ObjectSpans(d.root, |d.lead|, name, nested);
    SplicedIsRenamed(d, name, nested);
    if |spans| == 0 {
      assert body[0..] == body;
      return body;
    }
    var r := Splice(body, spans);
    out := r.text;
  }

  // ---------------------------------------------------------------- the spans render the renamed tree

  lemma {:induction false} MembersRenamed(body: string, ms: Members, pos: nat, name: string, descend: bool)
    requires At(body, pos, RenderMembers(ms))
    ensures MembersEnd(ms, pos) <= |body| && Within(SpanEdits(ms, pos, name, descend), pos, MembersEnd(ms, pos))
    ensures Patched(body, pos, MembersEnd(ms, pos), SpanEdits(ms, pos, name, descend)) ==
            RenderMembers(RenameMembers(ms, name, descend))
    decreases ms
  {
    hide Within;
    hide Patched;
    hide At;
    hide SpansInside;
    hide RenamedMember;
    SliceAt(body, pos, RenderMembers(ms));
    if ms.NoMembers? {
      NoEdit(body, pos, pos);
    } else {
      hide RenderMembers;
      RenderedMembersAt(body, pos, ms);
      MembersEndStep(ms, pos);
      MemberRenamed(body, ms, pos, name, descend);
      var later := SpanEdits(ms.rest, Sep(ms, pos) + 1, name, descend);
      if ms.rest.Member? {
        MembersRenamed(body, ms.rest, Sep(ms, pos) + 1, name, descend);
      } else {
        NoMembersNoSpans(Sep(ms, pos) + 1, name, descend);
      }
      MemberPatched(body, pos, ms, SpansInside(ms, pos, name, descend), later,
                    RenamedMember(ms, name, descend), RenameMembers(ms.rest, name, descend));
    }
  }

  lemma {:induction false} MemberRenamed(body: string, ms: Members, pos: nat, name: string, descend: bool)
    requires ms.Member? && MembersAt(body, pos, ms) && ValStop(ms, pos) <= |body|
    ensures Within(SpansInside(ms, pos, name, descend), ValStart(ms, pos), ValStop(ms, pos))
    ensures Patched(body, ValStart(ms, pos), ValStop(ms, pos), SpansInside(ms, pos, name, descend)) ==
            Render(RenamedMember(ms, name, descend))
    decreases ms, 0
  {
    hide Within;
    hide Patched;
    hide ObjectSpans;
    hide At;
    var a, b := ValStart(ms, pos), ValStop(ms, pos);
    if ms.key == "model" && ms.val.Str? {
      OneEdit(body, Edit(a, b, Quote(name)), a, b);
      assert body[a..a] + Quote(name) + body[b..b] == Quote(name);
    } else if descend && ms.key == "response" && ms.val.Obj? {
      ObjectRenamed(body, ms.val, a, name, false);
    } else {
      SliceAt(body, a, Render(ms.val));
      NoEdit(body, a, b);
    }
  }

  lemma {:induction false} ObjectRenamed(body: string, v: Value, pos: nat, name: string, descend: bool)
    requires At(body, pos, Render(v))
    ensures pos + |Render(v)| <= |body| && Within(ObjectSpans(v, pos, name, descend), pos, pos + |Render(v)|)
    ensures Patched(body, pos, pos + |Render(v)|, ObjectSpans(v, pos, name, descend)) ==
            Render(RenameValue(v, name, descend))
    decreases v
  {
    hide Within;
    hide Patched;
    hide SpanEdits;
    hide RenderMembers;
    SliceAt(body, pos, Render(v));
    if v.Obj? {
      ThreePieces(body, pos, '{', v.open, RenderMembers(v.members), '}');
      MembersRenamed(body, v.members, pos + 1 + |v.open|, name, descend);
      ObjectPatched(body, pos, v, SpanEdits(v.members, pos + 1 + |v.open|, name, descend),
                    RenameMembers(v.members, name, descend));
    } else {
      NoEdit(body, pos, pos + |Render(v)|);
    }
  }

  lemma {:induction false} SplicedIsRenamed(d: Doc, name: string, descend: bool)
    ensures SpliceFrom(RenderDoc(d), 0, ObjectSpans(d.root, |d.lead|, name, descend)) ==
            Text(RenderDoc(RenameDoc(d, name, descend)))
  {
    hide Within;
    hide Patched;
    hide Render;
    DocAt(d);
    ObjectRenamed(RenderDoc(d), d.root, |d.lead|, name, descend);
    DocPatched(d, ObjectSpans(d.root, |d.lead|, name, descend), RenameValue(d.root, name, descend));
  }

  // ---------------------------------------------------------------- what the rename is

  /** Still a document. */
  lemma {:induction false} RenameKeepsWF(v: Value, name: string, descend: bool)
    requires WF(v) && StringBody(name)
    ensures WF(RenameValue(v, name, descend))
    decreases v
  {
    if v.Obj? { RenameKeepsMembersWF(v.members, name, descend); }
  }

  lemma {:induction false} RenameKeepsMembersWF(ms: Members, name: string, descend: bool)
    requires WFMembers(ms) && StringBody(name)
    ensures WFMembers(RenameMembers(ms, name, descend))
    decreases ms
  {
    hide StringBody;
    if ms.Member? {
      RenameKeepsMembersWF(ms.rest, name, descend);
      RenameKeepsWF(ms.val, name, false);
    }
  }

  /** A string takes the public name; nothing else is changed. */
  function Naming(name: string): Value -> Value { (v: Value) => if v.Str? then Str(name) else v }

  lemma {:induction false} RenamedInside(ms: Members, name: string, nested: bool)
    requires nested
    ensures MembersChangedOnlyAt(ms, RenameMembers(ms, name, false), ["response"], Owns("model", nested), Naming(name))
    decreases ms
  {
    hide Foreign;
    if ms.Member? {
      RenamedInside(ms.rest, name, nested);
      assert ["response"] + [ms.key] == ["response", ms.key];
      if ms.key != "model" {
        ForeignInside(ms.key, "model", nested);
        ForeignUnchanged(ms.val, ["response", ms.key], Owns("model", nested), Naming(name));
      }
    }
  }

  lemma {:induction false} RenamedAtTop(ms: Members, name: string, nested: bool)
    ensures MembersChangedOnlyAt(ms, RenameMembers(ms, name, nested), [], Owns("model", nested), Naming(name))
    decreases ms
  {
    hide Foreign;
    if ms.Member? {
      RenamedAtTop(ms.rest, name, nested);
      assert [] + [ms.key] == [ms.key];
      if ms.key != "model" {
        if nested && ms.key == "response" {
          assert !Owns("model", nested)(["response"]);
          if ms.val.Obj? { RenamedInside(ms.val.members, name, nested); }
          assert ChangedOnlyAt(ms.val, RenameValue(ms.val, name, false), ["response"], Owns("model", nested), Naming(name));
        } else {
          ForeignKey(ms.key, "model", nested);
          ForeignUnchanged(ms.val, [ms.key], Owns("model", nested), Naming(name));
        }
      }
    }
  }

  /** The rename changes the string values at "model", and with the envelope at "response.model", to
      the public name, and not a byte of anything else. */
  lemma {:induction false} RenameChangesOnlyModel(d: Doc, name: string, nested: bool)
    ensures ChangedOnlyAt(d.root, RenameDoc(d, name, nested).root, [], Owns("model", nested), Naming(name))
    ensures RenameDoc(d, name, nested).lead == d.lead && RenameDoc(d, name, nested).trail == d.trail
  {
    if d.root.Obj? { RenamedAtTop(d.root.members, name, nested); }
  }

  /** Renaming twice is renaming once, and the second name wins. */
  lemma {:induction false} RenameTwice(v: Value, name: string, other: string, descend: bool)
    ensures RenameValue(RenameValue(v, other, descend), name, descend) == RenameValue(v, name, descend)
    decreases v
  {
    if v.Obj? { RenameMembersTwice(v.members, name, other, descend); }
  }

  lemma {:induction false} RenameMembersTwice(ms: Members, name: string, other: string, descend: bool)
    ensures RenameMembers(RenameMembers(ms, other, descend), name, descend) == RenameMembers(ms, name, descend)
    decreases ms
  {
    if ms.Member? {
      RenameMembersTwice(ms.rest, name, other, descend);
      RenameTwice(ms.val, name, other, false);
    }
  }
}
