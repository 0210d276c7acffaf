/** Excising configured members from a response body: internal/inject/strip.go.

    `StripObject` is the source's one walk over a text; it records removal edits by index.
    `MemberEdits` is what it records, `StripValue` is what the document should become, and the
    theorems connect the two: exactly when no object ends in a run of excised members with a gap
    inside it, splicing the coalesced edits renders the stripped tree; otherwise splice panics.
 */
module Strip {
  import opened Json
  import opened Edits
  import opened Scan
  import opened Walk

  /** What applies inside one object: the paths, how many segments are already behind them, and
      whether the single descent into a "response" object is still available. */
  datatype Scope = Scope(paths: seq<seq<string>>, depth: nat, descend: bool)

  // ---------------------------------------------------------------- which members

  /** Some path ends at this key. */
  predicate Excised(key: string, sc: Scope)
  {
    exists i :: 0 <= i < |sc.paths| && |sc.paths[i]| == sc.depth + 1 && sc.paths[i][sc.depth] == key
  }

  predicate GoesThrough(p: seq<string>, key: string, depth: nat) { |p| > depth + 1 && p[depth] == key }

  /** The paths that continue below this key, in list order. */
  function Through(key: string, paths: seq<seq<string>>, depth: nat): seq<seq<string>>
  {
    if paths == [] then []
    else
      var n := |paths| - 1;
      Through(key, paths[..n], depth) + if GoesThrough(paths[n], key, depth) then [paths[n]] else []
  }

  predicate Envelope(key: string, sc: Scope) { sc.descend && key == "response" }

  method MatchKey(body: string, keyStart: nat, keyEnd: nat, sc: Scope, ghost key: string)
      returns (excise: bool, recurse: seq<seq<string>>)
    requires keyStart <= keyEnd <= |body| && body[keyStart..keyEnd] == Quote(key)
    ensures excise == Excised(key, sc)
    ensures recurse == Through(key, sc.paths, sc.depth)
  {
    excise, recurse := false, [];
    for i := 0 to |sc.paths|
      invariant excise <==> exists k :: 0 <= k < i && |sc.paths[k]| == sc.depth + 1 && sc.paths[k][sc.depth] == key
      invariant recurse == Through(key, sc.paths[..i], sc.depth)
    {
      var p := sc.paths[i];
      assert sc.paths[..i + 1][..i] == sc.paths[..i];
      if sc.depth < |p| {
        var hit := IsKey(body, keyStart, keyEnd, p[sc.depth]);
        QuoteInjective(key, p[sc.depth]);
        if hit {
          if sc.depth == |p| - 1 {
            excise := true;
          } else {
            recurse := recurse + [p];
          }
        }
      }
    }
    assert sc.paths[..|sc.paths|] == sc.paths;
  }

  // ---------------------------------------------------------------- the edits the walk records

  /** The removal recorded for an excised member; `prev` is the end of the last survivor, or -1. */
  function Removal(ms: Members, pos: int, prev: int): Edit
    requires ms.Member?
  {
    if ms.rest.Member? then Edit(KeyStart(ms, pos), Sep(ms, pos) + 1, "")
    else if prev < 0 then Edit(KeyStart(ms, pos), ValEnd(ms, pos), "")
    else Edit(prev, ValEnd(ms, pos), "")
  }

  function MemberEdits(ms: Members, pos: int, prev: int, sc: Scope): seq<Edit>
    decreases ms, 1
  {
    if ms.NoMembers? then []
    else if Excised(ms.key, sc) then
      [Removal(ms, pos, prev)] + MemberEdits(ms.rest, Sep(ms, pos) + 1, prev, sc)
    else
      InnerEdits(ms, pos, sc) + MemberEdits(ms.rest, Sep(ms, pos) + 1, ValEnd(ms, pos), sc)
  }

  /** The edits inside a surviving member's value. */
  function InnerEdits(ms: Members, pos: int, sc: Scope): seq<Edit>
    requires ms.Member?
    decreases ms, 0
  {
    if !ms.val.Obj? then []
    else
      var through := Through(ms.key, sc.paths, sc.depth);
      (if through != [] then ObjectEdits(ms.val, ValStart(ms, pos), Scope(through, sc.depth + 1, false)) else [])
      + (if Envelope(ms.key, sc) then ObjectEdits(ms.val, ValStart(ms, pos), Scope(sc.paths, 0, false)) else [])
  }

  function ObjectEdits(v: Value, pos: int, sc: Scope): seq<Edit>
    decreases v
  {
    if v.Obj? then MemberEdits(v.members, pos + 1 + |v.open|, -1, sc) else []
  }


  // ---------------------------------------------------------------- the walk

  /** stripObject: the edits of one object region, appended to those recorded so far. */
  method StripObject(body: string, start: nat, end: nat, sc: Scope, acc: seq<Edit>,
                     ghost lead: string, ghost v: Value)
      returns (edits: seq<Edit>)
    requires At(body, start, lead) && Blank(lead) && At(body, start + |lead|, Render(v)) && WF(v)
    requires start + |lead| + |Render(v)| <= end <= |body|
    ensures edits == acc + ObjectEdits(v, start + |lead|, sc)
    decreases v
  {
    hide StringBody;
    hide MemberEdits;
    hide Render;
    hide RenderMembers;
    hide At;
    edits := acc;
    FirstByte(v);
    AtIndex(body, start + |lead|, Render(v), 0);
    var i := SkipWS(body, start);
    WhitespaceRunEnds(body, start, lead, i);
    if body[i] != '{' {
      assert acc + [] == acc;
      return;
    }
    StartOfObject(body, i, v);
    ghost var all := ObjectEdits(v, i, sc);
    ghost var rest, blanks := v.members, v.open;
    ghost var close := i + |Render(v)| - 1;
    NoMembersNoEdits(i + 1 + |v.open|, -1, sc);
    NoMembersNoEdits(i + 1, -1, sc);
    i := i + 1;
    var prevEnd := -1;
    var done := false;
    while !done
      invariant Ahead(body, i, close, blanks, rest) && close < end <= |body|
      invariant done ==> rest.NoMembers?
      invariant -1 <= prevEnd
      invariant acc + all == edits + MemberEdits(rest, i, prevEnd, sc)
      invariant rest == v.members || rest < v.members
      decreases rest, !done
    {
      i, prevEnd, edits, done := StripMember(body, i, end, sc, prevEnd, edits, close, blanks, rest);
      if rest.Member? {
        if rest.rest.NoMembers? { blanks := ""; }
        rest := rest.rest;
      }
    }
    NoMembersNoEdits(i, prevEnd, sc);
  }

  lemma {:induction false} NoMembersNoEdits(pos: int, prev: int, sc: Scope)
    ensures MemberEdits(NoMembers, pos, prev, sc) == []
  {}

  /** One turn of the loop in stripObject. */
  method StripMember(body: string, i: nat, end: nat, sc: Scope, prev: int, acc: seq<Edit>,
                     ghost close: int, ghost blanks: string, ghost ms: Members)
      returns (next: nat, prevEnd: int, edits: seq<Edit>, done: bool)
    requires Ahead(body, i, close, blanks, ms) && close < end <= |body| && -1 <= prev
    ensures done <==> ms.NoMembers?
    ensures done ==> next == i && edits == acc && prevEnd == prev
    ensures !done ==>
              && -1 <= prevEnd && Ahead(body, next, close, if ms.rest.Member? then blanks else "", ms.rest)
              && acc + MemberEdits(ms, i, prev, sc) == edits + MemberEdits(ms.rest, next, prevEnd, sc)
    decreases ms
  {
    hide StringBody;
    hide At;
    hide MemberEdits;
    hide InnerEdits;
    hide Excised;
    hide Through;
    hide Render;
    hide WF;
    hide Quote;
    hide RenderMembers;
    hide Blank;
    var keyStart, keyEnd, valStart;
    done, keyStart, keyEnd, valStart := ReadHeader(body, i, close, blanks, ms);
    if done {
      return i, prev, acc, true;
    }
    AfterMember(body, i, close, blanks, ms);
    var valEnd := SkipValue(body, valStart, end, ms.val, ms.after);
    var sep := SkipWS(body, valEnd);
    SeparatorFound(body, i, ms, valEnd, sep);
    var hasComma := sep < end && body[sep] == ',';
    var excise, recurse := MatchKey(body, keyStart, keyEnd, sc, ms.key);
    FirstByte(ms.val);
    EditsOfMember(ms, i, prev, sc, acc, sep);
    next := if hasComma then sep + 1 else sep;
    if excise {
      prevEnd := prev;
      if hasComma {
        edits := acc + [Edit(keyStart, sep + 1, "")];
      } else if prev < 0 {
        edits := acc + [Edit(keyStart, valEnd, "")];
      } else {
        edits := acc + [Edit(prev, valEnd, "")];
      }
    } else {
      prevEnd := valEnd;
      edits := StripInside(body, valStart, valEnd, sc, keyStart, keyEnd, recurse, acc, i, ms);
    }
  }

  /** The recursion of stripObject into the value of a surviving member. */
  method StripInside(body: string, valStart: nat, valEnd: nat, sc: Scope, keyStart: nat, keyEnd: nat,
                     recurse: seq<seq<string>>, acc: seq<Edit>, ghost i: nat, ghost ms: Members)
      returns (edits: seq<Edit>)
    requires ms.Member? && WFMembers(ms) && valStart == ValStart(ms, i) && At(body, valStart, Render(ms.val))
    requires valEnd == ValEnd(ms, i) <= |body| && recurse == Through(ms.key, sc.paths, sc.depth)
    requires keyStart <= keyEnd <= |body| && body[keyStart..keyEnd] == Quote(ms.key)
    ensures edits == acc + InnerEdits(ms, i, sc)
    decreases ms, 0
  {
    hide StringBody;
    hide WF;
    hide Render;
    hide ObjectEdits;
    FirstByte(ms.val);
    AtIndex(body, valStart, Render(ms.val), 0);
    QuoteInjective(ms.key, "response");
    EmptyAt(body, valStart);
    var isObject := body[valStart] == '{';
    edits := acc;
    if isObject && |recurse| > 0 {
      edits := StripObject(body, valStart, valEnd, Scope(recurse, sc.depth + 1, false), edits, "", ms.val);
    }
    if sc.descend && IsKey(body, keyStart, keyEnd, "response") && isObject {
      edits := StripObject(body, valStart, valEnd, Scope(sc.paths, 0, false), edits, "", ms.val);
    }
  }

  /** How the recorded edits grow by one member. */
  lemma {:induction false} EditsOfMember(ms: Members, i: int, prev: int, sc: Scope, acc: seq<Edit>, sep: int)
    requires ms.Member? && sep == Sep(ms, i)
    ensures var next := if ms.rest.Member? then sep + 1 else sep;
            acc + MemberEdits(ms, i, prev, sc) ==
            if Excised(ms.key, sc) then acc + [Removal(ms, i, prev)] + MemberEdits(ms.rest, next, prev, sc)
            else acc + InnerEdits(ms, i, sc) + MemberEdits(ms.rest, next, ValEnd(ms, i), sc)
  {
    hide InnerEdits;
    hide Excised;
  }
}
