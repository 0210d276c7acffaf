/** The member loop that every rewriter of internal/inject repeats: where a walk over the members
    of an object stands, and what the header of one member reads.
 */
module Walk {
  import opened Json
  import opened Scan

  predicate IsKey(body: string, start: nat, end: nat, name: string)
    requires start <= end <= |body|
  {
    body[start..end] == Quote(name)
  }

  lemma {:induction false} QuoteInjective(a: string, b: string)
    ensures Quote(a) == Quote(b) <==> a == b
  {
    assert Quote(a)[1..|Quote(a)| - 1] == a && Quote(b)[1..|Quote(b)| - 1] == b;
  }

  /** Where the value of the first member stops, as skipValue reports it. */
  function ValEnd(ms: Members, pos: int): int requires ms.Member? { ValueStop(ms.val, ValStart(ms, pos), ms.after) }

  /** What a loop standing at `i` has left to read: members, or blanks, then the closing brace. */
  ghost predicate Ahead(body: string, i: int, close: int, blanks: string, rest: Members)
  {
    && 0 <= i <= close < |body| && body[close] == '}' && WFMembers(rest)
    && (rest.Member? ==> At(body, i, RenderMembers(rest)) && MembersEnd(rest, i) == close)
    && (rest.NoMembers? ==> At(body, i, blanks) && Blank(blanks) && i + |blanks| == close)
  }

  lemma {:induction false} StartOfObject(body: string, i: nat, v: Value)
    requires v.Obj? && WF(v) && At(body, i, Render(v))
    ensures Ahead(body, i + 1, i + |Render(v)| - 1, v.open, v.members)
  {
    hide StringBody;
    ObjectAt(body, i, v);
    AtInside(body, i, '{', v.open, RenderMembers(v.members), '}');
  }

  lemma {:induction false} AtInside(body: string, i: int, l: char, a: string, b: string, r: char)
    requires At(body, i, [l] + a + b + [r])
    ensures At(body, i + 1, a) && At(body, i + 1 + |a|, b)
  {
    ThreePieces(body, i, l, a, b, r);
  }

  /** After the first member comes a comma and another member, or the closing brace. */
  lemma {:induction false} AfterMember(body: string, i: nat, close: int, blanks: string, ms: Members)
    requires ms.Member? && Ahead(body, i, close, blanks, ms)
    ensures MembersAt(body, i, ms) && Sep(ms, i) <= close
    ensures body[Sep(ms, i)] == if ms.rest.Member? then ',' else '}'
    ensures ms.rest.Member? ==> Ahead(body, Sep(ms, i) + 1, close, blanks, ms.rest)
    ensures ms.rest.NoMembers? ==> Ahead(body, Sep(ms, i), close, "", ms.rest)
  {
    hide At;
    hide StringBody;
    RenderedMembersAt(body, i, ms);
    EmptyAt(body, Sep(ms, i));
    if ms.rest.Member? {
      AtIndex(body, Sep(ms, i), ",", 0);
      RenderedMembersAt(body, Sep(ms, i) + 1, ms.rest);
    }
  }

  lemma {:induction false} EmptyAt(body: string, i: int)
    ensures 0 <= i <= |body| ==> At(body, i, "")
  {}

  lemma {:induction false} KeyBytes(body: string, i: nat, ms: Members)
    requires ms.Member? && MembersAt(body, i, ms) && WFMembers(ms)
    ensures KeyEnd(ms, i) <= Colon(ms, i) < |body|
    ensures body[KeyStart(ms, i)] == '"' && StringEnd(body, KeyStart(ms, i) + 1) == KeyEnd(ms, i)
    ensures body[KeyStart(ms, i)..KeyEnd(ms, i)] == Quote(ms.key)
    ensures body[Colon(ms, i)] == ':'
  {
    hide StringBody;
    hide StringEnd;
    hide WF;
    hide Render;
    hide Quote;
    QuotedEnds(body, KeyStart(ms, i), ms.key);
    AtIndex(body, Colon(ms, i), ":", 0);
    assert |Quote(ms.key)| == |ms.key| + 2 by { QuoteLength(ms.key); }
  }

  lemma {:induction false} QuoteLength(k: string) ensures |Quote(k)| == |k| + 2 {}

  lemma {:induction false} ValueByte(body: string, i: nat, ms: Members)
    requires ms.Member? && MembersAt(body, i, ms) && WFMembers(ms)
    ensures Render(ms.val) != "" && ValStart(ms, i) < |body|
    ensures body[ValStart(ms, i)] == Render(ms.val)[0] && !IsWS(body[ValStart(ms, i)])
  {
    hide StringBody;
    hide WF;
    hide Render;
    FirstByte(ms.val);
    AtIndex(body, ValStart(ms, i), Render(ms.val), 0);
  }

  /** From the opening quote of a key to the start of its value. */
  method ReadFromKey(body: string, keyStart: nat, ghost i: nat, ghost ms: Members) returns (keyEnd: nat, valStart: nat)
    requires ms.Member? && MembersAt(body, i, ms) && WFMembers(ms) && keyStart == KeyStart(ms, i)
    ensures keyEnd == KeyEnd(ms, i) && valStart == ValStart(ms, i)
    ensures keyStart <= keyEnd <= valStart < |body| && body[keyStart..keyEnd] == Quote(ms.key)
    ensures Render(ms.val) != "" && body[valStart] == Render(ms.val)[0]
  {
    hide StringBody;
    hide WF;
    hide Render;
    hide Quote;
    KeyBytes(body, i, ms);
    ValueByte(body, i, ms);
    keyEnd := ValueEnd(body, keyStart);
    var colon := SkipWS(body, keyEnd);
    WhitespaceRunEnds(body, keyEnd, ms.afterKey, colon);
    valStart := SkipWS(body, colon + 1);
    WhitespaceRunEnds(body, colon + 1, ms.beforeVal, valStart);
  }

  /** The head of every member loop: stop at the closing brace, or read a member up to its value. */
  method ReadHeader(body: string, i: nat, ghost close: int, ghost blanks: string, ghost ms: Members)
      returns (done: bool, keyStart: nat, keyEnd: nat, valStart: nat)
    requires Ahead(body, i, close, blanks, ms)
    ensures done <==> ms.NoMembers?
    ensures !done ==>
              && keyStart == KeyStart(ms, i) && keyEnd == KeyEnd(ms, i) && valStart == ValStart(ms, i)
              && keyStart <= keyEnd <= valStart < |body| && body[keyStart..keyEnd] == Quote(ms.key)
              && Render(ms.val) != "" && body[valStart] == Render(ms.val)[0]
  {
    hide StringBody;
    hide WF;
    hide At;
    hide Render;
    hide RenderMembers;
    hide Blank;
    hide MembersAt;
    hide Ahead;
    hide Quote;
    keyEnd, valStart := 0, 0;
    HeaderAhead(body, i, close, blanks, ms);
    keyStart := SkipWS(body, i);
    WhitespaceRunEnds(body, i, if ms.Member? then ms.before else blanks, keyStart);
    if body[keyStart] == '}' {
      return true, 0, 0, 0;
    }
    keyEnd, valStart := ReadFromKey(body, keyStart, i, ms);
    done := false;
  }

  /** Blanks, then the quote of a key or the closing brace. */
  lemma {:induction false} HeaderAhead(body: string, i: nat, close: int, blanks: string, ms: Members)
    requires Ahead(body, i, close, blanks, ms)
    ensures var ws := if ms.Member? then ms.before else blanks;
            && At(body, i, ws) && Blank(ws) && i + |ws| < |body| && !IsWS(body[i + |ws|])
            && (body[i + |ws|] == '}' <==> ms.NoMembers?)
            && (ms.Member? ==> MembersAt(body, i, ms) && WFMembers(ms) && i + |ws| == KeyStart(ms, i))
  {
    hide StringBody;
    hide WF;
    hide At;
    if ms.Member? {
      RenderedMembersAt(body, i, ms);
      KeyBytes(body, i, ms);
    }
  }

  lemma {:induction false} MembersEndStep(ms: Members, pos: int)
    requires ms.Member?
    ensures MembersEnd(ms, pos) == if ms.rest.Member? then MembersEnd(ms.rest, Sep(ms, pos) + 1) else Sep(ms, pos)
    ensures pos <= KeyStart(ms, pos) < KeyStart(ms, pos) + 2 <= KeyEnd(ms, pos) < ValStart(ms, pos) <= ValStop(ms, pos)
    ensures ValStop(ms, pos) <= ValEnd(ms, pos) <= Sep(ms, pos) <= MembersEnd(ms, pos)
    ensures ms.rest.Member? ==> Sep(ms, pos) + 1 <= MembersEnd(ms, pos)
  {}

  /** The bytes of a member up to its value. */
  function Head(before: string, ms: Members): string
    requires ms.Member?
  {
    before + Quote(ms.key) + ms.afterKey + ":" + ms.beforeVal
  }

  lemma {:induction false} HeadAt(body: string, ms: Members, pos: int)
    requires ms.Member? && MembersAt(body, pos, ms) && 0 <= pos
    ensures At(body, pos, Head(ms.before, ms)) && pos + |Head(ms.before, ms)| == ValStart(ms, pos)
  {
    hide Render;
    hide Quote;
    hide At;
    assert |Quote(ms.key)| == |ms.key| + 2 by { QuoteLength(ms.key); }
    AtJoin(body, pos, ms.before, Quote(ms.key));
    AtJoin(body, pos, ms.before + Quote(ms.key), ms.afterKey);
    AtJoin(body, pos, ms.before + Quote(ms.key) + ms.afterKey, ":");
    AtJoin(body, pos, ms.before + Quote(ms.key) + ms.afterKey + ":", ms.beforeVal);
  }

  /** Past the value and its trailing whitespace stands the separator. */
  lemma {:induction false} SeparatorFound(body: string, i: nat, ms: Members, valEnd: nat, sep: nat)
    requires ms.Member? && MembersAt(body, i, ms) && WFMembers(ms)
    requires valEnd == ValEnd(ms, i) || valEnd == ValStop(ms, i)
    requires Sep(ms, i) < |body| && Delimiter(body[Sep(ms, i)])
    requires valEnd <= sep <= |body| && (sep < |body| ==> !IsWS(body[sep]))
    requires forall k :: valEnd <= k < sep ==> IsWS(body[k])
    ensures sep == Sep(ms, i)
  {
    hide StringBody;
    hide WF;
    hide Render;
    if valEnd == Sep(ms, i) {
      EmptyAt(body, valEnd);
      WhitespaceRunEnds(body, valEnd, "", sep);
    } else {
      WhitespaceRunEnds(body, valEnd, ms.after, sep);
    }
  }
}
