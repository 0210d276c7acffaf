/** The thinking-usage synthesis: internal/inject/usage.go, as it reads and edits the text.

    The loops over a usage object and over its details object do not skip whitespace after a
    comma, so they stop at the first member, other than the first, that whitespace precedes.
    `Next` makes that explicit: with `all` it is the member after this one, without it the member
    those loops go on to.
 */
module Usage {
  import opened Wrappers
  import opened Json
  import opened Edits
  import opened Scan
  import opened Walk
  import opened Tokens

  /** The names of the completion count and of the details object. */
  datatype Shape = Shape(completion: string, details: string)

  const CHAT_SHAPE := Shape("completion_tokens", "completion_tokens_details")
  const RESPONSES_SHAPE := Shape("output_tokens", "output_tokens_details")
  const REASONING := "reasoning_tokens"

  predicate ProperShape(s: Shape)
  {
    s.completion != s.details && s.completion != REASONING && s.details != REASONING
    && StringBody(s.details) && StringBody(s.completion)
  }

  datatype Span = Span(start: int, end: int)

  /** What the loop over a usage object remembers; later occurrences replace earlier ones. */
  datatype Seen = Seen(completion: Option<Span>, direct: Option<Span>, details: Option<Span>,
                       reasoning: Option<Span>, other: Option<Span>)

  function Next(ms: Members, all: bool): (r: Members)
    requires ms.Member?
    ensures Count(r) < Count(ms)
  {
    if ms.rest.Member? && (all || ms.rest.before == "") then ms.rest else NoMembers
  }

  function ValueSpan(ms: Members, pos: int): Span requires ms.Member? { Span(ValStart(ms, pos), ValEnd(ms, pos)) }

  function LastSpan(ms: Members, pos: int, key: string, found: Option<Span>): Option<Span>
    decreases Count(ms)
  {
    if ms.NoMembers? then found
    else LastSpan(Next(ms, false), Sep(ms, pos) + 1, key, if ms.key == key then Some(ValueSpan(ms, pos)) else found)
  }

  function SeeMember(ms: Members, pos: int, shape: Shape, s: Seen): Seen
    requires ms.Member?
  {
    var span := Some(ValueSpan(ms, pos));
    if ms.key == shape.completion then s.(completion := span)
    else if ms.key == REASONING then s.(direct := span)
    else if ms.key == shape.details then
      if ms.val.Obj? then
        s.(details := span,
           reasoning := LastSpan(ms.val.members, ValStart(ms, pos) + 1 + |ms.val.open|, REASONING, None))
      else s.(other := span)
    else s
  }

  function SeeMembers(ms: Members, pos: int, shape: Shape, s: Seen): Seen
    decreases Count(ms)
  {
    if ms.NoMembers? then s else SeeMembers(Next(ms, false), Sep(ms, pos) + 1, shape, SeeMember(ms, pos, shape, s))
  }

  // ---------------------------------------------------------------- the decision

  predicate InText(s: Option<Span>, body: string) { s.Some? ==> 0 <= s.value.start <= s.value.end <= |body| }

  predicate SeenInText(s: Seen, body: string)
  {
    InText(s.completion, body) && InText(s.direct, body) && InText(s.details, body) && InText(s.reasoning, body)
    && InText(s.other, body)
  }

  function SpanText(s: Span, body: string): string
    requires 0 <= s.start <= s.end <= |body|
  {
    body[s.start..s.end]
  }

  /** A reasoning field above zero, or present and unreadable, leaves the usage alone. */
  predicate Claims(s: Option<Span>, body: string, plan: Plan)
    requires InText(s, body)
  {
    s.Some? && var n := TokenCount(SpanText(s.value, body), plan.float); n.None? || n.value > 0.0
  }

  predicate Shareable(n: Option<real>) { n.Some? && 0.0 < n.value <= MAX_SHAREABLE as real }

  /** The count to write, when one is to be written. */
  function CountToWrite(s: Seen, body: string, plan: Plan): Option<nat>
    requires SeenInText(s, body) && ProperPlan(plan)
  {
    if Claims(s.direct, body, plan) || Claims(s.reasoning, body, plan) || s.completion.None? then None
    else
      var comp := TokenCount(SpanText(s.completion.value, body), plan.float);
      if Shareable(comp) then Some(Share(comp.value, plan)) else None
  }

  function ReasoningMember(n: nat): string { Quote(REASONING) + ":" + Decimal(n) }

  /** Only blanks from `i` to a closing brace. */
  predicate ClosesAt(body: string, i: int)
  {
    exists j :: i <= j < |body| && 0 <= i && body[j] == '}' && forall k :: i <= k < j ==> IsWS(body[k])
  }

  /** headMember: the text inserted just past the opening brace before `headPos`. */
  function HeadMember(body: string, headPos: int, member: string): string
  {
    if ClosesAt(body, headPos) then member else member + ","
  }

  function DetailsMember(shape: Shape, n: nat): string { Quote(shape.details) + ":{" + ReasoningMember(n) + "}" }

  /** The edit usageEdit decides on once the usage object is read. */
  function DecideEdit(s: Seen, body: string, plan: Plan, shape: Shape, objStart: int): Option<Edit>
    requires SeenInText(s, body) && ProperPlan(plan)
  {
    var count := CountToWrite(s, body, plan);
    if count.None? then None
    else
      var n := count.value;
      if s.reasoning.Some? then
        if SpanText(s.reasoning.value, body) == Decimal(n) then None
        else Some(Edit(s.reasoning.value.start, s.reasoning.value.end, Decimal(n)))
      else if s.other.Some? then Some(Edit(s.other.value.start, s.other.value.end, "{" + ReasoningMember(n) + "}"))
      else if s.details.Some? then
        var at := s.details.value.start + 1;
        Some(Edit(at, at, HeadMember(body, at, ReasoningMember(n))))
      else
        Some(Edit(objStart + 1, objStart + 1, HeadMember(body, objStart + 1, DetailsMember(shape, n))))
  }

  // ---------------------------------------------------------------- the loops over one object

  /** Where the loops of usageEdit and memberSpan stand: on the key of a member, or on a byte
      that ends them. */
  ghost predicate OnKey(body: string, i: int, objEnd: int, at: int, rest: Members)
  {
    && 0 <= i < objEnd <= |body|
    && (rest.Member? ==> Ahead(body, at, objEnd - 1, "", rest) && i == KeyStart(rest, at) && body[i] == '"')
    && (rest.NoMembers? ==> body[i] != '"')
  }

  method FirstKey(body: string, objStart: nat, objEnd: nat, ghost v: Value) returns (i: nat)
    requires v.Obj? && WF(v) && At(body, objStart, Render(v)) && objEnd == objStart + |Render(v)|
    ensures OnKey(body, i, objEnd, objStart + 1 + |v.open|, v.members)
    ensures i == if v.members.Member? then KeyStart(v.members, objStart + 1 + |v.open|) else objEnd - 1
  {
    hide StringBody;
    hide Render;
    hide RenderMembers;
    hide At;
    StartOfObject(body, objStart, v);
    var ms := v.members;
    assert ms.Member? ==> v.open == "";
    if ms.Member? {
      RenderedMembersAt(body, objStart + 1, ms);
      KeyBytes(body, objStart + 1, ms);
      MembersEndStep(ms, objStart + 1);
    }
    i := SkipWS(body, objStart + 1);
    WhitespaceRunEnds(body, objStart + 1, if ms.Member? then ms.before else v.open, i);
  }

  /** From the end of a value over the separator: onto the next key only when no blank precedes it. */
  method PastValue(body: string, valEnd: nat, objEnd: nat, ghost at: nat, ghost ms: Members) returns (i: nat)
    requires ms.Member? && OnKey(body, KeyStart(ms, at), objEnd, at, ms) && valEnd == ValEnd(ms, at) <= |body|
    ensures OnKey(body, i, objEnd, Sep(ms, at) + 1, Next(ms, false))
  {
    hide StringBody;
    hide At;
    hide Render;
    hide WF;
    AfterMember(body, at, objEnd - 1, "", ms);
    i := SkipWS(body, valEnd);
    SeparatorFound(body, at, ms, valEnd, i);
    if i < objEnd && body[i] == ',' {
      i := i + 1;
      NextKeyByte(body, i, objEnd - 1, ms.rest);
    }
  }

  lemma {:induction false} NextKeyByte(body: string, at: nat, close: int, ms: Members)
    requires ms.Member? && Ahead(body, at, close, "", ms)
    ensures at < close && (ms.before == "" ==> body[at] == '"') && (ms.before != "" ==> IsWS(body[at]))
  {
    hide StringBody;
    RenderedMembersAt(body, at, ms);
    KeyBytes(body, at, ms);
    MembersEndStep(ms, at);
    if ms.before != "" { AtIndex(body, at, ms.before, 0); }
  }

  /** One turn of either loop: the member under the cursor, and where the cursor goes next. */
  method ReadMember(body: string, i: nat, objEnd: nat, ghost at: nat, ghost ms: Members)
      returns (keyEnd: nat, valStart: nat, valEnd: nat, next: nat)
    requires ms.Member? && OnKey(body, i, objEnd, at, ms)
    ensures i <= keyEnd <= valStart < valEnd <= |body| && body[i..keyEnd] == Quote(ms.key)
    ensures Span(valStart, valEnd) == ValueSpan(ms, at) && At(body, valStart, Render(ms.val)) && WF(ms.val)
    ensures Render(ms.val) != "" && body[valStart] == Render(ms.val)[0]
    ensures OnKey(body, next, objEnd, Sep(ms, at) + 1, Next(ms, false)) && 0 <= Sep(ms, at)
  {
    hide StringBody;
    hide At;
    hide Render;
    hide WF;
    hide Quote;
    MemberFacts(body, i, objEnd, at, ms);
    hide MembersAt;
    hide WFMembers;
    hide Ahead;
    keyEnd, valStart := ReadFromKey(body, i, at, ms);
    valEnd := SkipValue(body, valStart, objEnd, ms.val, ms.after);
    next := PastValue(body, valEnd, objEnd, at, ms);
  }

  lemma {:induction false} MemberFacts(body: string, i: int, objEnd: int, at: nat, ms: Members)
    requires ms.Member? && OnKey(body, i, objEnd, at, ms)
    ensures MembersAt(body, at, ms) && WFMembers(ms) && WF(ms.val) && Blank(ms.after)
    ensures At(body, ValStart(ms, at), Render(ms.val)) && At(body, ValStop(ms, at), ms.after)
    ensures 0 <= Sep(ms, at) < objEnd && Delimiter(body[Sep(ms, at)]) && ValEnd(ms, at) <= Sep(ms, at)
    ensures Render(ms.val) != "" && ValStart(ms, at) < ValEnd(ms, at)
  {
    hide At;
    hide WF;
    hide Render;
    hide StringBody;
    AfterMember(body, at, objEnd - 1, "", ms);
    MembersEndStep(ms, at);
    FirstByte(ms.val);
  }

  /** memberSpan */
  method MemberSpan(body: string, objStart: nat, objEnd: nat, key: string, ghost v: Value)
      returns (found: Option<Span>)
    requires v.Obj? && WF(v) && At(body, objStart, Render(v)) && objEnd == objStart + |Render(v)|
    ensures found == LastSpan(v.members, objStart + 1 + |v.open|, key, None) && InText(found, body)
  {
    hide At;
    hide WF;
    hide Quote;
    hide ValueSpan;
    hide LastSpan;
    hide Count;
    found := None;
    ghost var rest, at := v.members, objStart + 1 + |v.open|;
    ghost var all := LastSpan(rest, at, key, None);
    var i := FirstKey(body, objStart, objEnd, v);
    hide Render;
    hide Ahead;
    while i < objEnd
      invariant OnKey(body, i, objEnd, at, rest) && 0 <= at && InText(found, body)
      invariant LastSpan(rest, at, key, found) == all
      decreases Count(rest)
    {
      LastSpanStep(rest, at, key, found);
      if body[i] != '"' {
        break;
      }
      var keyEnd, valStart, valEnd, next := ReadMember(body, i, objEnd, at, rest);
      QuoteInjective(rest.key, key);
      if IsKey(body, i, keyEnd, key) {
        found := Some(Span(valStart, valEnd));
      }
      i, rest, at := next, Next(rest, false), Sep(rest, at) + 1;
    }
  }

  lemma {:induction false} LastSpanStep(ms: Members, pos: int, key: string, found: Option<Span>)
    ensures LastSpan(ms, pos, key, found) ==
            if ms.NoMembers? then found
            else LastSpan(Next(ms, false), Sep(ms, pos) + 1, key, if ms.key == key then Some(ValueSpan(ms, pos)) else found)
  {}

  lemma {:induction false} SeeStep(ms: Members, pos: int, shape: Shape, s: Seen)
    ensures SeeMembers(ms, pos, shape, s) ==
            if ms.NoMembers? then s else SeeMembers(Next(ms, false), Sep(ms, pos) + 1, shape, SeeMember(ms, pos, shape, s))
  {}

  /** The loop of usageEdit. */
  method ReadUsage(body: string, objStart: nat, objEnd: nat, shape: Shape, ghost v: Value) returns (seen: Seen)
    requires v.Obj? && WF(v) && At(body, objStart, Render(v)) && objEnd == objStart + |Render(v)| && ProperShape(shape)
    ensures seen == SeeMembers(v.members, objStart + 1 + |v.open|, shape, NOTHING_SEEN)
    ensures SeenInText(seen, body)
  {
    hide At;
    hide WF;
    hide Quote;
    hide ValueSpan;
    hide SeeMember;
    hide SeeMembers;
    hide Count;
    seen := Seen(None, None, None, None, None);
    ghost var rest, at := v.members, objStart + 1 + |v.open|;
    ghost var all := SeeMembers(rest, at, shape, seen);
    var i := FirstKey(body, objStart, objEnd, v);
    hide Render;
    hide Ahead;
    while i < objEnd
      invariant OnKey(body, i, objEnd, at, rest) && 0 <= at && SeenInText(seen, body)
      invariant SeeMembers(rest, at, shape, seen) == all
      decreases Count(rest)
    {
      SeeStep(rest, at, shape, seen);
      if body[i] != '"' {
        break;
      }
      var keyEnd, valStart, valEnd, next := ReadMember(body, i, objEnd, at, rest);
      seen := Classify(body, i, keyEnd, valStart, valEnd, shape, seen, at, rest);
      i, rest, at := next, Next(rest, false), Sep(rest, at) + 1;
    }
  }

  /** The switch in usageEdit. */
  method Classify(body: string, keyStart: nat, keyEnd: nat, valStart: nat, valEnd: nat, shape: Shape, s: Seen,
                  ghost at: int, ghost ms: Members)
      returns (r: Seen)
    requires ms.Member? && keyStart <= keyEnd <= valStart < valEnd <= |body| && body[keyStart..keyEnd] == Quote(ms.key)
    requires Span(valStart, valEnd) == ValueSpan(ms, at) && At(body, valStart, Render(ms.val)) && WF(ms.val)
    requires Render(ms.val) != "" && body[valStart] == Render(ms.val)[0]
    requires SeenInText(s, body) && ProperShape(shape)
    ensures r == SeeMember(ms, at, shape, s) && SeenInText(r, body)
  {
    hide At;
    hide WF;
    hide Quote;
    hide Render;
    FirstByte(ms.val);
    QuoteInjective(ms.key, shape.completion);
    QuoteInjective(ms.key, REASONING);
    QuoteInjective(ms.key, shape.details);
    var span := Some(Span(valStart, valEnd));
    if IsKey(body, keyStart, keyEnd, shape.completion) {
      r := s.(completion := span);
    } else if IsKey(body, keyStart, keyEnd, REASONING) {
      r := s.(direct := span);
    } else if IsKey(body, keyStart, keyEnd, shape.details) {
      if body[valStart] == '{' {
        var inner := MemberSpan(body, valStart, valEnd, REASONING, ms.val);
        r := s.(details := span, reasoning := inner);
      } else {
        r := s.(other := span);
      }
    } else {
      r := s;
    }
  }

  const NOTHING_SEEN := Seen(None, None, None, None, None)

  /** What usageEdit decides for the usage object `v` standing at `pos`. */
  ghost function UsageEditAt(body: string, v: Value, pos: int, plan: Plan, shape: Shape): Option<Edit>
    requires v.Obj? && ProperPlan(plan)
  {
    var seen := SeeMembers(v.members, pos + 1 + |v.open|, shape, NOTHING_SEEN);
    if SeenInText(seen, body) then DecideEdit(seen, body, plan, shape, pos) else None
  }

  method UsageEdit(body: string, objStart: nat, objEnd: nat, plan: Plan, shape: Shape, ghost v: Value)
      returns (r: Option<Edit>)
    requires v.Obj? && WF(v) && At(body, objStart, Render(v)) && objEnd == objStart + |Render(v)|
    requires ProperShape(shape) && ProperPlan(plan)
    ensures r == UsageEditAt(body, v, objStart, plan, shape)
  {
    hide SeeMembers;
    hide DecideEdit;
    var seen := ReadUsage(body, objStart, objEnd, shape, v);
    r := DecideEdit(seen, body, plan, shape, objStart);
  }

  // ---------------------------------------------------------------- the scan of the document

  ghost function UsageEdits(body: string, ms: Members, pos: int, plan: Plan, shape: Shape, descend: bool): seq<Edit>
    requires ProperPlan(plan)
    decreases ms
  {
    if ms.NoMembers? then []
    else EditsInside(body, ms, pos, plan, shape, descend) + UsageEdits(body, ms.rest, Sep(ms, pos) + 1, plan, shape, descend)
  }

  ghost function EditsInside(body: string, ms: Members, pos: int, plan: Plan, shape: Shape, descend: bool): seq<Edit>
    requires ms.Member? && ProperPlan(plan)
    decreases ms, 0
  {
    if ms.key == "usage" && ms.val.Obj? then
      var e := UsageEditAt(body, ms.val, ValStart(ms, pos), plan, shape);
      if e.Some? then [e.value] else []
    else if descend && ms.key == "response" && ms.val.Obj? then
      ObjectUsageEdits(body, ms.val, ValStart(ms, pos), plan, shape, false)
    else []
  }

  ghost function ObjectUsageEdits(body: string, v: Value, pos: int, plan: Plan, shape: Shape, descend: bool): seq<Edit>
    requires ProperPlan(plan)
    decreases v
  {
    if v.Obj? then UsageEdits(body, v.members, pos + 1 + |v.open|, plan, shape, descend) else []
  }

  /** scanUsageEdits */
  method ScanUsageEdits(body: string, start: nat, end: nat, plan: Plan, shape: Shape, descend: bool, acc: seq<Edit>,
                        ghost lead: string, ghost v: Value)
      returns (edits: seq<Edit>)
    requires At(body, start, lead) && Blank(lead) && At(body, start + |lead|, Render(v)) && WF(v)
    requires start + |lead| + |Render(v)| <= end <= |body| && ProperShape(shape) && ProperPlan(plan)
    ensures edits == acc + ObjectUsageEdits(body, v, start + |lead|, plan, shape, descend)
    decreases v
  {
    hide StringBody;
    hide UsageEdits;
    edits := acc;
    FirstByte(v);
    AtIndex(body, start + |lead|, Render(v), 0);
    var i := SkipWS(body, start);
    WhitespaceRunEnds(body, start, lead, i);
    if body[i] != '{' {
      assert acc + [] == acc;
      return;
    }
    StartOfObject(body, i, v);
    ghost var all := ObjectUsageEdits(body, v, i, plan, shape, descend);
    ghost var rest, blanks := v.members, v.open;
    ghost var close := i + |Render(v)| - 1;
    NoMembersNoEdits(body, i + 1 + |v.open|, plan, shape, descend);
    NoMembersNoEdits(body, i + 1, plan, shape, descend);
    i := i + 1;
    var done := false;
    while !done
      invariant Ahead(body, i, close, blanks, rest) && close < end <= |body|
      invariant done ==> rest.NoMembers?
      invariant acc + all == edits + UsageEdits(body, rest, i, plan, shape, descend)
      invariant rest == v.members || rest < v.members
      decreases rest, !done
    {
      i, edits, done := ScanMember(body, i, end, plan, shape, descend, edits, close, blanks, rest);
      if rest.Member? {
        if rest.rest.NoMembers? { blanks := ""; }
        rest := rest.rest;
      }
    }
    NoMembersNoEdits(body, i, plan, shape, descend);
  }

  lemma {:induction false} NoMembersNoEdits(body: string, pos: int, plan: Plan, shape: Shape, descend: bool)
    requires ProperPlan(plan)
    ensures UsageEdits(body, NoMembers, pos, plan, shape, descend) == []
  {}

  method ScanMember(body: string, i: nat, end: nat, plan: Plan, shape: Shape, descend: bool, acc: seq<Edit>,
                    ghost close: int, ghost blanks: string, ghost ms: Members)
      returns (next: nat, edits: seq<Edit>, done: bool)
    requires Ahead(body, i, close, blanks, ms) && close < end <= |body| && ProperShape(shape) && ProperPlan(plan)
    ensures done <==> ms.NoMembers?
    ensures done ==> next == i && edits == acc
    ensures !done ==>
              && Ahead(body, next, close, if ms.rest.Member? then blanks else "", ms.rest)
              && acc + UsageEdits(body, ms, i, plan, shape, descend) ==
                 edits + UsageEdits(body, ms.rest, next, plan, shape, descend)
    decreases ms
  {
    hide StringBody;
    hide At;
    hide UsageEdits;
    hide EditsInside;
    hide Render;
    hide WF;
    hide Quote;
    var keyStart, keyEnd, valStart;
    done, keyStart, keyEnd, valStart := ReadHeader(body, i, close, blanks, ms);
    if done {
      return i, acc, true;
    }
    AfterMember(body, i, close, blanks, ms);
    var valEnd;
    valEnd, edits := ScanMemberValue(body, i, end, plan, shape, descend, acc, keyStart, keyEnd, valStart, ms);
    EditsOfMember(body, ms, i, plan, shape, descend, acc);
    next := SkipWS(body, valEnd);
    SeparatorFound(body, i, ms, valEnd, next);
    if next < end && body[next] == ',' {
      next := next + 1;
    }
  }

  lemma {:induction false} EditsOfMember(body: string, ms: Members, i: int, plan: Plan, shape: Shape, descend: bool, acc: seq<Edit>)
    requires ms.Member? && ProperPlan(plan)
    ensures var next := if ms.rest.Member? then Sep(ms, i) + 1 else Sep(ms, i);
            acc + UsageEdits(body, ms, i, plan, shape, descend) ==
            acc + EditsInside(body, ms, i, plan, shape, descend) + UsageEdits(body, ms.rest, next, plan, shape, descend)
  {
    hide EditsInside;
  }

  /** The switch in scanUsageEdits: edit, descend or skip. */
  method ScanMemberValue(body: string, ghost i: nat, end: nat, plan: Plan, shape: Shape, descend: bool, acc: seq<Edit>,
                         keyStart: nat, keyEnd: nat, valStart: nat, ghost ms: Members)
      returns (valEnd: nat, edits: seq<Edit>)
    requires ms.Member? && MembersAt(body, i, ms) && WFMembers(ms) && valStart == ValStart(ms, i) < |body|
    requires keyStart <= keyEnd <= |body| && body[keyStart..keyEnd] == Quote(ms.key)
    requires Sep(ms, i) < end <= |body| && Delimiter(body[Sep(ms, i)])
    requires Render(ms.val) != "" && body[valStart] == Render(ms.val)[0]
    requires ProperShape(shape) && ProperPlan(plan)
    ensures valEnd == ValEnd(ms, i) || valEnd == ValStop(ms, i)
    ensures edits == acc + EditsInside(body, ms, i, plan, shape, descend)
    decreases ms, 0
  {
    hide StringBody;
    hide At;
    hide Render;
    hide WF;
    hide CloseFrom;
    hide Quote;
    hide ObjectUsageEdits;
    hide UsageEditAt;
    FirstByte(ms.val);
    QuoteInjective(ms.key, "usage");
    QuoteInjective(ms.key, "response");
    if IsKey(body, keyStart, keyEnd, "usage") && body[valStart] == '{' {
      CollectionEndsAtItsBracket(body, valStart, end, ms.val);
      valEnd := CollectionEnd(body, valStart, end);
      var e := UsageEdit(body, valStart, valEnd, plan, shape, ms.val);
      edits := if e.Some? then acc + [e.value] else acc;
    } else if descend && IsKey(body, keyStart, keyEnd, "response") && body[valStart] == '{' {
      CollectionEndsAtItsBracket(body, valStart, end, ms.val);
      valEnd := CollectionEnd(body, valStart, end);
      EmptyAt(body, valStart);
      edits := ScanUsageEdits(body, valStart, valEnd, plan, shape, false, acc, "", ms.val);
    } else {
      valEnd := SkipValue(body, valStart, end, ms.val, ms.after);
      edits := acc;
    }
  }
}
