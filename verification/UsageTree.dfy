/** What the synthesis means on the document tree, and the proof that the edits of Usage achieve
    it.  Every reading function takes `all`: with it, the usage object is read whole, as the
    documentation promises; without it, as far as the source's loops get. */
module UsageTree {
  import opened Wrappers
  import opened Json
  import opened Edits
  import opened Scan
  import opened Walk
  import opened Patch
  import opened Tokens
  import opened Usage

  // ---------------------------------------------------------------- reading a tree

  /** Which values of a key are looked for. */
  datatype Want = Any | Objects | Others

  predicate Matches(ms: Members, key: string, want: Want)
    requires ms.Member?
  {
    ms.key == key && (want.Any? || (want.Objects? <==> ms.val.Obj?))
  }

  /** The member list from the last matching member on, or none. */
  function Find(ms: Members, key: string, want: Want, all: bool): (r: Members)
    ensures r.Member? ==> Matches(r, key, want)
    decreases Count(ms)
  {
    if ms.NoMembers? then ms
    else
      var later := Find(Next(ms, all), key, want, all);
      if later.Member? then later else if Matches(ms, key, want) then ms else NoMembers
  }

  function FindPos(ms: Members, pos: int, key: string, want: Want, all: bool): int
    decreases Count(ms)
  {
    if ms.NoMembers? || Find(Next(ms, all), key, want, all).NoMembers? then pos
    else FindPos(Next(ms, all), Sep(ms, pos) + 1, key, want, all)
  }

  /** An upstream count above zero, or one that cannot be read. */
  predicate Claimed(m: Members, plan: Plan)
  {
    m.Member? && var n := CountOf(m.val, plan.float); n.None? || n.value > 0.0
  }

  /** The details object consulted: the last object, or, as promised, the last member if it is one. */
  function DetailsReasoning(v: Value, shape: Shape, all: bool): Members
    requires v.Obj?
  {
    var t := Find(v.members, shape.details, if all then Any else Objects, all);
    if t.Member? && t.val.Obj? then Find(t.val.members, REASONING, Any, all) else NoMembers
  }

  /** The count the rule asks for, if any. */
  function Planned(v: Value, shape: Shape, plan: Plan, all: bool): Option<nat>
    requires v.Obj? && ProperPlan(plan)
  {
    var c := Find(v.members, shape.completion, Any, all);
    if Claimed(Find(v.members, REASONING, Any, all), plan) || Claimed(DetailsReasoning(v, shape, all), plan) || c.NoMembers?
    then None
    else
      var comp := CountOf(c.val, plan.float);
      if Shareable(comp) then Some(Share(comp.value, plan)) else None
  }

  // ---------------------------------------------------------------- writing a tree

  /** When a later member matches, it is among the rest. */
  lemma {:induction false} FoundFurther(ms: Members, key: string, want: Want, all: bool)
    requires ms.Member? && Find(Next(ms, all), key, want, all).Member?
    ensures Next(ms, all) == ms.rest && ms.rest.Member? && Find(ms, key, want, all) == Find(ms.rest, key, want, all)
  {
    assert Find(NoMembers, key, want, all) == NoMembers;
  }

  /** The last matching member gets a new value and trailing whitespace. */
  function SetAt(ms: Members, key: string, want: Want, v: Value, after: string, all: bool): (r: Members)
    requires Find(ms, key, want, all).Member?
    ensures r.Member? && r.before == ms.before && r.key == ms.key
    decreases ms
  {
    if Find(Next(ms, all), key, want, all).Member? then
      FoundFurther(ms, key, want, all);
      ms.(rest := SetAt(ms.rest, key, want, v, after, all))
    else ms.(val := v, after := after)
  }

  function InsertHead(v: Value, key: string, val: Value): Value
    requires v.Obj?
  {
    Obj("", Member("", key, "", "", val, if v.members.NoMembers? then v.open else "", v.members))
  }

  function ReasoningObject(n: nat): Value
  {
    Obj("", Member("", REASONING, "", "", Scalar(Decimal(n)), "", NoMembers))
  }

  function NewDetails(v: Value, n: nat, all: bool): Value
  {
    if !v.Obj? then ReasoningObject(n)
    else if Find(v.members, REASONING, Any, all).Member? then
      v.(members := SetAt(v.members, REASONING, Any, Scalar(Decimal(n)), "", all))
    else InsertHead(v, REASONING, Scalar(Decimal(n)))
  }

  /** Which details member takes the count. */
  function Target(v: Value, shape: Shape, all: bool): Want
    requires v.Obj?
  {
    if all then Any
    else if DetailsReasoning(v, shape, false).NoMembers? && Find(v.members, shape.details, Others, false).Member? then Others
    else Objects
  }

  function Enriched(v: Value, shape: Shape, n: nat, all: bool): (r: Value)
    requires v.Obj?
    ensures r.Obj?
  {
    var want := Target(v, shape, all);
    var t := Find(v.members, shape.details, want, all);
    if t.NoMembers? then InsertHead(v, shape.details, ReasoningObject(n))
    else
      v.(members := SetAt(v.members, shape.details, want, NewDetails(t.val, n, all), if t.val.Scalar? then "" else t.after, all))
  }

  function SynthUsage(v: Value, shape: Shape, plan: Plan, all: bool): (r: Value)
    requires v.Obj? && ProperPlan(plan)
    ensures r.Obj?
  {
    var n := Planned(v, shape, plan, all);
    if n.None? then v else Enriched(v, shape, n.value, all)
  }

  function SynthMembers(ms: Members, shape: Shape, plan: Plan, descend: bool, all: bool): (r: Members)
    requires ProperPlan(plan)
    ensures r.Member? <==> ms.Member?
    decreases ms
  {
    if ms.NoMembers? then NoMembers
    else ms.(val := SynthMember(ms, shape, plan, descend, all), rest := SynthMembers(ms.rest, shape, plan, descend, all))
  }

  function SynthMember(ms: Members, shape: Shape, plan: Plan, descend: bool, all: bool): Value
    requires ms.Member? && ProperPlan(plan)
    decreases ms, 0
  {
    if ms.key == "usage" && ms.val.Obj? then SynthUsage(ms.val, shape, plan, all)
    else if descend && ms.key == "response" && ms.val.Obj? then SynthValue(ms.val, shape, plan, false, all)
    else ms.val
  }

  function SynthValue(v: Value, shape: Shape, plan: Plan, descend: bool, all: bool): Value
    requires ProperPlan(plan)
    decreases v
  {
    if v.Obj? then v.(members := SynthMembers(v.members, shape, plan, descend, all)) else v
  }

  // ---------------------------------------------------------------- what the loop sees is what the tree says

  lemma {:induction false} LastIsFound(ms: Members, pos: int, key: string, found: Option<Span>)
    ensures LastSpan(ms, pos, key, found) == SpanOf(ms, pos, key, Any, found)
    decreases Count(ms)
  {
    if ms.Member? {
      LastIsFound(Next(ms, false), Sep(ms, pos) + 1, key, if ms.key == key then Some(ValueSpan(ms, pos)) else found);
    }
  }

  /** The span of the last matching member, or what was remembered before. */
  function SpanOf(ms: Members, pos: int, key: string, want: Want, before: Option<Span>): Option<Span>
  {
    var m := Find(ms, key, want, false);
    if m.Member? then Some(ValueSpan(m, FindPos(ms, pos, key, want, false))) else before
  }

  lemma {:induction false} SeesCounts(ms: Members, pos: int, shape: Shape, s: Seen)
    requires ProperShape(shape)
    ensures SeeMembers(ms, pos, shape, s).completion == LastSpan(ms, pos, shape.completion, s.completion)
    ensures SeeMembers(ms, pos, shape, s).direct == LastSpan(ms, pos, REASONING, s.direct)
    decreases Count(ms)
  {
    hide StringBody;
    if ms.Member? { SeesCounts(Next(ms, false), Sep(ms, pos) + 1, shape, SeeMember(ms, pos, shape, s)); }
  }

  lemma {:induction false} SeesDetails(ms: Members, pos: int, shape: Shape, s: Seen)
    requires ProperShape(shape)
    ensures var r, m, p := SeeMembers(ms, pos, shape, s), Find(ms, shape.details, Objects, false),
                           FindPos(ms, pos, shape.details, Objects, false);
            && r.details == SpanOf(ms, pos, shape.details, Objects, s.details)
            && r.other == SpanOf(ms, pos, shape.details, Others, s.other)
            && r.reasoning == if m.Member?
                              then LastSpan(m.val.members, ValStart(m, p) + 1 + |m.val.open|, REASONING, None) else s.reasoning
    decreases Count(ms)
  {
    hide StringBody;
    hide LastSpan;
    if ms.Member? { SeesDetails(Next(ms, false), Sep(ms, pos) + 1, shape, SeeMember(ms, pos, shape, s)); }
  }

  /** A member found in the tree stands where the search says. */
  lemma {:induction false} FoundAt(body: string, ms: Members, pos: nat, key: string, want: Want)
    requires At(body, pos, RenderMembers(ms)) && WFMembers(ms) && Find(ms, key, want, false).Member?
    ensures var m, p := Find(ms, key, want, false), FindPos(ms, pos, key, want, false);
            && p >= pos && At(body, p, RenderMembers(m)) && MembersAt(body, p, m) && WFMembers(m)
            && MembersEnd(m, p) == MembersEnd(ms, pos)
    decreases Count(ms)
  {
    hide At;
    hide StringBody;
    hide WF;
    hide Render;
    RenderedMembersAt(body, pos, ms);
    MembersEndStep(ms, pos);
    if Find(Next(ms, false), key, want, false).Member? {
      hide RenderMembers;
      FoundFurther(ms, key, want, false);
      FoundAt(body, ms.rest, Sep(ms, pos) + 1, key, want);
    }
  }

  /** The text under a member's value span, and the count it spells. */
  lemma {:induction false} SpanReads(body: string, m: Members, p: nat, plan: Plan)
    requires m.Member? && MembersAt(body, p, m) && WFMembers(m)
    ensures 0 <= ValStart(m, p) <= ValEnd(m, p) <= Sep(m, p) <= |body|
    ensures body[ValStart(m, p)..ValEnd(m, p)] == Render(m.val) + if m.val.Scalar? then m.after else ""
    ensures TokenCount(body[ValStart(m, p)..ValEnd(m, p)], plan.float) == CountOf(m.val, plan.float)
  {
    hide WF;
    hide StringBody;
    hide TokenCount;
    hide CountOf;
    AtJoin(body, ValStart(m, p), Render(m.val), m.after);
    SliceAt(body, ValStart(m, p), Render(m.val) + m.after);
    SliceAt(body, ValStart(m, p), Render(m.val));
    SpanCount(m.val, m.after, plan.float);
    assert Render(m.val) + "" == Render(m.val);
  }

  /** Everything the decision reads off the text, said on the tree. */
  lemma {:induction false} SeenIsTree(body: string, v: Value, pos: nat, shape: Shape)
    requires v.Obj? && ProperShape(shape)
    ensures var first := pos + 1 + |v.open|;
            var s := SeeMembers(v.members, first, shape, NOTHING_SEEN);
            var t, p := Find(v.members, shape.details, Objects, false), FindPos(v.members, first, shape.details, Objects, false);
            && s.completion == SpanOf(v.members, first, shape.completion, Any, None)
            && s.direct == SpanOf(v.members, first, REASONING, Any, None)
            && s.details == SpanOf(v.members, first, shape.details, Objects, None)
            && s.other == SpanOf(v.members, first, shape.details, Others, None)
            && s.reasoning == if t.Member?
                              then SpanOf(t.val.members, ValStart(t, p) + 1 + |t.val.open|, REASONING, Any, None) else None
  {
    hide StringBody;
    hide SeeMembers;
    hide LastSpan;
    hide Find;
    hide FindPos;
    hide SpanOf;
    var first := pos + 1 + |v.open|;
    SeesCounts(v.members, first, shape, NOTHING_SEEN);
    SeesDetails(v.members, first, shape, NOTHING_SEEN);
    LastIsFound(v.members, first, shape.completion, None);
    LastIsFound(v.members, first, REASONING, None);
    var t, p := Find(v.members, shape.details, Objects, false), FindPos(v.members, first, shape.details, Objects, false);
    if t.Member? { LastIsFound(t.val.members, ValStart(t, p) + 1 + |t.val.open|, REASONING, None); }
  }

  /** A found member's span read as a count. */
  lemma {:induction false} SpanOfReads(body: string, ms: Members, pos: nat, key: string, want: Want, plan: Plan)
    requires At(body, pos, RenderMembers(ms)) && WFMembers(ms)
    ensures var s, m := SpanOf(ms, pos, key, want, None), Find(ms, key, want, false);
            && InText(s, body) && (s.Some? <==> m.Member?)
            && (m.Member? ==> TokenCount(SpanText(s.value, body), plan.float) == CountOf(m.val, plan.float))
  {
    hide StringBody;
    hide TokenCount;
    hide CountOf;
    var m, p := Find(ms, key, want, false), FindPos(ms, pos, key, want, false);
    if m.Member? {
      FoundAt(body, ms, pos, key, want);
      SpanReads(body, m, p, plan);
    }
  }

  /** An object value standing in a member: its members, by position. */
  lemma {:induction false} InnerMembers(body: string, v: Value, pos: nat)
    requires v.Obj? && WF(v) && At(body, pos, Render(v))
    ensures At(body, pos + 1 + |v.open|, RenderMembers(v.members)) && WFMembers(v.members)
  {
    hide RenderMembers;
    ThreePieces(body, pos, '{', v.open, RenderMembers(v.members), '}');
  }

  lemma {:induction false} CountIsPlanned(body: string, v: Value, pos: nat, plan: Plan, shape: Shape)
    requires v.Obj? && WF(v) && At(body, pos, Render(v)) && ProperShape(shape) && ProperPlan(plan)
    ensures var s := SeeMembers(v.members, pos + 1 + |v.open|, shape, NOTHING_SEEN);
            SeenInText(s, body) && CountToWrite(s, body, plan) == Planned(v, shape, plan, false)
  {
    hide StringBody;
    hide TokenCount;
    hide CountOf;
    hide SeeMembers;
    hide Find;
    hide FindPos;
    hide At;
    hide SpanOf;
    hide SpanText;
    hide Share;
    var first := pos + 1 + |v.open|;
    SeenIsTree(body, v, pos, shape);
    InnerMembers(body, v, pos);
    SpanOfReads(body, v.members, first, shape.completion, Any, plan);
    SpanOfReads(body, v.members, first, REASONING, Any, plan);
    SpanOfReads(body, v.members, first, shape.details, Objects, plan);
    SpanOfReads(body, v.members, first, shape.details, Others, plan);
    if Find(v.members, shape.details, Objects, false).Member? { DetailsRead(body, v, pos, plan, shape); }
  }

  lemma {:induction false} DetailsRead(body: string, v: Value, pos: nat, plan: Plan, shape: Shape)
    requires v.Obj? && WF(v) && At(body, pos, Render(v)) && Find(v.members, shape.details, Objects, false).Member?
    ensures var first := pos + 1 + |v.open|;
            var t, p := Find(v.members, shape.details, Objects, false), FindPos(v.members, first, shape.details, Objects, false);
            var r, s := Find(t.val.members, REASONING, Any, false),
                        SpanOf(t.val.members, ValStart(t, p) + 1 + |t.val.open|, REASONING, Any, None);
            && InText(s, body) && (s.Some? <==> r.Member?)
            && (r.Member? ==> TokenCount(SpanText(s.value, body), plan.float) == CountOf(r.val, plan.float))
  {
    hide StringBody;
    hide TokenCount;
    hide CountOf;
    hide SpanOf;
    hide SpanText;
    hide At;
    var first := pos + 1 + |v.open|;
    InnerMembers(body, v, pos);
    FoundAt(body, v.members, first, shape.details, Objects);
    var t, p := Find(v.members, shape.details, Objects, false), FindPos(v.members, first, shape.details, Objects, false);
    InnerMembers(body, t.val, ValStart(t, p));
    SpanOfReads(body, t.val.members, ValStart(t, p) + 1 + |t.val.open|, REASONING, Any, plan);
  }

  // ---------------------------------------------------------------- one edit in one place

  /** An edit inside the value of the member found, or up to its separator. */
  lemma {:induction false} SetPatched(body: string, ms: Members, pos: nat, key: string, want: Want, e: Edit, v: Value, after: string)
    requires At(body, pos, RenderMembers(ms)) && Find(ms, key, want, false).Member? && MembersEnd(ms, pos) <= |body|
    requires var m, p := Find(ms, key, want, false), FindPos(ms, pos, key, want, false);
             && p >= 0 && Sep(m, p) <= |body| && Within([e], ValStart(m, p), Sep(m, p))
             && Patched(body, ValStart(m, p), Sep(m, p), [e]) == Render(v) + after
    ensures Within([e], pos, MembersEnd(ms, pos))
    ensures Patched(body, pos, MembersEnd(ms, pos), [e]) == RenderMembers(SetAt(ms, key, want, v, after, false))
    decreases Count(ms)
  {
    hide At;
    hide Within;
    hide Patched;
    hide Render;
    RenderedMembersAt(body, pos, ms);
    MembersEndStep(ms, pos);
    hide RenderMembers;
    var next := Sep(ms, pos) + 1;
    if Find(Next(ms, false), key, want, false).NoMembers? {
      UntouchedRest(body, ms, pos);
      assert [e] + [] == [e];
      MemberReplaced(body, pos, ms, [e], [], v, after, ms.rest);
    } else {
      FoundFurther(ms, key, want, false);
      SetPatched(body, ms.rest, next, key, want, e, v, after);
      var start, stop := ValStart(ms, pos), ValStop(ms, pos);
      SliceAt(body, start, Render(ms.val));
      NoEdit(body, start, stop);
      assert [] + [e] == [e];
      MemberPatched(body, pos, ms, [], [e], ms.val, SetAt(ms.rest, key, want, v, after, false));
    }
  }

  lemma {:induction false} UntouchedRest(body: string, ms: Members, pos: nat)
    requires ms.Member? && At(body, pos, RenderMembers(ms))
    ensures RestPatched(body, pos, ms, [], ms.rest)
  {
    hide At;
    hide Render;
    hide RenderMembers;
    hide MembersAt;
    hide Within;
    hide Patched;
    SliceAt(body, pos, RenderMembers(ms));
    RenderedMembersAt(body, pos, ms);
    MembersEndStep(ms, pos);
    if ms.rest.Member? {
      SliceAt(body, Sep(ms, pos) + 1, RenderMembers(ms.rest));
      NoEdit(body, Sep(ms, pos) + 1, MembersEnd(ms, pos));
    }
  }

  /** The text headMember writes, with the comma the object needs. */
  lemma {:induction false} HeadInserted(body: string, v: Value, pos: nat, key: string, val: Value, member: string)
    requires v.Obj? && WF(v) && At(body, pos, Render(v)) && member == Quote(key) + ":" + Render(val)
    ensures var e := Edit(pos + 1, pos + 1, HeadMember(body, pos + 1, member));
            && Within([e], pos, pos + |Render(v)|) && pos + |Render(v)| <= |body|
            && Patched(body, pos, pos + |Render(v)|, [e]) == Render(InsertHead(v, key, val))
  {
    hide StringBody;
    hide At;
    var e, end := Edit(pos + 1, pos + 1, HeadMember(body, pos + 1, member)), pos + |Render(v)|;
    SliceAt(body, pos, Render(v));
    OneEdit(body, e, pos, end) by { FirstByte(v); }
    HeadIsEmpty(body, v, pos);
    var r := Render(v);
    assert body[pos..pos + 1] == r[..1] == "{";
    assert body[pos + 1..end] == r[1..] == v.open + RenderMembers(v.members) + "}";
    hide Render;
    hide RenderMembers;
    hide Quote;
    hide HeadMember;
    HeadText(v, key, val, member, HeadMember(body, pos + 1, member));
  }

  lemma {:induction false} HeadText(v: Value, key: string, val: Value, member: string, repl: string)
    requires v.Obj? && (v.members.Member? ==> v.open == "") && member == Quote(key) + ":" + Render(val)
    requires repl == if v.members.NoMembers? then member else member + ","
    ensures "{" + repl + (v.open + RenderMembers(v.members) + "}") == Render(InsertHead(v, key, val))
  {
    hide Quote;
    HeadMemberText(v, key, val, member);
    if v.members.NoMembers? {
      NothingRendered();
      Regroup5("{", member, v.open, "", "}");
    } else {
      Regroup5("{", member, ",", RenderMembers(v.members), "}");
    }
    hide RenderMembers;
    assert Render(InsertHead(v, key, val)) == "{" + "" + RenderMembers(InsertHead(v, key, val).members) + "}";
  }

  lemma {:induction false} NothingRendered() ensures RenderMembers(NoMembers) == "" {}

  lemma {:induction false} Regroup5(a: string, b: string, c: string, d: string, e: string)
    ensures a + b + (c + d + e) == a + "" + (b + c + d) + e
    ensures a + (b + c) + ("" + d + e) == a + "" + (b + c + d) + e
  {}

  lemma {:induction false} HeadMemberText(v: Value, key: string, val: Value, member: string)
    requires v.Obj? && member == Quote(key) + ":" + Render(val)
    ensures RenderMembers(InsertHead(v, key, val).members) ==
            if v.members.NoMembers? then member + v.open + "" else member + "," + RenderMembers(v.members)
  {
    hide Quote;
    hide Render;
    var ms := InsertHead(v, key, val).members;
    FirstRendered(ms);
    hide RenderMembers;
    DropEmpty(Quote(key), Render(val), ms.after, Tail(v.members));
    if v.members.Member? { DropEmptyAfter(member, RenderMembers(v.members)); }
  }

  lemma {:induction false} DropEmpty(k: string, x: string, after: string, tail: string)
    ensures "" + k + "" + ":" + "" + x + after + tail == k + ":" + x + after + tail
  {
    assert "" + k == k && k + "" == k && k + ":" + "" == k + ":";
  }

  lemma {:induction false} DropEmptyAfter(a: string, b: string)
    ensures a + "" + ("," + b) == a + "," + b
  {}

  lemma {:induction false} HeadIsEmpty(body: string, v: Value, pos: nat)
    requires v.Obj? && WF(v) && At(body, pos, Render(v))
    ensures ClosesAt(body, pos + 1) <==> v.members.NoMembers?
  {
    hide StringBody;
    hide Render;
    hide RenderMembers;
    StartOfObject(body, pos, v);
    hide At;
    hide MembersAt;
    hide ClosesAt;
    if v.members.NoMembers? {
      BlanksThen(body, pos + 1, v.open);
    } else {
      RenderedMembersAt(body, pos + 1, v.members);
      KeyBytes(body, pos + 1, v.members);
      BeforeAt(body, pos + 1, v.members);
      BlanksThen(body, pos + 1, v.members.before);
    }
  }

  lemma {:induction false} BeforeAt(body: string, pos: nat, ms: Members)
    requires ms.Member? && MembersAt(body, pos, ms) && WFMembers(ms)
    ensures At(body, pos, ms.before) && Blank(ms.before)
  {
    hide At;
    hide Render;
    hide StringBody;
    hide WF;
  }

  lemma {:induction false} BlanksThen(body: string, i: nat, blanks: string)
    requires At(body, i, blanks) && Blank(blanks) && i + |blanks| < |body| && !IsWS(body[i + |blanks|])
    ensures ClosesAt(body, i) <==> body[i + |blanks|] == '}'
  {
    forall k | i <= k < i + |blanks| ensures IsWS(body[k]) { AtIndex(body, i, blanks, k - i); }
  }

  // ---------------------------------------------------------------- the edit of one usage object

  function AsEdits(e: Option<Edit>): seq<Edit> { if e.Some? then [e.value] else [] }

  /** The decided edit turns the usage object into the synthesized one. */
  lemma {:induction false} UsagePatched(body: string, v: Value, pos: nat, plan: Plan, shape: Shape)
    requires v.Obj? && WF(v) && At(body, pos, Render(v)) && ProperShape(shape) && ProperPlan(plan)
    ensures pos + |Render(v)| <= |body|
    ensures var es := AsEdits(UsageEditAt(body, v, pos, plan, shape));
            && Within(es, pos, pos + |Render(v)|)
            && Patched(body, pos, pos + |Render(v)|, es) == Render(SynthUsage(v, shape, plan, false))
  {
    hide StringBody;
    hide At;
    hide Render;
    hide Within;
    hide Patched;
    hide SeeMembers;
    hide CountToWrite;
    hide Planned;
    hide Enriched;
    hide Find;
    hide FindPos;
    hide WF;
    hide HeadMember;
    hide SpanText;
    SliceAt(body, pos, Render(v));
    CountIsPlanned(body, v, pos, plan, shape);
    SeenIsTree(body, v, pos, shape);
    var count := Planned(v, shape, plan, false);
    if count.None? {
      NoEdit(body, pos, pos + |Render(v)|);
    } else {
      var n := count.value;
      if Find(v.members, shape.details, Target(v, shape, false), false).NoMembers? {
        NoTarget(v, shape);
        InsertDetails(body, v, pos, shape, n);
      } else {
        EnrichDetails(body, v, pos, plan, shape, n);
      }
    }
  }

  /** With no target there is no details member to consult at all. */
  lemma {:induction false} NoTarget(v: Value, shape: Shape)
    requires v.Obj? && Find(v.members, shape.details, Target(v, shape, false), false).NoMembers?
    ensures Find(v.members, shape.details, Objects, false).NoMembers? && Find(v.members, shape.details, Others, false).NoMembers?
    ensures DetailsReasoning(v, shape, false).NoMembers?
  {}

  lemma {:induction false} InsertDetails(body: string, v: Value, pos: nat, shape: Shape, n: nat)
    requires v.Obj? && WF(v) && At(body, pos, Render(v))
    requires Find(v.members, shape.details, Target(v, shape, false), false).NoMembers?
    ensures var e := Edit(pos + 1, pos + 1, HeadMember(body, pos + 1, DetailsMember(shape, n)));
            && pos + |Render(v)| <= |body| && Within([e], pos, pos + |Render(v)|)
            && Patched(body, pos, pos + |Render(v)|, [e]) == Render(Enriched(v, shape, n, false))
  {
    hide StringBody;
    hide At;
    hide Within;
    hide Patched;
    hide HeadMember;
    hide WF;
    ReasoningText(n);
    hide Render;
    hide RenderMembers;
    hide Quote;
    assert Quote(shape.details) + ":" + ("{" + ReasoningMember(n) + "}") == DetailsMember(shape, n) by {
      assert ":{" == ":" + "{";
    }
    HeadInserted(body, v, pos, shape.details, ReasoningObject(n), DetailsMember(shape, n));
  }

  lemma {:induction false} ReasoningText(n: nat)
    ensures Render(ReasoningObject(n)) == "{" + ReasoningMember(n) + "}"
  {
    var ms := ReasoningObject(n).members;
    assert RenderMembers(ms) == "" + Quote(REASONING) + "" + ":" + "" + Decimal(n) + "" + "";
    assert RenderMembers(ms) == ReasoningMember(n);
    assert "{" + "" + RenderMembers(ms) + "}" == "{" + ReasoningMember(n) + "}";
  }

  /** The edit decided for a usage object that has a details member. */
  ghost function DetailsEdit(body: string, t: Members, p: int, n: nat): Option<Edit>
    requires t.Member?
  {
    if !t.val.Obj? then Some(Edit(ValStart(t, p), ValEnd(t, p), "{" + ReasoningMember(n) + "}"))
    else
      var first := ValStart(t, p) + 1 + |t.val.open|;
      var r, q := Find(t.val.members, REASONING, Any, false), FindPos(t.val.members, first, REASONING, Any, false);
      if r.NoMembers? then
        Some(Edit(ValStart(t, p) + 1, ValStart(t, p) + 1, HeadMember(body, ValStart(t, p) + 1, ReasoningMember(n))))
      else if 0 <= ValStart(r, q) <= ValEnd(r, q) <= |body| && body[ValStart(r, q)..ValEnd(r, q)] == Decimal(n) then None
      else Some(Edit(ValStart(r, q), ValEnd(r, q), Decimal(n)))
  }

  lemma {:induction false} DecidedEdit(body: string, v: Value, pos: nat, plan: Plan, shape: Shape, n: nat)
    requires v.Obj? && WF(v) && At(body, pos, Render(v)) && ProperShape(shape) && ProperPlan(plan)
    requires Planned(v, shape, plan, false) == Some(n) && Find(v.members, shape.details, Target(v, shape, false), false).Member?
    ensures var first := pos + 1 + |v.open|;
            var want := Target(v, shape, false);
            var t, p := Find(v.members, shape.details, want, false), FindPos(v.members, first, shape.details, want, false);
            UsageEditAt(body, v, pos, plan, shape) == DetailsEdit(body, t, p, n)
  {
    hide StringBody;
    hide At;
    hide SeeMembers;
    hide CountToWrite;
    hide Planned;
    hide Find;
    hide FindPos;
    hide WF;
    hide HeadMember;
    CountIsPlanned(body, v, pos, plan, shape);
    SeenIsTree(body, v, pos, shape);
  }

  lemma {:induction false} EnrichDetails(body: string, v: Value, pos: nat, plan: Plan, shape: Shape, n: nat)
    requires v.Obj? && WF(v) && At(body, pos, Render(v)) && ProperShape(shape) && ProperPlan(plan)
    requires Planned(v, shape, plan, false) == Some(n) && Find(v.members, shape.details, Target(v, shape, false), false).Member?
    ensures pos + |Render(v)| <= |body|
    ensures var es := AsEdits(UsageEditAt(body, v, pos, plan, shape));
            && Within(es, pos, pos + |Render(v)|)
            && Patched(body, pos, pos + |Render(v)|, es) == Render(Enriched(v, shape, n, false))
  {
    hide StringBody;
    hide At;
    hide Within;
    hide Patched;
    hide Find;
    hide FindPos;
    hide WF;
    hide DetailsEdit;
    hide UsageEditAt;
    hide NewDetails;
    hide Render;
    hide RenderMembers;
    hide SetAt;
    hide Planned;
    hide Target;
    DecidedEdit(body, v, pos, plan, shape, n);
    SliceAt(body, pos, Render(v));
    InnerMembers(body, v, pos);
    var first, want := pos + 1 + |v.open|, Target(v, shape, false);
    var t, p := Find(v.members, shape.details, want, false), FindPos(v.members, first, shape.details, want, false);
    FoundAt(body, v.members, first, shape.details, want);
    DetailsPatched(body, v, shape, plan, t, p, n);
    var e := DetailsEdit(body, t, p, n);
    var after := if t.val.Scalar? then "" else t.after;
    ObjectFits(body, v, pos);
    if e.Some? {
      SetPatched(body, v.members, first, shape.details, want, e.value, NewDetails(t.val, n, false), after);
      ObjectPatched(body, pos, v, [e.value], SetAt(v.members, shape.details, want, NewDetails(t.val, n, false), after, false));
    } else {
      SetSame(v.members, shape.details, want, false);
      NoEdit(body, pos, pos + |Render(v)|);
    }
  }

  lemma {:induction false} ObjectFits(body: string, v: Value, pos: nat)
    requires v.Obj? && At(body, pos, Render(v))
    ensures MembersEnd(v.members, pos + 1 + |v.open|) < |body|
  {
    hide RenderMembers;
  }

  lemma {:induction false} SetSame(ms: Members, key: string, want: Want, all: bool)
    requires Find(ms, key, want, all).Member?
    ensures var m := Find(ms, key, want, all); SetAt(ms, key, want, m.val, m.after, all) == ms
    decreases ms
  {
    if Find(Next(ms, all), key, want, all).Member? {
      FoundFurther(ms, key, want, all);
      SetSame(ms.rest, key, want, all);
    }
  }

  /** The details member under its edit, up to its separator. */
  lemma {:induction false} DetailsPatched(body: string, v: Value, shape: Shape, plan: Plan, t: Members, p: nat, n: nat)
    requires v.Obj? && ProperPlan(plan) && t == Find(v.members, shape.details, Target(v, shape, false), false) && t.Member?
    requires MembersAt(body, p, t) && WFMembers(t) && Planned(v, shape, plan, false) == Some(n)
    ensures Sep(t, p) <= |body|
    ensures var e, after := DetailsEdit(body, t, p, n), if t.val.Scalar? then "" else t.after;
            if e.Some? then
              && Within([e.value], ValStart(t, p), Sep(t, p))
              && Patched(body, ValStart(t, p), Sep(t, p), [e.value]) == Render(NewDetails(t.val, n, false)) + after
            else NewDetails(t.val, n, false) == t.val && t.val.Obj?
  {
    hide StringBody;
    hide At;
    hide Within;
    hide Patched;
    hide Render;
    hide Find;
    hide FindPos;
    hide WF;
    hide HeadMember;
    hide SetAt;
    SpanReads(body, t, p, plan);
    var start, stop, sep := ValStart(t, p), ValStop(t, p), Sep(t, p);
    if !t.val.Obj? {
      ReplaceDetails(body, t, p, n);
    } else {
      var r := Find(t.val.members, REASONING, Any, false);
      SliceAt(body, stop, t.after);
      if r.NoMembers? {
        HeadInserted(body, t.val, start, REASONING, Scalar(Decimal(n)), ReasoningMember(n)) by { ScalarText(Decimal(n)); }
        WithAfter(body, t, p, Edit(start + 1, start + 1, HeadMember(body, start + 1, ReasoningMember(n))),
                  NewDetails(t.val, n, false));
      } else {
        ReplaceReasoning(body, t, p, n);
      }
    }
  }

  lemma {:induction false} ScalarText(lit: string) ensures Render(Scalar(lit)) == lit {}

  /** An edit confined to the value leaves the whitespace behind it. */
  lemma {:induction false} WithAfter(body: string, t: Members, p: nat, e: Edit, v: Value)
    requires t.Member? && MembersAt(body, p, t) && Sep(t, p) <= |body|
    requires Within([e], ValStart(t, p), ValStop(t, p))
    requires Patched(body, ValStart(t, p), ValStop(t, p), [e]) == Render(v)
    ensures Within([e], ValStart(t, p), Sep(t, p))
    ensures Patched(body, ValStart(t, p), Sep(t, p), [e]) == Render(v) + t.after
  {
    hide At;
    hide Within;
    hide Patched;
    hide Render;
    var start, stop, sep := ValStart(t, p), ValStop(t, p), Sep(t, p);
    SliceAt(body, stop, t.after);
    NoEdit(body, stop, sep);
    assert [e] + [] == [e];
    PatchedConcat(body, start, stop, sep, [e], []);
  }

  /** A details value that is not an object is replaced whole. */
  lemma {:induction false} ReplaceDetails(body: string, t: Members, p: nat, n: nat)
    requires t.Member? && !t.val.Obj? && MembersAt(body, p, t) && Sep(t, p) <= |body|
    ensures var e := Edit(ValStart(t, p), ValEnd(t, p), "{" + ReasoningMember(n) + "}");
            && Within([e], ValStart(t, p), Sep(t, p))
            && Patched(body, ValStart(t, p), Sep(t, p), [e]) ==
               Render(ReasoningObject(n)) + if t.val.Scalar? then "" else t.after
  {
    hide At;
    hide Within;
    hide Patched;
    hide Render;
    hide ReasoningMember;
    hide RenderMembers;
    ReasoningText(n);
    SliceAt(body, ValStop(t, p), t.after);
    MembersEndStep(t, p);
    var a, b, c := ValStart(t, p), ValEnd(t, p), Sep(t, p);
    assert body[b..c] == if t.val.Scalar? then "" else t.after;
    var text := "{" + ReasoningMember(n) + "}";
    OneEdit(body, Edit(a, b, text), a, c);
    assert body[a..a] + text + body[b..c] == text + body[b..c];
  }

  /** An explicit zero inside the details object has its digits replaced. */
  lemma {:induction false} ReplaceReasoning(body: string, t: Members, p: nat, n: nat)
    requires t.Member? && t.val.Obj? && MembersAt(body, p, t) && WFMembers(t) && Sep(t, p) <= |body|
    requires var r := Find(t.val.members, REASONING, Any, false); r.Member? && r.val.Scalar?
    ensures var e := DetailsEdit(body, t, p, n);
            if e.Some? then
              && Within([e.value], ValStart(t, p), Sep(t, p))
              && Patched(body, ValStart(t, p), Sep(t, p), [e.value]) == Render(NewDetails(t.val, n, false)) + t.after
            else NewDetails(t.val, n, false) == t.val
  {
    hide StringBody;
    hide At;
    hide Within;
    hide Patched;
    hide Find;
    hide FindPos;
    hide WF;
    hide SetAt;
    hide MembersAt;
    hide WFMembers;
    hide Render;
    hide RenderMembers;
    var start := ValStart(t, p);
    var first := start + 1 + |t.val.open|;
    ReasoningFound(body, t, p);
    var r, q := Find(t.val.members, REASONING, Any, false), FindPos(t.val.members, first, REASONING, Any, false);
    var e := DetailsEdit(body, t, p, n);
    if e.Some? {
      DigitsReplaced(body, r, q, n);
      SetPatched(body, t.val.members, first, REASONING, Any, e.value, Scalar(Decimal(n)), "");
      ObjectPatched(body, start, t.val, [e.value], SetAt(t.val.members, REASONING, Any, Scalar(Decimal(n)), "", false));
      WithAfter(body, t, p, e.value, NewDetails(t.val, n, false));
    } else {
      SameDigits(r.val.lit, r.after, n);
      SetSame(t.val.members, REASONING, Any, false);
    }
  }

  lemma {:induction false} ReasoningFound(body: string, t: Members, p: nat)
    requires t.Member? && t.val.Obj? && MembersAt(body, p, t) && WFMembers(t) && Sep(t, p) <= |body|
    requires var r := Find(t.val.members, REASONING, Any, false); r.Member? && r.val.Scalar?
    ensures var first := ValStart(t, p) + 1 + |t.val.open|;
            var r, q := Find(t.val.members, REASONING, Any, false), FindPos(t.val.members, first, REASONING, Any, false);
            && At(body, ValStart(t, p), Render(t.val)) && At(body, first, RenderMembers(t.val.members))
            && MembersEnd(t.val.members, first) < |body|
            && 0 <= q && 0 <= ValStart(r, q) <= ValEnd(r, q) == Sep(r, q) <= |body|
            && body[ValStart(r, q)..ValEnd(r, q)] == r.val.lit + r.after && Blank(r.after)
  {
    hide StringBody;
    hide At;
    hide Find;
    hide FindPos;
    hide WF;
    hide RenderMembers;
    var start := ValStart(t, p);
    var first := start + 1 + |t.val.open|;
    InnerMembers(body, t.val, start);
    FoundAt(body, t.val.members, first, REASONING, Any);
    var r, q := Find(t.val.members, REASONING, Any, false), FindPos(t.val.members, first, REASONING, Any, false);
    SpanReads(body, r, q, Plan(false, 0.0, s => None));
    ObjectFits(body, t.val, start);
    ScalarText(r.val.lit);
  }

  lemma {:induction false} DigitsReplaced(body: string, r: Members, q: nat, n: nat)
    requires r.Member? && r.val.Scalar? && Sep(r, q) <= |body|
    ensures var e := Edit(ValStart(r, q), ValEnd(r, q), Decimal(n));
            && Within([e], ValStart(r, q), Sep(r, q))
            && Patched(body, ValStart(r, q), Sep(r, q), [e]) == Render(Scalar(Decimal(n))) + ""
  {
    hide Within;
    hide Patched;
    var a, b := ValStart(r, q), Sep(r, q);
    OneEdit(body, Edit(a, b, Decimal(n)), a, b);
    assert body[a..a] + Decimal(n) + body[b..b] == Decimal(n) + "";
  }

  lemma {:induction false} SameDigits(lit: string, after: string, n: nat)
    requires lit + after == Decimal(n) && Blank(after)
    ensures lit == Decimal(n) && after == ""
  {
    hide Decimal;
    hide Natural;
    DecimalDigits(n);
    NoBlankDigits(lit, after);
    assert lit + "" == lit;
  }

  lemma {:induction false} NoBlankDigits(lit: string, after: string)
    requires AllDigits(lit + after) && Blank(after)
    ensures after == ""
  {
    BlankFollows(lit, after);
  }

  lemma {:induction false} BlankFollows(lit: string, after: string)
    requires Blank(after)
    ensures after != "" ==> IsWS((lit + after)[|lit|])
  {
    if after != "" { assert (lit + after)[|lit|] == after[0]; }
  }
}
