/** The usage synthesizers as a whole, and how far they keep the promise of internal/inject/usage.go. */
module UsageDoc {
  import opened Wrappers
  import opened Json
  import opened Edits
  import opened Scan
  import opened Walk
  import opened Patch
  import opened Tokens
  import opened Usage
  import opened UsageTree

  function SynthDoc(d: Doc, shape: Shape, plan: Plan, descend: bool, all: bool): Doc
    requires ProperPlan(plan)
  {
    if plan.active then d.(root := SynthValue(d.root, shape, plan, descend, all)) else d
  }

  /** synthesizeUsage.  `valid` is the answer of json.Valid on `body`, and `d` the document it
      stands for.  What comes out is the synthesis on the tree, as far as the loops read. */
  method SynthesizeUsage(body: string, valid: bool, plan: Plan, shape: Shape, descend: bool, ghost d: Doc)
      returns (out: string)
    requires valid <==> IsJson(body)
    requires valid ==> WFDoc(d) && RenderDoc(d) == body
    requires ProperShape(shape) && ProperPlan(plan)
    ensures out == if valid then RenderDoc(SynthDoc(d, shape, plan, descend, false)) else body
  {
    hide SynthValue;
    hide Within;
    hide Patched;
    if !plan.active || !valid {
      return body;
    }
    DocAt(d);
    SplicedIsSynthesized(d, plan, shape, descend);
    if !Contains(body, Quote("usage")) {
      NoUsageNoChange(d, plan, shape, descend, false);
      return body;
    }
    var edits := ScanUsageEdits(body, 0, |body|, plan, shape, descend, [], d.lead, d.root);
    assert edits == ObjectUsageEdits(body, d.root, |d.lead|, plan, shape, descend);
    if |edits| == 0 {
      assert body[0..] == body;
      return body;
    }
    var r := Splice(body, edits);
    out := r.text;
  }

  // ---------------------------------------------------------------- the edits render the synthesized tree

  lemma {:induction false} MembersSynthesized(body: string, ms: Members, pos: nat, plan: Plan, shape: Shape, descend: bool)
    requires At(body, pos, RenderMembers(ms)) && WFMembers(ms)
    requires ProperShape(shape) && ProperPlan(plan)
    ensures MembersEnd(ms, pos) <= |body|
    ensures Within(UsageEdits(body, ms, pos, plan, shape, descend), pos, MembersEnd(ms, pos))
    ensures Patched(body, pos, MembersEnd(ms, pos), UsageEdits(body, ms, pos, plan, shape, descend)) ==
            RenderMembers(SynthMembers(ms, shape, plan, descend, false))
    decreases ms
  {
    hide Within;
    hide Patched;
    hide At;
    hide EditsInside;
    hide SynthMember;
    hide StringBody;
    hide WF;
    SliceAt(body, pos, RenderMembers(ms));
    if ms.NoMembers? {
      NoEdit(body, pos, pos);
    } else {
      hide RenderMembers;
      RenderedMembersAt(body, pos, ms);
      MembersEndStep(ms, pos);
      MemberSynthesized(body, ms, pos, plan, shape, descend);
      var later := UsageEdits(body, ms.rest, Sep(ms, pos) + 1, plan, shape, descend);
      if ms.rest.Member? {
        MembersSynthesized(body, ms.rest, Sep(ms, pos) + 1, plan, shape, descend);
      } else {
        NoMembersNoEdits(body, Sep(ms, pos) + 1, plan, shape, descend);
      }
      MemberPatched(body, pos, ms, EditsInside(body, ms, pos, plan, shape, descend), later,
                    SynthMember(ms, shape, plan, descend, false), SynthMembers(ms.rest, shape, plan, descend, false));
    }
  }

  lemma {:induction false} MemberSynthesized(body: string, ms: Members, pos: nat, plan: Plan, shape: Shape, descend: bool)
    requires ms.Member? && MembersAt(body, pos, ms) && WFMembers(ms)
    requires ProperShape(shape) && ProperPlan(plan) && ValStop(ms, pos) <= |body|
    ensures Within(EditsInside(body, ms, pos, plan, shape, descend), ValStart(ms, pos), ValStop(ms, pos))
    ensures Patched(body, ValStart(ms, pos), ValStop(ms, pos), EditsInside(body, ms, pos, plan, shape, descend)) ==
            Render(SynthMember(ms, shape, plan, descend, false))
    decreases ms, 0
  {
    hide Within;
    hide Patched;
    hide ObjectUsageEdits;
    hide UsageEditAt;
    hide SynthUsage;
    hide At;
    hide Render;
    hide StringBody;
    hide WF;
    var a, b := ValStart(ms, pos), ValStop(ms, pos);
    if ms.key == "usage" && ms.val.Obj? {
      UsagePatched(body, ms.val, a, plan, shape);
    } else if descend && ms.key == "response" && ms.val.Obj? {
      ObjectSynthesized(body, ms.val, a, plan, shape, false);
    } else {
      SliceAt(body, a, Render(ms.val));
      NoEdit(body, a, b);
    }
  }

  lemma {:induction false} ObjectSynthesized(body: string, v: Value, pos: nat, plan: Plan, shape: Shape, descend: bool)
    requires At(body, pos, Render(v)) && WF(v)
    requires ProperShape(shape) && ProperPlan(plan)
    ensures pos + |Render(v)| <= |body|
    ensures Within(ObjectUsageEdits(body, v, pos, plan, shape, descend), pos, pos + |Render(v)|)
    ensures Patched(body, pos, pos + |Render(v)|, ObjectUsageEdits(body, v, pos, plan, shape, descend)) ==
            Render(SynthValue(v, shape, plan, descend, false))
    decreases v
  {
    hide Within;
    hide Patched;
    hide UsageEdits;
    hide RenderMembers;
    hide StringBody;
    SliceAt(body, pos, Render(v));
    if v.Obj? {
      ThreePieces(body, pos, '{', v.open, RenderMembers(v.members), '}');
      MembersSynthesized(body, v.members, pos + 1 + |v.open|, plan, shape, descend);
      ObjectPatched(body, pos, v, UsageEdits(body, v.members, pos + 1 + |v.open|, plan, shape, descend),
                    SynthMembers(v.members, shape, plan, descend, false));
    } else {
      NoEdit(body, pos, pos + |Render(v)|);
    }
  }

  lemma {:induction false} SplicedIsSynthesized(d: Doc, plan: Plan, shape: Shape, descend: bool)
    requires WFDoc(d) && ProperShape(shape) && ProperPlan(plan)
    ensures SpliceFrom(RenderDoc(d), 0, ObjectUsageEdits(RenderDoc(d), d.root, |d.lead|, plan, shape, descend)) ==
            Text(RenderDoc(d.(root := SynthValue(d.root, shape, plan, descend, false))))
  {
    hide Within;
    hide Patched;
    hide Render;
    hide ObjectUsageEdits;
    hide SynthValue;
    var body := RenderDoc(d);
    DocAt(d);
    ObjectSynthesized(body, d.root, |d.lead|, plan, shape, descend);
    DocPatched(d, ObjectUsageEdits(body, d.root, |d.lead|, plan, shape, descend),
               SynthValue(d.root, shape, plan, descend, false));
  }

  // ---------------------------------------------------------------- the gate

  lemma {:induction false} NoUsageMembers(body: string, ms: Members, pos: nat, plan: Plan, shape: Shape, descend: bool, all: bool)
    requires MembersAt(body, pos, ms) && !Contains(body, Quote("usage")) && ProperPlan(plan)
    ensures SynthMembers(ms, shape, plan, descend, all) == ms
    decreases ms
  {
    hide Contains;
    hide At;
    if ms.Member? {
      if ms.key == "usage" { Mentioned(body, KeyStart(ms, pos)); }
      if ms.rest.Member? { NoUsageMembers(body, ms.rest, Sep(ms, pos) + 1, plan, shape, descend, all); }
      NoUsageValue(body, ms.val, ValStart(ms, pos), plan, shape, false, all);
    }
  }

  lemma {:induction false} Mentioned(body: string, i: int)
    requires At(body, i, Quote("usage"))
    ensures Contains(body, Quote("usage"))
  {}

  lemma {:induction false} NoUsageValue(body: string, v: Value, pos: nat, plan: Plan, shape: Shape, descend: bool, all: bool)
    requires At(body, pos, Render(v)) && !Contains(body, Quote("usage")) && ProperPlan(plan)
    ensures SynthValue(v, shape, plan, descend, all) == v
    decreases v
  {
    hide Contains;
    if v.Obj? {
      ObjectAt(body, pos, v);
      NoUsageMembers(body, v.members, pos + 1 + |v.open|, plan, shape, descend, all);
    }
  }

  /** A document that never mentions "usage" is its own synthesis. */
  lemma {:induction false} NoUsageNoChange(d: Doc, plan: Plan, shape: Shape, descend: bool, all: bool)
    requires !Contains(RenderDoc(d), Quote("usage")) && ProperPlan(plan)
    ensures SynthDoc(d, shape, plan, descend, all) == d
  {
    DocAt(d);
    NoUsageValue(RenderDoc(d), d.root, |d.lead|, plan, shape, descend, all);
  }
}
