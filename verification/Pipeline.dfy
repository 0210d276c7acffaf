/** The composed response rewriter of internal/proxy/handler.go: rename, synthesis, strip, in that
    order; the per-line gate in front of it; and the members it owns. */
module Pipeline {
  import opened Wrappers
  import opened Json
  import opened Edits
  import opened Scan
  import opened Walk
  import opened Tokens
  import opened Strip
  import opened StripTree
  import opened StripDoc
  import opened StripMeaning
  import opened Model
  import opened Usage
  import opened UsageTree
  import opened UsageDoc
  import opened StripPath

  /** What a request binds: the public model name as a JSON string body, the synthesis plan, the
      strip list, and whether the API is Responses. */
  datatype Rewrite = Rewrite(name: string, plan: Plan, paths: seq<seq<string>>, nested: bool)

  function ShapeOf(w: Rewrite): Shape { if w.nested then RESPONSES_SHAPE else CHAT_SHAPE }

  function ScopeOf(w: Rewrite): Scope { Scope(w.paths, 0, w.nested) }

  /** The document as the strip finds it. */
  function OwnedDoc(d: Doc, w: Rewrite): Doc
    requires ProperPlan(w.plan)
  {
    SynthDoc(RenameDoc(d, w.name, w.nested), ShapeOf(w), w.plan, w.nested, false)
  }

  predicate Proper(w: Rewrite) { ProperPlan(w.plan) && StringBody(w.name) && Apart(ScopeOf(w)) }

  lemma {:induction false} ShapesAreProper(w: Rewrite)
    ensures ProperShape(ShapeOf(w)) && StringBody(REASONING)
  {
    hide StringBody;
    LowerCaseBody("completion_tokens");
    LowerCaseBody("completion_tokens_details");
    LowerCaseBody("output_tokens");
    LowerCaseBody("output_tokens_details");
    LowerCaseBody("reasoning_tokens");
  }

  /** The members each API counts its completion in. */
  lemma {:induction false} ShapesByApi(w: Rewrite)
    ensures !w.nested ==> ShapeOf(w) == Shape("completion_tokens", "completion_tokens_details")
    ensures w.nested ==> ShapeOf(w) == Shape("output_tokens", "output_tokens_details")
  {}

  /** rewriteOut.  Invalid payloads pass through; valid ones become the renamed, synthesized and
      stripped document, unless the strip's edits collide. */
  method RewriteOut(body: string, valid: bool, w: Rewrite, ghost d: Doc) returns (r: Outcome)
    requires valid <==> IsJson(body)
    requires valid ==> WFDoc(d) && RenderDoc(d) == body
    requires Proper(w)
    ensures r == if valid then StripOutcome(OwnedDoc(d, w), ScopeOf(w)) else Text(body)
  {
    hide StripOutcome;
    hide RenameValue;
    hide SynthValue;
    hide WF;
    hide StringBody;
    ShapesAreProper(w);
    ghost var d1, d2 := RenameDoc(d, w.name, w.nested), OwnedDoc(d, w);
    if valid {
      RenameKeepsWF(d.root, w.name, w.nested);
      SynthKeepsWF(d1.root, ShapeOf(w), w.plan, w.nested, false);
    }
    var out := RewriteModel(body, valid, w.name, w.nested, d);
    if w.plan.active {
      out := SynthesizeUsage(out, valid, w.plan, ShapeOf(w), w.nested, d1);
    }
    if |w.paths| > 0 {
      r := StripFields(out, valid, w.paths, w.nested, d2);
    } else {
      r := Text(out);
      if valid { GateIsSound(d2, ScopeOf(w)); }
    }
  }

  // ---------------------------------------------------------------- each stage leaves the next a document

  lemma {:induction false} SetKeepsWF(ms: Members, key: string, want: Want, v: Value, after: string, all: bool)
    requires WFMembers(ms) && Find(ms, key, want, all).Member? && WF(v) && Blank(after)
    ensures WFMembers(SetAt(ms, key, want, v, after, all))
    decreases ms
  {
    hide StringBody;
    if Find(Next(ms, all), key, want, all).Member? {
      FoundFurther(ms, key, want, all);
      SetKeepsWF(ms.rest, key, want, v, after, all);
    }
  }

  lemma {:induction false} FoundIsWF(ms: Members, key: string, want: Want, all: bool)
    requires WFMembers(ms)
    ensures WFMembers(Find(ms, key, want, all))
    decreases Count(ms)
  {
    hide StringBody;
    if ms.Member? { FoundIsWF(Next(ms, all), key, want, all); }
  }

  lemma {:induction false} ReasoningWF(n: nat)
    requires StringBody(REASONING) && n < 0x8000_0000_0000_0000
    ensures WF(Scalar(Decimal(n))) && WF(ReasoningObject(n))
  {
    hide StringBody;
    DecimalRoundTrip(n, s => None);
    hide Decimal;
    assert WF(Scalar(Decimal(n)));
    InsertWF(Obj("", NoMembers), REASONING, Scalar(Decimal(n)));
  }

  lemma {:induction false} InsertWF(v: Value, key: string, val: Value)
    requires v.Obj? && WF(v) && StringBody(key) && WF(val)
    ensures WF(InsertHead(v, key, val))
  {
    hide StringBody;
    var ms := InsertHead(v, key, val).members;
    assert WFMembers(ms);
  }

  lemma {:induction false} EnrichedIsWF(v: Value, shape: Shape, n: nat, all: bool)
    requires v.Obj? && WF(v) && StringBody(shape.details) && StringBody(REASONING) && n < 0x8000_0000_0000_0000
    ensures WF(Enriched(v, shape, n, all))
  {
    hide StringBody;
    hide Find;
    ReasoningWF(n);
    var want := Target(v, shape, all);
    FoundIsWF(v.members, shape.details, want, all);
    var t := Find(v.members, shape.details, want, all);
    if t.NoMembers? {
      InsertWF(v, shape.details, ReasoningObject(n));
    } else {
      NewDetailsWF(t.val, n, all);
      SetKeepsWF(v.members, shape.details, want, NewDetails(t.val, n, all), if t.val.Scalar? then "" else t.after, all);
    }
  }

  lemma {:induction false} NewDetailsWF(v: Value, n: nat, all: bool)
    requires WF(v) && StringBody(REASONING) && n < 0x8000_0000_0000_0000
    ensures WF(NewDetails(v, n, all))
  {
    hide StringBody;
    hide Find;
    ReasoningWF(n);
    if v.Obj? {
      if Find(v.members, REASONING, Any, all).Member? {
        SetKeepsWF(v.members, REASONING, Any, Scalar(Decimal(n)), "", all);
      } else {
        InsertWF(v, REASONING, Scalar(Decimal(n)));
      }
    }
  }

  lemma {:induction false} SynthUsageWF(v: Value, shape: Shape, plan: Plan, all: bool)
    requires v.Obj? && WF(v) && ProperPlan(plan) && StringBody(shape.details) && StringBody(REASONING)
    ensures WF(SynthUsage(v, shape, plan, all))
  {
    hide WF;
    hide StringBody;
    hide Find;
    var count := Planned(v, shape, plan, all);
    if count.Some? { EnrichedIsWF(v, shape, count.value, all); }
  }

  lemma {:induction false} SynthKeepsWF(v: Value, shape: Shape, plan: Plan, descend: bool, all: bool)
    requires WF(v) && ProperPlan(plan) && StringBody(shape.details) && StringBody(REASONING)
    ensures WF(SynthValue(v, shape, plan, descend, all))
    decreases v
  {
    if v.Obj? { SynthKeepsMembersWF(v.members, shape, plan, descend, all); }
  }

  lemma {:induction false} SynthKeepsMembersWF(ms: Members, shape: Shape, plan: Plan, descend: bool, all: bool)
    requires WFMembers(ms) && ProperPlan(plan) && StringBody(shape.details) && StringBody(REASONING)
    ensures WFMembers(SynthMembers(ms, shape, plan, descend, all))
    decreases ms
  {
    hide StringBody;
    hide WF;
    hide SynthUsage;
    if ms.Member? {
      SynthKeepsMembersWF(ms.rest, shape, plan, descend, all);
      if ms.key == "usage" && ms.val.Obj? { SynthUsageWF(ms.val, shape, plan, all); }
      SynthKeepsWF(ms.val, shape, plan, false, all);
    }
  }

  // ---------------------------------------------------------------- the per-line gate

  /** What rewriteSSELine looks for before it hands a payload over. */
  predicate Gated(payload: string, paths: seq<seq<string>>)
  {
    Contains(payload, Quote("model")) || Contains(payload, Quote("usage")) || MentionsStripKey(payload, paths)
  }

  lemma {:induction false} NoModelMembers(body: string, ms: Members, pos: nat, name: string, descend: bool)
    requires MembersAt(body, pos, ms) && !Contains(body, Quote("model"))
    ensures RenameMembers(ms, name, descend) == ms
    decreases ms
  {
    hide Contains;
    hide At;
    if ms.Member? {
      if ms.key == "model" { ModelMentioned(body, KeyStart(ms, pos)); }
      if ms.rest.Member? { NoModelMembers(body, ms.rest, Sep(ms, pos) + 1, name, descend); }
      NoModelValue(body, ms.val, ValStart(ms, pos), name, false);
    }
  }

  lemma {:induction false} ModelMentioned(body: string, i: int)
    requires At(body, i, Quote("model"))
    ensures Contains(body, Quote("model"))
  {}

  lemma {:induction false} NoModelValue(body: string, v: Value, pos: nat, name: string, descend: bool)
    requires At(body, pos, Render(v)) && !Contains(body, Quote("model"))
    ensures RenameValue(v, name, descend) == v
    decreases v
  {
    hide Contains;
    if v.Obj? {
      ObjectAt(body, pos, v);
      NoModelMembers(body, v.members, pos + 1 + |v.open|, name, descend);
    }
  }

  /** A payload the gate turns away would have come back unchanged. */
  lemma {:induction false} GateTurnsAwayOnlyIdentity(d: Doc, w: Rewrite)
    requires Proper(w) && !Gated(RenderDoc(d), w.paths)
    ensures OwnedDoc(d, w) == d && StripOutcome(d, ScopeOf(w)) == Text(RenderDoc(d))
  {
    hide Contains;
    hide SynthValue;
    hide RenameValue;
    hide StripOutcome;
    hide MentionsStripKey;
    DocAt(d);
    NoModelValue(RenderDoc(d), d.root, |d.lead|, w.name, w.nested);
    NoUsageNoChange(d, w.plan, ShapeOf(w), w.nested, false);
    GateIsSound(d, ScopeOf(w));
  }

  // ---------------------------------------------------------------- owned members survive

  /** The values of the top-level members named `key`, in order. */
  function Named(ms: Members, key: string): seq<Value>
  {
    if ms.NoMembers? then [] else (if ms.key == key then [ms.val] else []) + Named(ms.rest, key)
  }

  predicate AcceptedList(paths: seq<seq<string>>) { forall i :: 0 <= i < |paths| ==> Acceptable(paths[i]) }

  lemma {:induction false} OwnedNotExcised(paths: seq<seq<string>>, descend: bool)
    requires AcceptedList(paths)
    ensures !Excised("model", Scope(paths, 0, descend)) && !Excised("usage", Scope(paths, 0, descend))
  {
    assert RESERVED[0] == ["model"] && RESERVED[1] == ["usage"];
    forall i | 0 <= i < |paths| && |paths[i]| == 1 ensures paths[i][0] != "model" && paths[i][0] != "usage" {
      assert paths[i] == [paths[i][0]];
      assert Acceptable(paths[i]);
    }
  }

  /** Members that no path ends at stay, in order, each with its own stripped value. */
  lemma {:induction false} StripKeepsNamed(ms: Members, carried: string, sc: Scope, key: string)
    requires !Excised(key, sc)
    ensures var was, now := Named(ms, key), Named(StripMembers(ms, carried, sc), key);
            |now| == |was| && forall i :: 0 <= i < |was| ==> now[i] == StripValue(was[i], Inside(key, sc))
    decreases ms
  {
    hide StripValue;
    hide Inside;
    if ms.Member? {
      if Excised(ms.key, sc) {
        StripKeepsNamed(ms.rest, carried + ms.before, sc, key);
      } else {
        if AllExcised(ms.rest, sc) {
          NoneNamed(ms.rest, sc, key);
        }
        StripKeepsNamed(ms.rest, "", sc, key);
      }
    }
  }

  lemma {:induction false} StripKeepsScalars(v: Value, sc: Scope)
    ensures !v.Obj? ==> StripValue(v, sc) == v
  {}

  lemma {:induction false} NoneNamed(ms: Members, sc: Scope, key: string)
    requires AllExcised(ms, sc) && !Excised(key, sc)
    ensures Named(ms, key) == []
    decreases ms
  {
    if ms.Member? { NoneNamed(ms.rest, sc, key); }
  }

  lemma {:induction false} RenameNames(ms: Members, name: string, descend: bool)
    ensures var was, now := Named(ms, "model"), Named(RenameMembers(ms, name, descend), "model");
            |now| == |was| && forall i :: 0 <= i < |was| ==> now[i] == if was[i].Str? then Str(name) else was[i]
    ensures Named(RenameMembers(ms, name, descend), "usage") == Named(ms, "usage")
    ensures var was, now := Named(ms, "response"), Named(RenameMembers(ms, name, true), "response");
            |now| == |was| && forall i :: 0 <= i < |was| ==> now[i] == RenameValue(was[i], name, false)
    decreases ms
  {
    if ms.Member? { RenameNames(ms.rest, name, descend); }
  }

  lemma {:induction false} SynthKeepsNamed(ms: Members, shape: Shape, plan: Plan, descend: bool)
    requires ProperPlan(plan)
    ensures Named(SynthMembers(ms, shape, plan, descend, false), "model") == Named(ms, "model")
    ensures |Named(SynthMembers(ms, shape, plan, descend, false), "usage")| == |Named(ms, "usage")|
    ensures var was, now := Named(ms, "response"), Named(SynthMembers(ms, shape, plan, true, false), "response");
            |now| == |was| && forall i :: 0 <= i < |was| ==> now[i] == SynthValue(was[i], shape, plan, false, false)
    decreases ms
  {
    hide SynthUsage;
    if ms.Member? { SynthKeepsNamed(ms.rest, shape, plan, descend); }
  }

  function MembersOf(v: Value): Members { if v.Obj? then v.members else NoMembers }

  /** A value after rename, synthesis and strip. */
  function Served(v: Value, w: Rewrite, descend: bool): Value
    requires ProperPlan(w.plan)
  {
    var synth := if w.plan.active then SynthValue(RenameValue(v, w.name, descend), ShapeOf(w), w.plan, descend, false)
                 else RenameValue(v, w.name, descend);
    StripValue(synth, Scope(w.paths, 0, descend))
  }

  /** Each string-valued "model" is there and carries the public name, and each "usage" is there. */
  predicate OwnedKept(v: Value, now: Value, name: string)
  {
    var was, models := Named(MembersOf(v), "model"), Named(MembersOf(now), "model");
    && |models| == |was| && |Named(MembersOf(now), "usage")| == |Named(MembersOf(v), "usage")|
    && forall i :: 0 <= i < |was| && was[i].Str? ==> models[i] == Str(name)
  }

  lemma {:induction false} OwnedSurvive(v: Value, w: Rewrite, descend: bool)
    requires ProperPlan(w.plan) && AcceptedList(w.paths)
    ensures OwnedKept(v, Served(v, w, descend), w.name)
  {
    hide Excised;
    hide Named;
    hide Inside;
    var sc := Scope(w.paths, 0, descend);
    OwnedNotExcised(w.paths, descend);
    EmptyHasNone();
    if v.Obj? {
      var ren := RenameMembers(v.members, w.name, descend);
      var syn := if w.plan.active then SynthMembers(ren, ShapeOf(w), w.plan, descend, false) else ren;
      RenameNames(v.members, w.name, descend);
      SynthKeepsNamed(ren, ShapeOf(w), w.plan, descend);
      hide RenameMembers;
      hide SynthMembers;
      StripKeepsNamed(syn, "", sc, "model");
      StripKeepsNamed(syn, "", sc, "usage");
      StripKeepsScalars(Str(w.name), Inside("model", sc));
      if AllExcised(syn, sc) {
        NoneNamed(syn, sc, "model");
        NoneNamed(syn, sc, "usage");
      }
    }
  }

  /** For every accepted strip list: after rename, synthesis and strip, each string-valued
      top-level "model" is there and carries the public name, and each top-level "usage" is there. */
  lemma {:induction false} OwnedMembersSurvive(d: Doc, w: Rewrite)
    requires ProperPlan(w.plan) && AcceptedList(w.paths)
    ensures OwnedKept(d.root, StripRoot(OwnedDoc(d, w), ScopeOf(w)).root, w.name)
  {
    OwnedSurvive(d.root, w, w.nested);
  }

  /** The same inside the envelopes of the Responses scope, as many of them as there were, unless the
      list names the envelope itself. */
  lemma {:induction false} EnvelopesSurvive(d: Doc, w: Rewrite)
    requires Proper(w) && AcceptedList(w.paths) && w.nested && ["response"] !in w.paths
    ensures var was := Named(MembersOf(d.root), "response");
            var now := Named(MembersOf(StripRoot(OwnedDoc(d, w), ScopeOf(w)).root), "response");
            |now| == |was| && forall i :: 0 <= i < |was| ==> OwnedKept(was[i], now[i], w.name)
  {
    hide Named;
    hide OwnedKept;
    var v, sc := d.root, ScopeOf(w);
    EnvelopeNotExcised(w.paths);
    EmptyHasNone();
    if v.Obj? {
      var ren := RenameMembers(v.members, w.name, true);
      var syn := if w.plan.active then SynthMembers(ren, ShapeOf(w), w.plan, true, false) else ren;
      RenameNames(v.members, w.name, true);
      SynthKeepsNamed(ren, ShapeOf(w), w.plan, true);
      StripKeepsNamed(syn, "", sc, "response");
      if AllExcised(syn, sc) { NoneNamed(syn, sc, "response"); }
      var was, now := Named(v.members, "response"), Named(MembersOf(StripRoot(OwnedDoc(d, w), sc).root), "response");
      forall i | 0 <= i < |was| ensures OwnedKept(was[i], now[i], w.name) {
        OwnedSurvive(was[i], w, false);
        assert now[i] == Served(was[i], w, false);
      }
    }
  }

  lemma {:induction false} EnvelopeNotExcised(paths: seq<seq<string>>)
    requires ["response"] !in paths
    ensures !Excised("response", Scope(paths, 0, true)) && Inside("response", Scope(paths, 0, true)) == Scope(paths, 0, false)
  {
    forall i | 0 <= i < |paths| && |paths[i]| == 1 ensures paths[i][0] != "response" {
      assert paths[i] == [paths[i][0]];
    }
  }

  lemma {:induction false} EmptyHasNone()
    ensures Named(NoMembers, "model") == [] && Named(NoMembers, "usage") == [] && Named(NoMembers, "response") == []
  {}
}
