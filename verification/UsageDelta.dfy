/** What the usage synthesis changes, member by member: internal/inject/usage.go. */
module UsageDelta {
  import opened Wrappers
  import opened Json
  import opened OnlyAt
  import opened Tokens
  import opened Usage
  import opened UsageTree
  import opened UsageDoc
  import opened UsagePromise

  // ---------------------------------------------------------------- which objects

  /** An object is synthesized; nothing else is changed. */
  function Synthesizing(shape: Shape, plan: Plan): Value -> Value
    requires ProperPlan(plan)
  {
    (v: Value) => if v.Obj? then SynthUsage(v, shape, plan, false) else v
  }

  lemma {:induction false} SynthInside(ms: Members, shape: Shape, plan: Plan, nested: bool)
    requires ProperPlan(plan) && nested
    ensures MembersChangedOnlyAt(ms, SynthMembers(ms, shape, plan, false, false), ["response"], Owns("usage", nested), Synthesizing(shape, plan))
    decreases ms
  {
    hide Foreign;
    hide SynthUsage;
    if ms.Member? {
      SynthInside(ms.rest, shape, plan, nested);
      assert ["response"] + [ms.key] == ["response", ms.key];
      if ms.key != "usage" {
        ForeignInside(ms.key, "usage", nested);
        ForeignUnchanged(ms.val, ["response", ms.key], Owns("usage", nested), Synthesizing(shape, plan));
      }
    }
  }

  lemma {:induction false} SynthAtTop(ms: Members, shape: Shape, plan: Plan, nested: bool)
    requires ProperPlan(plan)
    ensures MembersChangedOnlyAt(ms, SynthMembers(ms, shape, plan, nested, false), [], Owns("usage", nested), Synthesizing(shape, plan))
    decreases ms
  {
    hide Foreign;
    hide SynthUsage;
    if ms.Member? {
      SynthAtTop(ms.rest, shape, plan, nested);
      assert [] + [ms.key] == [ms.key];
      if ms.key != "usage" {
        if nested && ms.key == "response" {
          assert !Owns("usage", nested)(["response"]);
          if ms.val.Obj? { SynthInside(ms.val.members, shape, plan, nested); }
          assert ChangedOnlyAt(ms.val, SynthValue(ms.val, shape, plan, false, false), ["response"], Owns("usage", nested), Synthesizing(shape, plan));
        } else {
          ForeignKey(ms.key, "usage", nested);
          ForeignUnchanged(ms.val, [ms.key], Owns("usage", nested), Synthesizing(shape, plan));
        }
      }
    }
  }

  /** The synthesis changes the objects at "usage", and with the envelope at "response.usage", and not
      a byte of anything else. */
  lemma {:induction false} SynthesisChangesOnlyUsage(d: Doc, shape: Shape, plan: Plan, nested: bool)
    requires ProperPlan(plan) && plan.active
    ensures ChangedOnlyAt(d.root, SynthDoc(d, shape, plan, nested, false).root, [], Owns("usage", nested), Synthesizing(shape, plan))
    ensures SynthDoc(d, shape, plan, nested, false).lead == d.lead && SynthDoc(d, shape, plan, nested, false).trail == d.trail
  {
    if d.root.Obj? { SynthAtTop(d.root.members, shape, plan, nested); }
  }

  // ---------------------------------------------------------------- by position

  function Nth(ms: Members, k: nat): (r: Members)
    requires k < Count(ms)
    ensures r.Member?
  {
    if k == 0 then ms else Nth(ms.rest, k - 1)
  }

  /** How many members the source's loops read: up to the first that a blank precedes, the first apart. */
  function Reach(ms: Members): (n: nat)
    ensures n <= Count(ms)
  {
    if ms.NoMembers? then 0 else if ms.rest.Member? && ms.rest.before == "" then 1 + Reach(ms.rest) else 1
  }

  lemma {:induction false} ReachEndsAtABlank(ms: Members)
    ensures forall j :: 0 < j < Reach(ms) ==> Nth(ms, j).before == ""
    ensures Reach(ms) < Count(ms) ==> Reach(ms) > 0 && Nth(ms, Reach(ms)).before != ""
    decreases ms
  {
    if ms.Member? && ms.rest.Member? {
      ReachEndsAtABlank(ms.rest);
      if ms.rest.before == "" {
        forall j | 0 < j < Reach(ms) ensures Nth(ms, j).before == "" { assert Nth(ms, j) == Nth(ms.rest, j - 1); }
      }
    }
  }

  /** The member at position `k` has the key and the kind of value looked for. */
  predicate HitAt(ms: Members, k: nat, key: string, want: Want)
    requires k < Count(ms)
  {
    Nth(ms, k).key == key && (want == Any || (want == Objects && Nth(ms, k).val.Obj?) || (want == Others && !Nth(ms, k).val.Obj?))
  }

  /** A search finds the last hit within reach, and none exactly when there is none. */
  lemma {:induction false} FindIsLastInReach(ms: Members, key: string, want: Want) returns (k: int)
    ensures Find(ms, key, want, false).NoMembers? ==> k == -1
    ensures Find(ms, key, want, false).Member? ==>
              0 <= k < Reach(ms) && Nth(ms, k) == Find(ms, key, want, false) && HitAt(ms, k, key, want)
    ensures forall j :: k < j < Reach(ms) && 0 <= j ==> !HitAt(ms, j, key, want)
    decreases ms
  {
    k := -1;
    if ms.Member? {
      assert Find(NoMembers, key, want, false) == NoMembers;
      if Next(ms, false).Member? {
        var m := FindIsLastInReach(ms.rest, key, want);
        k := if m >= 0 then m + 1 else if HitAt(ms, 0, key, want) then 0 else -1;
        forall j | k < j < Reach(ms) && 0 <= j ensures !HitAt(ms, j, key, want) {
          if j > 0 { assert Nth(ms, j) == Nth(ms.rest, j - 1) && !HitAt(ms.rest, j - 1, key, want); }
        }
      } else if HitAt(ms, 0, key, want) {
        k := 0;
      }
    }
  }

  /** `ns` is `ms` with the value and the blank behind it replaced at position `k`, and nowhere else. */
  predicate ReplacedAt(ms: Members, ns: Members, k: nat, v: Value, after: string)
  {
    && k < Count(ms) && Count(ns) == Count(ms)
    && (forall j :: 0 <= j < Count(ms) ==> SameFrame(Nth(ms, j), Nth(ns, j)))
    && (forall j :: 0 <= j < Count(ms) && j != k ==> Nth(ns, j).val == Nth(ms, j).val && Nth(ns, j).after == Nth(ms, j).after)
    && Nth(ns, k).val == v && Nth(ns, k).after == after
  }

  /** The same key and the same bytes around it. */
  predicate SameFrame(a: Members, b: Members)
    requires a.Member? && b.Member?
  {
    b.before == a.before && b.key == a.key && b.afterKey == a.afterKey && b.beforeVal == a.beforeVal
  }

  lemma {:induction false} SetReplaces(ms: Members, key: string, want: Want, v: Value, after: string, k: nat)
    requires k < Reach(ms) && Find(ms, key, want, false).Member? && Nth(ms, k) == Find(ms, key, want, false)
    ensures ReplacedAt(ms, SetAt(ms, key, want, v, after, false), k, v, after)
    decreases ms
  {
    var ns := SetAt(ms, key, want, v, after, false);
    NthIsShorter(ms, k);
    if Find(Next(ms, false), key, want, false).Member? {
      FoundFurther(ms, key, want, false);
      FoundIsNoLonger(ms.rest, key, want, false);
      assert k > 0;
      SetReplaces(ms.rest, key, want, v, after, k - 1);
      forall j | 0 < j < Count(ms) ensures Nth(ns, j) == Nth(ns.rest, j - 1) && Nth(ms, j) == Nth(ms.rest, j - 1) {}
    } else {
      assert Find(ms, key, want, false) == ms;
      assert k == 0;
      forall j | 0 < j < Count(ms) ensures Nth(ns, j) == Nth(ms, j) { assert ns.rest == ms.rest; }
    }
  }

  lemma {:induction false} NthIsShorter(ms: Members, k: nat)
    requires k < Count(ms)
    ensures Count(Nth(ms, k)) == Count(ms) - k
    decreases ms
  {
    if k > 0 { NthIsShorter(ms.rest, k - 1); }
  }

  // ---------------------------------------------------------------- what a usage object becomes

  /** `w` is `v` with one member `key` put first. */
  predicate PutFirst(v: Value, w: Value, key: string, val: Value)
  {
    && v.Obj? && w.Obj? && w.open == "" && w.members.Member? && w.members.rest == v.members
    && w.members.before == w.members.afterKey == w.members.beforeVal == "" && w.members.key == key && w.members.val == val
    && w.members.after == if v.members.NoMembers? then v.open else ""
  }

  /** `v` with the value of its member at position `k` replaced. */
  predicate ValueReplaced(v: Value, w: Value, k: nat, val: Value, after: string)
  {
    v.Obj? && w.Obj? && w.open == v.open && ReplacedAt(v.members, w.members, k, val, after)
  }

  /** The last hit within reach. */
  predicate LastHit(ms: Members, k: int, key: string, want: Want)
  {
    0 <= k < Reach(ms) && HitAt(ms, k, key, want) && forall j :: k < j < Reach(ms) ==> !HitAt(ms, j, key, want)
  }

  predicate NoHit(ms: Members, key: string, want: Want) { forall j :: 0 <= j < Reach(ms) ==> !HitAt(ms, j, key, want) }

  /** The count `n` and nothing but it, as an object. */
  predicate JustCount(v: Value, n: nat) { v == Obj("", Member("", "reasoning_tokens", "", "", Scalar(Decimal(n)), "", NoMembers)) }

  /** A details object takes the count: at its last reasoning_tokens within reach, or put first. */
  ghost predicate CountTaken(v: Value, w: Value, n: nat)
    requires v.Obj?
  {
    if NoHit(v.members, "reasoning_tokens", Any) then PutFirst(v, w, "reasoning_tokens", Scalar(Decimal(n)))
    else exists k :: LastHit(v.members, k, "reasoning_tokens", Any) && ValueReplaced(v, w, k, Scalar(Decimal(n)), "")
  }

  /** A usage object takes the count `n`: in its last details object when that states a count, else in
      place of its last details that are no object, else in its last details object, else put first. */
  ghost predicate UsageTakes(v: Value, w: Value, shape: Shape, n: nat)
    requires v.Obj?
  {
    var ms := v.members;
    if NoHit(ms, shape.details, Any) then exists d :: JustCount(d, n) && PutFirst(v, w, shape.details, d)
    else
      || (exists k, d ::
            && LastHit(ms, k, shape.details, Objects) && CountTaken(Nth(ms, k).val, d, n)
            && ValueReplaced(v, w, k, d, Nth(ms, k).after)
            && (NoHit(ms, shape.details, Others) || !NoHit(Nth(ms, k).val.members, "reasoning_tokens", Any)))
      || (exists k, d ::
            && LastHit(ms, k, shape.details, Others) && JustCount(d, n)
            && ValueReplaced(v, w, k, d, if Nth(ms, k).val.Scalar? then "" else Nth(ms, k).after)
            && NoCountInObjects(ms, shape.details))
  }

  /** The last details object, if any, has no count within reach. */
  predicate NoCountInObjects(ms: Members, key: string)
  {
    forall o :: 0 <= o < Reach(ms) && LastHit(ms, o, key, Objects) ==> NoHit(Nth(ms, o).val.members, "reasoning_tokens", Any)
  }

  lemma {:induction false} OthersHaveNoCount(v: Value, shape: Shape)
    requires v.Obj? && Target(v, shape, false) == Others
    ensures NoCountInObjects(v.members, shape.details)
  {
    hide Find;
    var ms := v.members;
    var ko := FoundIsHit(ms, shape.details, Objects);
    forall o | 0 <= o < Reach(ms) && LastHit(ms, o, shape.details, Objects) ensures NoHit(Nth(ms, o).val.members, "reasoning_tokens", Any) {
      OneLastHit(ms, o, ko, shape.details, Objects);
      var kr := FoundIsHit(Nth(ms, o).val.members, REASONING, Any);
    }
  }

  lemma {:induction false} FoundIsHit(ms: Members, key: string, want: Want) returns (k: int)
    ensures Find(ms, key, want, false).NoMembers? <==> NoHit(ms, key, want)
    ensures Find(ms, key, want, false).Member? ==> LastHit(ms, k, key, want) && Nth(ms, k) == Find(ms, key, want, false)
  {
    hide Find;
    k := FindIsLastInReach(ms, key, want);
  }

  lemma {:induction false} DetailsTake(v: Value, n: nat)
    requires v.Obj?
    ensures CountTaken(v, NewDetails(v, n, false), n)
  {
    hide Find;
    hide HitAt;
    hide ReplacedAt;
    var k := FoundIsHit(v.members, REASONING, Any);
    if Find(v.members, REASONING, Any, false).Member? {
      SetReplaces(v.members, REASONING, Any, Scalar(Decimal(n)), "", k);
      assert ValueReplaced(v, NewDetails(v, n, false), k, Scalar(Decimal(n)), "");
    }
  }

  lemma {:induction false} AnyHit(ms: Members, key: string)
    ensures NoHit(ms, key, Any) <==> NoHit(ms, key, Objects) && NoHit(ms, key, Others)
  {
    if NoHit(ms, key, Any) {
      forall j | 0 <= j < Reach(ms) ensures !HitAt(ms, j, key, Objects) && !HitAt(ms, j, key, Others) {
        assert !HitAt(ms, j, key, Any);
      }
    }
    if NoHit(ms, key, Objects) && NoHit(ms, key, Others) {
      forall j | 0 <= j < Reach(ms) ensures !HitAt(ms, j, key, Any) {
        assert !HitAt(ms, j, key, Objects) && !HitAt(ms, j, key, Others);
      }
    }
  }

  /** Whatever count is written, it goes to exactly that one place, and every other byte stays. */
  lemma {:induction false} UsageTakesTheCount(v: Value, shape: Shape, n: nat)
    requires v.Obj?
    ensures UsageTakes(v, Enriched(v, shape, n, false), shape, n)
  {
    hide Find;
    hide HitAt;
    hide ReplacedAt;
    hide CountTaken;
    hide SetAt;
    hide NewDetails;
    hide LastHit;
    hide NoHit;
    hide NoCountInObjects;
    var ms, want := v.members, Target(v, shape, false);
    var t := Find(ms, shape.details, want, false);
    AnyHit(ms, shape.details);
    var ko := FoundIsHit(ms, shape.details, Objects);
    var kx := FoundIsHit(ms, shape.details, Others);
    if t.NoMembers? {
      NoTarget(v, shape);
      assert JustCount(ReasoningObject(n), n);
    } else {
      HitInReach(ms, ko, shape.details, Objects);
      HitInReach(ms, kx, shape.details, Others);
      var d, after := NewDetails(t.val, n, false), if t.val.Scalar? then "" else t.after;
      if want == Objects {
        var kr := FoundIsHit(t.val.members, REASONING, Any);
        SetReplaces(ms, shape.details, Objects, d, after, ko);
        DetailsTake(t.val, n);
        TargetReasoning(v, shape, false);
        assert ValueReplaced(v, Enriched(v, shape, n, false), ko, d, Nth(ms, ko).after);
      } else {
        SetReplaces(ms, shape.details, Others, d, after, kx);
        assert JustCount(d, n) by { OtherBecomes(t.val, n); }
        assert ValueReplaced(v, Enriched(v, shape, n, false), kx, d, after);
        OthersHaveNoCount(v, shape);
      }
    }
  }

  lemma {:induction false} OtherBecomes(v: Value, n: nat)
    requires !v.Obj?
    ensures JustCount(NewDetails(v, n, false), n)
  {}

  lemma {:induction false} HitInReach(ms: Members, k: int, key: string, want: Want)
    ensures LastHit(ms, k, key, want) ==> 0 <= k < Reach(ms) && HitAt(ms, k, key, want)
  {}

  lemma {:induction false} OneLastHit(ms: Members, a: int, b: int, key: string, want: Want)
    requires LastHit(ms, a, key, want) && (LastHit(ms, b, key, want) || NoHit(ms, key, want))
    ensures a == b
  {}

  // ---------------------------------------------------------------- when it is left alone

  lemma {:induction false} LastHitIsFound(ms: Members, k: int, key: string, want: Want)
    requires LastHit(ms, k, key, want)
    ensures Find(ms, key, want, false) == Nth(ms, k)
  {
    hide HitAt;
    hide Find;
    var m := FoundIsHit(ms, key, want);
    OneLastHit(ms, k, m, key, want);
  }

  /** A count above zero, or a value that is no count. */
  predicate Speaks(v: Value, plan: Plan) { var n := CountOf(v, plan.float); n.None? || n.value > 0.0 }

  /** The count at position `k` of the details object at position `o`, both the last within reach. */
  ghost predicate Inner(v: Value, shape: Shape, o: int, k: int, m: Members)
    requires v.Obj?
  {
    && LastHit(v.members, o, shape.details, Objects)
    && LastHit(Nth(v.members, o).val.members, k, "reasoning_tokens", Any) && m == Nth(Nth(v.members, o).val.members, k)
  }

  /** The upstream states its own count, directly or in its details. */
  ghost predicate UpstreamSpeaks(v: Value, shape: Shape, plan: Plan)
    requires v.Obj?
  {
    || (exists k :: LastHit(v.members, k, "reasoning_tokens", Any) && Speaks(Nth(v.members, k).val, plan))
    || exists o, k, m :: Inner(v, shape, o, k, m) && m.Member? && Speaks(m.val, plan)
  }

  /** `c` is the completion count, and one that can be shared. */
  ghost predicate Completes(v: Value, shape: Shape, plan: Plan, c: real)
    requires v.Obj?
  {
    && (exists k :: LastHit(v.members, k, shape.completion, Any) && CountOf(Nth(v.members, k).val, plan.float) == Some(c))
    && 0.0 < c <= 4_611_686_018_427_387_904.0
  }

  /** The count that a completion of `c` tokens is given: none up to ten, else the whole part of the share. */
  predicate SharesOut(c: real, plan: Plan, n: nat)
  {
    if c <= 10.0 then n == 0 else n as real <= plan.share * c < n as real + 1.0
  }

  /** The details state a bare zero already. */
  ghost predicate ZeroStands(v: Value, shape: Shape)
    requires v.Obj?
  {
    exists o, k, m :: Inner(v, shape, o, k, m) && m.Member? && m.val == Scalar("0") && m.after == ""
  }

  lemma {:induction false} InnerIs(v: Value, shape: Shape) returns (o: int, k: int)
    requires v.Obj?
    ensures var m := DetailsReasoning(v, shape, false);
            && (m.Member? ==> Inner(v, shape, o, k, m)) && forall a, b, x :: Inner(v, shape, a, b, x) ==> x == m
  {
    hide LastHit;
    hide Find;
    var ms := v.members;
    o := FoundIsHit(ms, shape.details, Objects);
    k := 0;
    if Find(ms, shape.details, Objects, false).Member? {
      HitInReach(ms, o, shape.details, Objects);
      k := FoundIsHit(Nth(ms, o).val.members, REASONING, Any);
    }
    forall a, b, x | Inner(v, shape, a, b, x) ensures x == DetailsReasoning(v, shape, false) {
      LastHitIsFound(ms, a, shape.details, Objects);
      HitInReach(ms, a, shape.details, Objects);
      LastHitIsFound(Nth(ms, a).val.members, b, REASONING, Any);
    }
  }

  lemma {:induction false} SpeaksIff(v: Value, shape: Shape, plan: Plan)
    requires v.Obj?
    ensures UpstreamSpeaks(v, shape, plan) <==> Claimed(Direct(v, false), plan) || Claimed(DetailsReasoning(v, shape, false), plan)
  {
    hide HitAt;
    hide Find;
    hide Inner;
    hide CountOf;
    hide DetailsReasoning;
    var ms := v.members;
    var o, k := InnerIs(v, shape);
    var d := FoundIsHit(ms, REASONING, Any);
    if j :| LastHit(ms, j, "reasoning_tokens", Any) && Speaks(Nth(ms, j).val, plan) {
      LastHitIsFound(ms, j, REASONING, Any);
    }
  }

  lemma {:induction false} CompletesIff(v: Value, shape: Shape, plan: Plan, c: real)
    requires v.Obj?
    ensures Completes(v, shape, plan, c) <==>
            Countable(Completion(v, shape, false), plan) && CountOf(Completion(v, shape, false).val, plan.float) == Some(c)
  {
    hide HitAt;
    hide Find;
    hide CountOf;
    var ms := v.members;
    var k := FoundIsHit(ms, shape.completion, Any);
    if j :| LastHit(ms, j, shape.completion, Any) && CountOf(Nth(ms, j).val, plan.float) == Some(c) {
      LastHitIsFound(ms, j, shape.completion, Any);
    }
  }

  /** The synthesis as a whole, on one usage object: unchanged when the upstream states a count or
      there is no completion to share; otherwise it takes the share of the completion, unless that is
      a zero that stands there already. */
  lemma {:induction false} UsageBecomes(v: Value, shape: Shape, plan: Plan)
    requires v.Obj? && ProperPlan(plan)
    ensures var w := SynthUsage(v, shape, plan, false);
            && (UpstreamSpeaks(v, shape, plan) || (forall c :: !Completes(v, shape, plan, c)) ==> w == v)
            && (forall c :: !UpstreamSpeaks(v, shape, plan) && Completes(v, shape, plan, c) ==>
                  exists n :: SharesOut(c, plan, n) && if n == 0 && ZeroStands(v, shape) then w == v else UsageTakes(v, w, shape, n))
  {
    hide UpstreamSpeaks;
    hide Completes;
    hide ZeroStands;
    hide UsageTakes;
    hide Find;
    hide Enriched;
    hide DetailsReasoning;
    hide CountOf;
    SpeaksIff(v, shape, plan);
    LeftAloneIff(v, shape, plan, false);
    var w, comp := SynthUsage(v, shape, plan, false), Completion(v, shape, false);
    forall c ensures Completes(v, shape, plan, c) <==> Countable(comp, plan) && CountOf(comp.val, plan.float) == Some(c) {
      CompletesIff(v, shape, plan, c);
    }
    if !UpstreamSpeaks(v, shape, plan) && Countable(comp, plan) {
      var c := CountOf(comp.val, plan.float).value;
      var n := Planned(v, shape, plan, false).value;
      UsageTakesTheCount(v, shape, n);
      assert SharesOut(c, plan, n);
      ZeroStandsIff(v, shape);
    } else {
      forall c ensures !(!UpstreamSpeaks(v, shape, plan) && Completes(v, shape, plan, c)) {}
    }
  }

  lemma {:induction false} ZeroStandsIff(v: Value, shape: Shape)
    requires v.Obj?
    ensures var m := DetailsReasoning(v, shape, false);
            ZeroStands(v, shape) <==> m.Member? && m.val == Scalar("0") && m.after == ""
  {
    hide Inner;
    hide DetailsReasoning;
    var o, k := InnerIs(v, shape);
  }
}
