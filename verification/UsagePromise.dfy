/** The promises made for the usage synthesis: what a second application does, when the reading
    that stops at a blank gives the promised result, and when it does not.

    The promised reading is a decoder's: the whole object, the last occurrence of each member. */
module UsagePromise {
  import opened Wrappers
  import opened Json
  import opened Scan
  import opened Walk
  import opened Tokens
  import opened Usage
  import opened UsageTree
  import opened UsageDoc

  // ---------------------------------------------------------------- what a write changes

  predicate Fits(v: Value, want: Want) { want.Any? || (want.Objects? <==> v.Obj?) }

  /** What a one-step search sees. */
  lemma {:induction false} FindStep(ms: Members, key: string, want: Want, all: bool)
    requires ms.Member?
    ensures Find(ms, key, want, all) ==
            var later := Find(Next(ms, all), key, want, all);
            if later.Member? then later else if Matches(ms, key, want) then ms else NoMembers
  {}

  /** After a write, a later match is found as before, and without one the written member is. */
  lemma {:induction false} SetThenFind(ms: Members, key: string, want: Want, v: Value, after: string, all: bool, want2: Want, whole: bool)
    requires Find(ms, key, want, all).Member? && (all ==> whole)
    ensures var m := Find(ms, key, want, all);
            var later, r := Find(Next(m, whole), key, want2, whole), Find(SetAt(ms, key, want, v, after, all), key, want2, whole);
            && (later.Member? ==> r == later)
            && (later.NoMembers? && Fits(v, want2) ==> r == m.(val := v, after := after))
    decreases ms
  {
    hide Find;
    var written := SetAt(ms, key, want, v, after, all);
    FindStep(ms, key, want, all);
    FindStep(written, key, want2, whole);
    if Find(Next(ms, all), key, want, all).Member? {
      FoundFurther(ms, key, want, all);
      SetThenFind(ms.rest, key, want, v, after, all, want2, whole);
      assert Next(written, whole) == SetAt(ms.rest, key, want, v, after, all);
    } else {
      assert Next(written, whole) == Next(ms, whole);
    }
  }

  /** Members of other names are found as before. */
  lemma {:induction false} SetThenFindOther(ms: Members, key: string, want: Want, v: Value, after: string, all: bool, other: string)
    requires Find(ms, key, want, all).Member? && other != key
    ensures var m, o := Find(SetAt(ms, key, want, v, after, all), other, Any, all), Find(ms, other, Any, all);
            (m.Member? <==> o.Member?) && (m.Member? ==> m.val == o.val && m.after == o.after)
    decreases ms
  {
    if Find(Next(ms, all), key, want, all).Member? {
      FoundFurther(ms, key, want, all);
      SetThenFindOther(ms.rest, key, want, v, after, all, other);
      assert Next(ms.(rest := SetAt(ms.rest, key, want, v, after, all)), all) == SetAt(ms.rest, key, want, v, after, all);
    } else {
      assert Next(ms.(val := v, after := after), all) == Next(ms, all);
    }
  }

  /** A write is seen: two writes to one place agree only when what they write does. */
  lemma {:induction false} SetIsSeen(ms: Members, key: string, want: Want, v: Value, after: string, w: Value, after2: string, all: bool)
    requires Find(ms, key, want, all).Member? && SetAt(ms, key, want, v, after, all) == SetAt(ms, key, want, w, after2, all)
    ensures v == w && after == after2
    decreases ms
  {
    if Find(Next(ms, all), key, want, all).Member? {
      FoundFurther(ms, key, want, all);
      SetIsSeen(ms.rest, key, want, v, after, w, after2, all);
    }
  }

  /** The write that changes nothing is that of what is there. */
  lemma {:induction false} SetIsSame(ms: Members, key: string, want: Want, v: Value, after: string, all: bool)
    requires Find(ms, key, want, all).Member?
    ensures var m := Find(ms, key, want, all); SetAt(ms, key, want, v, after, all) == ms <==> v == m.val && after == m.after
  {
    var m := Find(ms, key, want, all);
    SetSame(ms, key, want, all);
    if SetAt(ms, key, want, v, after, all) == ms { SetIsSeen(ms, key, want, v, after, m.val, m.after, all); }
  }

  lemma {:induction false} FoundIsNoLonger(ms: Members, key: string, want: Want, all: bool)
    ensures Count(Find(ms, key, want, all)) <= Count(ms)
    decreases Count(ms)
  {
    if ms.Member? { FoundIsNoLonger(Next(ms, all), key, want, all); }
  }

  /** Writing where two searches find the same member is the same write. */
  lemma {:induction false} SetWhereFound(ms: Members, key: string, want: Want, all: bool, want2: Want, whole: bool, v: Value, after: string)
    requires Find(ms, key, want, all).Member? && Find(ms, key, want, all) == Find(ms, key, want2, whole)
    ensures SetAt(ms, key, want, v, after, all) == SetAt(ms, key, want2, v, after, whole)
    decreases ms
  {
    FoundIsNoLonger(Next(ms, all), key, want, all);
    FoundIsNoLonger(Next(ms, whole), key, want2, whole);
    if Find(Next(ms, all), key, want, all).Member? {
      FoundFurther(ms, key, want, all);
      assert Find(Next(ms, whole), key, want2, whole).Member?;
      FoundFurther(ms, key, want2, whole);
      SetWhereFound(ms.rest, key, want, all, want2, whole, v, after);
    }
  }

  /** The member an insertion puts first is found unless a later one is; others are found as
      before, or not at all. */
  lemma {:induction false} FindAfterInsert(v: Value, key: string, val: Value, other: string, want: Want, all: bool)
    requires v.Obj?
    ensures var ms := InsertHead(v, key, val).members;
            var r, o := Find(ms, other, want, all), Find(v.members, other, want, all);
            && (other == key && o.NoMembers? && Fits(val, want) ==> r == ms)
            && (other != key ==> r.NoMembers? || r == o)
            && (all && o.Member? ==> r == o)
  {
    var ms := InsertHead(v, key, val).members;
    assert Find(NoMembers, other, want, all) == NoMembers;
    assert Next(ms, all) == NoMembers || Next(ms, all) == v.members;
  }

  // ---------------------------------------------------------------- when a usage object is left alone

  function Completion(v: Value, shape: Shape, all: bool): Members
    requires v.Obj?
  {
    Find(v.members, shape.completion, Any, all)
  }

  function Direct(v: Value, all: bool): Members
    requires v.Obj?
  {
    Find(v.members, REASONING, Any, all)
  }

  predicate Countable(c: Members, plan: Plan) { c.Member? && Shareable(CountOf(c.val, plan.float)) }

  /** The upstream states a count, or none can be shared, or the count to write stands there already. */
  predicate LeftAlone(v: Value, shape: Shape, plan: Plan, all: bool)
    requires v.Obj? && ProperPlan(plan)
  {
    var c, r := Completion(v, shape, all), DetailsReasoning(v, shape, all);
    || Claimed(Direct(v, all), plan) || Claimed(r, plan) || !Countable(c, plan)
    || (r.Member? && r.val == Scalar("0") && r.after == "" && Share(CountOf(c.val, plan.float).value, plan) == 0)
  }

  lemma {:induction false} Zero()
    ensures Decimal(0) == "0"
  {}

  lemma {:induction false} DecimalIsSeen(n: nat, m: nat)
    requires Decimal(n) == Decimal(m)
    ensures n == m
  {
    DecimalDigits(n);
    DecimalDigits(m);
  }

  lemma {:induction false} NothingInNothing(key: string, want: Want, all: bool)
    ensures Find(NoMembers, key, want, all) == NoMembers
  {}

  /** A details value keeps its count exactly when it holds that count and no blank behind it. */
  lemma {:induction false} NewDetailsSame(v: Value, n: nat, all: bool)
    ensures NewDetails(v, n, all) == v <==>
            v.Obj? && var r := Find(v.members, REASONING, Any, all); r.Member? && r.val == Scalar(Decimal(n)) && r.after == ""
  {
    hide Find;
    if v.Obj? {
      var r := Find(v.members, REASONING, Any, all);
      if r.Member? {
        SetIsSame(v.members, REASONING, Any, Scalar(Decimal(n)), "", all);
      } else {
        assert Count(InsertHead(v, REASONING, Scalar(Decimal(n))).members) == Count(v.members) + 1;
      }
    }
  }

  /** Writing `n` changes nothing exactly when it stands where it would be written. */
  lemma {:induction false} EnrichedSame(v: Value, shape: Shape, n: nat, all: bool)
    requires v.Obj?
    ensures Enriched(v, shape, n, all) == v <==>
            var r := DetailsReasoning(v, shape, all); r.Member? && r.val == Scalar(Decimal(n)) && r.after == ""
  {
    hide Find;
    hide NewDetails;
    hide SetAt;
    var want := Target(v, shape, all);
    var t := Find(v.members, shape.details, want, all);
    if t.NoMembers? {
      assert Count(InsertHead(v, shape.details, ReasoningObject(n)).members) == Count(v.members) + 1;
    } else {
      NewDetailsSame(t.val, n, all);
      SetIsSame(v.members, shape.details, want, NewDetails(t.val, n, all), if t.val.Scalar? then "" else t.after, all);
      TargetReasoning(v, shape, all);
    }
  }

  /** The reasoning count consulted is that of the target, when it has one. */
  lemma {:induction false} TargetReasoning(v: Value, shape: Shape, all: bool)
    requires v.Obj?
    ensures var t, r := Find(v.members, shape.details, Target(v, shape, all), all), DetailsReasoning(v, shape, all);
            && (r.Member? ==> t.Member? && t.val.Obj? && r == Find(t.val.members, REASONING, Any, all))
            && (t.Member? && t.val.Obj? ==> r == Find(t.val.members, REASONING, Any, all))
  {
    hide Find;
  }

  /** A usage object comes back unchanged exactly when it is left alone. */
  lemma {:induction false} LeftAloneIff(v: Value, shape: Shape, plan: Plan, all: bool)
    requires v.Obj? && ProperPlan(plan)
    ensures LeftAlone(v, shape, plan, all) <==> SynthUsage(v, shape, plan, all) == v
  {
    hide Find;
    hide Enriched;
    hide Share;
    hide CountOf;
    hide DetailsReasoning;
    var count, r := Planned(v, shape, plan, all), DetailsReasoning(v, shape, all);
    if count.Some? {
      EnrichedSame(v, shape, count.value, all);
      Zero();
      if r.Member? && r.val == Scalar(Decimal(count.value)) { UnclaimedIsZero(r, count.value, plan); }
    }
  }

  lemma {:induction false} UnclaimedIsZero(r: Members, n: nat, plan: Plan)
    requires r.Member? && r.val == Scalar(Decimal(n)) && !Claimed(r, plan) && n < 0x8000_0000_0000_0000
    ensures n == 0
  {
    DecimalRoundTrip(n, plan.float);
  }

  // ---------------------------------------------------------------- what is hidden behind a blank

  predicate Occurs(ms: Members, key: string) { ms.Member? && (ms.key == key || Occurs(ms.rest, key)) }

  /** A member of that name stands behind the first blank, where the source's loops do not get. */
  predicate Hidden(ms: Members, key: string)
  {
    ms.Member? && if Next(ms, false).Member? then Hidden(ms.rest, key) else Occurs(ms.rest, key)
  }

  lemma {:induction false} OccursIsFound(ms: Members, key: string)
    ensures Occurs(ms, key) <==> Find(ms, key, Any, true).Member?
    decreases ms
  {
    if ms.Member? {
      OccursIsFound(ms.rest, key);
      assert ms.rest.NoMembers? ==> Next(ms, true) == NoMembers == ms.rest;
    }
  }

  /** Hidden is what the two readings disagree on. */
  lemma {:induction false} HiddenIff(ms: Members, key: string)
    ensures Hidden(ms, key) <==> Find(ms, key, Any, false) != Find(ms, key, Any, true)
    ensures Hidden(ms, key) ==> Find(ms, key, Any, true).Member?
    decreases ms
  {
    NothingInNothing(key, Any, true);
    NothingInNothing(key, Any, false);
    if ms.Member? {
      FoundIsNoLonger(Next(ms, true), key, Any, true);
      FoundIsNoLonger(Next(ms, false), key, Any, false);
      if Next(ms, false).Member? {
        HiddenIff(ms.rest, key);
      } else {
        OccursIsFound(ms.rest, key);
        assert ms.rest.NoMembers? ==> Next(ms, true) == NoMembers;
      }
    }
  }

  /** A reachable match is a match of the whole. */
  lemma {:induction false} NearIsFar(ms: Members, key: string, want: Want)
    requires Find(ms, key, want, false).Member?
    ensures Find(ms, key, Any, true).Member? && Find(ms, key, Any, false).Member?
    decreases Count(ms)
  {
    if Find(Next(ms, false), key, want, false).Member? {
      FoundFurther(ms, key, want, false);
      NearIsFar(ms.rest, key, want);
    }
  }

  // ---------------------------------------------------------------- exactly when the promise is kept

  /** The last details member, and the last count in it, are where the loops get, and no other
      details member is preferred to it. */
  predicate PlaceInReach(v: Value, shape: Shape)
    requires v.Obj?
  {
    var t, r := Find(v.members, shape.details, Any, true), DetailsReasoning(v, shape, false);
    t.Member? ==>
      && !Hidden(v.members, shape.details)
      && if t.val.Obj? then !Hidden(t.val.members, REASONING) && (r.Member? || Find(v.members, shape.details, Others, false).NoMembers?)
         else r.NoMembers?
  }

  /** The last member is the last of its own kind. */
  lemma {:induction false} LastOfItsKind(ms: Members, key: string)
    requires Find(ms, key, Any, false).Member?
    ensures var t := Find(ms, key, Any, false); Find(ms, key, if t.val.Obj? then Objects else Others, false) == t
    ensures Find(ms, key, Objects, false) == Find(ms, key, Any, false) || Find(ms, key, Others, false) == Find(ms, key, Any, false)
    decreases Count(ms)
  {
    if Find(Next(ms, false), key, Any, false).Member? {
      LastOfItsKind(Next(ms, false), key);
    } else {
      NoneOfAnyKind(Next(ms, false), key);
    }
  }

  lemma {:induction false} NoneOfAnyKind(ms: Members, key: string)
    requires Find(ms, key, Any, false).NoMembers?
    ensures Find(ms, key, Objects, false).NoMembers? && Find(ms, key, Others, false).NoMembers?
  {
    if Find(ms, key, Objects, false).Member? { NearIsFar(ms, key, Objects); }
    if Find(ms, key, Others, false).Member? { NearIsFar(ms, key, Others); }
  }

  /** In reach, both readings write into the same details member, and the same there. */
  lemma {:induction false} SamePlace(v: Value, shape: Shape, n: nat)
    requires v.Obj? && PlaceInReach(v, shape)
    ensures Enriched(v, shape, n, false) == Enriched(v, shape, n, true)
  {
    hide Find;
    hide SetAt;
    hide Hidden;
    var ms, key := v.members, shape.details;
    var t := Find(ms, key, Any, true);
    HiddenIff(ms, key);
    if t.NoMembers? {
      NoneOfAnyKind(ms, key);
    } else {
      LastOfItsKind(ms, key);
      var want := if t.val.Obj? then Objects else Others;
      assert Target(v, shape, false) == want;
      SameDetails(t.val, n);
      SetWhereFound(ms, key, want, false, Any, true, NewDetails(t.val, n, true), if t.val.Scalar? then "" else t.after);
    }
  }

  lemma {:induction false} SameDetails(v: Value, n: nat)
    requires v.Obj? ==> !Hidden(v.members, REASONING)
    ensures NewDetails(v, n, false) == NewDetails(v, n, true)
  {
    hide Find;
    hide SetAt;
    hide Hidden;
    if v.Obj? {
      HiddenIff(v.members, REASONING);
      if Find(v.members, REASONING, Any, true).Member? {
        SetWhereFound(v.members, REASONING, Any, false, Any, true, Scalar(Decimal(n)), "");
      }
    }
  }

  /** What the last details member becomes, read whole, under the promised write. */
  lemma {:induction false} PromisedLast(v: Value, shape: Shape, n: nat)
    requires v.Obj? && Find(v.members, shape.details, Any, true).Member?
    ensures var t, r := Find(v.members, shape.details, Any, true), Find(Enriched(v, shape, n, true).members, shape.details, Any, true);
            r.Member? && r.val == NewDetails(t.val, n, true) && r.after == if t.val.Scalar? then "" else t.after
  {
    hide Find;
    hide SetAt;
    hide NewDetails;
    var t := Find(v.members, shape.details, Any, true);
    NothingAfter(v.members, shape.details, Any, true);
    SetThenFind(v.members, shape.details, Any, NewDetails(t.val, n, true), if t.val.Scalar? then "" else t.after, true, Any, true);
  }

  /** Past the last match there is none. */
  lemma {:induction false} NothingAfter(ms: Members, key: string, want: Want, all: bool)
    requires Find(ms, key, want, all).Member?
    ensures Find(Next(Find(ms, key, want, all), all), key, want, all).NoMembers?
    decreases Count(ms)
  {
    if Find(Next(ms, all), key, want, all).Member? { NothingAfter(Next(ms, all), key, want, all); }
  }

  /** A reachable match that is not the last of all has the last of all behind it. */
  lemma {:induction false} LastIsBehind(ms: Members, key: string, want: Want)
    requires Find(ms, key, want, false).Member? && Find(ms, key, want, false) != Find(ms, key, Any, true)
    ensures Find(Next(Find(ms, key, want, false), true), key, Any, true) == Find(ms, key, Any, true)
    ensures Find(ms, key, Any, true).Member?
    decreases Count(ms)
  {
    if Find(Next(ms, false), key, want, false).Member? {
      FoundFurther(ms, key, want, false);
      NearIsFar(ms.rest, key, want);
      assert Next(ms, true) == ms.rest;
      LastIsBehind(ms.rest, key, want);
    }
  }

  /** When the source writes into another details member, the last one stays as it was. */
  lemma {:induction false} LastUntouched(v: Value, shape: Shape, n: nat)
    requires v.Obj? && Find(v.members, shape.details, Any, true).Member?
    requires Find(v.members, shape.details, Target(v, shape, false), false) != Find(v.members, shape.details, Any, true)
    ensures Find(Enriched(v, shape, n, false).members, shape.details, Any, true) == Find(v.members, shape.details, Any, true)
  {
    hide Find;
    hide SetAt;
    hide NewDetails;
    hide Target;
    var ms, key, want := v.members, shape.details, Target(v, shape, false);
    var t := Find(ms, key, want, false);
    if t.NoMembers? {
      FindAfterInsert(v, key, ReasoningObject(n), key, Any, true);
    } else {
      LastIsBehind(ms, key, want);
      SetThenFind(ms, key, want, NewDetails(t.val, n, false), if t.val.Scalar? then "" else t.after, false, Any, true);
    }
  }

  /** When the source writes into the last details member, but its count is hidden, that count stays. */
  lemma {:induction false} CountUntouched(v: Value, n: nat)
    requires v.Obj? && Hidden(v.members, REASONING)
    ensures NewDetails(v, n, false).Obj?
    ensures Find(NewDetails(v, n, false).members, REASONING, Any, true) == Find(v.members, REASONING, Any, true)
  {
    hide Find;
    hide SetAt;
    hide Hidden;
    HiddenIff(v.members, REASONING);
    if Find(v.members, REASONING, Any, false).Member? {
      LastIsBehind(v.members, REASONING, Any);
      SetThenFind(v.members, REASONING, Any, Scalar(Decimal(n)), "", false, Any, true);
    } else {
      FindAfterInsert(v, REASONING, Scalar(Decimal(n)), REASONING, Any, true);
    }
  }

  /** The count a details value holds after the promised write, read whole. */
  lemma {:induction false} CountAfter(v: Value, n: nat)
    ensures var d := NewDetails(v, n, true);
            d.Obj? && var r := Find(d.members, REASONING, Any, true); r.Member? && r.val == Scalar(Decimal(n))
  {
    hide SetAt;
    NothingInNothing(REASONING, Any, true);
    if v.Obj? {
      hide Find;
      if Find(v.members, REASONING, Any, true).Member? {
        NothingAfter(v.members, REASONING, Any, true);
        SetThenFind(v.members, REASONING, Any, Scalar(Decimal(n)), "", true, Any, true);
      } else {
        FindAfterInsert(v, REASONING, Scalar(Decimal(n)), REASONING, Any, true);
      }
    }
  }

  /** Out of reach, the results differ, whatever the counts. */
  lemma {:induction false} OtherPlace(v: Value, shape: Shape, n: nat, m: nat)
    requires v.Obj? && !PlaceInReach(v, shape) && Enriched(v, shape, m, true) != v
    ensures Enriched(v, shape, n, false) != Enriched(v, shape, m, true)
  {
    hide Find;
    hide SetAt;
    hide NewDetails;
    hide Hidden;
    hide Enriched;
    var ms, key := v.members, shape.details;
    var t := Find(ms, key, Any, true);
    PromisedLast(v, shape, m);
    PromisedChanges(v, shape, m);
    if Find(ms, key, Target(v, shape, false), false) != t {
      LastUntouched(v, shape, n);
    } else {
      HiddenIff(ms, key);
      TargetIsLast(v, shape);
      SourceLast(v, shape, n);
      CountUntouched(t.val, n);
      CountAfter(t.val, m);
      CountChanges(t.val, m);
    }
  }

  /** A promised write that changes the object changes its last details member. */
  lemma {:induction false} PromisedChanges(v: Value, shape: Shape, n: nat)
    requires v.Obj? && Find(v.members, shape.details, Any, true).Member? && Enriched(v, shape, n, true) != v
    ensures var t := Find(v.members, shape.details, Any, true);
            NewDetails(t.val, n, true) != t.val && NewDetails(t.val, n, true).Obj?
  {
    hide Find;
    hide SetAt;
    hide NewDetails;
    var t := Find(v.members, shape.details, Any, true);
    CountAfter(t.val, n);
    SetIsSame(v.members, shape.details, Any, NewDetails(t.val, n, true), if t.val.Scalar? then "" else t.after, true);
  }

  lemma {:induction false} CountChanges(v: Value, n: nat)
    requires v.Obj? && NewDetails(v, n, true) != v
    ensures Find(NewDetails(v, n, true).members, REASONING, Any, true) != Find(v.members, REASONING, Any, true)
  {
    hide SetAt;
    hide Find;
    var r := Find(v.members, REASONING, Any, true);
    if r.Member? {
      NothingAfter(v.members, REASONING, Any, true);
      SetThenFind(v.members, REASONING, Any, Scalar(Decimal(n)), "", true, Any, true);
      SetSame(v.members, REASONING, Any, true);
    } else {
      FindAfterInsert(v, REASONING, Scalar(Decimal(n)), REASONING, Any, true);
    }
  }

  /** The target is the last details member out of reach only when a count in it is hidden. */
  lemma {:induction false} TargetIsLast(v: Value, shape: Shape)
    requires v.Obj? && !PlaceInReach(v, shape)
    requires Find(v.members, shape.details, Target(v, shape, false), false) == Find(v.members, shape.details, Any, true)
    ensures var t := Find(v.members, shape.details, Any, true); t.Member? && t.val.Obj? && Hidden(t.val.members, REASONING)
    ensures Target(v, shape, false) == Objects
  {
    hide Find;
    hide Hidden;
    var ms, key := v.members, shape.details;
    var t := Find(ms, key, Any, true);
    HiddenIff(ms, key);
    NearLast(ms, key, Target(v, shape, false));
    TargetReasoning(v, shape, false);
  }

  /** A search that finds the last of all finds what any reachable search does. */
  lemma {:induction false} NearLast(ms: Members, key: string, want: Want)
    requires Find(ms, key, want, false).Member? && Find(ms, key, want, false) == Find(ms, key, Any, true)
    ensures Find(ms, key, Any, false) == Find(ms, key, Any, true)
    decreases Count(ms)
  {
    FoundIsNoLonger(Next(ms, false), key, want, false);
    FoundIsNoLonger(Next(ms, true), key, Any, true);
    if Find(Next(ms, false), key, want, false).Member? {
      FoundFurther(ms, key, want, false);
      assert Next(ms, true) == ms.rest;
      NearIsFar(ms.rest, key, want);
      NearLast(ms.rest, key, want);
    } else {
      assert Find(Next(ms, true), key, Any, true).NoMembers?;
      if Find(Next(ms, false), key, Any, false).Member? { NearIsFar(Next(ms, false), key, Any); }
    }
  }

  /** What the last details member becomes when the source writes into it. */
  lemma {:induction false} SourceLast(v: Value, shape: Shape, n: nat)
    requires v.Obj? && Target(v, shape, false) == Objects
    requires var t := Find(v.members, shape.details, Objects, false); t.Member? && t == Find(v.members, shape.details, Any, true)
    ensures var t, r := Find(v.members, shape.details, Any, true), Find(Enriched(v, shape, n, false).members, shape.details, Any, true);
            r.Member? && r.val == NewDetails(t.val, n, false)
  {
    hide Find;
    hide SetAt;
    hide NewDetails;
    hide Target;
    var t := Find(v.members, shape.details, Any, true);
    NothingAfter(v.members, shape.details, Any, true);
    SetThenFind(v.members, shape.details, Objects, NewDetails(t.val, n, false), t.after, false, Any, true);
  }

  /** Two counts written to one place differ. */
  lemma {:induction false} OtherCount(v: Value, shape: Shape, n: nat, m: nat)
    requires v.Obj? && n != m
    ensures Enriched(v, shape, n, true) != Enriched(v, shape, m, true)
  {
    hide Find;
    hide SetAt;
    hide NewDetails;
    if Decimal(n) == Decimal(m) { DecimalIsSeen(n, m); }
    var t := Find(v.members, shape.details, Any, true);
    if t.Member? {
      PromisedLast(v, shape, n);
      PromisedLast(v, shape, m);
      CountAfter(t.val, n);
      CountAfter(t.val, m);
    }
  }

  /** The source's result is the promised one. */
  predicate KeepsPromise(v: Value, shape: Shape, plan: Plan)
    requires v.Obj? && ProperPlan(plan)
  {
    var near, far := LeftAlone(v, shape, plan, false), LeftAlone(v, shape, plan, true);
    if near || far then near && far
    else
      && Share(CountOf(Completion(v, shape, false).val, plan.float).value, plan)
         == Share(CountOf(Completion(v, shape, true).val, plan.float).value, plan)
      && PlaceInReach(v, shape)
  }

  /** The synthesis does what the documentation says exactly when a reading up to the first blank
      and a decoder's reading agree on the members consulted: both find a count stated or none to
      share, or both find the same share to write, and the place for it is in reach. */
  lemma {:induction false} AsPromisedIff(v: Value, shape: Shape, plan: Plan)
    requires v.Obj? && ProperPlan(plan)
    ensures SynthUsage(v, shape, plan, false) == SynthUsage(v, shape, plan, true) <==> KeepsPromise(v, shape, plan)
  {
    hide Find;
    hide Enriched;
    hide PlaceInReach;
    hide Share;
    hide CountOf;
    LeftAloneIff(v, shape, plan, false);
    LeftAloneIff(v, shape, plan, true);
    var a, b := Planned(v, shape, plan, false), Planned(v, shape, plan, true);
    if !LeftAlone(v, shape, plan, false) && !LeftAlone(v, shape, plan, true) {
      if !PlaceInReach(v, shape) {
        OtherPlace(v, shape, a.value, b.value);
      } else {
        SamePlace(v, shape, a.value);
        if a != b { OtherCount(v, shape, a.value, b.value); }
      }
    }
  }

  /** Nothing consulted is hidden, and details are all objects or all not. */
  predicate InPlainSight(v: Value, shape: Shape)
    requires v.Obj?
  {
    && !Hidden(v.members, shape.completion) && !Hidden(v.members, REASONING) && !Hidden(v.members, shape.details)
    && var t := Find(v.members, shape.details, Any, true);
       (t.Member? && t.val.Obj? ==>
          !Hidden(t.val.members, REASONING) && Find(v.members, shape.details, Others, false).NoMembers?)
       && (t.Member? && !t.val.Obj? ==> Find(v.members, shape.details, Objects, false).NoMembers?)
  }

  /** Then the synthesis is as promised. */
  lemma {:induction false} PlainSightAsPromised(v: Value, shape: Shape, plan: Plan)
    requires v.Obj? && ProperPlan(plan) && InPlainSight(v, shape)
    ensures SynthUsage(v, shape, plan, false) == SynthUsage(v, shape, plan, true)
  {
    hide Find;
    hide Hidden;
    hide Share;
    hide CountOf;
    var t := Find(v.members, shape.details, Any, true);
    HiddenIff(v.members, shape.completion);
    HiddenIff(v.members, REASONING);
    HiddenIff(v.members, shape.details);
    if t.Member? {
      LastOfItsKind(v.members, shape.details);
      if t.val.Obj? { HiddenIff(t.val.members, REASONING); }
    } else {
      NoneOfAnyKind(v.members, shape.details);
    }
    assert DetailsReasoning(v, shape, false) == DetailsReasoning(v, shape, true);
    AsPromisedIff(v, shape, plan);
  }

  // ---------------------------------------------------------------- a second application

  /** Whitespace the count ends up in front of: that of an empty details object. */
  function InnerBlank(v: Value): string { if v.Obj? && v.members.NoMembers? then v.open else "" }

  /** What a second application would still change: no count is found in a details object, and
      either a details member that is no object was filled in front of one that is, or a zero went
      into an empty details object with blanks inside. */
  predicate Unsettled(v: Value, shape: Shape, plan: Plan)
    requires v.Obj? && ProperPlan(plan)
  {
    var any, obj, other := Find(v.members, shape.details, Any, false), Find(v.members, shape.details, Objects, false),
                           Find(v.members, shape.details, Others, false);
    && !LeftAlone(v, shape, plan, false) && DetailsReasoning(v, shape, false).NoMembers?
    && if other.Member? then any.Member? && any.val.Obj?
       else obj.Member? && InnerBlank(obj.val) != "" && Share(CountOf(Completion(v, shape, false).val, plan.float).value, plan) == 0
  }

  lemma {:induction false} OtherHasAny(ms: Members, key: string)
    ensures Find(ms, key, Others, false).Member? ==> Find(ms, key, Any, false).Member?
    ensures Find(ms, key, Objects, false).Member? ==> Find(ms, key, Any, false).Member?
  {
    if Find(ms, key, Others, false).Member? { NearIsFar(ms, key, Others); }
    if Find(ms, key, Objects, false).Member? { NearIsFar(ms, key, Objects); }
  }

  /** The counts outside the details, read again after a write: the same, or out of reach. */
  lemma {:induction false} OutsideAfter(v: Value, shape: Shape, n: nat, key: string)
    requires v.Obj? && key != shape.details
    ensures var w := Enriched(v, shape, n, false);
            var c, o := Find(w.members, key, Any, false), Find(v.members, key, Any, false);
            && (c.Member? ==> o.Member? && c.val == o.val)
            && (Find(v.members, shape.details, Target(v, shape, false), false).Member? ==> (c.Member? <==> o.Member?))
  {
    hide Find;
    hide SetAt;
    hide NewDetails;
    hide Target;
    var want := Target(v, shape, false);
    var t := Find(v.members, shape.details, want, false);
    if t.NoMembers? {
      FindAfterInsert(v, shape.details, ReasoningObject(n), key, Any, false);
    } else {
      SetThenFindOther(v.members, shape.details, want, NewDetails(t.val, n, false), if t.val.Scalar? then "" else t.after, false, key);
    }
  }

  /** The count in a details value after the source's write. */
  lemma {:induction false} NewDetailsHolds(v: Value, n: nat)
    ensures var d := NewDetails(v, n, false);
            && d.Obj?
            && var r := Find(d.members, REASONING, Any, false);
               r.Member? && r.val == Scalar(Decimal(n))
               && r.after == if v.Obj? && Find(v.members, REASONING, Any, false).NoMembers? then InnerBlank(v) else ""
  {
    hide SetAt;
    NothingInNothing(REASONING, Any, false);
    if v.Obj? {
      hide Find;
      if Find(v.members, REASONING, Any, false).Member? {
        NothingAfter(v.members, REASONING, Any, false);
        SetThenFind(v.members, REASONING, Any, Scalar(Decimal(n)), "", false, Any, false);
      } else {
        FindAfterInsert(v, REASONING, Scalar(Decimal(n)), REASONING, Any, false);
      }
    }
  }

  /** The count found in the details after a write: the one written, unless an object comes after
      the member it was written into. */
  lemma {:induction false} InsideAfter(v: Value, shape: Shape, n: nat)
    requires v.Obj?
    ensures var w := Enriched(v, shape, n, false);
            var r, was, want := DetailsReasoning(w, shape, false), DetailsReasoning(v, shape, false), Target(v, shape, false);
            var t, any := Find(v.members, shape.details, want, false), Find(v.members, shape.details, Any, false);
            if want == Others && any.Member? && any.val.Obj? then r.NoMembers?
            else
              && r.Member? && r.val == Scalar(Decimal(n))
              && r.after == if t.Member? && t.val.Obj? && was.NoMembers? then InnerBlank(t.val) else ""
  {
    hide Find;
    hide SetAt;
    hide NewDetails;
    var ms, key, want := v.members, shape.details, Target(v, shape, false);
    var t, any := Find(ms, key, want, false), Find(ms, key, Any, false);
    TargetReasoning(v, shape, false);
    if t.NoMembers? {
      NoTarget(v, shape);
      FindAfterInsert(v, key, ReasoningObject(n), key, Objects, false);
      NewDetailsHolds(Scalar(""), n);
      assert NewDetails(Scalar(""), n, false) == ReasoningObject(n) by { FreshDetails(n); }
    } else {
      NewDetailsHolds(t.val, n);
      SetThenFind(ms, key, want, NewDetails(t.val, n, false), if t.val.Scalar? then "" else t.after, false, Objects, false);
      OtherHasAny(ms, key);
      if want == Objects {
        NothingAfter(ms, key, Objects, false);
      } else {
        LastOfItsKind(ms, key);
        ObjectsAfterOther(ms, key);
      }
    }
  }

  lemma {:induction false} FreshDetails(n: nat)
    ensures NewDetails(Scalar(""), n, false) == ReasoningObject(n)
  {}

  /** Past the last details member that is no object, an object comes exactly when the last is one. */
  lemma {:induction false} ObjectsAfterOther(ms: Members, key: string)
    requires Find(ms, key, Others, false).Member? && Find(ms, key, Any, false).Member?
    ensures var x, any := Find(ms, key, Others, false), Find(ms, key, Any, false);
            Find(Next(x, false), key, Objects, false) == if any.val.Obj? then any else NoMembers
    decreases Count(ms)
  {
    if Find(Next(ms, false), key, Others, false).Member? {
      OtherHasAny(Next(ms, false), key);
      ObjectsAfterOther(Next(ms, false), key);
    } else if Find(Next(ms, false), key, Any, false).Member? {
      LastOfItsKind(Next(ms, false), key);
    } else {
      NoneOfAnyKind(Next(ms, false), key);
    }
  }

  /** Synthesizing twice is synthesizing once, exactly when nothing was left unsettled. */
  lemma {:induction false} SecondApplication(v: Value, shape: Shape, plan: Plan)
    requires v.Obj? && ProperShape(shape) && ProperPlan(plan)
    ensures SynthUsage(SynthUsage(v, shape, plan, false), shape, plan, false) == SynthUsage(v, shape, plan, false)
            <==> !Unsettled(v, shape, plan)
  {
    hide StringBody;
    hide Find;
    hide Enriched;
    hide Share;
    LeftAloneIff(v, shape, plan, false);
    if !LeftAlone(v, shape, plan, false) {
      var n := Planned(v, shape, plan, false).value;
      var w := Enriched(v, shape, n, false);
      LeftAloneIff(w, shape, plan, false);
      OutsideAfter(v, shape, n, shape.completion);
      OutsideAfter(v, shape, n, REASONING);
      InsideAfter(v, shape, n);
      OtherHasAny(v.members, shape.details);
      Zero();
      hide Decimal;
      SecondReading(v, w, shape, plan, n);
    }
  }

  /** The second reading of a written object, case by case. */
  lemma {:induction false} SecondReading(v: Value, w: Value, shape: Shape, plan: Plan, n: nat)
    requires v.Obj? && w.Obj? && ProperPlan(plan) && !LeftAlone(v, shape, plan, false) && Planned(v, shape, plan, false) == Some(n)
    requires var c, o := Completion(w, shape, false), Completion(v, shape, false);
             && (c.Member? ==> o.Member? && c.val == o.val)
             && (Find(v.members, shape.details, Target(v, shape, false), false).Member? ==> c.Member?)
    requires var c, o := Direct(w, false), Direct(v, false); c.Member? ==> o.Member? && c.val == o.val
    requires var r, was, want := DetailsReasoning(w, shape, false), DetailsReasoning(v, shape, false), Target(v, shape, false);
             var t, any := Find(v.members, shape.details, want, false), Find(v.members, shape.details, Any, false);
             if want == Others && any.Member? && any.val.Obj? then r.NoMembers?
             else
               && r.Member? && r.val == Scalar(Decimal(n))
               && r.after == if t.Member? && t.val.Obj? && was.NoMembers? then InnerBlank(t.val) else ""
    requires Find(v.members, shape.details, Others, false).Member? ==> Find(v.members, shape.details, Any, false).Member?
    ensures LeftAlone(w, shape, plan, false) <==> !Unsettled(v, shape, plan)
  {
    hide Find;
    hide Share;
    hide DetailsReasoning;
    var r := DetailsReasoning(w, shape, false);
    Zero();
    if r.Member? {
      DecimalRoundTrip(n, plan.float);
      assert CountOf(r.val, plan.float) == Some(n as real);
      if r.val == Scalar("0") { DecimalIsSeen(n, 0); }
    }
  }

  // ---------------------------------------------------------------- whole documents

  /** Every usage object in scope has the property. */
  predicate EachUsage(v: Value, descend: bool, ok: Value -> bool)
    decreases v
  {
    v.Obj? ==> EachUsageMember(v.members, descend, ok)
  }

  predicate EachUsageMember(ms: Members, descend: bool, ok: Value -> bool)
    decreases ms
  {
    ms.Member? ==>
      && (if ms.key == "usage" && ms.val.Obj? then ok(ms.val)
          else descend && ms.key == "response" ==> EachUsage(ms.val, false, ok))
      && EachUsageMember(ms.rest, descend, ok)
  }

  function Promised(shape: Shape, plan: Plan): Value -> bool
    requires ProperPlan(plan)
  {
    (u: Value) => u.Obj? && KeepsPromise(u, shape, plan)
  }

  function Settled(shape: Shape, plan: Plan): Value -> bool
    requires ProperPlan(plan)
  {
    (u: Value) => u.Obj? && !Unsettled(u, shape, plan)
  }

  lemma {:induction false} MembersAsPromised(ms: Members, shape: Shape, plan: Plan, descend: bool)
    requires ProperPlan(plan)
    ensures SynthMembers(ms, shape, plan, descend, false) == SynthMembers(ms, shape, plan, descend, true)
            <==> EachUsageMember(ms, descend, Promised(shape, plan))
    decreases ms
  {
    hide SynthUsage;
    hide KeepsPromise;
    if ms.Member? {
      MembersAsPromised(ms.rest, shape, plan, descend);
      if ms.key == "usage" && ms.val.Obj? {
        AsPromisedIff(ms.val, shape, plan);
      } else if ms.val.Obj? {
        MembersAsPromised(ms.val.members, shape, plan, false);
        var ok := Promised(shape, plan);
        assert EachUsage(ms.val, false, ok) <==> EachUsageMember(ms.val.members, false, ok);
        assert SynthMember(ms, shape, plan, descend, false) == SynthMember(ms, shape, plan, descend, true)
               <==> (descend && ms.key == "response" ==> EachUsage(ms.val, false, ok));
      }
    }
  }

  /** A document is synthesized as promised exactly when each of its usage objects is. */
  lemma {:induction false} DocumentAsPromisedIff(d: Doc, shape: Shape, plan: Plan, descend: bool)
    requires ProperPlan(plan)
    ensures SynthDoc(d, shape, plan, descend, false) == SynthDoc(d, shape, plan, descend, true)
            <==> !plan.active || EachUsage(d.root, descend, Promised(shape, plan))
  {
    hide KeepsPromise;
    if d.root.Obj? { MembersAsPromised(d.root.members, shape, plan, descend); }
  }

  lemma {:induction false} MembersTwice(ms: Members, shape: Shape, plan: Plan, descend: bool)
    requires ProperPlan(plan) && ProperShape(shape)
    ensures var once := SynthMembers(ms, shape, plan, descend, false);
            SynthMembers(once, shape, plan, descend, false) == once <==> EachUsageMember(ms, descend, Settled(shape, plan))
    decreases ms
  {
    hide SynthUsage;
    hide Unsettled;
    hide StringBody;
    if ms.Member? {
      MembersTwice(ms.rest, shape, plan, descend);
      if ms.key == "usage" && ms.val.Obj? {
        SecondApplication(ms.val, shape, plan);
      } else if ms.val.Obj? {
        MembersTwice(ms.val.members, shape, plan, false);
        var ok, once := Settled(shape, plan), SynthMembers(ms, shape, plan, descend, false);
        assert EachUsage(ms.val, false, ok) <==> EachUsageMember(ms.val.members, false, ok);
        var inner := SynthValue(ms.val, shape, plan, false, false);
        assert SynthValue(inner, shape, plan, false, false) == inner
               <==> SynthMembers(inner.members, shape, plan, false, false) == inner.members;
        assert SynthMember(once, shape, plan, descend, false) == once.val
               <==> (descend && ms.key == "response" ==> EachUsage(ms.val, false, ok));
      }
    }
  }

  /** Synthesizing a document twice is synthesizing it once, exactly when that is so of each of its
      usage objects. */
  lemma {:induction false} DocumentTwice(d: Doc, shape: Shape, plan: Plan, descend: bool)
    requires ProperPlan(plan) && ProperShape(shape)
    ensures var once := SynthDoc(d, shape, plan, descend, false);
            SynthDoc(once, shape, plan, descend, false) == once <==> !plan.active || EachUsage(d.root, descend, Settled(shape, plan))
  {
    hide Unsettled;
    hide StringBody;
    if d.root.Obj? { MembersTwice(d.root.members, shape, plan, descend); }
  }

  // ---------------------------------------------------------------- compact objects

  /** No blank before any member but the first. */
  predicate Compact(ms: Members)
  {
    ms.Member? ==> (ms.rest.Member? ==> ms.rest.before == "") && Compact(ms.rest)
  }

  lemma {:induction false} CompactHidesNothing(ms: Members, key: string)
    requires Compact(ms)
    ensures !Hidden(ms, key)
    decreases ms
  {
    if ms.Member? { CompactHidesNothing(ms.rest, key); }
  }

  /** Written without blanks after its commas, and with details of one kind, a usage object is
      treated as promised. */
  lemma {:induction false} CompactAsPromised(v: Value, shape: Shape, plan: Plan)
    requires v.Obj? && ProperPlan(plan) && Compact(v.members)
    requires var t := Find(v.members, shape.details, Any, true); t.Member? && t.val.Obj? ==> Compact(t.val.members)
    requires Find(v.members, shape.details, Others, false).NoMembers? || Find(v.members, shape.details, Objects, false).NoMembers?
    ensures SynthUsage(v, shape, plan, false) == SynthUsage(v, shape, plan, true)
  {
    hide Find;
    var t := Find(v.members, shape.details, Any, true);
    CompactHidesNothing(v.members, shape.completion);
    CompactHidesNothing(v.members, REASONING);
    CompactHidesNothing(v.members, shape.details);
    HiddenIff(v.members, shape.details);
    if t.Member? {
      LastOfItsKind(v.members, shape.details);
      if t.val.Obj? { CompactHidesNothing(t.val.members, REASONING); }
    }
    PlainSightAsPromised(v, shape, plan);
  }

  // ---------------------------------------------------------------- inputs that break a promise

  function One(key: string, lit: string, before: string, rest: Members): Members
  {
    Member(before, key, "", "", Scalar(lit), "", rest)
  }

  lemma {:induction false} LiteralCounts(plan: Plan)
    ensures CountOf(Scalar("100"), plan.float) == Some(100.0) && CountOf(Scalar("50"), plan.float) == Some(50.0)
    ensures CountOf(Scalar("5"), plan.float) == Some(5.0) && CountOf(Scalar("0"), plan.float) == Some(0.0)
  {
    assert Decimal(10) == Decimal(1) + "0" == "10";
    assert Decimal(100) == Decimal(10) + "0" == "100";
    assert Decimal(50) == Decimal(5) + "0" == "50";
    assert Decimal(5) == "5" && Decimal(0) == "0";
    DecimalRoundTrip(100, plan.float);
    DecimalRoundTrip(50, plan.float);
    DecimalRoundTrip(5, plan.float);
    DecimalRoundTrip(0, plan.float);
  }

  /** {"completion_tokens":100, "reasoning_tokens":50}: the upstream's own count stands behind a
      blank, and a count is synthesized all the same. */
  lemma {:induction false} UpstreamCountBehindABlank(plan: Plan)
    requires ProperPlan(plan)
    ensures var v := Obj("", One("completion_tokens", "100", "", One("reasoning_tokens", "50", " ", NoMembers)));
            && SynthUsage(v, CHAT_SHAPE, plan, true) == v
            && SynthUsage(v, CHAT_SHAPE, plan, false) == InsertHead(v, CHAT_SHAPE.details, ReasoningObject(Share(100.0, plan)))
  {
    hide Find;
    hide CountOf;
    hide Share;
    var r := One("reasoning_tokens", "50", " ", NoMembers);
    var ms := One("completion_tokens", "100", "", r);
    LiteralCounts(plan);
    Searches(ms, r);
    FindStep(ms, "reasoning_tokens", Any, true);
    FindStep(r, "reasoning_tokens", Any, true);
    NothingInNothing("reasoning_tokens", Any, true);
  }

  /** What the source's loops find in an object whose second member they do not reach. */
  lemma {:induction false} Searches(ms: Members, r: Members)
    requires ms.Member? && ms.rest == r && r.Member? && r.before == " " && ms.key == "completion_tokens"
    ensures Find(ms, "completion_tokens", Any, false) == ms && Find(ms, "reasoning_tokens", Any, false) == NoMembers
    ensures Find(ms, "completion_tokens_details", Objects, false) == NoMembers
    ensures Find(ms, "completion_tokens_details", Others, false) == NoMembers
  {
    assert Next(ms, false) == NoMembers;
    assert Find(NoMembers, "completion_tokens", Any, false) == NoMembers;
    assert Find(NoMembers, "reasoning_tokens", Any, false) == NoMembers;
    assert Find(NoMembers, "completion_tokens_details", Objects, false) == NoMembers;
    assert Find(NoMembers, "completion_tokens_details", Others, false) == NoMembers;
  }

  /** {"completion_tokens":100,"reasoning_tokens":0, "reasoning_tokens":50}: a decoder reads the
      last count, the loops the first, and a count is synthesized all the same. */
  lemma {:induction false} LastCountBehindABlank(plan: Plan)
    requires ProperPlan(plan)
    ensures var v := Obj("", One("completion_tokens", "100", "",
                             One("reasoning_tokens", "0", "", One("reasoning_tokens", "50", " ", NoMembers))));
            && !KeepsPromise(v, CHAT_SHAPE, plan) && SynthUsage(v, CHAT_SHAPE, plan, true) == v
            && SynthUsage(v, CHAT_SHAPE, plan, false) == InsertHead(v, CHAT_SHAPE.details, ReasoningObject(Share(100.0, plan)))
  {
    hide Find;
    hide CountOf;
    hide Share;
    hide KeepsPromise;
    var last := One("reasoning_tokens", "50", " ", NoMembers);
    var first := One("reasoning_tokens", "0", "", last);
    var ms := One("completion_tokens", "100", "", first);
    var v := Obj("", ms);
    LiteralCounts(plan);
    SearchesTwo(ms, first, last);
    assert Planned(v, CHAT_SHAPE, plan, true) == None;
    assert Planned(v, CHAT_SHAPE, plan, false) == Some(Share(100.0, plan));
    AsPromisedIff(v, CHAT_SHAPE, plan);
    assert Count(InsertHead(v, CHAT_SHAPE.details, ReasoningObject(Share(100.0, plan))).members) == Count(ms) + 1;
  }

  lemma {:induction false} SearchesTwo(ms: Members, first: Members, last: Members)
    requires ms.Member? && ms.rest == first && first.Member? && first.rest == last && last.Member? && last.rest.NoMembers?
    requires ms.key == "completion_tokens" && first.key == last.key == "reasoning_tokens" && first.before == "" && last.before == " "
    ensures Find(ms, "completion_tokens", Any, false) == ms && Find(ms, "reasoning_tokens", Any, false) == first
    ensures Find(ms, "reasoning_tokens", Any, true) == last
    ensures Find(ms, "completion_tokens_details", Objects, false) == NoMembers
    ensures Find(ms, "completion_tokens_details", Others, false) == NoMembers
  {
    hide Find;
    assert Next(ms, false) == Next(ms, true) == first && Next(first, false) == NoMembers;
    assert Next(first, true) == last && Next(last, true) == NoMembers;
    NothingInNothing("completion_tokens", Any, false);
    NothingInNothing("reasoning_tokens", Any, false);
    NothingInNothing("reasoning_tokens", Any, true);
    NothingInNothing("completion_tokens_details", Objects, false);
    NothingInNothing("completion_tokens_details", Others, false);
    FindStep(first, "completion_tokens", Any, false);
    FindStep(ms, "completion_tokens", Any, false);
    FindStep(first, "reasoning_tokens", Any, false);
    FindStep(ms, "reasoning_tokens", Any, false);
    FindStep(last, "reasoning_tokens", Any, true);
    FindStep(first, "reasoning_tokens", Any, true);
    FindStep(ms, "reasoning_tokens", Any, true);
    FindStep(first, "completion_tokens_details", Objects, false);
    FindStep(ms, "completion_tokens_details", Objects, false);
    FindStep(first, "completion_tokens_details", Others, false);
    FindStep(ms, "completion_tokens_details", Others, false);
  }

  /** {"completion_tokens":5,"completion_tokens_details":{ }}: the zero written into the details
      takes the blank behind it along the second time. */
  lemma {:induction false} ZeroIntoABlankObject(plan: Plan)
    requires ProperPlan(plan)
    ensures var v := Obj("", One("completion_tokens", "5", "",
                             Member("", "completion_tokens_details", "", "", Obj(" ", NoMembers), "", NoMembers)));
            var once := SynthUsage(v, CHAT_SHAPE, plan, false);
            Unsettled(v, CHAT_SHAPE, plan) && once != v && SynthUsage(once, CHAT_SHAPE, plan, false) != once
  {
    hide Find;
    hide CountOf;
    hide StringBody;
    var d := Member("", "completion_tokens_details", "", "", Obj(" ", NoMembers), "", NoMembers);
    var ms := One("completion_tokens", "5", "", d);
    var v := Obj("", ms);
    LiteralCounts(plan);
    SearchesDetails(ms, d);
    NothingInNothing("reasoning_tokens", Any, false);
    assert Share(5.0, plan) == 0;
    assert Unsettled(v, CHAT_SHAPE, plan);
    LeftAloneIff(v, CHAT_SHAPE, plan, false);
    ChatShapeIsProper();
    hide Unsettled;
    SecondApplication(v, CHAT_SHAPE, plan);
  }

  lemma {:induction false} ChatShapeIsProper()
    ensures ProperShape(CHAT_SHAPE)
  {
    hide StringBody;
    LowerCaseBody("completion_tokens");
    LowerCaseBody("completion_tokens_details");
  }

  lemma {:induction false} SearchesDetails(ms: Members, d: Members)
    requires ms.Member? && ms.rest == d && d.Member? && d.rest.NoMembers? && d.before == ""
    requires ms.key == "completion_tokens" && d.key == "completion_tokens_details" && d.val.Obj?
    ensures Find(ms, "completion_tokens", Any, false) == ms && Find(ms, "reasoning_tokens", Any, false) == NoMembers
    ensures Find(ms, "completion_tokens_details", Objects, false) == d
    ensures Find(ms, "completion_tokens_details", Others, false) == NoMembers
  {
    hide Find;
    assert Next(ms, false) == d && Next(d, false) == NoMembers;
    NothingInNothing("completion_tokens", Any, false);
    NothingInNothing("reasoning_tokens", Any, false);
    NothingInNothing("completion_tokens_details", Objects, false);
    NothingInNothing("completion_tokens_details", Others, false);
    FindStep(d, "completion_tokens", Any, false);
    FindStep(ms, "completion_tokens", Any, false);
    FindStep(d, "reasoning_tokens", Any, false);
    FindStep(ms, "reasoning_tokens", Any, false);
    FindStep(d, "completion_tokens_details", Objects, false);
    FindStep(ms, "completion_tokens_details", Objects, false);
    FindStep(d, "completion_tokens_details", Others, false);
    FindStep(ms, "completion_tokens_details", Others, false);
  }

  /** {"completion_tokens":100,"completion_tokens_details":null,"completion_tokens_details":{}}: a
      decoder reads the object, the source fills the null, and the object the second time. */
  lemma {:induction false} FilledInFrontOfAnObject(plan: Plan)
    requires ProperPlan(plan)
    ensures var obj := Member("", "completion_tokens_details", "", "", Obj("", NoMembers), "", NoMembers);
            var v := Obj("", One("completion_tokens", "100", "", One("completion_tokens_details", "null", "", obj)));
            var once := SynthUsage(v, CHAT_SHAPE, plan, false);
            && Unsettled(v, CHAT_SHAPE, plan) && SynthUsage(once, CHAT_SHAPE, plan, false) != once
            && !KeepsPromise(v, CHAT_SHAPE, plan)
  {
    hide Find;
    hide CountOf;
    hide StringBody;
    hide Share;
    var obj := Member("", "completion_tokens_details", "", "", Obj("", NoMembers), "", NoMembers);
    var null_ := One("completion_tokens_details", "null", "", obj);
    var ms := One("completion_tokens", "100", "", null_);
    var v := Obj("", ms);
    LiteralCounts(plan);
    SearchesMixed(ms, null_, obj, false);
    SearchesMixed(ms, null_, obj, true);
    NothingInNothing("reasoning_tokens", Any, false);
    NothingInNothing("reasoning_tokens", Any, true);
    assert Unsettled(v, CHAT_SHAPE, plan);
    assert !PlaceInReach(v, CHAT_SHAPE);
    ChatShapeIsProper();
    hide Unsettled;
    SecondApplication(v, CHAT_SHAPE, plan);
  }

  lemma {:induction false} SearchesMixed(ms: Members, x: Members, obj: Members, all: bool)
    requires ms.Member? && ms.rest == x && x.Member? && x.rest == obj && obj.Member? && obj.rest.NoMembers?
    requires ms.key == "completion_tokens" && x.key == obj.key == "completion_tokens_details" && x.before == obj.before == ""
    requires obj.val.Obj? && !x.val.Obj?
    ensures Find(ms, "completion_tokens", Any, all) == ms && Find(ms, "reasoning_tokens", Any, all) == NoMembers
    ensures Find(ms, "completion_tokens_details", Objects, all) == obj == Find(ms, "completion_tokens_details", Any, all)
    ensures Find(ms, "completion_tokens_details", Others, all) == x
  {
    hide Find;
    assert Next(ms, all) == x && Next(x, all) == obj && Next(obj, all) == NoMembers;
    SearchThree(ms, x, obj, "completion_tokens", Any, all);
    SearchThree(ms, x, obj, "reasoning_tokens", Any, all);
    SearchThree(ms, x, obj, "completion_tokens_details", Objects, all);
    SearchThree(ms, x, obj, "completion_tokens_details", Any, all);
    SearchThree(ms, x, obj, "completion_tokens_details", Others, all);
  }

  /** A search through three members. */
  lemma {:induction false} SearchThree(a: Members, b: Members, c: Members, key: string, want: Want, all: bool)
    requires a.Member? && b.Member? && c.Member? && Next(a, all) == b && Next(b, all) == c && Next(c, all) == NoMembers
    ensures Find(a, key, want, all) ==
            if Matches(c, key, want) then c else if Matches(b, key, want) then b else if Matches(a, key, want) then a else NoMembers
  {
    hide Find;
    NothingInNothing(key, want, all);
    FindStep(c, key, want, all);
    FindStep(b, key, want, all);
    FindStep(a, key, want, all);
  }
}
