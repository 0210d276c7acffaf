/** Deleting the recorded bytes renders the stripped tree. */
module StripText {
  import opened Json
  import opened Edits
  import opened Scan
  import opened Walk
  import opened Strip
  import opened StripTree

  /** On [a, b) the whole edit list `es` removes what the part `part` of it removes. */
  ghost predicate Locally(es: seq<Edit>, part: seq<Edit>, a: int, b: int)
  {
    forall p :: a <= p < b ==> (Covers(es, p) <==> Covers(part, p))
  }

  lemma {:induction false} CoversConcat(a: seq<Edit>, b: seq<Edit>, p: int)
    ensures Covers(a + b, p) <==> Covers(a, p) || Covers(b, p)
  {
    var c := a + b;
    if Covers(a, p) {
      var i :| 0 <= i < |a| && a[i].start <= p < a[i].end;
      assert c[i].start <= p < c[i].end;
    }
    if Covers(b, p) {
      var i :| 0 <= i < |b| && b[i].start <= p < b[i].end;
      assert c[|a| + i].start <= p < c[|a| + i].end;
    }
    if Covers(c, p) {
      var i :| 0 <= i < |c| && c[i].start <= p < c[i].end;
      if i < |a| { assert a[i].start <= p < a[i].end; } else { assert b[i - |a|].start <= p < b[i - |a|].end; }
    }
  }

  lemma {:induction false} NothingCovers(p: int)
    ensures !Covers([], p)
  {}

  lemma {:induction false} OneCovers(e: Edit, p: int)
    ensures Covers([e], p) <==> e.start <= p < e.end
  {
    if e.start <= p < e.end { assert [e][0] == e; }
  }

  lemma {:induction false} OutsideBounds(es: seq<Edit>, lo: int, hi: int, p: int)
    requires Removals(es, lo, hi) && !(lo <= p < hi)
    ensures !Covers(es, p)
  {}

  /** A part confined to [lo, hi) leaves the other part alone in charge elsewhere. */
  lemma {:induction false} LocallyRight(es: seq<Edit>, a: seq<Edit>, b: seq<Edit>, lo: int, hi: int, from: int, to: int)
    requires Removals(a, lo, hi) && hi <= from && Locally(es, a + b, from, to)
    ensures Locally(es, b, from, to)
  {
    hide Covers;
    hide Removals;
    forall p | from <= p < to ensures Covers(es, p) <==> Covers(b, p) {
      CoversConcat(a, b, p);
      OutsideBounds(a, lo, hi, p);
    }
  }

  lemma {:induction false} LocallyLeft(es: seq<Edit>, a: seq<Edit>, b: seq<Edit>, lo: int, hi: int, from: int, to: int)
    requires Removals(b, lo, hi) && to <= lo && Locally(es, a + b, from, to)
    ensures Locally(es, a, from, to)
  {
    hide Covers;
    hide Removals;
    forall p | from <= p < to ensures Covers(es, p) <==> Covers(a, p) {
      CoversConcat(a, b, p);
      OutsideBounds(b, lo, hi, p);
    }
  }

  lemma {:induction false} LocallyWithin(es: seq<Edit>, a: seq<Edit>, from: int, to: int, from2: int, to2: int)
    requires Locally(es, a, from, to) && from <= from2 && to2 <= to
    ensures Locally(es, a, from2, to2)
  {}

  lemma {:induction false} KeepOutside(body: string, a: int, b: int, es: seq<Edit>, part: seq<Edit>, lo: int, hi: int)
    requires 0 <= a <= b <= |body| && Locally(es, part, a, b) && Removals(part, lo, hi) && (b <= lo || hi <= a)
    ensures Keep(body, a, b, es) == body[a..b]
  {
    forall p | a <= p < b ensures !Covers(es, p) { OutsideBounds(part, lo, hi, p); }
    KeepAll(body, a, b, es);
  }

  // ---------------------------------------------------------------- a run of excised members

  /** The index just past the value of the last member. */
  function LastValEnd(ms: Members, pos: int): int
    requires ms.Member?
    decreases ms
  {
    if ms.rest.Member? then LastValEnd(ms.rest, Sep(ms, pos) + 1) else ValEnd(ms, pos)
  }

  lemma {:induction false} LastTrailingAt(body: string, ms: Members, pos: int)
    requires ms.Member? && MembersAt(body, pos, ms) && 0 <= pos && MembersEnd(ms, pos) <= |body|
    ensures pos < LastValEnd(ms, pos) <= MembersEnd(ms, pos)
    ensures body[LastValEnd(ms, pos)..MembersEnd(ms, pos)] == LastTrailing(ms)
    decreases ms
  {
    hide RenderMembers;
    MembersEndStep(ms, pos);
    if ms.rest.Member? { LastTrailingAt(body, ms.rest, Sep(ms, pos) + 1); }
  }

  /** After a survivor, a closing run goes from the survivor's end to its own last value. */
  lemma {:induction false} RunCoverage(ms: Members, pos: int, prev: int, sc: Scope, p: int)
    requires ms.Member? && AllExcised(ms, sc) && 0 <= prev <= pos
    ensures Covers(MemberEdits(ms, pos, prev, sc), p) <==> prev <= p < LastValEnd(ms, pos)
    ensures pos < LastValEnd(ms, pos)
    decreases ms
  {
    hide RenderMembers;
    hide Covers;
    MembersEndStep(ms, pos);
    var e, next := Removal(ms, pos, prev), Sep(ms, pos) + 1;
    var later := MemberEdits(ms.rest, next, prev, sc);
    CoversConcat([e], later, p);
    OneCovers(e, p);
    if ms.rest.Member? {
      RunCoverage(ms.rest, next, prev, sc, p);
    } else {
      assert later == [];
      NothingCovers(p);
    }
  }

  /** With no survivor before it, a closing run leaves its blanks. */
  lemma {:induction false} ResidueKept(body: string, ms: Members, pos: int, sc: Scope, es: seq<Edit>)
    requires ms.Member? && AllExcised(ms, sc) && MembersAt(body, pos, ms) && 0 <= pos && Apart(sc)
    requires MembersEnd(ms, pos) <= |body| && Locally(es, MemberEdits(ms, pos, -1, sc), pos, MembersEnd(ms, pos))
    ensures Keep(body, pos, MembersEnd(ms, pos), es) == Residue(ms)
    decreases ms
  {
    hide RenderMembers;
    hide Keep;
    hide Removals;
    hide Locally;
    hide At;
    hide Excised;
    hide InnerEdits;
    MembersEndStep(ms, pos);
    SliceAt(body, pos, ms.before);
    SliceAt(body, ValStop(ms, pos), ms.after);
    var hi, e, next := MembersEnd(ms, pos), Removal(ms, pos, -1), Sep(ms, pos) + 1;
    var later := MemberEdits(ms.rest, next, -1, sc);
    assert MemberEdits(ms, pos, -1, sc) == [e] + later;
    if ms.rest.Member? {
      MemberEditBounds(ms.rest, next, -1, sc);
      HeadRemoved(body, pos, es, e, later, hi);
      OneRemoval(e, pos, next);
      LocallyWithin(es, [e] + later, pos, hi, next, hi);
      LocallyRight(es, [e], later, pos, next, next, hi);
      ResidueKept(body, ms.rest, next, sc, es);
    } else {
      NoRemovals(e.end, hi);
      HeadRemoved(body, pos, es, e, later, hi);
    }
  }

  /** Before the key nothing goes, from the key to the end of the removal everything does. */
  lemma {:induction false} HeadRemoved(body: string, pos: int, es: seq<Edit>, e: Edit, later: seq<Edit>, hi: int)
    requires 0 <= pos <= e.start < e.end <= hi <= |body|
    requires Removals(later, e.end, hi) && Locally(es, [e] + later, pos, hi)
    ensures Keep(body, pos, hi, es) == body[pos..e.start] + Keep(body, e.end, hi, es)
    ensures later == [] ==> Keep(body, e.end, hi, es) == body[e.end..hi]
  {
    hide Keep;
    hide Covers;
    hide Removals;
    forall p | pos <= p < e.start ensures !Covers(es, p) {
      CoversConcat([e], later, p);
      OneCovers(e, p);
      OutsideBounds(later, e.end, hi, p);
    }
    forall p | e.start <= p < e.end ensures Covers(es, p) { CoversConcat([e], later, p); OneCovers(e, p); }
    KeepSplit(body, pos, e.start, hi, es);
    KeepSplit(body, e.start, e.end, hi, es);
    KeepAll(body, pos, e.start, es);
    KeepNone(body, e.start, e.end, es);
    if later == [] {
      forall p | e.end <= p < hi ensures !Covers(es, p) {
        CoversConcat([e], later, p);
        OneCovers(e, p);
        NothingCovers(p);
      }
      KeepAll(body, e.end, hi, es);
    }
  }

  // ---------------------------------------------------------------- survivors

  lemma {:induction false} MembersKept(body: string, ms: Members, pos: int, prev: int, sc: Scope, es: seq<Edit>, carried: string)
    requires ms.Member? && !AllExcised(ms, sc) && WFMembers(ms) && At(body, pos, RenderMembers(ms))
    requires Apart(sc) && -1 <= prev <= pos && 0 <= pos
    requires Locally(es, MemberEdits(ms, pos, prev, sc), pos, MembersEnd(ms, pos))
    ensures MembersEnd(ms, pos) <= |body|
    ensures carried + Keep(body, pos, MembersEnd(ms, pos), es) == RenderMembers(StripMembers(ms, carried, sc))
    decreases ms
  {
    hide Keep;
    hide Locally;
    hide StringBody;
    hide StripMembers;
    hide MemberEdits;
    hide Render;
    hide At;
    assert MembersEnd(ms, pos) <= |body| by { SliceAt(body, pos, RenderMembers(ms)); }
    hide RenderMembers;
    RenderedMembersAt(body, pos, ms);
    MembersEndStep(ms, pos);
    if Excised(ms.key, sc) {
      ExcisedKept(body, ms, pos, prev, sc, es);
      MembersKept(body, ms.rest, Sep(ms, pos) + 1, prev, sc, es, carried + ms.before);
      var tail := Keep(body, Sep(ms, pos) + 1, MembersEnd(ms, pos), es);
      assert carried + (ms.before + tail) == carried + ms.before + tail;
      SkipExcised(ms, carried, sc);
    } else {
      SurvivorKept(body, ms, pos, prev, sc, es);
      AssembleSurvivor(ms, carried, sc, Keep(body, pos, MembersEnd(ms, pos), es));
    }
  }

  lemma {:induction false} SkipExcised(ms: Members, carried: string, sc: Scope)
    requires ms.Member? && Excised(ms.key, sc)
    ensures StripMembers(ms, carried, sc) == StripMembers(ms.rest, carried + ms.before, sc)
  {}

  lemma {:induction false} ExcisedKept(body: string, ms: Members, pos: int, prev: int, sc: Scope, es: seq<Edit>)
    requires ms.Member? && Excised(ms.key, sc) && !AllExcised(ms, sc) && MembersAt(body, pos, ms)
    requires Apart(sc) && -1 <= prev <= pos && 0 <= pos && MembersEnd(ms, pos) <= |body|
    requires Locally(es, MemberEdits(ms, pos, prev, sc), pos, MembersEnd(ms, pos))
    ensures ms.rest.Member? && !AllExcised(ms.rest, sc) && Sep(ms, pos) + 1 <= MembersEnd(ms, pos)
    ensures Keep(body, pos, MembersEnd(ms, pos), es) == ms.before + Keep(body, Sep(ms, pos) + 1, MembersEnd(ms, pos), es)
    ensures Locally(es, MemberEdits(ms.rest, Sep(ms, pos) + 1, prev, sc), Sep(ms, pos) + 1, MembersEnd(ms, pos))
  {
    hide Keep;
    hide Locally;
    hide Removals;
    hide RenderMembers;
    hide Render;
    hide At;
    hide Excised;
    hide InnerEdits;
    MembersEndStep(ms, pos);
    SliceAt(body, pos, ms.before);
    var hi, next := MembersEnd(ms, pos), Sep(ms, pos) + 1;
    var e, later := Removal(ms, pos, prev), MemberEdits(ms.rest, next, prev, sc);
    assert MemberEdits(ms, pos, prev, sc) == [e] + later;
    MemberEditBounds(ms.rest, next, prev, sc);
    HeadRemoved(body, pos, es, e, later, hi);
    OneRemoval(e, pos, next);
    LocallyWithin(es, [e] + later, pos, hi, next, hi);
    LocallyRight(es, [e], later, pos, next, next, hi);
  }

  /** What follows the value of a surviving member in the output. */
  function AfterSurvivor(ms: Members, sc: Scope): string
    requires ms.Member?
  {
    if ms.rest.NoMembers? then ms.after
    else if AllExcised(ms.rest, sc) then (if ms.val.Scalar? then ms.after else "") + LastTrailing(ms.rest)
    else ms.after + "," + RenderMembers(StripMembers(ms.rest, "", sc))
  }

  lemma {:induction false} SomeSurvive(ms: Members, carried: string, sc: Scope)
    requires !AllExcised(ms, sc)
    ensures StripMembers(ms, carried, sc).Member?
    decreases ms
  {
    if Excised(ms.key, sc) { SomeSurvive(ms.rest, carried + ms.before, sc); }
  }

  lemma {:induction false} AssembleSurvivor(ms: Members, carried: string, sc: Scope, kept: string)
    requires ms.Member? && !Excised(ms.key, sc)
    requires kept == Head(ms.before, ms) + Render(StripValue(ms.val, Inside(ms.key, sc))) + AfterSurvivor(ms, sc)
    ensures carried + kept == RenderMembers(StripMembers(ms, carried, sc))
  {
    hide StripValue;
    hide Quote;
    hide Inside;
    hide Excised;
    hide Residue;
    hide LastTrailing;
    var v := StripValue(ms.val, Inside(ms.key, sc));
    if ms.rest.Member? && !AllExcised(ms.rest, sc) { SomeSurvive(ms.rest, "", sc); }
    NoMembersRender(sc);
    var r := StripMembers(ms, carried, sc);
    var tail := if r.rest.NoMembers? then "" else "," + RenderMembers(r.rest);
    assert r.after + tail == AfterSurvivor(ms, sc);
    SevenPieces(carried, ms.before, Quote(ms.key), ms.afterKey, ms.beforeVal, Render(v), r.after, tail);
  }

  lemma {:induction false} SevenPieces(carried: string, b: string, k: string, ak: string, bv: string, v: string, a: string, t: string)
    ensures carried + (b + k + ak + ":" + bv + v + (a + t)) == (carried + b) + k + ak + ":" + bv + v + a + t
  {}

  lemma {:induction false} SurvivorKept(body: string, ms: Members, pos: int, prev: int, sc: Scope, es: seq<Edit>)
    requires ms.Member? && !Excised(ms.key, sc) && WFMembers(ms) && At(body, pos, RenderMembers(ms))
    requires Apart(sc) && -1 <= prev <= pos && 0 <= pos && MembersEnd(ms, pos) <= |body|
    requires Locally(es, MemberEdits(ms, pos, prev, sc), pos, MembersEnd(ms, pos))
    ensures Keep(body, pos, MembersEnd(ms, pos), es) ==
            Head(ms.before, ms) + Render(StripValue(ms.val, Inside(ms.key, sc))) + AfterSurvivor(ms, sc)
    decreases ms, 1
  {
    hide Keep;
    hide Covers;
    hide Removals;
    hide Locally;
    hide StringBody;
    hide StripValue;
    hide ObjectEdits;
    hide InnerEdits;
    hide AfterSurvivor;
    hide Render;
    hide RenderMembers;
    hide At;
    MembersEndStep(ms, pos);
    RenderedMembersAt(body, pos, ms);
    InnerIsInside(ms, pos, sc);
    var hi, start, stop, next, valEnd := MembersEnd(ms, pos), ValStart(ms, pos), ValStop(ms, pos), Sep(ms, pos) + 1, ValEnd(ms, pos);
    var inner, later := ObjectEdits(ms.val, start, Inside(ms.key, sc)), MemberEdits(ms.rest, next, valEnd, sc);
    assert MemberEdits(ms, pos, prev, sc) == inner + later;
    ObjectEditBounds(ms.val, start, Inside(ms.key, sc));
    MemberEditBounds(ms.rest, next, valEnd, sc);
    var top := MembersEnd(ms.rest, next);
    RemovalsWider(later, Low(ms.rest, next, valEnd, sc), top, stop, top);
    KeepSplit(body, pos, start, hi, es);
    KeepSplit(body, start, stop, hi, es);
    // up to the value
    LocallyWithin(es, inner + later, pos, hi, pos, stop);
    LocallyLeft(es, inner, later, stop, top, pos, stop);
    LocallyWithin(es, inner, pos, stop, pos, start);
    KeepOutside(body, pos, start, es, inner, start + 1, stop - 1);
    HeadAt(body, ms, pos);
    SliceAt(body, pos, Head(ms.before, ms));
    // the value
    LocallyWithin(es, inner, pos, stop, start, stop);
    ValueKept(body, ms.val, start, Inside(ms.key, sc), es);
    // after the value
    LocallyWithin(es, inner + later, pos, hi, stop, hi);
    LocallyRight(es, inner, later, start + 1, stop - 1, stop, hi);
    RestKept(body, ms, pos, sc, es);
  }

  lemma {:induction false} RestKept(body: string, ms: Members, pos: int, sc: Scope, es: seq<Edit>)
    requires ms.Member? && !Excised(ms.key, sc) && WFMembers(ms) && At(body, pos, RenderMembers(ms))
    requires Apart(sc) && 0 <= pos && ValStop(ms, pos) <= MembersEnd(ms, pos) <= |body|
    requires Locally(es, MemberEdits(ms.rest, Sep(ms, pos) + 1, ValEnd(ms, pos), sc), ValStop(ms, pos), MembersEnd(ms, pos))
    ensures Keep(body, ValStop(ms, pos), MembersEnd(ms, pos), es) == AfterSurvivor(ms, sc)
    decreases ms, 0
  {
    hide At;
    hide MemberEdits;
    hide StripMembers;
    hide Keep;
    hide Covers;
    hide Removals;
    hide Locally;
    hide StringBody;
    hide Render;
    hide RenderMembers;
    MembersEndStep(ms, pos);
    RenderedMembersAt(body, pos, ms);
    var hi, stop, next, valEnd := MembersEnd(ms, pos), ValStop(ms, pos), Sep(ms, pos) + 1, ValEnd(ms, pos);
    var later := MemberEdits(ms.rest, next, valEnd, sc);
    MemberEditBounds(ms.rest, next, valEnd, sc);
    if ms.rest.NoMembers? {
      NoMembersNoEdits(next, valEnd, sc);
      NoRemovals(hi, hi);
      KeepOutside(body, stop, hi, es, later, hi, hi);
      SliceAt(body, stop, ms.after);
    } else if AllExcised(ms.rest, sc) {
      ClosingRunKept(body, ms, pos, sc, es);
    } else {
      KeepSplit(body, stop, next, hi, es);
      LocallyWithin(es, later, stop, hi, stop, next);
      KeepOutside(body, stop, next, es, later, next, hi);
      AtJoin(body, stop, ms.after, ",");
      SliceAt(body, stop, ms.after + ",");
      LocallyWithin(es, later, stop, hi, next, hi);
      MembersKept(body, ms.rest, next, valEnd, sc, es, "");
      assert "" + Keep(body, next, hi, es) == Keep(body, next, hi, es);
    }
  }

  lemma {:induction false} ClosingRunKept(body: string, ms: Members, pos: int, sc: Scope, es: seq<Edit>)
    requires ms.Member? && ms.rest.Member? && AllExcised(ms.rest, sc) && MembersAt(body, pos, ms) && 0 <= pos
    requires ValStop(ms, pos) <= MembersEnd(ms, pos) <= |body|
    requires Locally(es, MemberEdits(ms.rest, Sep(ms, pos) + 1, ValEnd(ms, pos), sc), ValStop(ms, pos), MembersEnd(ms, pos))
    ensures Keep(body, ValStop(ms, pos), MembersEnd(ms, pos), es) ==
            (if ms.val.Scalar? then ms.after else "") + LastTrailing(ms.rest)
  {
    hide Keep;
    hide Locally;
    hide Render;
    hide RenderMembers;
    hide At;
    hide MemberEdits;
    hide AllExcised;
    hide LastTrailing;
    MembersEndStep(ms, pos);
    var hi, stop, next, valEnd := MembersEnd(ms, pos), ValStop(ms, pos), Sep(ms, pos) + 1, ValEnd(ms, pos);
    var last := LastValEnd(ms.rest, next);
    LastTrailingAt(body, ms.rest, next);
    KeepSplit(body, stop, valEnd, hi, es);
    KeepSplit(body, valEnd, last, hi, es);
    RunKept(body, ms.rest, next, valEnd, sc, es, stop, hi);
    SliceAt(body, stop, ms.after);
  }

  lemma {:induction false} RunKept(body: string, run: Members, next: int, valEnd: int, sc: Scope, es: seq<Edit>, stop: int, hi: int)
    requires run.Member? && AllExcised(run, sc) && 0 <= stop <= valEnd <= next < LastValEnd(run, next) <= hi <= |body|
    requires Locally(es, MemberEdits(run, next, valEnd, sc), stop, hi)
    ensures Keep(body, stop, valEnd, es) == body[stop..valEnd]
    ensures Keep(body, valEnd, LastValEnd(run, next), es) == ""
    ensures Keep(body, LastValEnd(run, next), hi, es) == body[LastValEnd(run, next)..hi]
  {
    hide Keep;
    hide Covers;
    hide MemberEdits;
    var last := LastValEnd(run, next);
    forall p | stop <= p < hi ensures Covers(es, p) <==> valEnd <= p < last { RunCoverage(run, next, valEnd, sc, p); }
    KeepAll(body, stop, valEnd, es);
    KeepNone(body, valEnd, last, es);
    KeepAll(body, last, hi, es);
  }

  lemma {:induction false} ValueKept(body: string, v: Value, pos: int, sc: Scope, es: seq<Edit>)
    requires WF(v) && At(body, pos, Render(v)) && Apart(sc)
    requires Locally(es, ObjectEdits(v, pos, sc), pos, pos + |Render(v)|)
    ensures Keep(body, pos, pos + |Render(v)|, es) == Render(StripValue(v, sc))
    decreases v
  {
    hide Keep;
    hide Covers;
    hide Removals;
    hide StringBody;
    hide MemberEdits;
    var end := pos + |Render(v)|;
    if !v.Obj? {
      NoRemovals(end, end);
      KeepOutside(body, pos, end, es, [], end, end);
    } else {
      ObjectKept(body, v, pos, sc, es);
    }
  }

  lemma {:induction false} ObjectFrame(body: string, pos: int, v: Value)
    requires v.Obj? && At(body, pos, Render(v))
    ensures 0 <= pos && pos + |Render(v)| <= |body|
    ensures body[pos..pos + 1 + |v.open|] == "{" + v.open
    ensures MembersEnd(v.members, pos + 1 + |v.open|) == pos + |Render(v)| - 1
    ensures body[pos + |Render(v)| - 1..pos + |Render(v)|] == "}"
    ensures At(body, pos + 1 + |v.open|, RenderMembers(v.members)) && MembersAt(body, pos + 1 + |v.open|, v.members)
  {
    hide MembersAt;
    hide RenderMembers;
    ObjectAt(body, pos, v);
    var ms := RenderMembers(v.members);
    AtSplit(body, pos, "{" + v.open + ms, "}");
    AtSplit(body, pos, "{" + v.open, ms);
  }

  lemma {:induction false} NoMembersRender(sc: Scope)
    ensures RenderMembers(NoMembers) == "" && StripMembers(NoMembers, "", sc) == NoMembers
  {}

  lemma {:induction false} ObjectKept(body: string, v: Value, pos: int, sc: Scope, es: seq<Edit>)
    requires v.Obj? && WF(v) && At(body, pos, Render(v)) && Apart(sc)
    requires Locally(es, ObjectEdits(v, pos, sc), pos, pos + |Render(v)|)
    ensures Keep(body, pos, pos + |Render(v)|, es) == Render(StripValue(v, sc))
    decreases v, 0
  {
    hide Keep;
    hide Covers;
    hide Removals;
    hide StringBody;
    hide MemberEdits;
    hide RenderMembers;
    hide Locally;
    hide At;
    hide StripMembers;
    hide Residue;
    var end, first := pos + |Render(v)|, pos + 1 + |v.open|;
    var close := MembersEnd(v.members, first);
    ObjectFrame(body, pos, v);
    NoMembersRender(sc);
    var edits := MemberEdits(v.members, first, -1, sc);
    MemberEditBounds(v.members, first, -1, sc);
    KeepSplit(body, pos, first, end, es);
    KeepSplit(body, first, close, end, es);
    LocallyWithin(es, edits, pos, end, pos, first);
    LocallyWithin(es, edits, pos, end, first, close);
    LocallyWithin(es, edits, pos, end, close, end);
    KeepOutside(body, pos, first, es, edits, first, close);
    KeepOutside(body, close, end, es, edits, first, close);
    if v.members.NoMembers? {
      KeepOutside(body, first, close, es, edits, first, close);
    } else if AllExcised(v.members, sc) {
      ResidueKept(body, v.members, first, sc, es);
    } else {
      MembersKept(body, v.members, first, -1, sc, es, "");
    }
  }
}
