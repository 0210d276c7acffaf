/** What stripping means on the document tree, and the proof that the byte surgery of Strip
    achieves it. */
module StripTree {
  import opened Json
  import opened Edits
  import opened Scan
  import opened Walk
  import opened Strip

  /** The two ways into a "response" envelope never meet: the descent is on, and no path itself
      continues through "response". */
  predicate Apart(sc: Scope)
  {
    sc.descend ==> sc.depth == 0 && forall i :: 0 <= i < |sc.paths| && |sc.paths[i]| >= 2 ==> sc.paths[i][0] != "response"
  }

  /** The scope in which a surviving member's value is stripped. */
  function Inside(key: string, sc: Scope): Scope
  {
    if Envelope(key, sc) then Scope(sc.paths, 0, false)
    else Scope(Through(key, sc.paths, sc.depth), sc.depth + 1, false)
  }

  // ---------------------------------------------------------------- the stripped tree

  predicate AllExcised(ms: Members, sc: Scope)
  {
    ms.Member? ==> Excised(ms.key, sc) && AllExcised(ms.rest, sc)
  }

  /** The whitespace skipValue leaves behind a value: a scalar's belongs to the scalar. */
  function Trailing(ms: Members): string requires ms.Member? { if ms.val.Scalar? then "" else ms.after }

  function LastTrailing(run: Members): string
    requires run.Member?
  {
    if run.rest.Member? then LastTrailing(run.rest) else Trailing(run)
  }

  /** The whitespace left of an object all of whose members are excised. */
  function Residue(run: Members): string
    requires run.Member?
  {
    run.before + if run.rest.Member? then Residue(run.rest) else Trailing(run)
  }

  /** The survivors, in order, with their own keys and stripped values.  Only whitespace moves:
      the blanks before an excised member go to the next survivor, and a run of excised members
      at the end hands its last blanks to the last survivor. */
  function StripMembers(ms: Members, carried: string, sc: Scope): Members
    decreases ms
  {
    if ms.NoMembers? then NoMembers
    else if Excised(ms.key, sc) then StripMembers(ms.rest, carried + ms.before, sc)
    else
      var kept := StripValue(ms.val, Inside(ms.key, sc));
      if ms.rest.Member? && AllExcised(ms.rest, sc) then
        Member(carried + ms.before, ms.key, ms.afterKey, ms.beforeVal, kept,
               (if ms.val.Scalar? then ms.after else "") + LastTrailing(ms.rest), NoMembers)
      else
        Member(carried + ms.before, ms.key, ms.afterKey, ms.beforeVal, kept, ms.after,
               StripMembers(ms.rest, "", sc))
  }

  function StripValue(v: Value, sc: Scope): Value
    decreases v
  {
    if !v.Obj? then v
    else if v.members.Member? && AllExcised(v.members, sc) then Obj(v.open + Residue(v.members), NoMembers)
    else Obj(v.open, StripMembers(v.members, "", sc))
  }

  // ---------------------------------------------------------------- when the edits collide

  /** Blanks before a member that is neither the first nor the last of the list. */
  predicate GapInside(ms: Members) { ms.Member? && ms.rest.Member? && (ms.before != "" || GapInside(ms.rest)) }

  /** A closing run of three or more excised members with a blank before one of the inner ones. */
  predicate TailJams(run: Members) { run.Member? && GapInside(run.rest) }

  predicate JamsMembers(ms: Members, sc: Scope)
    decreases ms
  {
    ms.Member?
    && (JamsMembers(ms.rest, sc)
        || (!Excised(ms.key, sc)
            && (Jams(ms.val, Inside(ms.key, sc)) || (AllExcised(ms.rest, sc) && TailJams(ms.rest)))))
  }

  /** Some object the paths reach ends, after a survivor, in such a run. */
  predicate Jams(v: Value, sc: Scope)
    decreases v
  {
    v.Obj? && JamsMembers(v.members, sc)
  }

  // ---------------------------------------------------------------- the recorded edits, one scope at a time

  lemma {:induction false} NoPathsNoEdits(ms: Members, pos: int, prev: int, sc: Scope)
    requires sc.paths == [] && !sc.descend
    ensures MemberEdits(ms, pos, prev, sc) == []
    decreases ms
  {
    if ms.Member? {
      assert Through(ms.key, sc.paths, sc.depth) == [];
      NoPathsNoEdits(ms.rest, Sep(ms, pos) + 1, ValEnd(ms, pos), sc);
    }
  }

  lemma {:induction false} NothingThrough(key: string, paths: seq<seq<string>>, depth: nat)
    requires forall i :: 0 <= i < |paths| ==> !GoesThrough(paths[i], key, depth)
    ensures Through(key, paths, depth) == []
    decreases |paths|
  {
    if paths != [] { NothingThrough(key, paths[..|paths| - 1], depth); }
  }

  lemma {:induction false} InnerIsInside(ms: Members, pos: int, sc: Scope)
    requires ms.Member? && Apart(sc)
    ensures InnerEdits(ms, pos, sc) == ObjectEdits(ms.val, ValStart(ms, pos), Inside(ms.key, sc))
  {
    if ms.val.Obj? {
      if Envelope(ms.key, sc) {
        NothingThrough(ms.key, sc.paths, sc.depth);
      } else if Through(ms.key, sc.paths, sc.depth) == [] {
        NoPathsNoEdits(ms.val.members, ValStart(ms, pos) + 1 + |ms.val.open|, -1, Inside(ms.key, sc));
      }
    }
  }

  lemma {:induction false} RemovalsConcat(a: seq<Edit>, b: seq<Edit>, lo: int, mid: int, lo2: int, hi: int)
    requires Removals(a, lo, mid) && Removals(b, lo2, hi) && lo <= lo2 && mid <= hi
    requires forall i :: 0 <= i < |b| ==> b[i].end > mid
    ensures Removals(a + b, lo, hi)
  {
    var c := a + b;
    forall i | 0 <= i < |c| ensures c[i].repl == "" && lo <= c[i].start < c[i].end <= hi {
      if i < |a| { assert c[i] == a[i]; } else { assert c[i] == b[i - |a|]; }
    }
    forall i, j | 0 <= i < j < |c| ensures c[i].end < c[j].end {
      assert c[i] == if i < |a| then a[i] else b[i - |a|];
      assert c[j] == if j < |a| then a[j] else b[j - |a|];
    }
  }

  /** The lowest index the edits of a member list touch. */
  function Low(ms: Members, pos: int, prev: int, sc: Scope): int
  {
    if prev >= 0 && AllExcised(ms, sc) then prev else pos
  }

  lemma {:induction false} MemberEditBounds(ms: Members, pos: int, prev: int, sc: Scope)
    requires Apart(sc) && -1 <= prev <= pos
    ensures Removals(MemberEdits(ms, pos, prev, sc), Low(ms, pos, prev, sc), MembersEnd(ms, pos))
    ensures forall i :: 0 <= i < |MemberEdits(ms, pos, prev, sc)| ==> MemberEdits(ms, pos, prev, sc)[i].end > pos
    decreases ms
  {
    hide RenderMembers;
    hide Removals;
    var lo, hi := Low(ms, pos, prev, sc), MembersEnd(ms, pos);
    if ms.NoMembers? {
      NoRemovals(lo, hi);
    } else {
      var next := Sep(ms, pos) + 1;
      MembersEndStep(ms, pos);
      if Excised(ms.key, sc) {
        var e := Removal(ms, pos, prev);
        if ms.rest.NoMembers? { assert AllExcised(ms.rest, sc); }
        OneRemoval(e, lo, if ms.rest.Member? then next else hi);
        if ms.rest.Member? {
          MemberEditBounds(ms.rest, next, prev, sc);
          RemovalsConcat([e], MemberEdits(ms.rest, next, prev, sc), lo, next, Low(ms.rest, next, prev, sc), hi);
        } else {
          assert MemberEdits(ms, pos, prev, sc) == [e];
        }
      } else {
        InnerIsInside(ms, pos, sc);
        var inner := ObjectEdits(ms.val, ValStart(ms, pos), Inside(ms.key, sc));
        ObjectEditBounds(ms.val, ValStart(ms, pos), Inside(ms.key, sc));
        RemovalsWider(inner, ValStart(ms, pos) + 1, ValStop(ms, pos) - 1, pos, ValEnd(ms, pos));
        if ms.rest.Member? {
          MemberEditBounds(ms.rest, next, ValEnd(ms, pos), sc);
          RemovalsConcat(inner, MemberEdits(ms.rest, next, ValEnd(ms, pos), sc), pos, ValEnd(ms, pos),
                         Low(ms.rest, next, ValEnd(ms, pos), sc), hi);
        } else {
          assert MemberEdits(ms, pos, prev, sc) == inner;
          RemovalsWider(inner, pos, ValEnd(ms, pos), pos, hi);
        }
      }
    }
  }

  lemma {:induction false} OneRemoval(e: Edit, lo: int, hi: int)
    requires e.repl == "" && lo <= e.start < e.end <= hi
    ensures Removals([e], lo, hi)
  {}

  lemma {:induction false} NoRemovals(lo: int, hi: int)
    ensures Removals([], lo, hi)
  {}

  lemma {:induction false} RemovalsWider(es: seq<Edit>, lo: int, hi: int, lo2: int, hi2: int)
    requires Removals(es, lo, hi) && lo2 <= lo && hi <= hi2
    ensures Removals(es, lo2, hi2)
  {}

  lemma {:induction false} ObjectEditBounds(v: Value, pos: int, sc: Scope)
    requires Apart(sc) && 0 <= pos
    ensures Removals(ObjectEdits(v, pos, sc), pos + 1, pos + |Render(v)| - 1)
    decreases v
  {
    if v.Obj? { MemberEditBounds(v.members, pos + 1 + |v.open|, -1, sc); }
  }

  // ---------------------------------------------------------------- when the coalesced edits are in order

  /** The entries coalesced since the last survivor: in order, past `prev`, the last one ending
      where the next member starts. */
  predicate RunSoFar(out: seq<Edit>, pos: int, prev: int, base: int)
  {
    && (prev >= 0 ==> base <= prev) && base <= pos
    && Ordered(out, base)
    && (forall i :: 0 <= i < |out| ==> out[i].repl == "" && prev < out[i].start < out[i].end <= pos)
    && (out != [] ==> out[|out| - 1].end == pos)
  }

  /** The collision seen from inside a run that has left `n` coalesced entries behind. */
  predicate Jammed(ms: Members, prev: int, n: nat, sc: Scope)
  {
    if ms.Member? && AllExcised(ms, sc) && prev >= 0 then
      n >= 2 || (n == 0 && TailJams(ms)) || (n == 1 && GapInside(ms))
    else JamsMembers(ms, sc)
  }

  lemma {:induction false} AllExcisedNeverJams(ms: Members, sc: Scope)
    requires AllExcised(ms, sc)
    ensures !JamsMembers(ms, sc)
    decreases ms
  {
    if ms.Member? { AllExcisedNeverJams(ms.rest, sc); }
  }

  lemma {:induction false} OrderedSnoc(out: seq<Edit>, e: Edit, base: int, n: int)
    requires Ordered(out, base) && e.start <= e.end && base <= n <= e.start
    requires forall i :: 0 <= i < |out| ==> out[i].end <= n
    ensures Ordered(out + [e], base)
    decreases |out|
  {
    assert Ordered([e], n) by { assert [e][1..] == []; }
    OrderedConcat(out, [e], base, n);
  }

  lemma {:induction false} OrderedInit(out: seq<Edit>, base: int)
    requires Ordered(out, base) && out != []
    ensures Ordered(out[..|out| - 1], base)
    ensures forall i :: 0 <= i < |out| - 1 ==> out[i].end <= out[|out| - 1].start
    ensures base <= out[|out| - 1].start <= out[|out| - 1].end
    decreases |out|
  {
    if |out| > 1 {
      OrderedInit(out[1..], out[0].end);
      assert out[..|out| - 1][1..] == out[1..][..|out| - 2];
      forall i | 0 <= i < |out| - 1 ensures out[i].end <= out[|out| - 1].start {
        if i > 0 { assert out[1..][i - 1] == out[i]; }
      }
    }
  }

  /** A removal with its comma extends the run by one entry, or widens its last entry when it
      follows without a gap. */
  lemma {:induction false} PushInRun(out: seq<Edit>, e: Edit, pos: int, prev: int, base: int)
    requires RunSoFar(out, pos, prev, base) && e.repl == "" && pos <= e.start < e.end && prev < e.start
    ensures RunSoFar(Push(out, e), e.end, prev, base)
    ensures |Push(out, e)| == if out != [] && e.start == pos then |out| else |out| + 1
  {
    if out != [] && e.start <= out[|out| - 1].end {
      OrderedInit(out, base);
      var last := out[|out| - 1];
      OrderedSnoc(out[..|out| - 1], Hull(last, e), base, last.start);
    } else {
      OrderedSnoc(out, e, base, pos);
    }
  }

  /** The removal that reaches back to the last survivor: fine on a run of at most one entry. */
  lemma {:induction false} PushLast(out: seq<Edit>, e: Edit, pos: int, prev: int, base: int)
    requires RunSoFar(out, pos, prev, base) && e.repl == "" && 0 <= prev && prev == e.start && e.start < e.end && pos < e.end
    ensures Ordered(Push(out, e), base) <==> |out| <= 1
  {
    if |out| == 0 {
      assert Push(out, e) == [e] && [e][1..] == [];
    } else if |out| == 1 {
      var h := Hull(out[0], e);
      assert Push(out, e) == [h] && [h][1..] == [];
    } else {
      var n := |out|;
      var r := Push(out, e);
      assert r[n - 1].start == prev && r[n - 2] == out[n - 2];
      if Ordered(r, base) { OrderedInit(r, base); assert false; }
    }
  }

  /** Coalescing a part that starts past everything before it. */
  lemma {:induction false} ApartThenOrdered(out: seq<Edit>, es: seq<Edit>, base: int, mid: int, hi: int)
    requires Ordered(out, base) && base <= mid && Removals(es, mid + 1, hi)
    requires forall i :: 0 <= i < |out| ==> out[i].end <= mid
    ensures PushAll(out, es) == out + PushAll([], es)
    ensures Ordered(PushAll(out, es), base) <==> Ordered(PushAll([], es), mid)
    ensures var r := PushAll([], es);
            forall i :: 0 <= i < |r| ==> r[i].repl == "" && mid < r[i].start < r[i].end <= hi
  {
    PushAllApart(out, es);
    PushAllCovers([], es, mid + 1, hi, 0);
    OrderedConcat(out, PushAll([], es), base, mid);
  }

  lemma {:induction false} MembersInOrder(ms: Members, pos: int, prev: int, sc: Scope, out: seq<Edit>, base: int)
    requires Apart(sc) && -1 <= prev < pos && RunSoFar(out, pos, prev, base)
    ensures Ordered(PushAll(out, MemberEdits(ms, pos, prev, sc)), base) <==> !Jammed(ms, prev, |out|, sc)
    decreases ms
  {
    hide RenderMembers;
    if ms.Member? {
      MembersEndStep(ms, pos);
      if Excised(ms.key, sc) {
        ExcisedInOrder(ms, pos, prev, sc, out, base);
      } else {
        SurvivorInOrder(ms, pos, prev, sc, out, base);
      }
    }
  }

  lemma {:induction false} JammedAfterExcised(ms: Members, prev: int, n: nat, sc: Scope)
    requires ms.Member? && Excised(ms.key, sc)
    ensures ms.rest.Member? ==>
              (Jammed(ms, prev, n, sc) <==> Jammed(ms.rest, prev, if n > 0 && ms.before == "" then n else n + 1, sc))
    ensures ms.rest.NoMembers? ==> (Jammed(ms, prev, n, sc) <==> prev >= 0 && n >= 2)
  {
    hide Excised;
    hide Inside;
    assert AllExcised(ms, sc) <==> AllExcised(ms.rest, sc);
    assert JamsMembers(ms, sc) <==> JamsMembers(ms.rest, sc);
    assert ms.rest.Member? ==> (GapInside(ms) <==> ms.before != "" || GapInside(ms.rest));
    assert TailJams(ms) <==> GapInside(ms.rest);
  }

  lemma {:induction false} JammedAfterSurvivor(ms: Members, prev: int, n: nat, sc: Scope, valEnd: nat)
    requires ms.Member? && !Excised(ms.key, sc)
    ensures Jammed(ms, prev, n, sc) <==> Jams(ms.val, Inside(ms.key, sc)) || Jammed(ms.rest, valEnd, 0, sc)
  {
    hide Excised;
    hide Jams;
    assert !AllExcised(ms, sc);
    if AllExcised(ms.rest, sc) { AllExcisedNeverJams(ms.rest, sc); }
  }

  lemma {:induction false} ExcisedInOrder(ms: Members, pos: int, prev: int, sc: Scope, out: seq<Edit>, base: int)
    requires Apart(sc) && -1 <= prev < pos && RunSoFar(out, pos, prev, base)
    requires ms.Member? && Excised(ms.key, sc)
    ensures Ordered(PushAll(out, MemberEdits(ms, pos, prev, sc)), base) <==> !Jammed(ms, prev, |out|, sc)
    decreases ms, 0
  {
    hide RenderMembers;
    hide Excised;
    hide Push;
    hide Jammed;
    MembersEndStep(ms, pos);
    JammedAfterExcised(ms, prev, |out|, sc);
    var e, next := Removal(ms, pos, prev), Sep(ms, pos) + 1;
    var es := MemberEdits(ms, pos, prev, sc);
    assert es[0] == e && es[1..] == MemberEdits(ms.rest, next, prev, sc);
    if ms.rest.Member? {
      PushInRun(out, e, pos, prev, base);
      MembersInOrder(ms.rest, next, prev, sc, Push(out, e), base);
    } else if prev < 0 {
      PushInRun(out, e, pos, prev, base);
      assert es[1..] == [];
    } else {
      PushLast(out, e, pos, prev, base);
      assert es[1..] == [];
    }
  }

  lemma {:induction false} SurvivorInOrder(ms: Members, pos: int, prev: int, sc: Scope, out: seq<Edit>, base: int)
    requires Apart(sc) && -1 <= prev < pos && RunSoFar(out, pos, prev, base)
    requires ms.Member? && !Excised(ms.key, sc)
    ensures Ordered(PushAll(out, MemberEdits(ms, pos, prev, sc)), base) <==> !Jammed(ms, prev, |out|, sc)
    decreases ms, 0
  {
    hide Excised;
    hide Jammed;
    hide Jams;
    hide Ordered;
    hide PushAll;
    hide Removals;
    hide ObjectEdits;
    hide InnerEdits;
    hide MembersEnd;
    MembersEndStep(ms, pos);
    InnerIsInside(ms, pos, sc);
    var start, stop, next, valEnd := ValStart(ms, pos), ValStop(ms, pos), Sep(ms, pos) + 1, ValEnd(ms, pos);
    var inner := ObjectEdits(ms.val, start, Inside(ms.key, sc));
    var later := MemberEdits(ms.rest, next, valEnd, sc);
    assert MemberEdits(ms, pos, prev, sc) == inner + later;
    JammedAfterSurvivor(ms, prev, |out|, sc, valEnd);
    ObjectEditBounds(ms.val, start, Inside(ms.key, sc));
    ObjectInOrder(ms.val, start, Inside(ms.key, sc), pos);
    RemovalsWider(inner, start + 1, stop - 1, pos + 1, stop - 1);
    var hi := MembersEnd(ms.rest, next);
    MemberEditBounds(ms.rest, next, valEnd, sc);
    RemovalsWider(later, Low(ms.rest, next, valEnd, sc), hi, stop, hi);
    MembersInOrder(ms.rest, next, valEnd, sc, [], stop - 1) by { EmptyRun(next, valEnd, stop - 1); }
    TwoPartsInOrder(out, inner, later, base, pos, stop - 1, hi);
  }

  lemma {:induction false} EmptyRun(pos: int, prev: int, base: int)
    requires base <= prev <= pos
    ensures RunSoFar([], pos, prev, base)
  {}

  lemma {:induction false} TwoPartsInOrder(out: seq<Edit>, a: seq<Edit>, b: seq<Edit>, base: int, m: int, n: int, hi: int)
    requires Ordered(out, base) && base <= m <= n && Removals(a, m + 1, n) && Removals(b, n + 1, hi)
    requires forall i :: 0 <= i < |out| ==> out[i].end <= m
    ensures Ordered(PushAll(out, a + b), base) <==> Ordered(PushAll([], a), m) && Ordered(PushAll([], b), n)
  {
    hide Ordered;
    hide Removals;
    hide PushAll;
    PushAllConcat(out, a, b);
    ApartThenOrdered(out, a, base, m, n);
    var mid := PushAll(out, a);
    forall i | 0 <= i < |mid| ensures mid[i].end <= n {
      if i >= |out| { assert mid[i] == PushAll([], a)[i - |out|]; }
    }
    if Ordered(mid, base) {
      ApartThenOrdered(mid, b, base, n, hi);
    } else {
      StaysOutOfOrder(mid, b, base, n, hi);
    }
  }

  /** A collision inside what came before is not repaired by later, separate edits. */
  lemma {:induction false} StaysOutOfOrder(mid: seq<Edit>, es: seq<Edit>, base: int, m: int, hi: int)
    requires !Ordered(mid, base) && base <= m && Removals(es, m + 1, hi)
    requires forall i :: 0 <= i < |mid| ==> mid[i].end <= m
    ensures !Ordered(PushAll(mid, es), base)
  {
    PushAllApart(mid, es);
    PushAllCovers([], es, m + 1, hi, 0);
    OrderedConcat(mid, PushAll([], es), base, m);
  }

  /** The coalesced edits of a value are in order exactly when the value does not jam. */
  lemma {:induction false} ObjectInOrder(v: Value, pos: int, sc: Scope, base: int)
    requires Apart(sc) && 0 <= pos && base <= pos
    ensures Ordered(PushAll([], ObjectEdits(v, pos, sc)), base) <==> !Jams(v, sc)
    decreases v
  {
    hide MemberEdits;
    hide JamsMembers;
    if v.Obj? {
      if v.members.Member? && AllExcised(v.members, sc) { AllExcisedNeverJams(v.members, sc); }
      MembersInOrder(v.members, pos + 1 + |v.open|, -1, sc, [], base);
    }
  }
}
