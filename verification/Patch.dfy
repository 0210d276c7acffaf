/** Replacing values in place: the text of a region under ordered edits, member by member. */
module Patch {
  import opened Json
  import opened Edits
  import opened Scan
  import opened Walk

  /** Ordered edits confined to [a, b]. */
  predicate Within(es: seq<Edit>, a: int, b: int)
    decreases es
  {
    if es == [] then a <= b else a <= es[0].start <= es[0].end && Within(es[1..], es[0].end, b)
  }

  lemma {:induction false} WithinBounds(es: seq<Edit>, a: int, b: int)
    requires Within(es, a, b)
    ensures a <= b
    decreases |es|
  {
    if es != [] { WithinBounds(es[1..], es[0].end, b); }
  }

  /** What becomes of body[a..b]. */
  function Patched(body: string, a: int, b: int, es: seq<Edit>): string
    requires 0 <= a && b <= |body| && Within(es, a, b)
    decreases es
  {
    if es == [] then body[a..b]
    else
      WithinBounds(es[1..], es[0].end, b);
      body[a..es[0].start] + es[0].repl + Patched(body, es[0].end, b, es[1..])
  }

  lemma {:induction false} PatchedConcat(body: string, a: int, m: int, b: int, es: seq<Edit>, fs: seq<Edit>)
    requires 0 <= a && 0 <= m && b <= |body| && Within(es, a, m) && Within(fs, m, b)
    ensures Within(es + fs, a, b) && m <= b
    ensures Patched(body, a, b, es + fs) == Patched(body, a, m, es) + Patched(body, m, b, fs)
    decreases |es|
  {
    WithinBounds(fs, m, b);
    WithinBounds(es, a, m);
    if es == [] {
      assert es + fs == fs;
      PatchedFrom(body, a, m, b, fs);
    } else {
      assert (es + fs)[0] == es[0] && (es + fs)[1..] == es[1..] + fs;
      var e := es[0];
      PatchedConcat(body, e.end, m, b, es[1..], fs);
      WithinBounds(es[1..], e.end, m);
      var x, y := Patched(body, e.end, m, es[1..]), Patched(body, m, b, fs);
      assert Patched(body, a, m, es) == body[a..e.start] + e.repl + x;
      assert Patched(body, a, b, es + fs) == body[a..e.start] + e.repl + (x + y);
      hide Patched;
      Regroup(body[a..e.start] + e.repl, x, y, "");
      assert (body[a..e.start] + e.repl + x) + y + "" == (body[a..e.start] + e.repl + x) + y;
      assert x + y + "" == x + y;
    }
  }

  lemma {:induction false} Regroup(a: string, b: string, c: string, d: string)
    ensures (a + b) + c + d == a + (b + c + d)
  {}

  lemma {:induction false} PatchedFrom(body: string, a: int, m: int, b: int, fs: seq<Edit>)
    requires 0 <= a <= m <= b <= |body| && Within(fs, m, b)
    ensures Within(fs, a, b) && Patched(body, a, b, fs) == body[a..m] + Patched(body, m, b, fs)
  {
    if fs == [] {
      assert body[a..b] == body[a..m] + body[m..b];
    } else {
      var e := fs[0];
      WithinBounds(fs[1..], e.end, b);
      assert body[a..e.start] == body[a..m] + body[m..e.start];
      var tail := Patched(body, e.end, b, fs[1..]);
      hide Patched;
      Regroup(body[a..m], body[m..e.start], e.repl, tail);
    }
  }

  lemma {:induction false} SpliceIsPatched(body: string, prev: int, es: seq<Edit>)
    requires 0 <= prev && Within(es, prev, |body|)
    ensures SpliceFrom(body, prev, es) == Text(Patched(body, prev, |body|, es))
    decreases |es|
  {
    if es != [] {
      WithinBounds(es[1..], es[0].end, |body|);
      SpliceIsPatched(body, es[0].end, es[1..]);
    }
  }

  lemma {:induction false} OneEdit(body: string, e: Edit, a: int, b: int)
    requires 0 <= a <= e.start <= e.end <= b <= |body|
    ensures Within([e], a, b) && Patched(body, a, b, [e]) == body[a..e.start] + e.repl + body[e.end..b]
  {
    assert [e][1..] == [];
  }

  lemma {:induction false} NoEdit(body: string, a: int, b: int)
    requires 0 <= a <= b <= |body|
    ensures Within([], a, b) && Patched(body, a, b, []) == body[a..b]
  {}

  /** `later` turns the members after the first one into `rest`. */
  ghost predicate RestPatched(body: string, pos: nat, ms: Members, later: seq<Edit>, rest: Members)
    requires ms.Member?
  {
    && MembersEnd(ms, pos) <= |body|
    && (ms.rest.Member? <==> rest.Member?)
    && (ms.rest.NoMembers? ==> later == [])
    && (ms.rest.Member? ==>
          && MembersEnd(ms.rest, Sep(ms, pos) + 1) == MembersEnd(ms, pos)
          && Within(later, Sep(ms, pos) + 1, MembersEnd(ms, pos))
          && Patched(body, Sep(ms, pos) + 1, MembersEnd(ms, pos), later) == RenderMembers(rest))
  }

  /** Edits confined to the value of the first member, then edits to the members after it. */
  lemma {:induction false} MemberPatched(body: string, pos: nat, ms: Members, inner: seq<Edit>, later: seq<Edit>, v: Value, rest: Members)
    requires ms.Member? && MembersAt(body, pos, ms) && RestPatched(body, pos, ms, later, rest)
    requires Within(inner, ValStart(ms, pos), ValStop(ms, pos)) && Sep(ms, pos) <= |body|
    requires Patched(body, ValStart(ms, pos), ValStop(ms, pos), inner) == Render(v)
    ensures Within(inner + later, pos, MembersEnd(ms, pos))
    ensures Patched(body, pos, MembersEnd(ms, pos), inner + later) == RenderMembers(ms.(val := v, rest := rest))
  {
    hide Within;
    hide Patched;
    hide Render;
    hide At;
    hide RenderMembers;
    hide RestPatched;
    MembersEndStep(ms, pos);
    SliceAt(body, ValStop(ms, pos), ms.after);
    NoEdit(body, ValStop(ms, pos), Sep(ms, pos));
    PatchedConcat(body, ValStart(ms, pos), ValStop(ms, pos), Sep(ms, pos), inner, []);
    assert inner + [] == inner;
    MemberReplaced(body, pos, ms, inner, later, v, ms.after, rest);
  }

  /** The same when the edits may also take the whitespace behind the value. */
  lemma {:induction false} MemberReplaced(body: string, pos: nat, ms: Members, inner: seq<Edit>, later: seq<Edit>,
                       v: Value, after: string, rest: Members)
    requires ms.Member? && MembersAt(body, pos, ms) && RestPatched(body, pos, ms, later, rest)
    requires Within(inner, ValStart(ms, pos), Sep(ms, pos)) && Sep(ms, pos) <= |body|
    requires Patched(body, ValStart(ms, pos), Sep(ms, pos), inner) == Render(v) + after
    ensures Within(inner + later, pos, MembersEnd(ms, pos))
    ensures Patched(body, pos, MembersEnd(ms, pos), inner + later) ==
            RenderMembers(ms.(val := v, after := after, rest := rest))
  {
    hide Within;
    hide Patched;
    hide Render;
    hide At;
    MembersEndStep(ms, pos);
    var start, sep, hi := ValStart(ms, pos), Sep(ms, pos), MembersEnd(ms, pos);
    HeadAt(body, ms, pos);
    SliceAt(body, pos, Head(ms.before, ms));
    PatchedFrom(body, pos, start, sep, inner);
    TailPatched(body, pos, ms, later, rest);
    PatchedConcat(body, pos, sep, hi, inner, later);
    hide Head;
    hide RenderMembers;
    var r := ms.(val := v, after := after, rest := rest);
    FirstRendered(r);
    Regroup4(Head(ms.before, ms), Render(v), after, Tail(rest));
  }

  function Tail(rest: Members): string { if rest.Member? then "," + RenderMembers(rest) else "" }

  lemma {:induction false} FirstRendered(ms: Members)
    requires ms.Member?
    ensures RenderMembers(ms) == Head(ms.before, ms) + Render(ms.val) + ms.after + Tail(ms.rest)
  {}

  lemma {:induction false} Regroup4(a: string, b: string, c: string, d: string)
    ensures a + (b + c) + d == a + b + c + d
  {}

  lemma {:induction false} TailPatched(body: string, pos: nat, ms: Members, later: seq<Edit>, rest: Members)
    requires ms.Member? && MembersAt(body, pos, ms) && RestPatched(body, pos, ms, later, rest)
    ensures Sep(ms, pos) >= 0 && Within(later, Sep(ms, pos), MembersEnd(ms, pos))
    ensures Patched(body, Sep(ms, pos), MembersEnd(ms, pos), later) == Tail(rest)
  {
    hide Within;
    hide Patched;
    hide Render;
    hide RenderMembers;
    hide At;
    MembersEndStep(ms, pos);
    var sep, hi := Sep(ms, pos), MembersEnd(ms, pos);
    if ms.rest.Member? {
      SliceAt(body, sep, ",");
      PatchedFrom(body, sep, sep + 1, hi, later);
    } else {
      NoEdit(body, sep, hi);
    }
  }

  /** Edits confined to the members of an object. */
  lemma {:induction false} ObjectPatched(body: string, i: nat, v: Value, es: seq<Edit>, ms: Members)
    requires v.Obj? && At(body, i, Render(v))
    requires Within(es, i + 1 + |v.open|, MembersEnd(v.members, i + 1 + |v.open|))
    requires MembersEnd(v.members, i + 1 + |v.open|) <= |body|
    requires Patched(body, i + 1 + |v.open|, MembersEnd(v.members, i + 1 + |v.open|), es) == RenderMembers(ms)
    ensures Within(es, i, i + |Render(v)|)
    ensures Patched(body, i, i + |Render(v)|, es) == Render(v.(members := ms))
  {
    hide Within;
    hide Patched;
    hide RenderMembers;
    var first, end := i + 1 + |v.open|, i + |Render(v)|;
    var close := MembersEnd(v.members, first);
    var inside := RenderMembers(v.members);
    AtSplit(body, i, "{" + v.open + inside, "}");
    AtSplit(body, i, "{" + v.open, inside);
    NoEdit(body, i, first);
    NoEdit(body, close, end);
    assert [] + es == es && es + [] == es;
    PatchedConcat(body, i, first, close, [], es);
    PatchedConcat(body, i, close, end, es, []);
  }

  /** Edits confined to the root of a document. */
  lemma {:induction false} DocPatched(d: Doc, es: seq<Edit>, root: Value)
    requires Within(es, |d.lead|, |d.lead| + |Render(d.root)|)
    requires |d.lead| + |Render(d.root)| <= |RenderDoc(d)|
    requires Patched(RenderDoc(d), |d.lead|, |d.lead| + |Render(d.root)|, es) == Render(root)
    ensures SpliceFrom(RenderDoc(d), 0, es) == Text(RenderDoc(d.(root := root)))
  {
    hide Within;
    hide Patched;
    hide Render;
    var body, a, b := RenderDoc(d), |d.lead|, |d.lead| + |Render(d.root)|;
    DocAt(d);
    NoEdit(body, 0, a);
    NoEdit(body, b, |body|);
    assert [] + es == es && es + [] == es;
    PatchedConcat(body, 0, a, b, [], es);
    PatchedConcat(body, 0, b, |body|, es, []);
    SpliceIsPatched(body, 0, es);
  }
}
