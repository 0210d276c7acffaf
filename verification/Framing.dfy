/** Rewriting a payload keeps its line in one piece: the composed rewriter of internal/proxy/handler.go
    brings no line break into a payload that has none, so the framing and heartbeat theorems hold
    for it. */
module Framing {
  import opened Wrappers
  import opened Json
  import opened Edits
  import opened Tokens
  import opened Strip
  import opened StripTree
  import opened StripDoc
  import opened Model
  import opened Usage
  import opened UsageDoc
  import opened Pipeline
  import opened Gate
  import Sse
  import KeepAlive
  import EventStream
  import Heartbeat
  import RelayedHeartbeat

  predicate Unbroken(s: string) { Heartbeat.NoBreaks(s) }

  lemma {:induction false} Join(a: string, b: string)
    requires Unbroken(a) && Unbroken(b)
    ensures Unbroken(a + b)
  {}

  lemma {:induction false} Part(s: string, i: int, j: int)
    requires Unbroken(s) && 0 <= i <= j <= |s|
    ensures Unbroken(s[i..j])
  {}

  /** Edits that write no line break. */
  predicate Smooth(es: seq<Edit>) { forall i :: 0 <= i < |es| ==> Unbroken(es[i].repl) }

  lemma {:induction false} SpliceIsUnbroken(body: string, prev: int, es: seq<Edit>)
    requires Unbroken(body) && Smooth(es) && SpliceFrom(body, prev, es).Text?
    ensures Unbroken(SpliceFrom(body, prev, es).text)
    decreases |es|
  {
    hide Unbroken;
    if es == [] {
      Part(body, prev, |body|);
      assert body[prev..|body|] == body[prev..];
    } else {
      SpliceIsUnbroken(body, es[0].end, es[1..]);
      Part(body, prev, es[0].start);
      Join(body[prev..es[0].start], es[0].repl);
      Join(body[prev..es[0].start] + es[0].repl, SpliceFrom(body, es[0].end, es[1..]).text);
    }
  }

  /** The bytes of a JSON string are no line breaks. */
  lemma {:induction false} StringIsUnbroken(s: string)
    requires StringBody(s)
    ensures Unbroken(s)
    decreases |s|
  {
    if s != "" {
      var k := if s[0] == '\\' then if s[1] == 'u' then 6 else 2 else 1;
      StringIsUnbroken(s[k..]);
      assert s == s[..k] + s[k..];
      assert Unbroken(s[..k]);
      Join(s[..k], s[k..]);
    }
  }

  lemma {:induction false} QuoteIsUnbroken(s: string)
    requires StringBody(s)
    ensures Unbroken(Quote(s))
  {
    StringIsUnbroken(s);
    Join("\"", s);
    Join("\"" + s, "\"");
  }

  // ---------------------------------------------------------------- the rename

  lemma {:induction false} SpansAreSmooth(ms: Members, pos: int, name: string, descend: bool)
    requires StringBody(name)
    ensures Smooth(SpanEdits(ms, pos, name, descend))
    decreases ms
  {
    hide StringBody;
    hide Unbroken;
    if ms.Member? {
      SpansAreSmooth(ms.rest, Sep(ms, pos) + 1, name, descend);
      QuoteIsUnbroken(name);
      if ms.val.Obj? { SpansAreSmooth(ms.val.members, ValStart(ms, pos) + 1 + |ms.val.open|, name, false); }
      assert Smooth(ObjectSpans(ms.val, ValStart(ms, pos), name, false));
      assert Smooth(SpansInside(ms, pos, name, descend));
    }
  }

  lemma {:induction false} RenamedIsUnbroken(d: Doc, name: string, descend: bool)
    requires StringBody(name) && Unbroken(RenderDoc(d))
    ensures Unbroken(RenderDoc(RenameDoc(d, name, descend)))
  {
    hide StringBody;
    hide Unbroken;
    hide RenderDoc;
    hide SpliceFrom;
    hide RenameDoc;
    SplicedIsRenamed(d, name, descend);
    assert Smooth(ObjectSpans(d.root, |d.lead|, name, descend)) by {
      if d.root.Obj? { SpansAreSmooth(d.root.members, |d.lead| + 1 + |d.root.open|, name, descend); }
    }
    SpliceIsUnbroken(RenderDoc(d), 0, ObjectSpans(d.root, |d.lead|, name, descend));
  }

  // ---------------------------------------------------------------- the synthesis

  lemma {:induction false} DigitsAreUnbroken(n: nat)
    ensures Unbroken(Decimal(n))
  {
    DecimalDigits(n);
  }

  lemma {:induction false} ReasoningIsUnbroken(n: nat)
    requires StringBody(REASONING)
    ensures Unbroken(ReasoningMember(n)) && Unbroken("{" + ReasoningMember(n) + "}")
  {
    hide StringBody;
    QuoteIsUnbroken(REASONING);
    DigitsAreUnbroken(n);
    hide Decimal;
    hide Quote;
    Join(Quote(REASONING), ":");
    Join(Quote(REASONING) + ":", Decimal(n));
    hide ReasoningMember;
    Join("{", ReasoningMember(n));
    Join("{" + ReasoningMember(n), "}");
  }

  lemma {:induction false} DetailsIsUnbroken(shape: Shape, n: nat)
    requires StringBody(REASONING) && StringBody(shape.details)
    ensures Unbroken(DetailsMember(shape, n))
  {
    hide StringBody;
    ReasoningIsUnbroken(n);
    QuoteIsUnbroken(shape.details);
    hide Quote;
    hide ReasoningMember;
    Join(Quote(shape.details), ":{");
    Join(Quote(shape.details) + ":{", ReasoningMember(n));
    Join(Quote(shape.details) + ":{" + ReasoningMember(n), "}");
  }

  lemma {:induction false} HeadIsUnbroken(body: string, at: int, member: string)
    requires Unbroken(member)
    ensures Unbroken(HeadMember(body, at, member))
  {
    Join(member, ",");
  }

  lemma {:induction false} EditIsSmooth(body: string, v: Value, pos: int, plan: Plan, shape: Shape)
    requires v.Obj? && ProperPlan(plan) && StringBody(REASONING) && StringBody(shape.details)
    ensures var e := UsageEditAt(body, v, pos, plan, shape); e.Some? ==> Unbroken(e.value.repl)
  {
    hide StringBody;
    hide Unbroken;
    hide SeeMembers;
    hide CountToWrite;
    hide HeadMember;
    hide ReasoningMember;
    hide DetailsMember;
    hide Decimal;
    hide SpanText;
    var seen := SeeMembers(v.members, pos + 1 + |v.open|, shape, NOTHING_SEEN);
    if SeenInText(seen, body) && CountToWrite(seen, body, plan).Some? {
      var n := CountToWrite(seen, body, plan).value;
      DigitsAreUnbroken(n);
      ReasoningIsUnbroken(n);
      DetailsIsUnbroken(shape, n);
      HeadIsUnbroken(body, pos + 1, DetailsMember(shape, n));
      if seen.details.Some? { HeadIsUnbroken(body, seen.details.value.start + 1, ReasoningMember(n)); }
    }
  }

  lemma {:induction false} UsageIsSmooth(body: string, ms: Members, pos: int, plan: Plan, shape: Shape, descend: bool)
    requires ProperPlan(plan) && StringBody(REASONING) && StringBody(shape.details)
    ensures Smooth(UsageEdits(body, ms, pos, plan, shape, descend))
    decreases ms
  {
    hide StringBody;
    hide Unbroken;
    hide UsageEditAt;
    if ms.Member? {
      UsageIsSmooth(body, ms.rest, Sep(ms, pos) + 1, plan, shape, descend);
      if ms.val.Obj? {
        EditIsSmooth(body, ms.val, ValStart(ms, pos), plan, shape);
        UsageIsSmooth(body, ms.val.members, ValStart(ms, pos) + 1 + |ms.val.open|, plan, shape, false);
      }
      assert Smooth(ObjectUsageEdits(body, ms.val, ValStart(ms, pos), plan, shape, false));
      assert Smooth(EditsInside(body, ms, pos, plan, shape, descend));
    }
  }

  lemma {:induction false} SynthesizedIsUnbroken(d: Doc, plan: Plan, shape: Shape, descend: bool)
    requires WFDoc(d) && ProperShape(shape) && ProperPlan(plan) && StringBody(REASONING) && Unbroken(RenderDoc(d))
    ensures Unbroken(RenderDoc(SynthDoc(d, shape, plan, descend, false)))
  {
    hide StringBody;
    hide Unbroken;
    hide RenderDoc;
    hide SpliceFrom;
    hide WFDoc;
    if plan.active {
      SplicedIsSynthesized(d, plan, shape, descend);
      var es := ObjectUsageEdits(RenderDoc(d), d.root, |d.lead|, plan, shape, descend);
      assert Smooth(es) by {
        if d.root.Obj? { UsageIsSmooth(RenderDoc(d), d.root.members, |d.lead| + 1 + |d.root.open|, plan, shape, descend); }
      }
      SpliceIsUnbroken(RenderDoc(d), 0, es);
    }
  }

  // ---------------------------------------------------------------- the strip

  predicate Bare(es: seq<Edit>) { forall i :: 0 <= i < |es| ==> es[i].repl == "" }

  lemma {:induction false} PushedIsBare(out: seq<Edit>, es: seq<Edit>)
    requires Bare(out) && Bare(es)
    ensures Bare(PushAll(out, es))
    decreases |es|
  {
    if es != [] { PushedIsBare(Push(out, es[0]), es[1..]); }
  }

  lemma {:induction false} StrippedIsUnbroken(d: Doc, sc: Scope)
    requires WFDoc(d) && Apart(sc) && Unbroken(RenderDoc(d)) && StripOutcome(d, sc).Text?
    ensures Unbroken(StripOutcome(d, sc).text)
  {
    hide Unbroken;
    hide RenderDoc;
    hide WFDoc;
    hide StripOutcome;
    hide SpliceFrom;
    hide PushAll;
    hide ObjectEdits;
    SpliceIsStrip(d, sc);
    ObjectEditBounds(d.root, |d.lead|, sc);
    var es := ObjectEdits(d.root, |d.lead|, sc);
    PushedIsBare([], es);
    assert Smooth(PushAll([], es)) by { assert Unbroken("") by { NothingIsUnbroken(); } }
    SpliceIsUnbroken(RenderDoc(d), 0, PushAll([], es));
  }

  lemma {:induction false} NothingIsUnbroken() ensures Unbroken("") {}

  // ---------------------------------------------------------------- all three, on a stream

  /** The composed rewriter brings no line break into a payload. */
  lemma {:induction false} OutcomeIsUnbroken(d: Doc, w: Rewrite)
    requires WFDoc(d) && Proper(w) && Unbroken(RenderDoc(d)) && Outcomes(d, w).Text?
    ensures Unbroken(Outcomes(d, w).text)
  {
    hide Unbroken;
    hide RenderDoc;
    hide StringBody;
    hide StripOutcome;
    hide RenameValue;
    hide WF;
    ShapesAreProper(w);
    var d1 := RenameDoc(d, w.name, w.nested);
    RenameKeepsWF(d.root, w.name, w.nested);
    RenamedIsUnbroken(d, w.name, w.nested);
    SynthKeepsWF(d1.root, ShapeOf(w), w.plan, w.nested, false);
    SynthesizedIsUnbroken(d1, w.plan, ShapeOf(w), w.nested);
    StrippedIsUnbroken(OwnedDoc(d, w), ScopeOf(w));
  }

  /** No data payload of the stream makes the strip panic. */
  ghost predicate NoPanics(ls: seq<Sse.Line>, w: Rewrite)
    requires Proper(w)
  {
    forall i, d :: 0 <= i < |ls| && WFDoc(d) && Sse.DataPayload(ls[i].content) == Some(RenderDoc(d)) ==> Outcomes(d, w).Text?
  }

  lemma {:induction false} ComposedKeepsLine(c: string, rw: Sse.Rewriter, w: Rewrite)
    requires Proper(w) && Carries(rw.apply, w) && Unbroken(c)
    requires forall d :: WFDoc(d) && Sse.DataPayload(c) == Some(RenderDoc(d)) ==> Outcomes(d, w).Text?
    ensures RelayedHeartbeat.KeepsLine(c, rw)
  {
    hide WFDoc;
    hide RenderDoc;
    hide Outcomes;
    if Sse.DataPayload(c).Some? {
      var p := Sse.DataPayload(c).value;
      PayloadIsUnbroken(c);
      if IsJson(p) {
        var d :| WFDoc(d) && RenderDoc(d) == p;
        OutcomeIsUnbroken(d, w);
      }
    }
  }

  lemma {:induction false} PayloadIsUnbroken(c: string)
    requires Unbroken(c) && Sse.DataPayload(c).Some?
    ensures Unbroken(Sse.DataPayload(c).value)
  {
    var p := Sse.DataPayload(c).value;
    assert Sse.Content(c) == c;
    assert p == c[|c| - |p|..|c|];
    Part(c, |c| - |p|, |c|);
  }

  lemma {:induction false} ComposedKeepsLines(ls: seq<Sse.Line>, rw: Sse.Rewriter, w: Rewrite)
    requires Proper(w) && Carries(rw.apply, w) && Heartbeat.StdLines(ls) && NoPanics(ls, w)
    ensures RelayedHeartbeat.KeepsLines(ls, rw)
  {
    hide Carries;
    hide Proper;
    hide WFDoc;
    hide RenderDoc;
    hide Outcomes;
    hide RelayedHeartbeat.KeepsLine;
    forall i | 0 <= i < |ls| ensures RelayedHeartbeat.KeepsLine(ls[i].content, rw) {
      assert Heartbeat.StdLine(ls[i]);
      ComposedKeepsLine(ls[i].content, rw, w);
    }
  }

  /** Heartbeats over the stream the proxy really serves, renamed, synthesized and stripped, do not
      show, under the conditions of the stream alone. */
  lemma {:induction false} ServedHeartbeatsUnseen(t: string, rw: Sse.Rewriter, w: Rewrite, room: nat, failed: bool,
                                                  steps: seq<KeepAlive.Step>, interval: int)
    requires Proper(w) && Carries(rw.apply, w) && NoPanics(Sse.Lines(t), w)
    requires Heartbeat.NoEventSplit(RelayedHeartbeat.Rewritten(Sse.Lines(t), rw)) && !(EventStream.BOM <= t)
    requires KeepAlive.Pieces(steps) <= Sse.RelayLines(Sse.Start(room), Sse.Lines(t), rw, failed).writes
    ensures Heartbeat.Unseen(steps, interval)
  {
    hide Carries;
    hide NoPanics;
    hide Sse.Lines;
    hide Sse.RelayLines;
    hide KeepAlive.Pieces;
    hide Heartbeat.NoEventSplit;
    hide Heartbeat.StdLines;
    hide RelayedHeartbeat.KeepsLines;
    RelayedHeartbeat.LinesAreStd(t);
    ComposedKeepsLines(Sse.Lines(t), rw, w);
    RelayedHeartbeat.RelayedHeartbeatsUnseen(t, rw, room, failed, steps, interval);
  }
}
