/** Byte-range edits: splice (internal/inject/usage.go) and coalesceRemovals
    (internal/inject/strip.go), and the plain reading of a list of removals as "delete every
    covered byte".
 */
module Edits {

  /** Replace the bytes [start, end) of the original text by `repl`. */
  datatype Edit = Edit(start: int, end: int, repl: string)

  /** Slicing with bounds out of order is a run-time panic in the source. */
  datatype Outcome = Panic | Text(text: string)

  // ---------------------------------------------------------------- splice

  /** The bytes splice still has to write when everything before `prev` is dealt with. */
  function SpliceFrom(body: string, prev: int, es: seq<Edit>): Outcome
    decreases es
  {
    if es == [] then
      if 0 <= prev <= |body| then Text(body[prev..]) else Panic
    else if 0 <= prev <= es[0].start <= |body| then
      var tail := SpliceFrom(body, es[0].end, es[1..]);
      if tail.Panic? then Panic else Text(body[prev..es[0].start] + es[0].repl + tail.text)
    else Panic
  }

  function Prefixed(s: string, o: Outcome): Outcome { if o.Panic? then Panic else Text(s + o.text) }

  method Splice(body: string, es: seq<Edit>) returns (r: Outcome)
    ensures r == SpliceFrom(body, 0, es)
  {
    var out, prev, i := "", 0, 0;
    while i < |es|
      invariant 0 <= i <= |es|
      invariant SpliceFrom(body, 0, es) == Prefixed(out, SpliceFrom(body, prev, es[i..]))
    {
      var e := es[i];
      assert es[i..][1..] == es[i + 1..];
      if !(0 <= prev <= e.start <= |body|) { return Panic; }
      ghost var tail := SpliceFrom(body, e.end, es[i + 1..]);
      assert tail.Text? ==>
          out + (body[prev..e.start] + e.repl + tail.text) == out + body[prev..e.start] + e.repl + tail.text;
      out := out + body[prev..e.start];
      out := out + e.repl;
      prev := e.end;
      i := i + 1;
    }
    if !(0 <= prev <= |body|) { return Panic; }
    r := Text(out + body[prev..]);
  }

  /** Edits in order and apart, all after `prev`. */
  predicate Ordered(es: seq<Edit>, prev: int)
  {
    es == [] || (prev <= es[0].start && es[0].start <= es[0].end && Ordered(es[1..], es[0].end))
  }

  /** Every edit is a removal of at least one byte of [lo, hi), and ends grow. */
  predicate Removals(es: seq<Edit>, lo: int, hi: int)
  {
    && (forall i :: 0 <= i < |es| ==> es[i].repl == "" && lo <= es[i].start < es[i].end <= hi)
    && (forall i, j :: 0 <= i < j < |es| ==> es[i].end < es[j].end)
  }

  // ---------------------------------------------------------------- coalesceRemovals

  function Hull(a: Edit, b: Edit): Edit
  {
    Edit(if b.start < a.start then b.start else a.start, if b.end > a.end then b.end else a.end, a.repl)
  }

  function Push(out: seq<Edit>, e: Edit): (r: seq<Edit>)
    ensures |r| > 0
  {
    if out != [] && e.start <= out[|out| - 1].end
    then out[..|out| - 1] + [Hull(out[|out| - 1], e)]
    else out + [e]
  }

  function PushAll(out: seq<Edit>, es: seq<Edit>): seq<Edit>
    decreases es
  {
    if es == [] then out else PushAll(Push(out, es[0]), es[1..])
  }

  method CoalesceRemovals(es: seq<Edit>) returns (out: seq<Edit>)
    ensures out == PushAll([], es)
  {
    out := [];
    for i := 0 to |es|
      invariant PushAll(out, es[i..]) == PushAll([], es)
    {
      var e := es[i];
      assert es[i..][0] == e && es[i..][1..] == es[i + 1..];
      if |out| == 0 {
        out := out + [e];
      } else {
        var last := out[|out| - 1];
        if e.start <= last.end {
          if e.start < last.start {
            last := last.(start := e.start);
          }
          if e.end > last.end {
            last := last.(end := e.end);
          }
          out := out[..|out| - 1] + [last];
        } else {
          out := out + [e];
        }
      }
    }
  }

  lemma {:induction false} PushAllConcat(out: seq<Edit>, a: seq<Edit>, b: seq<Edit>)
    ensures PushAll(out, a + b) == PushAll(PushAll(out, a), b)
    decreases |a|
  {
    if a == [] {
      assert a + b == b;
    } else {
      assert (a + b)[0] == a[0] && (a + b)[1..] == a[1..] + b;
      PushAllConcat(Push(out, a[0]), a[1..], b);
    }
  }

  /** Once something has been pushed, what lies below it is left alone. */
  lemma {:induction false} PushAllAbove(base: seq<Edit>, out: seq<Edit>, es: seq<Edit>)
    requires out != []
    ensures PushAll(base + out, es) == base + PushAll(out, es)
    decreases |es|
  {
    if es != [] {
      var all := base + out;
      assert all[|all| - 1] == out[|out| - 1];
      assert all[..|all| - 1] == base + out[..|out| - 1];
      assert Push(all, es[0]) == base + Push(out, es[0]);
      PushAllAbove(base, Push(out, es[0]), es[1..]);
    }
  }

  /** Edits that start past everything pushed so far coalesce on their own. */
  lemma {:induction false} PushAllApart(base: seq<Edit>, es: seq<Edit>)
    requires base != [] && es != [] ==> es[0].start > base[|base| - 1].end
    ensures PushAll(base, es) == base + PushAll([], es)
  {
    if es == [] {
      assert base + [] == base;
    } else {
      assert Push([], es[0]) == [es[0]] && Push(base, es[0]) == base + [es[0]];
      PushAllAbove(base, [es[0]], es[1..]);
    }
  }

  // ---------------------------------------------------------------- what a list of removals means

  predicate Covers(es: seq<Edit>, p: int) { exists i :: 0 <= i < |es| && es[i].start <= p < es[i].end }

  /** The bytes of [a, b) that no edit covers. */
  function Keep(body: string, a: int, b: int, es: seq<Edit>): string
    requires 0 <= a <= b <= |body|
    decreases b - a
  {
    if a == b then "" else (if Covers(es, a) then "" else [body[a]]) + Keep(body, a + 1, b, es)
  }

  lemma {:induction false} KeepSplit(body: string, a: int, m: int, b: int, es: seq<Edit>)
    requires 0 <= a <= m <= b <= |body|
    ensures Keep(body, a, b, es) == Keep(body, a, m, es) + Keep(body, m, b, es)
    decreases m - a
  {
    hide Covers;
    if a < m { KeepSplit(body, a + 1, m, b, es); }
  }

  lemma {:induction false} KeepAll(body: string, a: int, b: int, es: seq<Edit>)
    requires 0 <= a <= b <= |body|
    requires forall p :: a <= p < b ==> !Covers(es, p)
    ensures Keep(body, a, b, es) == body[a..b]
    decreases b - a
  {
    hide Covers;
    if a < b { KeepAll(body, a + 1, b, es); }
  }

  lemma {:induction false} KeepNone(body: string, a: int, b: int, es: seq<Edit>)
    requires 0 <= a <= b <= |body|
    requires forall p :: a <= p < b ==> Covers(es, p)
    ensures Keep(body, a, b, es) == ""
    decreases b - a
  {
    hide Covers;
    if a < b { KeepNone(body, a + 1, b, es); }
  }

  lemma {:induction false} KeepSame(body: string, a: int, b: int, es: seq<Edit>, fs: seq<Edit>)
    requires 0 <= a <= b <= |body|
    requires forall p :: a <= p < b ==> Covers(es, p) == Covers(fs, p)
    ensures Keep(body, a, b, es) == Keep(body, a, b, fs)
    decreases b - a
  {
    hide Covers;
    if a < b { KeepSame(body, a + 1, b, es, fs); }
  }

  lemma {:induction false} CoversHead(es: seq<Edit>, p: int)
    requires es != []
    ensures Covers(es, p) <==> es[0].start <= p < es[0].end || Covers(es[1..], p)
  {
    if Covers(es[1..], p) {
      var i :| 0 <= i < |es[1..]| && es[1..][i].start <= p < es[1..][i].end;
      assert es[i + 1].start <= p < es[i + 1].end;
    }
    if Covers(es, p) {
      var i :| 0 <= i < |es| && es[i].start <= p < es[i].end;
      if i > 0 { assert es[1..][i - 1] == es[i]; }
    }
  }

  lemma {:induction false} OrderedStarts(es: seq<Edit>, prev: int, p: int)
    requires Ordered(es, prev) && p < prev
    ensures !Covers(es, p)
    decreases |es|
  {
    if es != [] {
      CoversHead(es, p);
      OrderedStarts(es[1..], es[0].end, p);
    }
  }

  /** Splicing ordered removals deletes exactly the covered bytes. */
  lemma {:induction false} SpliceDeletes(body: string, prev: int, es: seq<Edit>)
    requires 0 <= prev <= |body| && Ordered(es, prev)
    requires forall i :: 0 <= i < |es| ==> es[i].repl == "" && es[i].end <= |body|
    ensures SpliceFrom(body, prev, es) == Text(Keep(body, prev, |body|, es))
    decreases |es|
  {
    if es == [] {
      KeepAll(body, prev, |body|, es);
    } else {
      assert forall i :: 0 <= i < |es[1..]| ==> es[1..][i] == es[i + 1];
      SpliceDeletes(body, es[0].end, es[1..]);
      KeepPastFirst(body, prev, es);
      var tail := Keep(body, es[0].end, |body|, es[1..]);
      assert body[prev..es[0].start] + "" + tail == body[prev..es[0].start] + tail;
    }
  }

  lemma {:induction false} KeepPastFirst(body: string, prev: int, es: seq<Edit>)
    requires es != [] && 0 <= prev && Ordered(es, prev) && es[0].end <= |body|
    ensures Keep(body, prev, |body|, es) == body[prev..es[0].start] + Keep(body, es[0].end, |body|, es[1..])
  {
    hide Covers;
    hide Keep;
    var e, rest := es[0], es[1..];
    forall p ensures Covers(es, p) <==> e.start <= p < e.end || Covers(rest, p) { CoversHead(es, p); }
    forall p | p < e.end ensures !Covers(rest, p) { OrderedStarts(rest, e.end, p); }
    KeepSplit(body, prev, e.start, |body|, es);
    KeepSplit(body, e.start, e.end, |body|, es);
    KeepAll(body, prev, e.start, es);
    KeepNone(body, e.start, e.end, es);
    KeepSame(body, e.end, |body|, es, rest);
  }

  /** Out of order, splice panics. */
  lemma {:induction false} SplicePanics(body: string, prev: int, es: seq<Edit>)
    requires forall i :: 0 <= i < |es| ==> es[i].start <= es[i].end
    requires !Ordered(es, prev)
    ensures SpliceFrom(body, prev, es) == Panic
    decreases |es|
  {
    if prev <= es[0].start { SplicePanics(body, es[0].end, es[1..]); }
  }

  /** Coalescing keeps the union of the removed ranges. */
  lemma {:induction false} PushAllCovers(out: seq<Edit>, es: seq<Edit>, lo: int, hi: int, p: int)
    requires Removals(es, lo, hi)
    requires forall i :: 0 <= i < |out| ==> out[i].repl == "" && lo <= out[i].start < out[i].end <= hi
    requires out != [] && es != [] ==> out[|out| - 1].end <= es[0].end
    ensures Covers(PushAll(out, es), p) <==> Covers(out, p) || Covers(es, p)
    ensures var r := PushAll(out, es);
            forall i :: 0 <= i < |r| ==> r[i].repl == "" && lo <= r[i].start < r[i].end <= hi
    decreases |es|
  {
    if es != [] {
      PushCovers(out, es[0], p);
      assert forall i :: 0 <= i < |es[1..]| ==> es[1..][i] == es[i + 1];
      PushAllCovers(Push(out, es[0]), es[1..], lo, hi, p);
      CoversHead(es, p);
    }
  }

  lemma {:induction false} PushCovers(out: seq<Edit>, e: Edit, p: int)
    requires e.start < e.end
    requires forall i :: 0 <= i < |out| ==> out[i].start < out[i].end
    requires out != [] ==> out[|out| - 1].end <= e.end
    ensures Covers(Push(out, e), p) <==> Covers(out, p) || e.start <= p < e.end
  {
    var r, n := Push(out, e), |out|;
    if n > 0 && e.start <= out[n - 1].end {
      assert forall i :: 0 <= i < n - 1 ==> r[i] == out[i];
      assert r[n - 1] == Hull(out[n - 1], e);
      if Covers(out, p) {
        var i :| 0 <= i < n && out[i].start <= p < out[i].end;
        assert r[i].start <= p < r[i].end;
      }
      if e.start <= p < e.end { assert r[n - 1].start <= p < r[n - 1].end; }
      if Covers(r, p) {
        var i :| 0 <= i < n && r[i].start <= p < r[i].end;
        if i < n - 1 { assert out[i].start <= p < out[i].end; }
        else if p < e.start { assert out[n - 1].start <= p < out[n - 1].end; }
      }
    } else {
      assert forall i :: 0 <= i < n ==> r[i] == out[i];
      assert r[n] == e;
    }
  }

  /** Two ordered lists, the second past the end of the first. */
  lemma {:induction false} OrderedConcat(a: seq<Edit>, b: seq<Edit>, prev: int, mid: int)
    requires forall i :: 0 <= i < |a| ==> a[i].end <= mid
    requires forall i :: 0 <= i < |b| ==> mid <= b[i].start
    requires prev <= mid
    ensures Ordered(a + b, prev) <==> Ordered(a, prev) && Ordered(b, mid)
    decreases |a|
  {
    if a == [] {
      assert a + b == b;
    } else {
      assert (a + b)[0] == a[0] && (a + b)[1..] == a[1..] + b;
      OrderedConcat(a[1..], b, a[0].end, mid);
    }
  }
}
