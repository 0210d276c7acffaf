/** The per-line gate of the streaming relay in front of the composed rewriter: internal/proxy/sse.go
    and StripPatterns of internal/inject/strip.go. */
module Gate {
  import opened Json
  import opened Edits
  import opened Strip
  import opened StripTree
  import opened StripDoc
  import opened Usage
  import opened UsageTree
  import UsageDoc
  import opened Pipeline
  import Sse
  import Unambiguous

  predicate IsEntry(key: string, paths: seq<seq<string>>)
  {
    exists i :: 0 <= i < |paths| && |paths[i]| > 0 && Quote(paths[i][0]) == key
  }

  /** The quoted first segments, each once. */
  method StripPatterns(paths: seq<seq<string>>) returns (out: seq<string>)
    ensures forall key :: key in out <==> IsEntry(key, paths)
    ensures forall i, j :: 0 <= i < j < |out| ==> out[i] != out[j]
  {
    out := [];
    var seen := {};
    var i := 0;
    while i < |paths|
      invariant 0 <= i <= |paths|
      invariant forall key :: key in seen <==> key in out
      invariant forall key :: key in out <==> IsEntry(key, paths[..i])
      invariant forall j, k :: 0 <= j < k < |out| ==> out[j] != out[k]
    {
      EntrySnoc(paths, i);
      if |paths[i]| > 0 {
        var pat := Quote(paths[i][0]);
        if pat !in seen {
          seen := seen + {pat};
          out := out + [pat];
        }
      }
      i := i + 1;
    }
    assert paths[..i] == paths;
  }

  lemma {:induction false} EntrySnoc(paths: seq<seq<string>>, n: nat)
    requires n < |paths|
    ensures forall key :: IsEntry(key, paths[..n + 1]) <==>
              IsEntry(key, paths[..n]) || (|paths[n]| > 0 && key == Quote(paths[n][0]))
  {
    forall key ensures IsEntry(key, paths[..n + 1]) <==>
                         IsEntry(key, paths[..n]) || (|paths[n]| > 0 && key == Quote(paths[n][0])) {
      if IsEntry(key, paths[..n]) {
        var i :| 0 <= i < n && |paths[..n][i]| > 0 && Quote(paths[..n][i][0]) == key;
        assert paths[..n + 1][i] == paths[..n][i];
      }
      if |paths[n]| > 0 && key == Quote(paths[n][0]) { assert paths[..n + 1][n] == paths[n]; }
      if IsEntry(key, paths[..n + 1]) {
        var i :| 0 <= i < n + 1 && |paths[..n + 1][i]| > 0 && Quote(paths[..n + 1][i][0]) == key;
        if i < n { assert paths[..n][i] == paths[..n + 1][i]; }
      }
    }
  }

  /** `apply` is the composed rewriter on every payload it is specified for. */
  ghost predicate Carries(apply: string -> string, w: Rewrite)
    requires Proper(w)
  {
    && (forall p :: !IsJson(p) ==> apply(p) == p)
    && forall d :: WFDoc(d) && Outcomes(d, w).Text?
                   ==> apply(RenderDoc(d)) == Outcomes(d, w).text
  }

  function Outcomes(d: Doc, w: Rewrite): Outcome
    requires Proper(w)
  {
    StripOutcome(OwnedDoc(d, w), ScopeOf(w))
  }

  /** Two trees of one payload have one outcome. */
  lemma {:induction false} OutcomeIsOfThePayload(c: Doc, d: Doc, w: Rewrite)
    requires Proper(w) && WFDoc(c) && WFDoc(d) && RenderDoc(c) == RenderDoc(d)
    ensures Outcomes(c, w) == Outcomes(d, w)
  {
    Unambiguous.OneDocument(c, d);
  }

  // ---------------------------------------------------------------- what the gate sees

  /** What rewriteSSELine lets through is what the rewriter may change. */
  lemma {:induction false} SameGate(p: string, keys: seq<string>, paths: seq<seq<string>>)
    requires forall key :: key in keys <==> IsEntry(key, paths)
    ensures Sse.GateOpen(p, keys) <==> Gated(p, paths)
  {
    hide Contains;
    assert Quote("model") == "\"model\"" && Quote("usage") == "\"usage\"";
    if i :| 0 <= i < |keys| && Contains(p, keys[i]) {
      assert keys[i] in keys;
    }
    if i :| 0 <= i < |paths| && |paths[i]| > 0 && Contains(p, Quote(paths[i][0])) {
      assert IsEntry(Quote(paths[i][0]), paths);
      var k :| 0 <= k < |keys| && keys[k] == Quote(paths[i][0]);
    }
  }

  /** A payload the gate turns away would not have been changed. */
  lemma {:induction false} TurnedAwayIsUnchanged(p: string, apply: string -> string, w: Rewrite)
    requires Proper(w) && Carries(apply, w) && !Gated(p, w.paths)
    ensures apply(p) == p
  {
    hide Contains;
    hide MentionsStripKey;
    hide StripOutcome;
    hide OwnedDoc;
    hide WFDoc;
    hide RenderDoc;
    if IsJson(p) {
      var d :| WFDoc(d) && RenderDoc(d) == p;
      DocAt(d);
      GateTurnsAwayOnlyIdentity(d, w);
    }
  }

  /** Streaming behind the gate is rewriting every data payload: the bytes before the payload and
      the terminator stay, and every other line passes as it is. */
  lemma {:induction false} GatedStreamingIsRewriting(line: string, rw: Sse.Rewriter, w: Rewrite)
    requires Proper(w) && Carries(rw.apply, w) && (forall key :: key in rw.stripKeys <==> IsEntry(key, w.paths))
    ensures Sse.RewriteLine(line, rw) ==
            if Sse.DataPayload(line).Some? then Sse.WithPayload(line, rw.apply(Sse.DataPayload(line).value)) else line
  {
    hide Carries;
    hide Gated;
    hide Sse.GateOpen;
    forall p | !Sse.GateOpen(p, rw.stripKeys) ensures rw.apply(p) == p {
      SameGate(p, rw.stripKeys, w.paths);
      TurnedAwayIsUnchanged(p, rw.apply, w);
    }
    Sse.GateIsInvisible(line, rw);
  }
}
