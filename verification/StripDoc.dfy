/** The strip rewriters as a whole: gates, walk, coalescing and splice, against the stripped tree. */
module StripDoc {
  import opened Json
  import opened Edits
  import opened Scan
  import opened Walk
  import opened Strip
  import opened StripTree
  import opened StripText

  /** bytes.Contains(body, quoteStripSegment(p[0])) for some path. */
  predicate MentionsStripKey(body: string, paths: seq<seq<string>>)
  {
    exists i :: 0 <= i < |paths| && |paths[i]| > 0 && Contains(body, Quote(paths[i][0]))
  }

  function StripRoot(d: Doc, sc: Scope): Doc { d.(root := StripValue(d.root, sc)) }

  function StripOutcome(d: Doc, sc: Scope): Outcome
  {
    if Jams(d.root, sc) then Panic else Text(RenderDoc(StripRoot(d, sc)))
  }

  /** stripFields.  `valid` is the answer of json.Valid on `body`, and `d` the document it stands
      for.  The strip is exact, or splice panics, and a property of the document decides which. */
  method StripFields(body: string, valid: bool, paths: seq<seq<string>>, descend: bool, ghost d: Doc)
      returns (r: Outcome)
    requires valid <==> IsJson(body)
    requires valid ==> WFDoc(d) && RenderDoc(d) == body
    ensures !valid ==> r == Text(body)
    ensures valid && Apart(Scope(paths, 0, descend)) ==> r == StripOutcome(d, Scope(paths, 0, descend))
  {
    hide WFDoc;
    hide StripOutcome;
    var sc := Scope(paths, 0, descend);
    if !valid {
      return Text(body);
    }
    DocParts(d);
    if |paths| == 0 || !MentionsStripKey(body, paths) {
      GateIsSound(d, sc);
      return Text(body);
    }
    var edits := StripObject(body, 0, |body|, sc, [], d.lead, d.root);
    assert [] + ObjectEdits(d.root, |d.lead|, sc) == ObjectEdits(d.root, |d.lead|, sc);
    if Apart(sc) { SpliceIsStrip(d, sc); }
    if |edits| == 0 {
      assert body[0..] == body;
      return Text(body);
    }
    var merged := CoalesceRemovals(edits);
    r := Splice(body, merged);
  }

  method StripChatFields(body: string, valid: bool, paths: seq<seq<string>>, ghost d: Doc) returns (r: Outcome)
    requires valid <==> IsJson(body)
    requires valid ==> WFDoc(d) && RenderDoc(d) == body
    ensures r == if valid then StripOutcome(d, Scope(paths, 0, false)) else Text(body)
  {
    r := StripFields(body, valid, paths, false, d);
  }

  lemma {:induction false} DocParts(d: Doc)
    requires WFDoc(d)
    ensures var body := RenderDoc(d);
            && At(body, 0, d.lead) && Blank(d.lead) && At(body, |d.lead|, Render(d.root)) && WF(d.root)
            && |d.lead| + |Render(d.root)| <= |body|
  {
    DocAt(d);
  }

  /** The heart of the matter: coalescing and splicing what the walk records is the strip. */
  lemma {:induction false} SpliceIsStrip(d: Doc, sc: Scope)
    requires WFDoc(d) && Apart(sc)
    ensures SpliceFrom(RenderDoc(d), 0, PushAll([], ObjectEdits(d.root, |d.lead|, sc))) == StripOutcome(d, sc)
  {
    hide Keep;
    hide Covers;
    hide PushAll;
    hide ObjectEdits;
    hide StripValue;
    hide Render;
    hide WF;
    hide Jams;
    hide SpliceFrom;
    hide Ordered;
    var body, pos, end := RenderDoc(d), |d.lead|, |d.lead| + |Render(d.root)|;
    var es := ObjectEdits(d.root, pos, sc);
    var merged := PushAll([], es);
    DocAt(d);
    ObjectEditBounds(d.root, pos, sc);
    ObjectInOrder(d.root, pos, sc, 0);
    forall p ensures Covers(merged, p) <==> Covers(es, p) {
      PushAllCovers([], es, pos + 1, end - 1, p);
      NothingCovers(p);
    }
    PushAllCovers([], es, pos + 1, end - 1, 0);
    if Jams(d.root, sc) {
      SplicePanics(body, 0, merged);
    } else {
      SpliceDeletes(body, 0, merged);
      assert Locally(merged, es, 0, |body|);
      KeepSplit(body, 0, pos, |body|, merged);
      KeepSplit(body, pos, end, |body|, merged);
      KeepOutside(body, 0, pos, merged, es, pos + 1, end - 1);
      KeepOutside(body, end, |body|, merged, es, pos + 1, end - 1);
      ValueKept(body, d.root, pos, sc, merged);
    }
  }

  // ---------------------------------------------------------------- the gate

  /** No path starts with this key. */
  predicate Unnamed(key: string, paths: seq<seq<string>>)
  {
    forall i :: 0 <= i < |paths| && |paths[i]| > 0 ==> paths[i][0] != key
  }

  lemma {:induction false} KeyMentioned(body: string, i: int, key: string, paths: seq<seq<string>>)
    requires At(body, i, Quote(key)) && !MentionsStripKey(body, paths)
    ensures Unnamed(key, paths)
  {
    assert Contains(body, Quote(key));
  }

  lemma {:induction false} UnmentionedMembers(body: string, ms: Members, pos: int, sc: Scope)
    requires MembersAt(body, pos, ms) && !MentionsStripKey(body, sc.paths) && sc.depth == 0
    ensures StripMembers(ms, "", sc) == ms && !JamsMembers(ms, sc) && (ms.Member? ==> !AllExcised(ms, sc))
    decreases ms
  {
    hide MentionsStripKey;
    if ms.Member? {
      KeyMentioned(body, KeyStart(ms, pos), ms.key, sc.paths);
      if ms.rest.Member? { UnmentionedMembers(body, ms.rest, Sep(ms, pos) + 1, sc); }
      if Envelope(ms.key, sc) {
        UnmentionedValue(body, ms.val, ValStart(ms, pos), Inside(ms.key, sc));
      } else {
        NothingThrough(ms.key, sc.paths, 0);
        NoPathsNoStrip(ms.val, Inside(ms.key, sc));
      }
    }
  }

  lemma {:induction false} UnmentionedValue(body: string, v: Value, pos: int, sc: Scope)
    requires At(body, pos, Render(v)) && !MentionsStripKey(body, sc.paths) && sc.depth == 0
    ensures StripValue(v, sc) == v && !Jams(v, sc)
    decreases v
  {
    hide MentionsStripKey;
    hide StripMembers;
    if v.Obj? {
      ObjectAt(body, pos, v);
      UnmentionedMembers(body, v.members, pos + 1 + |v.open|, sc);
    }
  }

  lemma {:induction false} NoPathsNoStrip(v: Value, sc: Scope)
    requires sc.paths == [] && !sc.descend
    ensures StripValue(v, sc) == v && !Jams(v, sc)
    decreases v
  {
    if v.Obj? { NoPathsNoStripMembers(v.members, sc); }
  }

  lemma {:induction false} NoPathsNoStripMembers(ms: Members, sc: Scope)
    requires sc.paths == [] && !sc.descend
    ensures StripMembers(ms, "", sc) == ms && !JamsMembers(ms, sc) && (ms.Member? ==> !AllExcised(ms, sc))
    decreases ms
  {
    if ms.Member? {
      NoPathsNoStripMembers(ms.rest, sc);
      NoPathsNoStrip(ms.val, Inside(ms.key, sc));
    }
  }

  /** A document that never mentions a first segment is its own strip. */
  lemma {:induction false} GateIsSound(d: Doc, sc: Scope)
    requires sc.depth == 0 && (|sc.paths| == 0 || !MentionsStripKey(RenderDoc(d), sc.paths))
    ensures StripOutcome(d, sc) == Text(RenderDoc(d)) && StripRoot(d, sc) == d
  {
    DocAt(d);
    UnmentionedValue(RenderDoc(d), d.root, |d.lead|, sc);
  }
}
