/** What the stripped tree is, said without the strip: which members go, what the rest keeps, and
    that a stripped document is again a document. */
module StripMeaning {
  import opened Json
  import opened Edits
  import opened Scan
  import opened Strip
  import opened StripTree
  import opened StripDoc

  // ---------------------------------------------------------------- which members go

  /** The scope reached by following object keys from `sc`. */
  function Follow(keys: seq<string>, sc: Scope): Scope
  {
    if keys == [] then sc else Inside(keys[|keys| - 1], Follow(keys[..|keys| - 1], sc))
  }

  lemma {:induction false} ThroughMember(key: string, paths: seq<seq<string>>, depth: nat, p: seq<string>)
    ensures p in Through(key, paths, depth) <==> p in paths && GoesThrough(p, key, depth)
    decreases |paths|
  {
    if paths != [] {
      var n := |paths| - 1;
      ThroughMember(key, paths[..n], depth, p);
      assert paths == paths[..n] + [paths[n]];
    }
  }

  lemma {:induction false} FollowKeepsPrefixed(keys: seq<string>, paths: seq<seq<string>>, p: seq<string>)
    ensures var sc := Follow(keys, Scope(paths, 0, false));
            && sc.depth == |keys| && !sc.descend
            && (p in sc.paths <==> p in paths && (keys == [] || (|p| > |keys| && p[..|keys|] == keys)))
    decreases |keys|
  {
    if keys != [] {
      var n := |keys| - 1;
      FollowKeepsPrefixed(keys[..n], paths, p);
      ThroughMember(keys[n], Follow(keys[..n], Scope(paths, 0, false)).paths, n, p);
      if |p| > n + 1 {
        assert p[..n + 1] == p[..n] + [p[n]];
        assert keys == keys[..n] + [keys[n]];
        assert p[..n + 1] == keys <==> p[..n] == keys[..n] && p[n] == keys[n];
      }
    }
  }

  /** Chat scope: the member at a key path is excised exactly when the list names that path. */
  lemma {:induction false} ExcisedIffNamed(keys: seq<string>, key: string, paths: seq<seq<string>>)
    ensures Excised(key, Follow(keys, Scope(paths, 0, false))) <==> keys + [key] in paths
  {
    var sc, named := Follow(keys, Scope(paths, 0, false)), keys + [key];
    FollowKeepsPrefixed(keys, paths, named);
    assert named[..|keys|] == keys;
    if Excised(key, sc) {
      var i :| 0 <= i < |sc.paths| && |sc.paths[i]| == sc.depth + 1 && sc.paths[i][sc.depth] == key;
      var p := sc.paths[i];
      assert p in sc.paths;
      FollowKeepsPrefixed(keys, paths, p);
      assert p == p[..|keys|] + [p[|keys|]];
      if keys == [] { assert p == [key]; }
      assert p == named;
    }
    if named in sc.paths {
      var i :| 0 <= i < |sc.paths| && sc.paths[i] == named;
      assert |sc.paths[i]| == sc.depth + 1 && sc.paths[i][sc.depth] == key;
    }
  }

  /** The member at a key path goes: the list names the path, or, in the Responses scope, the path
      from inside the envelope. */
  predicate Gone(path: seq<string>, paths: seq<seq<string>>, nested: bool)
  {
    path in paths || (nested && |path| >= 2 && path[0] == "response" && path[1..] in paths)
  }

  /** Inside the envelope every path starts over. */
  lemma {:induction false} FollowEnvelope(keys: seq<string>, paths: seq<seq<string>>)
    requires keys != [] && keys[0] == "response"
    ensures Follow(keys, Scope(paths, 0, true)) == Follow(keys[1..], Scope(paths, 0, false))
    decreases |keys|
  {
    var n := |keys| - 1;
    if n == 0 {
      assert keys[..0] == [] && keys[1..] == [];
    } else {
      assert keys[..n][1..] == keys[1..][..n - 1] && keys[1..][n - 1] == keys[n];
      FollowEnvelope(keys[..n], paths);
    }
  }

  /** Anywhere else the descent makes no difference. */
  lemma {:induction false} FollowElsewhere(keys: seq<string>, paths: seq<seq<string>>)
    requires keys != [] && keys[0] != "response"
    ensures Follow(keys, Scope(paths, 0, true)) == Follow(keys, Scope(paths, 0, false))
    decreases |keys|
  {
    var n := |keys| - 1;
    if n == 0 {
      assert keys[..0] == [];
    } else {
      FollowElsewhere(keys[..n], paths);
    }
  }

  /** In either scope, a member is excised exactly when its key path goes. */
  lemma {:induction false} ExcisedIffGone(keys: seq<string>, key: string, paths: seq<seq<string>>, nested: bool)
    requires Apart(Scope(paths, 0, nested))
    ensures Excised(key, Follow(keys, Scope(paths, 0, nested))) <==> Gone(keys + [key], paths, nested)
  {
    hide Follow;
    ExcisedIffNamed(keys, key, paths);
    if nested {
      if keys == [] {
        FollowNothing(Scope(paths, 0, true));
        FollowNothing(Scope(paths, 0, false));
      } else if keys[0] == "response" {
        FollowEnvelope(keys, paths);
        ExcisedIffNamed(keys[1..], key, paths);
        assert (keys + [key])[1..] == keys[1..] + [key];
        NotThroughEnvelope(keys + [key], paths);
      } else {
        FollowElsewhere(keys, paths);
      }
    }
  }

  lemma {:induction false} FollowNothing(sc: Scope)
    ensures Follow([], sc) == sc
  {}

  lemma {:induction false} NotThroughEnvelope(path: seq<string>, paths: seq<seq<string>>)
    requires Apart(Scope(paths, 0, true)) && |path| >= 2 && path[0] == "response"
    ensures path !in paths
  {}

  // ---------------------------------------------------------------- what the rest keeps

  /** `ns`, at key path `at`, is `ms` without the members that go: the same survivors in the same
      order, each with its key and the bytes around its colon, and a value that is pruned in turn. */
  predicate Pruned(ms: Members, ns: Members, at: seq<string>, paths: seq<seq<string>>, nested: bool)
    decreases ms
  {
    if ms.NoMembers? then ns.NoMembers?
    else if Gone(at + [ms.key], paths, nested) then Pruned(ms.rest, ns, at, paths, nested)
    else
      && ns.Member? && ns.key == ms.key && ns.afterKey == ms.afterKey && ns.beforeVal == ms.beforeVal
      && PrunedValue(ms.val, ns.val, at + [ms.key], paths, nested) && Pruned(ms.rest, ns.rest, at, paths, nested)
  }

  predicate PrunedValue(v: Value, w: Value, at: seq<string>, paths: seq<seq<string>>, nested: bool)
    decreases v
  {
    if v.Obj? then w.Obj? && Pruned(v.members, w.members, at, paths, nested) else w == v
  }

  lemma {:induction false} RunPrunesAway(ms: Members, at: seq<string>, paths: seq<seq<string>>, nested: bool)
    requires Apart(Scope(paths, 0, nested)) && AllExcised(ms, Follow(at, Scope(paths, 0, nested)))
    ensures Pruned(ms, NoMembers, at, paths, nested)
    decreases ms
  {
    hide Follow;
    hide Excised;
    hide Gone;
    if ms.Member? {
      ExcisedIffGone(at, ms.key, paths, nested);
      RunPrunesAway(ms.rest, at, paths, nested);
    }
  }

  lemma {:induction false} FollowOn(at: seq<string>, key: string, sc: Scope)
    ensures Follow(at + [key], sc) == Inside(key, Follow(at, sc))
  {
    assert (at + [key])[..|at|] == at;
  }

  lemma {:induction false} StripPrunes(ms: Members, carried: string, at: seq<string>, paths: seq<seq<string>>, nested: bool)
    requires Apart(Scope(paths, 0, nested))
    ensures Pruned(ms, StripMembers(ms, carried, Follow(at, Scope(paths, 0, nested))), at, paths, nested)
    decreases ms
  {
    hide Follow;
    hide Excised;
    hide Gone;
    hide Inside;
    hide Apart;
    if ms.Member? {
      var sc := Follow(at, Scope(paths, 0, nested));
      ExcisedIffGone(at, ms.key, paths, nested);
      if Excised(ms.key, sc) {
        StripPrunes(ms.rest, carried + ms.before, at, paths, nested);
      } else {
        FollowOn(at, ms.key, Scope(paths, 0, nested));
        StripPrunesValue(ms.val, at + [ms.key], paths, nested);
        if AllExcised(ms.rest, sc) { RunPrunesAway(ms.rest, at, paths, nested); } else { StripPrunes(ms.rest, "", at, paths, nested); }
      }
    }
  }

  lemma {:induction false} StripPrunesValue(v: Value, at: seq<string>, paths: seq<seq<string>>, nested: bool)
    requires Apart(Scope(paths, 0, nested))
    ensures PrunedValue(v, StripValue(v, Follow(at, Scope(paths, 0, nested))), at, paths, nested)
    decreases v
  {
    hide Follow;
    hide Apart;
    if v.Obj? {
      if AllExcised(v.members, Follow(at, Scope(paths, 0, nested))) {
        RunPrunesAway(v.members, at, paths, nested);
      } else {
        StripPrunes(v.members, "", at, paths, nested);
      }
    }
  }

  /** The document after the strip: exactly the members whose key path goes are gone, in the Chat
      scope and in the Responses scope. */
  lemma {:induction false} StripIsByPaths(d: Doc, paths: seq<seq<string>>, nested: bool)
    requires Apart(Scope(paths, 0, nested))
    ensures PrunedValue(d.root, StripRoot(d, Scope(paths, 0, nested)).root, [], paths, nested)
  {
    hide Follow;
    hide Apart;
    StripPrunesValue(d.root, [], paths, nested);
    FollowNothing(Scope(paths, 0, nested));
  }

  /** How many members stand at a key path, duplicates counted. */
  function Standing(v: Value, path: seq<string>): nat
    decreases |path|, v, 1
  {
    if path == [] || !v.Obj? then 0 else StandingMembers(v.members, path)
  }

  function StandingMembers(ms: Members, path: seq<string>): nat
    requires path != []
    decreases |path|, ms, 0
  {
    if ms.NoMembers? then 0
    else
      (if ms.key != path[0] then 0 else if |path| == 1 then 1 else Standing(ms.val, path[1..])) + StandingMembers(ms.rest, path)
  }

  /** Some member on the way to the path goes. */
  predicate Cut(at: seq<string>, path: seq<string>, paths: seq<seq<string>>, nested: bool)
  {
    exists k :: 0 < k <= |path| && Gone(at + path[..k], paths, nested)
  }

  /** What stands at a key path after the strip: all that stood there, or nothing. */
  lemma {:induction false} PrunedStanding(v: Value, w: Value, at: seq<string>, path: seq<string>, paths: seq<seq<string>>, nested: bool)
    requires PrunedValue(v, w, at, paths, nested) && path != []
    ensures Standing(w, path) == if Cut(at, path, paths, nested) then 0 else Standing(v, path)
    decreases |path|, v, 1
  {
    if v.Obj? { PrunedStandingMembers(v.members, w.members, at, path, paths, nested); }
  }

  lemma {:induction false} PrunedStandingMembers(ms: Members, ns: Members, at: seq<string>, path: seq<string>, paths: seq<seq<string>>, nested: bool)
    requires Pruned(ms, ns, at, paths, nested) && path != []
    ensures StandingMembers(ns, path) == if Cut(at, path, paths, nested) then 0 else StandingMembers(ms, path)
    decreases |path|, ms, 0
  {
    hide Gone;
    if ms.Member? {
      assert path[..1] == [path[0]];
      if Gone(at + [ms.key], paths, nested) {
        PrunedStandingMembers(ms.rest, ns, at, path, paths, nested);
      } else {
        PrunedStandingMembers(ms.rest, ns.rest, at, path, paths, nested);
        if ms.key == path[0] {
          CutBelow(at, path, paths, nested);
          if |path| > 1 { PrunedStanding(ms.val, ns.val, at + [ms.key], path[1..], paths, nested); }
        }
      }
    }
  }

  lemma {:induction false} CutBelow(at: seq<string>, path: seq<string>, paths: seq<seq<string>>, nested: bool)
    requires path != [] && !Gone(at + [path[0]], paths, nested)
    ensures Cut(at, path, paths, nested) <==> |path| > 1 && Cut(at + [path[0]], path[1..], paths, nested)
  {
    hide Gone;
    assert path[..1] == [path[0]];
    if k :| 0 < k <= |path| && Gone(at + path[..k], paths, nested) {
      assert at + path[..k] == (at + [path[0]]) + path[1..][..k - 1];
    }
    if k :| 0 < k <= |path[1..]| && Gone((at + [path[0]]) + path[1..][..k], paths, nested) {
      assert at + path[..k + 1] == (at + [path[0]]) + path[1..][..k];
    }
  }

  /** Which members a strip removes, in either scope: those at a path it names, and what is in them. */
  lemma {:induction false} StripRemovesNamed(d: Doc, path: seq<string>, paths: seq<seq<string>>, nested: bool)
    requires Apart(Scope(paths, 0, nested)) && path != []
    ensures Standing(StripRoot(d, Scope(paths, 0, nested)).root, path) ==
            if Cut([], path, paths, nested) then 0 else Standing(d.root, path)
  {
    hide Apart;
    hide PrunedValue;
    StripIsByPaths(d, paths, nested);
    PrunedStanding(d.root, StripRoot(d, Scope(paths, 0, nested)).root, [], path, paths, nested);
  }

  // ---------------------------------------------------------------- still a document

  lemma {:induction false} BlankLeftovers(ms: Members)
    requires ms.Member? && WFMembers(ms)
    ensures Blank(LastTrailing(ms)) && Blank(Residue(ms))
    decreases ms
  {
    if ms.rest.Member? { BlankLeftovers(ms.rest); }
  }

  lemma {:induction false} StripKeepsMembersWF(ms: Members, carried: string, sc: Scope)
    requires WFMembers(ms) && Blank(carried)
    ensures WFMembers(StripMembers(ms, carried, sc))
    decreases ms
  {
    hide StringBody;
    if ms.Member? {
      if Excised(ms.key, sc) {
        StripKeepsMembersWF(ms.rest, carried + ms.before, sc);
      } else {
        StripKeepsWF(ms.val, Inside(ms.key, sc));
        if ms.rest.Member? { BlankLeftovers(ms.rest); }
        StripKeepsMembersWF(ms.rest, "", sc);
      }
    }
  }

  /** Stripping a valid document leaves a valid document. */
  lemma {:induction false} StripKeepsWF(v: Value, sc: Scope)
    requires WF(v)
    ensures WF(StripValue(v, sc))
    decreases v
  {
    if v.Obj? {
      if v.members.Member? { BlankLeftovers(v.members); }
      StripKeepsMembersWF(v.members, "", sc);
    }
  }

  // ---------------------------------------------------------------- the failing family has a member

  const LATE_D: Members := Member(" ", "d", "", "", Scalar("4"), "", NoMembers)
  const LATE_C: Members := Member(" ", "c", "", "", Scalar("3"), "", LATE_D)
  const LATE_B: Members := Member(" ", "b", "", "", Scalar("2"), "", LATE_C)
  const LATE_RUN: Doc := Doc("", Obj("", Member("", "a", "", "", Scalar("1"), "", LATE_B)), "")

  /** {"a":1, "b":2, "c":3, "d":4} stripped of b, c and d makes the splice panic. */
  lemma {:induction false} ThreeTrailingMembersPanic()
    ensures RenderDoc(LATE_RUN) == "{\"a\":1, \"b\":2, \"c\":3, \"d\":4}" && WFDoc(LATE_RUN)
    ensures StripOutcome(LATE_RUN, Scope([["b"], ["c"], ["d"]], 0, false)) == Panic
  {
    hide Jams;
    hide RenderDoc;
    LateRunText();
    LateRunJams(Scope([["b"], ["c"], ["d"]], 0, false));
    DigitsAreNumbers();
    assert WFMembers(LATE_D) && WFMembers(LATE_C) && WFMembers(LATE_B);
  }

  lemma {:induction false} CompactMember(before: string, key: string, lit: string, rest: Members)
    ensures RenderMembers(Member(before, key, "", "", Scalar(lit), "", rest)) ==
            before + "\"" + key + "\":" + lit + if rest.NoMembers? then "" else "," + RenderMembers(rest)
  {
    var q := before + Quote(key);
    assert q + "" + ":" + "" + lit + "" == before + "\"" + key + "\":" + lit;
  }

  lemma {:induction false} LateTailText()
    ensures RenderMembers(LATE_B) == " \"b\":2, \"c\":3, \"d\":4"
  {
    hide RenderMembers;
    CompactMember(" ", "d", "4", NoMembers);
    assert RenderMembers(LATE_D) == " \"d\":4";
    CompactMember(" ", "c", "3", LATE_D);
    assert RenderMembers(LATE_C) == " \"c\":3, \"d\":4";
    CompactMember(" ", "b", "2", LATE_C);
  }

  lemma {:induction false} LateRunText()
    ensures RenderDoc(LATE_RUN) == "{\"a\":1, \"b\":2, \"c\":3, \"d\":4}"
  {
    hide RenderMembers;
    LateTailText();
    CompactMember("", "a", "1", LATE_B);
  }

  lemma {:induction false} LateRunJams(sc: Scope)
    requires sc == Scope([["b"], ["c"], ["d"]], 0, false)
    ensures Jams(LATE_RUN.root, sc)
  {
    assert sc.paths[0] == ["b"] && sc.paths[1] == ["c"] && sc.paths[2] == ["d"];
    assert AllExcised(LATE_D, sc) && AllExcised(LATE_C, sc) && AllExcised(LATE_B, sc);
    assert GapInside(LATE_C) && TailJams(LATE_B);
    assert !Excised("a", sc);
  }

  lemma {:induction false} DigitsAreNumbers()
    ensures IsNumber("1") && IsNumber("2") && IsNumber("3") && IsNumber("4")
    ensures StringBody("a") && StringBody("b") && StringBody("c") && StringBody("d")
  {
    assert NumAccepts(NInt, "");
    assert "1"[1..] == "" && "2"[1..] == "" && "3"[1..] == "" && "4"[1..] == "";
    assert StringBody("");
    assert "a"[1..] == "" && "b"[1..] == "" && "c"[1..] == "" && "d"[1..] == "";
  }
}
