/** What a rewrite leaves alone, said by key paths: every value but those at the paths it owns keeps
    every byte and its place. */
module OnlyAt {
  import opened Json

  /** `w` is `v`, standing at key path `at`, with the values at owned paths changed and nothing else. */
  predicate ChangedOnlyAt(v: Value, w: Value, at: seq<string>, own: seq<string> -> bool, change: Value -> Value)
    decreases v
  {
    if own(at) then w == change(v)
    else if v.Obj? then w.Obj? && w.open == v.open && MembersChangedOnlyAt(v.members, w.members, at, own, change)
    else w == v
  }

  /** Member by member: the same blanks, key and order. */
  predicate MembersChangedOnlyAt(ms: Members, ns: Members, at: seq<string>, own: seq<string> -> bool, change: Value -> Value)
    decreases ms
  {
    if ms.NoMembers? then ns.NoMembers?
    else
      && ns.Member? && ns.before == ms.before && ns.key == ms.key && ns.afterKey == ms.afterKey
      && ns.beforeVal == ms.beforeVal && ns.after == ms.after
      && ChangedOnlyAt(ms.val, ns.val, at + [ms.key], own, change)
      && MembersChangedOnlyAt(ms.rest, ns.rest, at, own, change)
  }

  /** No owned path passes through `at`. */
  ghost predicate Foreign(at: seq<string>, own: seq<string> -> bool) { forall ext :: !own(at + ext) }

  lemma {:induction false} ForeignBelow(at: seq<string>, key: string, own: seq<string> -> bool)
    requires Foreign(at, own)
    ensures Foreign(at + [key], own) && !own(at)
  {
    forall ext ensures !own((at + [key]) + ext) {
      assert (at + [key]) + ext == at + ([key] + ext);
      assert !own(at + ([key] + ext));
    }
    assert at + [] == at;
    assert !own(at + []);
  }

  lemma {:induction false} ForeignUnchanged(v: Value, at: seq<string>, own: seq<string> -> bool, change: Value -> Value)
    requires Foreign(at, own)
    ensures ChangedOnlyAt(v, v, at, own, change)
    decreases v
  {
    hide Foreign;
    ForeignBelow(at, "", own);
    if v.Obj? { ForeignMembers(v.members, at, own, change); }
  }

  lemma {:induction false} ForeignMembers(ms: Members, at: seq<string>, own: seq<string> -> bool, change: Value -> Value)
    requires Foreign(at, own)
    ensures MembersChangedOnlyAt(ms, ms, at, own, change)
    decreases ms
  {
    hide Foreign;
    if ms.Member? {
      ForeignBelow(at, ms.key, own);
      ForeignUnchanged(ms.val, at + [ms.key], own, change);
      ForeignMembers(ms.rest, at, own, change);
    }
  }

  // ---------------------------------------------------------------- a member and its envelope

  /** The member `key` at the top level and, with `nested`, directly inside a "response". */
  function Owns(key: string, nested: bool): seq<string> -> bool
  {
    (p: seq<string>) => p == [key] || (nested && p == ["response", key])
  }

  lemma {:induction false} ForeignKey(k: string, key: string, nested: bool)
    requires k != key && !(nested && k == "response")
    ensures Foreign([k], Owns(key, nested))
  {
    forall ext ensures !Owns(key, nested)([k] + ext) {
      assert ([k] + ext)[0] == k;
    }
  }

  lemma {:induction false} ForeignInside(k: string, key: string, nested: bool)
    requires k != key
    ensures Foreign(["response", k], Owns(key, nested))
  {
    forall ext ensures !Owns(key, nested)(["response", k] + ext) {
      var p := ["response", k] + ext;
      assert p[0] == "response" && p[1] == k && |p| >= 2;
      assert p != [key];
    }
  }
}
