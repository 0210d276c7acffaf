/** A text is the rendering of at most one tree: what the tree-level theorems say about "the
    document" of a body does not depend on a choice. */
module Unambiguous {
  import opened Json
  import opened Scan

  /** The byte after a value: there is none, or none that could belong to a scalar. */
  predicate Stops(body: string, i: int) { 0 <= i <= |body| && (i < |body| ==> !PlainByte(body[i])) }

  predicate AtNonBlank(body: string, i: int) { 0 <= i < |body| && !IsWS(body[i]) }

  lemma {:induction false} SamePlace(body: string, i: int, a: string, b: string)
    requires At(body, i, a) && At(body, i, b) && |a| == |b|
    ensures a == b
  {}

  lemma {:induction false} OneBlank(body: string, i: int, a: string, b: string)
    requires At(body, i, a) && At(body, i, b) && Blank(a) && Blank(b)
    requires AtNonBlank(body, i + |a|) || i + |a| == |body|
    requires AtNonBlank(body, i + |b|) || i + |b| == |body|
    ensures a == b
  {
    hide Blank;
    if |a| < |b| {
      BlankHas(body, i, b, |a|);
    } else if |b| < |a| {
      BlankHas(body, i, a, |b|);
    }
    SamePlace(body, i, a, b);
  }

  lemma {:induction false} BlankHas(body: string, i: int, a: string, k: nat)
    requires At(body, i, a) && Blank(a) && k < |a|
    ensures i + k < |body| && IsWS(body[i + k])
  {
    AtIndex(body, i, a, k);
  }

  lemma {:induction false} OneScalar(body: string, i: int, a: string, b: string)
    requires At(body, i, a) && At(body, i, b) && Plain(a) && Plain(b) && Stops(body, i + |a|) && Stops(body, i + |b|)
    ensures a == b
  {
    if |a| < |b| {
      AtIndex(body, i, b, |a|);
    } else if |b| < |a| {
      AtIndex(body, i, a, |b|);
    }
    SamePlace(body, i, a, b);
  }

  lemma {:induction false} OneString(body: string, i: nat, a: string, b: string)
    requires At(body, i, Quote(a)) && At(body, i, Quote(b)) && StringBody(a) && StringBody(b)
    ensures a == b
  {
    hide StringBody;
    QuotedEnds(body, i, a);
    QuotedEnds(body, i, b);
    SamePlace(body, i + 1, a, b);
  }

  /** A value that stands in a text begins with a byte that tells its kind. */
  lemma {:induction false} KindSeen(body: string, i: nat, v: Value)
    requires At(body, i, Render(v)) && WF(v)
    ensures AtNonBlank(body, i) && (v.Str? <==> body[i] == '"') && (v.Obj? <==> body[i] == '{') && (v.Arr? <==> body[i] == '[')
    ensures body[i] != ']' && body[i] != '}'
  {
    hide WF;
    FirstByte(v);
    AtIndex(body, i, Render(v), 0);
    NoCloser(v);
  }

  lemma {:induction false} NoCloser(v: Value)
    requires WF(v) && Render(v) != ""
    ensures Render(v)[0] != ']' && Render(v)[0] != '}'
  {
    if v.Scalar? { ScalarIsPlain(v.lit); }
  }

  lemma {:induction false} OneValue(body: string, i: nat, a: Value, b: Value)
    requires At(body, i, Render(a)) && At(body, i, Render(b)) && WF(a) && WF(b)
    requires Stops(body, i + |Render(a)|) && Stops(body, i + |Render(b)|)
    ensures a == b
    decreases a
  {
    hide StringBody;
    hide At;
    hide ScalarLiteral;
    hide Blank;
    KindSeen(body, i, a);
    KindSeen(body, i, b);
    match a
    case Scalar(lit) =>
      ScalarIsPlain(a.lit);
      ScalarIsPlain(b.lit);
      OneScalar(body, i, a.lit, b.lit);
    case Str(raw) => OneString(body, i, a.raw, b.raw);
    case Arr(open, items) => OneArray(body, i, a, b);
    case Obj(open, members) => OneObject(body, i, a, b);
  }

  lemma {:induction false} OneArray(body: string, i: nat, a: Value, b: Value)
    requires a.Arr? && b.Arr? && At(body, i, Render(a)) && At(body, i, Render(b)) && WF(a) && WF(b)
    ensures a == b
    decreases a, 0
  {
    hide At;
    hide Blank;
    hide WFItems;
    ThreePieces(body, i, '[', a.open, RenderItems(a.items), ']');
    ThreePieces(body, i, '[', b.open, RenderItems(b.items), ']');
    if a.items.Item? && b.items.NoItems? {
      ItemShows(body, i + 1, a.items, b.open);
    } else if a.items.NoItems? && b.items.Item? {
      ItemShows(body, i + 1, b.items, a.open);
    } else if a.items.NoItems? {
      OneBlank(body, i + 1, a.open, b.open);
    } else {
      OneItems(body, i + 1, a.items, b.items);
    }
  }

  /** Where an item list begins, the first byte that is not blank is not a closing bracket. */
  lemma {:induction false} ItemShows(body: string, i: nat, xs: Items, p: string)
    requires xs.Item? && At(body, i, RenderItems(xs)) && WFItems(xs)
    requires At(body, i, p) && Blank(p) && AtNonBlank(body, i + |p|)
    ensures body[i + |p|] != ']'
  {
    hide At;
    hide WF;
    hide RenderItems;
    ItemSeen(body, i, xs);
    OneBlank(body, i, xs.before, p);
  }

  /** The parts of the first item, where they stand. */
  lemma {:induction false} ItemSeen(body: string, i: nat, xs: Items)
    requires xs.Item? && At(body, i, RenderItems(xs)) && WFItems(xs)
    ensures var j := i + |xs.before|;
            var k := j + |Render(xs.item)|;
            && At(body, i, xs.before) && At(body, j, Render(xs.item)) && At(body, k, xs.after)
            && AtNonBlank(body, j) && body[j] != ']'
            && (xs.next.Item? ==> k + |xs.after| < |body| && body[k + |xs.after|] == ','
                                  && At(body, k + |xs.after| + 1, RenderItems(xs.next)))
            && |RenderItems(xs)| == |xs.before| + |Render(xs.item)| + |xs.after|
                                    + if xs.next.Item? then 1 + |RenderItems(xs.next)| else 0
  {
    hide At;
    hide Blank;
    hide WF;
    hide Render;
    hide PlainByte;
    var tail := if xs.next.NoItems? then "" else "," + RenderItems(xs.next);
    FourPieces(body, i, xs.before, Render(xs.item), xs.after, tail);
    KindSeen(body, i + |xs.before|, xs.item);
    if xs.next.Item? {
      var s := i + |xs.before| + |Render(xs.item)| + |xs.after|;
      AtSplit(body, s, ",", RenderItems(xs.next));
      AtIndex(body, s, ",", 0);
      AtFits(body, s, ",");
    }
  }

  lemma {:induction false} AtFits(body: string, i: int, s: string)
    requires At(body, i, s)
    ensures 0 <= i && i + |s| <= |body|
  {}

  /** After a value come blanks and then a separator. */
  lemma {:induction false} SeparatorStops(body: string, k: nat, after: string)
    requires At(body, k, after) && Blank(after) && k + |after| < |body|
    requires body[k + |after|] == ',' || body[k + |after|] == ']' || body[k + |after|] == '}'
    ensures Stops(body, k) && AtNonBlank(body, k + |after|)
  {
    if after != "" { BlankHas(body, k, after, 0); }
  }

  lemma {:induction false} OneItems(body: string, i: nat, xs: Items, ys: Items)
    requires xs.Item? && ys.Item? && At(body, i, RenderItems(xs)) && At(body, i, RenderItems(ys)) && WFItems(xs) && WFItems(ys)
    requires i + |RenderItems(xs)| < |body| && body[i + |RenderItems(xs)|] == ']'
    requires i + |RenderItems(ys)| < |body| && body[i + |RenderItems(ys)|] == ']'
    ensures xs == ys
    decreases xs
  {
    hide At;
    hide Blank;
    hide WF;
    hide Stops;
    ItemSeen(body, i, xs);
    ItemSeen(body, i, ys);
    OneBlank(body, i, xs.before, ys.before);
    var j := i + |xs.before|;
    SeparatorStops(body, j + |Render(xs.item)|, xs.after);
    SeparatorStops(body, j + |Render(ys.item)|, ys.after);
    OneValue(body, j, xs.item, ys.item);
    OneBlank(body, j + |Render(xs.item)|, xs.after, ys.after);
    var s := j + |Render(xs.item)| + |xs.after|;
    if xs.next.Item? && ys.next.Item? {
      OneItems(body, s + 1, xs.next, ys.next);
    }
  }

  lemma {:induction false} OneObject(body: string, i: nat, a: Value, b: Value)
    requires a.Obj? && b.Obj? && At(body, i, Render(a)) && At(body, i, Render(b)) && WF(a) && WF(b)
    ensures a == b
    decreases a, 0
  {
    hide At;
    hide Blank;
    hide WFMembers;
    ThreePieces(body, i, '{', a.open, RenderMembers(a.members), '}');
    ThreePieces(body, i, '{', b.open, RenderMembers(b.members), '}');
    if a.members.Member? && b.members.NoMembers? {
      MemberShows(body, i + 1, a.members, b.open);
    } else if a.members.NoMembers? && b.members.Member? {
      MemberShows(body, i + 1, b.members, a.open);
    } else if a.members.NoMembers? {
      OneBlank(body, i + 1, a.open, b.open);
    } else {
      OneMembers(body, i + 1, a.members, b.members);
    }
  }

  lemma {:induction false} MemberShows(body: string, i: nat, ms: Members, p: string)
    requires ms.Member? && At(body, i, RenderMembers(ms)) && WFMembers(ms)
    requires At(body, i, p) && Blank(p) && AtNonBlank(body, i + |p|)
    ensures body[i + |p|] != '}'
  {
    hide At;
    hide WF;
    hide StringBody;
    hide RenderMembers;
    MemberSeen(body, i, ms);
    OneBlank(body, i, ms.before, p);
  }

  /** The parts of the first member, where they stand. */
  lemma {:induction false} MemberSeen(body: string, i: nat, ms: Members)
    requires ms.Member? && At(body, i, RenderMembers(ms)) && WFMembers(ms)
    ensures && At(body, i, ms.before) && At(body, KeyStart(ms, i), Quote(ms.key)) && At(body, KeyEnd(ms, i), ms.afterKey)
            && At(body, Colon(ms, i) + 1, ms.beforeVal) && At(body, ValStart(ms, i), Render(ms.val))
            && At(body, ValStop(ms, i), ms.after)
    ensures AtNonBlank(body, KeyStart(ms, i)) && body[KeyStart(ms, i)] == '"' && AtNonBlank(body, Colon(ms, i))
    ensures AtNonBlank(body, ValStart(ms, i))
    ensures ms.rest.Member? ==> Sep(ms, i) < |body| && body[Sep(ms, i)] == ',' && At(body, Sep(ms, i) + 1, RenderMembers(ms.rest))
    ensures MembersEnd(ms, i) == if ms.rest.Member? then MembersEnd(ms.rest, Sep(ms, i) + 1) else Sep(ms, i)
  {
    hide At;
    hide Blank;
    hide StringBody;
    RenderedMembersAt(body, i, ms);
    AtIndex(body, KeyStart(ms, i), Quote(ms.key), 0);
    AtFits(body, KeyStart(ms, i), Quote(ms.key));
    AtIndex(body, Colon(ms, i), ":", 0);
    AtFits(body, Colon(ms, i), ":");
    KindSeen(body, ValStart(ms, i), ms.val);
    if ms.rest.Member? {
      AtIndex(body, Sep(ms, i), ",", 0);
      AtFits(body, Sep(ms, i), ",");
    }
  }

  lemma {:induction false} OneMembers(body: string, i: nat, xs: Members, ys: Members)
    requires xs.Member? && ys.Member? && At(body, i, RenderMembers(xs)) && At(body, i, RenderMembers(ys))
    requires WFMembers(xs) && WFMembers(ys)
    requires MembersEnd(xs, i) < |body| && body[MembersEnd(xs, i)] == '}'
    requires MembersEnd(ys, i) < |body| && body[MembersEnd(ys, i)] == '}'
    ensures xs == ys
    decreases xs
  {
    hide At;
    hide Blank;
    hide StringBody;
    hide WF;
    hide Stops;
    MemberSeen(body, i, xs);
    MemberSeen(body, i, ys);
    OneHead(body, i, xs, ys);
    SeparatorStops(body, ValStop(xs, i), xs.after);
    SeparatorStops(body, ValStop(ys, i), ys.after);
    OneValue(body, ValStart(xs, i), xs.val, ys.val);
    OneBlank(body, ValStop(xs, i), xs.after, ys.after);
    if xs.rest.Member? && ys.rest.Member? {
      OneMembers(body, Sep(xs, i) + 1, xs.rest, ys.rest);
    }
  }

  /** Everything of a member up to its value. */
  lemma {:induction false} OneHead(body: string, i: nat, xs: Members, ys: Members)
    requires xs.Member? && ys.Member? && At(body, i, RenderMembers(xs)) && At(body, i, RenderMembers(ys))
    requires WFMembers(xs) && WFMembers(ys)
    ensures xs.before == ys.before && xs.key == ys.key && xs.afterKey == ys.afterKey && xs.beforeVal == ys.beforeVal
  {
    hide At;
    hide Blank;
    hide StringBody;
    hide WF;
    MemberSeen(body, i, xs);
    MemberSeen(body, i, ys);
    OneBlank(body, i, xs.before, ys.before);
    OneString(body, KeyStart(xs, i), xs.key, ys.key);
    OneBlank(body, KeyEnd(xs, i), xs.afterKey, ys.afterKey);
    OneBlank(body, Colon(xs, i) + 1, xs.beforeVal, ys.beforeVal);
  }

  /** Rendering is injective on well-formed documents. */
  lemma {:induction false} OneDocument(c: Doc, d: Doc)
    requires WFDoc(c) && WFDoc(d) && RenderDoc(c) == RenderDoc(d)
    ensures c == d
  {
    hide At;
    hide WF;
    hide Stops;
    hide Blank;
    hide Render;
    hide RenderDoc;
    var body := RenderDoc(c);
    DocSeen(c);
    DocSeen(d);
    OneBlank(body, 0, c.lead, d.lead);
    OneValue(body, |c.lead|, c.root, d.root);
    SamePlace(body, |c.lead| + |Render(c.root)|, c.trail, d.trail);
  }

  lemma {:induction false} DocSeen(d: Doc)
    requires WFDoc(d)
    ensures var body := RenderDoc(d);
            && At(body, 0, d.lead) && At(body, |d.lead|, Render(d.root)) && At(body, |d.lead| + |Render(d.root)|, d.trail)
            && |d.lead| + |Render(d.root)| + |d.trail| == |body|
            && AtNonBlank(body, |d.lead|) && Stops(body, |d.lead| + |Render(d.root)|)
  {
    hide At;
    hide WF;
    hide Stops;
    hide Blank;
    hide Render;
    DocAt(d);
    KindSeen(RenderDoc(d), |d.lead|, d.root);
    TrailStops(RenderDoc(d), |d.lead| + |Render(d.root)|, d.trail);
  }

  lemma {:induction false} TrailStops(body: string, i: nat, trail: string)
    requires At(body, i, trail) && Blank(trail) && i + |trail| == |body|
    ensures Stops(body, i)
  {
    if trail != "" { BlankHas(body, i, trail, 0); }
  }
}
