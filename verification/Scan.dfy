/** The index scanners of internal/inject/rewrite.go and what they find on valid JSON.

    Each scanner is a loop over raw bytes.  The theorems say that on a text that is the rendering
    of a tree, the scanners stop exactly at the ends of the tree's own parts, at any nesting depth
    and whatever brackets, quotes and backslashes its strings contain.
 */
module Scan {
  import opened Json

  // ---------------------------------------------------------------- whitespace

  method SkipWS(body: string, i: nat) returns (j: nat)
    requires i <= |body|
    ensures i <= j <= |body| && (j < |body| ==> !IsWS(body[j]))
    ensures forall k :: i <= k < j ==> IsWS(body[k])
  {
    j := i;
    while j < |body| && IsWS(body[j])
      invariant i <= j <= |body|
      invariant forall k :: i <= k < j ==> IsWS(body[k])
    {
      j := j + 1;
    }
  }

  /** What skipWS returns is determined: the end of the run of whitespace at `i`. */
  lemma {:induction false} WhitespaceRunEnds(body: string, i: nat, ws: string, j: nat)
    requires At(body, i, ws) && Blank(ws) && (i + |ws| < |body| ==> !IsWS(body[i + |ws|]))
    requires i <= j <= |body| && (j < |body| ==> !IsWS(body[j]))
    requires forall k :: i <= k < j ==> IsWS(body[k])
    ensures j == i + |ws|
  {
    assert forall k :: 0 <= k < |ws| ==> body[i + k] == ws[k];
    if j < i + |ws| {
      assert false;
    }
  }

  // ---------------------------------------------------------------- strings

  /** Just past the quote that closes a string, scanning from inside it at `k`. */
  function StringEnd(body: string, k: nat): nat
    decreases |body| - k
  {
    if k >= |body| then k
    else if body[k] == '\\' then StringEnd(body, k + 2)
    else if body[k] == '"' then k + 1
    else StringEnd(body, k + 1)
  }

  method ValueEnd(body: string, j: nat) returns (r: nat)
    ensures r == StringEnd(body, j + 1)
  {
    var k := j + 1;
    while k < |body|
      invariant StringEnd(body, k) == StringEnd(body, j + 1)
      decreases |body| - k
    {
      if body[k] == '\\' {
        k := k + 2;
      } else if body[k] == '"' {
        return k + 1;
      } else {
        k := k + 1;
      }
    }
    r := k;
  }

  lemma {:induction false} AtIndex(body: string, i: int, s: string, k: nat)
    requires At(body, i, s) && k < |s|
    ensures body[i + k] == s[k]
  {
    assert body[i..i + |s|][k] == s[k];
  }

  lemma {:induction false} AtTail(body: string, i: int, s: string, n: nat)
    requires At(body, i, s) && n <= |s|
    ensures At(body, i + n, s[n..])
  {
    assert s == s[..n] + s[n..];
    AtSplit(body, i, s[..n], s[n..]);
  }

  lemma {:induction false} StringEndsAtItsQuote(body: string, k: nat, raw: string)
    requires At(body, k, raw) && EscapedRun(raw) && At(body, k + |raw|, "\"")
    ensures StringEnd(body, k) == k + |raw| + 1
    decreases |raw|
  {
    if raw == "" {
      AtIndex(body, k, "\"", 0);
    } else {
      AtIndex(body, k, raw, 0);
      var n := if raw[0] == '\\' then 2 else 1;
      AtTail(body, k, raw, n);
      StringEndsAtItsQuote(body, k + n, raw[n..]);
    }
  }

  /** A quoted string standing at `j` is measured exactly. */
  lemma {:induction false} QuotedEnds(body: string, j: nat, raw: string)
    requires At(body, j, Quote(raw)) && StringBody(raw)
    ensures StringEnd(body, j + 1) == j + |raw| + 2
    ensures body[j] == '"' && At(body, j + 1, raw)
  {
    hide At;
    hide StringBody;
    hide EscapedRun;
    hide StringEnd;
    StringBodyIsEscapedRun(raw);
    assert ['"'] + raw + "" + ['"'] == Quote(raw);
    ThreePieces(body, j, '"', raw, "", '"');
    StringEndsAtItsQuote(body, j + 1, raw);
  }

  // ---------------------------------------------------------------- collections

  /** Just past the bracket that brings `depth` back to zero, or `end`. */
  function CloseFrom(body: string, i: nat, end: nat, depth: int, inString: bool): int
    requires end <= |body|
    decreases end - i
  {
    if i >= end then end
    else if inString then
      if body[i] == '\\' then CloseFrom(body, i + 2, end, depth, true)
      else CloseFrom(body, i + 1, end, depth, body[i] != '"')
    else if body[i] == '"' then CloseFrom(body, i + 1, end, depth, true)
    else if body[i] == '{' || body[i] == '[' then CloseFrom(body, i + 1, end, depth + 1, false)
    else if body[i] == '}' || body[i] == ']' then
      if depth == 1 then i + 1 else CloseFrom(body, i + 1, end, depth - 1, false)
    else CloseFrom(body, i + 1, end, depth, false)
  }

  method CollectionEnd(body: string, start: nat, end: nat) returns (r: int)
    requires end <= |body|
    ensures r == CloseFrom(body, start, end, 0, false)
  {
    var i, depth, inString := start, 0, false;
    while i < end
      invariant CloseFrom(body, i, end, depth, inString) == CloseFrom(body, start, end, 0, false)
      decreases end - i
    {
      if inString {
        if body[i] == '\\' {
          i := i + 1;
        } else if body[i] == '"' {
          inString := false;
        }
      } else if body[i] == '"' {
        inString := true;
      } else if body[i] == '{' || body[i] == '[' {
        depth := depth + 1;
      } else if body[i] == '}' || body[i] == ']' {
        depth := depth - 1;
        if depth == 0 {
          return i + 1;
        }
      }
      i := i + 1;
    }
    r := end;
  }

  predicate Structural(c: char) { c == '"' || c == '{' || c == '}' || c == '[' || c == ']' }

  lemma {:induction false} PlainRunSkipped(body: string, i: nat, end: nat, depth: int, s: string)
    requires end <= |body| && At(body, i, s) && i + |s| <= end
    requires forall k :: 0 <= k < |s| ==> !Structural(s[k])
    ensures CloseFrom(body, i, end, depth, false) == CloseFrom(body, i + |s|, end, depth, false)
    decreases |s|
  {
    if s != "" {
      AtIndex(body, i, s, 0);
      AtTail(body, i, s, 1);
      PlainRunSkipped(body, i + 1, end, depth, s[1..]);
    }
  }

  lemma {:induction false} StringRunSkipped(body: string, i: nat, end: nat, depth: int, raw: string)
    requires end <= |body| && At(body, i, raw) && i + |raw| <= end && EscapedRun(raw)
    ensures CloseFrom(body, i, end, depth, true) == CloseFrom(body, i + |raw|, end, depth, true)
    decreases |raw|
  {
    if raw != "" {
      AtIndex(body, i, raw, 0);
      var n := if raw[0] == '\\' then 2 else 1;
      AtTail(body, i, raw, n);
      StringRunSkipped(body, i + n, end, depth, raw[n..]);
    }
  }

  lemma {:induction false} QuotedSkipped(body: string, i: nat, end: nat, depth: int, raw: string)
    requires end <= |body| && At(body, i, Quote(raw)) && i + |raw| + 2 <= end && StringBody(raw)
    ensures CloseFrom(body, i, end, depth, false) == CloseFrom(body, i + |raw| + 2, end, depth, false)
  {
    hide StringBody;
    hide EscapedRun;
    StringBodyIsEscapedRun(raw);
    assert ['"'] + raw + "" + ['"'] == Quote(raw);
    ThreePieces(body, i, '"', raw, "", '"');
    StringRunSkipped(body, i + 1, end, depth, raw);
  }

  /** Inside a collection, the bracket count passes over any value unchanged. */
  lemma {:induction false} ValueSkipped(body: string, i: nat, end: nat, depth: int, v: Value)
    requires end <= |body| && At(body, i, Render(v)) && i + |Render(v)| <= end && WF(v) && depth >= 1
    ensures CloseFrom(body, i, end, depth, false) == CloseFrom(body, i + |Render(v)|, end, depth, false)
    decreases v
  {
    hide At;
    hide RenderItems;
    hide RenderMembers;
    match v
    case Scalar(lit) =>
      ScalarIsPlain(lit);
      PlainRunSkipped(body, i, end, depth, lit);
    case Str(raw) =>
      QuotedSkipped(body, i, end, depth, raw);
    case Arr(open, items) =>
      ThreePieces(body, i, '[', open, RenderItems(items), ']');
      ContentsSkipped(body, i, end, depth, v);
    case Obj(open, members) =>
      ThreePieces(body, i, '{', open, RenderMembers(members), '}');
      ContentsSkipped(body, i, end, depth, v);
  }

  /** From the opening bracket of a collection to its closing one, at any depth. */
  lemma {:induction false} ContentsSkipped(body: string, i: nat, end: nat, depth: int, v: Value)
    requires end <= |body| && At(body, i, Render(v)) && i + |Render(v)| <= end && WF(v) && depth >= 0
    requires v.Arr? || v.Obj?
    ensures CloseFrom(body, i, end, depth, false) ==
            CloseFrom(body, i + |Render(v)| - 1, end, depth + 1, false)
    ensures body[i + |Render(v)| - 1] == '}' || body[i + |Render(v)| - 1] == ']'
    decreases v, 0
  {
    hide At;
    hide RenderItems;
    hide RenderMembers;
    match v
    case Arr(open, items) =>
      ThreePieces(body, i, '[', open, RenderItems(items), ']');
      PlainRunSkipped(body, i + 1, end, depth + 1, open);
      ItemsSkipped(body, i + 1 + |open|, end, depth + 1, items);
    case Obj(open, members) =>
      ThreePieces(body, i, '{', open, RenderMembers(members), '}');
      PlainRunSkipped(body, i + 1, end, depth + 1, open);
      MembersSkipped(body, i + 1 + |open|, end, depth + 1, members);
  }

  lemma {:induction false} ItemsSkipped(body: string, i: nat, end: nat, depth: int, xs: Items)
    requires end <= |body| && At(body, i, RenderItems(xs)) && i + |RenderItems(xs)| <= end && WFItems(xs)
    requires depth >= 1
    ensures CloseFrom(body, i, end, depth, false) == CloseFrom(body, i + |RenderItems(xs)|, end, depth, false)
    decreases xs
  {
    hide At;
    hide CloseFrom;
    hide StringBody;
    match xs
    case NoItems =>
    case Item(b, v, a, next) =>
      var tail := if next.NoItems? then "" else "," + RenderItems(next);
      FourPieces(body, i, b, Render(v), a, tail);
      PlainRunSkipped(body, i, end, depth, b);
      ValueSkipped(body, i + |b|, end, depth, v);
      PlainRunSkipped(body, i + |b| + |Render(v)|, end, depth, a);
      if next.Item? {
        var p := i + |b| + |Render(v)| + |a|;
        AtSplit(body, p, ",", RenderItems(next));
        PlainRunSkipped(body, p, end, depth, ",");
        ItemsSkipped(body, p + 1, end, depth, next);
      }
  }

  lemma {:induction false} FourPieces(body: string, i: int, a: string, b: string, c: string, d: string)
    requires At(body, i, a + b + c + d)
    ensures At(body, i, a) && At(body, i + |a|, b) && At(body, i + |a| + |b|, c) && At(body, i + |a| + |b| + |c|, d)
  {
    AtSplit(body, i, a + b + c, d);
    AtSplit(body, i, a + b, c);
    AtSplit(body, i, a, b);
  }

  lemma {:induction false} MembersSkipped(body: string, i: nat, end: nat, depth: int, ms: Members)
    requires end <= |body| && At(body, i, RenderMembers(ms)) && i + |RenderMembers(ms)| <= end && WFMembers(ms)
    requires depth >= 1
    ensures CloseFrom(body, i, end, depth, false) == CloseFrom(body, i + |RenderMembers(ms)|, end, depth, false)
    decreases ms
  {
    hide At;
    hide CloseFrom;
    hide StringBody;
    if ms.Member? {
      RenderedMembersAt(body, i, ms);
      FirstMemberSkipped(body, i, end, depth, ms);
      if ms.rest.Member? {
        PlainRunSkipped(body, Sep(ms, i), end, depth, ",");
        MembersSkipped(body, Sep(ms, i) + 1, end, depth, ms.rest);
      }
    }
  }

  lemma {:induction false} FirstMemberSkipped(body: string, i: nat, end: nat, depth: int, ms: Members)
    requires ms.Member? && end <= |body| && MembersAt(body, i, ms) && Sep(ms, i) <= end && WFMembers(ms)
    requires depth >= 1
    ensures CloseFrom(body, i, end, depth, false) == CloseFrom(body, Sep(ms, i), end, depth, false)
    decreases ms, 0
  {
    hide At;
    hide CloseFrom;
    hide StringBody;
    PlainRunSkipped(body, i, end, depth, ms.before);
    QuotedSkipped(body, KeyStart(ms, i), end, depth, ms.key);
    PlainRunSkipped(body, KeyEnd(ms, i), end, depth, ms.afterKey);
    PlainRunSkipped(body, Colon(ms, i), end, depth, ":");
    PlainRunSkipped(body, Colon(ms, i) + 1, end, depth, ms.beforeVal);
    ValueSkipped(body, ValStart(ms, i), end, depth, ms.val);
    PlainRunSkipped(body, ValStop(ms, i), end, depth, ms.after);
  }

  /** collectionEnd returns the exact end of any nested collection. */
  lemma {:induction false} CollectionEndsAtItsBracket(body: string, i: nat, end: nat, v: Value)
    requires end <= |body| && At(body, i, Render(v)) && i + |Render(v)| <= end && WF(v)
    requires v.Arr? || v.Obj?
    ensures CloseFrom(body, i, end, 0, false) == i + |Render(v)|
  {
    ContentsSkipped(body, i, end, 0, v);
  }

  // ---------------------------------------------------------------- any value

  predicate Delimiter(c: char) { c == ',' || c == '}' || c == ']' }

  /** Where skipValue stops: a scalar takes its trailing whitespace along, other values do not. */
  function ValueStop(v: Value, i: int, after: string): int
  {
    i + |Render(v)| + if v.Scalar? then |after| else 0
  }

  method SkipValue(body: string, i: nat, end: nat, ghost v: Value, ghost after: string) returns (r: nat)
    requires WF(v) && Blank(after) && At(body, i, Render(v)) && At(body, i + |Render(v)|, after)
    requires i + |Render(v)| + |after| < end <= |body| && Delimiter(body[i + |Render(v)| + |after|])
    ensures r == ValueStop(v, i, after)
  {
    FirstByte(v);
    AtIndex(body, i, Render(v), 0);
    if body[i] == '"' {
      QuotedEnds(body, i, v.raw);
      r := ValueEnd(body, i);
    } else if body[i] == '{' || body[i] == '[' {
      CollectionEndsAtItsBracket(body, i, end, v);
      r := CollectionEnd(body, i, end);
    } else {
      ScalarIsPlain(v.lit);
      var j := i;
      while j < end && !Delimiter(body[j])
        invariant i <= j <= i + |v.lit| + |after|
      {
        if j == i + |v.lit| + |after| { assert false; }
        j := j + 1;
      }
      if j < i + |v.lit| {
        AtIndex(body, i, v.lit, j - i);
      } else if j < i + |v.lit| + |after| {
        AtIndex(body, i + |v.lit|, after, j - i - |v.lit|);
      }
      r := j;
    }
  }
}
