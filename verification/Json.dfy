/** JSON documents as concrete syntax trees (RFC 8259, sections 2 to 7).

    A tree keeps every byte of the text it came from: whitespace is explicit, strings and keys
    are kept as the raw bytes between their quotes, scalars as their literal.  A byte is a `char`
    here; nothing below depends on code units above 255.  `IsJson` is the validity test the
    rewriters gate on: a text is valid JSON when it is the rendering of a well-formed tree.
 */
module Json {

  // ---------------------------------------------------------------- lexemes

  predicate IsWS(c: char) { c == ' ' || c == '\t' || c == '\n' || c == '\r' }

  predicate Blank(s: string) { forall i :: 0 <= i < |s| ==> IsWS(s[i]) }

  predicate IsHex(c: char) { '0' <= c <= '9' || 'a' <= c <= 'f' || 'A' <= c <= 'F' }

  /** The bytes between the quotes of a string: unescaped characters and escape sequences. */
  predicate StringBody(s: string)
  {
    if s == "" then true
    else if s[0] == '\\' then
      if |s| < 2 then false
      else if s[1] == 'u' then
        |s| >= 6 && IsHex(s[2]) && IsHex(s[3]) && IsHex(s[4]) && IsHex(s[5]) && StringBody(s[6..])
      else
        (s[1] == '"' || s[1] == '\\' || s[1] == '/' || s[1] == 'b' || s[1] == 'f' || s[1] == 'n'
         || s[1] == 'r' || s[1] == 't')
        && StringBody(s[2..])
    else
      s[0] != '"' && s[0] >= ' ' && StringBody(s[1..])
  }

  /** What the byte scanners rely on: a backslash always takes the next byte with it, and no
      quote stands on its own. */
  predicate EscapedRun(s: string)
  {
    if s == "" then true
    else if s[0] == '\\' then |s| >= 2 && EscapedRun(s[2..])
    else s[0] != '"' && EscapedRun(s[1..])
  }

  lemma {:induction false} StringBodyIsEscapedRun(s: string)
    requires StringBody(s)
    ensures EscapedRun(s)
  {
    if s == "" {
    } else if s[0] == '\\' {
      if s[1] == 'u' {
        StringBodyIsEscapedRun(s[6..]);
        assert s[5..][1..] == s[6..] && s[4..][1..] == s[5..] && s[3..][1..] == s[4..] && s[2..][1..] == s[3..];
        assert EscapedRun(s[5..]) && EscapedRun(s[4..]);
        assert EscapedRun(s[3..]);
      } else {
        StringBodyIsEscapedRun(s[2..]);
      }
    } else {
      StringBodyIsEscapedRun(s[1..]);
    }
  }

  lemma {:induction false} LowerCaseBody(s: string)
    requires forall i :: 0 <= i < |s| ==> 'a' <= s[i] <= 'z' || s[i] == '_'
    ensures StringBody(s)
    decreases |s|
  {
    if s != "" { LowerCaseBody(s[1..]); }
  }

  /** The number grammar of RFC 8259, section 6, as an automaton. */
  datatype NumState = NStart | NMinus | NZero | NInt | NDot | NFrac | NExp | NSign | NExpDigits | NBad

  function NumStep(q: NumState, c: char): NumState
  {
    var digit := '0' <= c <= '9';
    match q
    case NStart => if c == '-' then NMinus else if c == '0' then NZero else if digit then NInt else NBad
    case NMinus => if c == '0' then NZero else if digit then NInt else NBad
    case NZero => if c == '.' then NDot else if c == 'e' || c == 'E' then NExp else NBad
    case NInt => if digit then NInt else if c == '.' then NDot else if c == 'e' || c == 'E' then NExp else NBad
    case NDot => if digit then NFrac else NBad
    case NFrac => if digit then NFrac else if c == 'e' || c == 'E' then NExp else NBad
    case NExp => if digit then NExpDigits else if c == '+' || c == '-' then NSign else NBad
    case NSign => if digit then NExpDigits else NBad
    case NExpDigits => if digit then NExpDigits else NBad
    case NBad => NBad
  }

  predicate NumAccepts(q: NumState, s: string)
    decreases s
  {
    if s == "" then q == NZero || q == NInt || q == NFrac || q == NExpDigits
    else NumAccepts(NumStep(q, s[0]), s[1..])
  }

  predicate IsNumber(s: string) { NumAccepts(NStart, s) }

  predicate ScalarLiteral(s: string) { s == "null" || s == "true" || s == "false" || IsNumber(s) }

  /** Bytes a scalar is made of: no whitespace, quote, bracket, comma or colon among them. */
  predicate PlainByte(c: char)
  {
    !IsWS(c) && c != '"' && c != '{' && c != '}' && c != '[' && c != ']' && c != ',' && c != ':'
  }

  predicate Plain(s: string) { forall i :: 0 <= i < |s| ==> PlainByte(s[i]) }

  lemma {:induction false} NumberIsPlain(q: NumState, s: string)
    requires NumAccepts(q, s)
    ensures Plain(s)
    ensures q == NStart ==> s != ""
    decreases s
  {
    if s != "" {
      if NumStep(q, s[0]) == NBad {
        NoWayBack(s[1..]);
      } else {
        NumberIsPlain(NumStep(q, s[0]), s[1..]);
        assert s == [s[0]] + s[1..];
      }
    }
  }

  lemma {:induction false} NoWayBack(s: string)
    ensures !NumAccepts(NBad, s)
  {
    if s != "" { NoWayBack(s[1..]); }
  }

  lemma {:induction false} ScalarIsPlain(s: string)
    requires ScalarLiteral(s)
    ensures Plain(s) && s != ""
  {
    if IsNumber(s) { NumberIsPlain(NStart, s); }
  }

  // ---------------------------------------------------------------- trees

  /** `open` is the whitespace of an empty collection; a nonempty one keeps its whitespace on
      its elements. */
  datatype Value =
    | Scalar(lit: string)
    | Str(raw: string)
    | Arr(open: string, items: Items)
    | Obj(open: string, members: Members)

  datatype Items =
    | NoItems
    | Item(before: string, item: Value, after: string, next: Items)

  datatype Members =
    | NoMembers
    | Member(before: string, key: string, afterKey: string, beforeVal: string, val: Value,
             after: string, rest: Members)

  datatype Doc = Doc(lead: string, root: Value, trail: string)

  function Count(ms: Members): nat { if ms.Member? then 1 + Count(ms.rest) else 0 }

  function Quote(raw: string): string { "\"" + raw + "\"" }

  function Render(v: Value): string
  {
    match v
    case Scalar(lit) => lit
    case Str(raw) => Quote(raw)
    case Arr(open, items) => "[" + open + RenderItems(items) + "]"
    case Obj(open, members) => "{" + open + RenderMembers(members) + "}"
  }

  function RenderItems(xs: Items): string
  {
    match xs
    case NoItems => ""
    case Item(b, v, a, next) => b + Render(v) + a + (if next.NoItems? then "" else "," + RenderItems(next))
  }

  function RenderMembers(ms: Members): string
  {
    match ms
    case NoMembers => ""
    case Member(b, k, ak, bv, v, a, rest) =>
      b + Quote(k) + ak + ":" + bv + Render(v) + a + (if rest.NoMembers? then "" else "," + RenderMembers(rest))
  }

  function RenderDoc(d: Doc): string { d.lead + Render(d.root) + d.trail }

  predicate WF(v: Value)
  {
    match v
    case Scalar(lit) => ScalarLiteral(lit)
    case Str(raw) => StringBody(raw)
    case Arr(open, items) => Blank(open) && (items.Item? ==> open == "") && WFItems(items)
    case Obj(open, members) => Blank(open) && (members.Member? ==> open == "") && WFMembers(members)
  }

  predicate WFItems(xs: Items)
  {
    match xs
    case NoItems => true
    case Item(b, v, a, next) => Blank(b) && WF(v) && Blank(a) && WFItems(next)
  }

  predicate WFMembers(ms: Members)
  {
    match ms
    case NoMembers => true
    case Member(b, k, ak, bv, v, a, rest) =>
      Blank(b) && StringBody(k) && Blank(ak) && Blank(bv) && WF(v) && Blank(a) && WFMembers(rest)
  }

  predicate WFDoc(d: Doc) { Blank(d.lead) && WF(d.root) && Blank(d.trail) }

  ghost predicate IsJson(body: string) { exists d :: WFDoc(d) && RenderDoc(d) == body }

  // ---------------------------------------------------------------- places in a text

  /** `s` stands in `body` at index `i`. */
  predicate At(body: string, i: int, s: string)
  {
    0 <= i && i + |s| <= |body| && body[i..i + |s|] == s
  }

  predicate Contains(body: string, s: string) { exists i :: 0 <= i <= |body| && At(body, i, s) }

  lemma {:induction false} AtSplit(body: string, i: int, a: string, b: string)
    requires At(body, i, a + b)
    ensures At(body, i, a) && At(body, i + |a|, b)
  {
    var s := a + b;
    assert body[i..i + |a|] == s[..|a|] == a;
    assert body[i + |a|..i + |s|] == s[|a|..] == b;
  }

  lemma {:induction false} AtJoin(body: string, i: int, a: string, b: string)
    requires At(body, i, a) && At(body, i + |a|, b)
    ensures At(body, i, a + b)
  {
    assert body[i..i + |a + b|] == body[i..i + |a|] + body[i + |a|..i + |a + b|];
  }

  lemma {:induction false} SliceAt(body: string, i: int, s: string)
    requires At(body, i, s)
    ensures 0 <= i && i + |s| <= |body| && body[i..i + |s|] == s
  {}

  /** Where the parts of the first member of `ms` stand when `ms` starts at `pos`. */
  function KeyStart(ms: Members, pos: int): int requires ms.Member? { pos + |ms.before| }
  function KeyEnd(ms: Members, pos: int): int requires ms.Member? { KeyStart(ms, pos) + |ms.key| + 2 }
  function Colon(ms: Members, pos: int): int requires ms.Member? { KeyEnd(ms, pos) + |ms.afterKey| }
  function ValStart(ms: Members, pos: int): int requires ms.Member? { Colon(ms, pos) + 1 + |ms.beforeVal| }
  function ValStop(ms: Members, pos: int): int requires ms.Member? { ValStart(ms, pos) + |Render(ms.val)| }
  function Sep(ms: Members, pos: int): int requires ms.Member? { ValStop(ms, pos) + |ms.after| }

  /** The same text read by position: what a scanner standing at `pos` sees. */
  ghost predicate MembersAt(body: string, pos: int, ms: Members)
    decreases ms
  {
    match ms
    case NoMembers => true
    case Member(b, k, ak, bv, v, a, rest) =>
      At(body, pos, b) && At(body, KeyStart(ms, pos), Quote(k)) && At(body, KeyEnd(ms, pos), ak)
      && At(body, Colon(ms, pos), ":") && At(body, Colon(ms, pos) + 1, bv)
      && At(body, ValStart(ms, pos), Render(v)) && At(body, ValStop(ms, pos), a)
      && (rest.Member? ==> At(body, Sep(ms, pos), ",") && MembersAt(body, Sep(ms, pos) + 1, rest))
  }

  /** The index just past the last member. */
  function MembersEnd(ms: Members, pos: int): int { pos + |RenderMembers(ms)| }

  /** Eight consecutive pieces found together are found one after another. */
  lemma {:induction false} AtPieces(body: string, i: int, a: string, b: string, c: string, d: string, e: string, f: string,
                 g: string, h: string)
    requires At(body, i, a + b + c + d + e + f + g + h)
    ensures At(body, i, a) && At(body, i + |a|, b) && At(body, i + |a| + |b|, c)
    ensures At(body, i + |a| + |b| + |c|, d) && At(body, i + |a| + |b| + |c| + |d|, e)
    ensures At(body, i + |a| + |b| + |c| + |d| + |e|, f) && At(body, i + |a| + |b| + |c| + |d| + |e| + |f|, g)
    ensures At(body, i + |a| + |b| + |c| + |d| + |e| + |f| + |g|, h)
  {
    AtSplit(body, i, a + b + c + d + e + f + g, h);
    AtSplit(body, i, a + b + c + d + e + f, g);
    AtSplit(body, i, a + b + c + d + e, f);
    AtSplit(body, i, a + b + c + d, e);
    AtSplit(body, i, a + b + c, d);
    AtSplit(body, i, a + b, c);
    AtSplit(body, i, a, b);
  }

  lemma {:induction false} RenderedMembersAt(body: string, pos: int, ms: Members)
    requires At(body, pos, RenderMembers(ms))
    ensures MembersAt(body, pos, ms)
    ensures ms.Member? && ms.rest.Member? ==> At(body, Sep(ms, pos) + 1, RenderMembers(ms.rest))
    ensures ms.Member? ==>
              MembersEnd(ms, pos) == if ms.rest.Member? then MembersEnd(ms.rest, Sep(ms, pos) + 1) else Sep(ms, pos)
    decreases ms
  {
    hide At;
    match ms
    case NoMembers =>
    case Member(b, k, ak, bv, v, a, rest) =>
      var tail := if rest.NoMembers? then "" else "," + RenderMembers(rest);
      AtPieces(body, pos, b, Quote(k), ak, ":", bv, Render(v), a, tail);
      if rest.Member? {
        AtSplit(body, Sep(ms, pos), ",", RenderMembers(rest));
        RenderedMembersAt(body, Sep(ms, pos) + 1, rest);
      }
  }

  /** An object value standing at `i`: its braces and its members. */
  lemma {:induction false} ObjectAt(body: string, i: int, v: Value)
    requires v.Obj? && At(body, i, Render(v))
    ensures body[i] == '{' && At(body, i + 1, v.open) && MembersAt(body, i + 1 + |v.open|, v.members)
    ensures body[MembersEnd(v.members, i + 1 + |v.open|)] == '}'
    ensures i + |Render(v)| == MembersEnd(v.members, i + 1 + |v.open|) + 1
  {
    hide MembersAt;
    var ms := RenderMembers(v.members);
    ThreePieces(body, i, '{', v.open, ms, '}');
    RenderedMembersAt(body, i + 1 + |v.open|, v.members);
  }

  lemma {:induction false} ThreePieces(body: string, i: int, l: char, a: string, b: string, r: char)
    requires At(body, i, [l] + a + b + [r])
    ensures body[i] == l && At(body, i + 1, a) && At(body, i + 1 + |a|, b)
    ensures i + 1 + |a| + |b| < |body| && body[i + 1 + |a| + |b|] == r && At(body, i + 1 + |a| + |b|, [r])
  {
    AtSplit(body, i, [l] + a + b, [r]);
    AtSplit(body, i, [l] + a, b);
    AtSplit(body, i, [l], a);
    assert body[i..i + 1] == [l];
    assert body[i + 1 + |a| + |b|..i + 2 + |a| + |b|] == [r];
  }

  lemma {:induction false} DocAt(d: Doc)
    ensures At(RenderDoc(d), 0, d.lead) && At(RenderDoc(d), |d.lead|, Render(d.root))
    ensures At(RenderDoc(d), |d.lead| + |Render(d.root)|, d.trail)
  {
    var body := RenderDoc(d);
    assert At(body, 0, d.lead + Render(d.root) + d.trail);
    AtSplit(body, 0, d.lead + Render(d.root), d.trail);
    AtSplit(body, 0, d.lead, Render(d.root));
  }

  /** The first byte of a rendering tells what kind of value it is. */
  lemma {:induction false} FirstByte(v: Value)
    requires WF(v)
    ensures Render(v) != ""
    ensures v.Scalar? <==> Render(v)[0] != '"' && Render(v)[0] != '{' && Render(v)[0] != '['
    ensures v.Str? <==> Render(v)[0] == '"'
    ensures v.Obj? <==> Render(v)[0] == '{'
    ensures v.Arr? <==> Render(v)[0] == '['
    ensures !IsWS(Render(v)[0])
  {
    if v.Scalar? { ScalarIsPlain(v.lit); }
  }
}
