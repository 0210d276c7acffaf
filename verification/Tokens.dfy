/** Token counts: reading a raw JSON number (parseTokenCount) and writing one (strconv.AppendInt),
    from internal/inject/usage.go. */
module Tokens {
  import opened Wrappers
  import opened Json

  /** The per-request synthesis plan.  `float` stands for strconv.ParseFloat on number literals
      that are not 64-bit integers; floating-point rounding is not modelled. */
  datatype Plan = Plan(active: bool, share: real, float: string -> Option<real>)

  const MAX_SHAREABLE := 0x4000_0000_0000_0000
  const TINY_COMPLETION := 10.0

  predicate AllDigits(s: string) { forall i :: 0 <= i < |s| ==> '0' <= s[i] <= '9' }

  function DigitValue(c: char): int { c as int - '0' as int }

  function Natural(s: string): int
  {
    if s == "" then 0 else 10 * Natural(s[..|s| - 1]) + DigitValue(s[|s| - 1])
  }

  predicate IntLiteral(s: string)
  {
    if s != "" && s[0] == '-' then |s| > 1 && AllDigits(s[1..]) else s != "" && AllDigits(s)
  }

  function IntValue(s: string): int { if s != "" && s[0] == '-' then -Natural(s[1..]) else Natural(s) }

  function TrimRight(s: string): string
  {
    if s != "" && IsWS(s[|s| - 1]) then TrimRight(s[..|s| - 1]) else s
  }

  /** parseTokenCount: the number a raw value span spells, if it spells one. */
  function TokenCount(raw: string, float: string -> Option<real>): Option<real>
  {
    var s := TrimRight(raw);
    if IntLiteral(s) && -0x8000_0000_0000_0000 <= IntValue(s) < 0x8000_0000_0000_0000 then Some(IntValue(s) as real)
    else if IsNumber(s) then float(s)
    else None
  }

  function Decimal(n: nat): string
  {
    if n < 10 then [('0' as int + n) as char] else Decimal(n / 10) + [('0' as int + n % 10) as char]
  }

  lemma {:induction false} DecimalDigits(n: nat)
    ensures AllDigits(Decimal(n)) && Decimal(n) != "" && Natural(Decimal(n)) == n
    ensures n > 0 ==> Decimal(n)[0] != '0'
    decreases n
  {
    if n >= 10 {
      DecimalDigits(n / 10);
      var s := Decimal(n);
      assert s[..|s| - 1] == Decimal(n / 10);
    } else {
      var s := Decimal(n);
      assert s[..0] == "" && Natural(s[..0]) == 0;
    }
  }

  lemma {:induction false} DigitsAccepted(s: string)
    requires AllDigits(s)
    ensures NumAccepts(NInt, s)
    decreases |s|
  {
    if s != "" { DigitsAccepted(s[1..]); }
  }

  /** What is written reads back as the same count. */
  lemma {:induction false} DecimalRoundTrip(n: nat, float: string -> Option<real>)
    requires n < 0x8000_0000_0000_0000
    ensures IsNumber(Decimal(n)) && TokenCount(Decimal(n), float) == Some(n as real)
  {
    var s := Decimal(n);
    DecimalDigits(n);
    if n == 0 {
      assert s == "0" && s[1..] == "";
      assert NumAccepts(NZero, "");
    } else {
      DigitsAccepted(s[1..]);
    }
    assert TrimRight(s) == s;
  }

  /** A negative count is read as one. */
  lemma {:induction false} NegativeCount(n: nat, float: string -> Option<real>)
    requires 0 < n < 0x8000_0000_0000_0000
    ensures TokenCount("-" + Decimal(n), float) == Some(-(n as int) as real)
  {
    var s := "-" + Decimal(n);
    DecimalDigits(n);
    assert s[1..] == Decimal(n);
    assert s[|s| - 1] == Decimal(n)[|Decimal(n)| - 1];
    assert TrimRight(s) == s;
  }

  lemma {:induction false} TrimBlank(s: string, blank: string)
    requires Blank(blank) && (s == "" || !IsWS(s[|s| - 1]))
    ensures TrimRight(s + blank) == s
    decreases |blank|
  {
    if blank == "" {
      assert s + blank == s;
    } else {
      var n := |blank| - 1;
      assert (s + blank)[..|s + blank| - 1] == s + blank[..n];
      TrimBlank(s, blank[..n]);
    }
  }

  /** The count a value spells: scalars only. */
  function CountOf(v: Value, float: string -> Option<real>): Option<real>
  {
    if v.Scalar? then TokenCount(v.lit, float) else None
  }

  /** A value span read raw, trailing whitespace of a scalar included, gives the value's count. */
  lemma {:induction false} SpanCount(v: Value, after: string, float: string -> Option<real>)
    requires WF(v) && Blank(after)
    ensures TokenCount(Render(v) + if v.Scalar? then after else "", float) == CountOf(v, float)
  {
    var raw := Render(v) + if v.Scalar? then after else "";
    FirstByte(v);
    if v.Scalar? {
      ScalarIsPlain(v.lit);
      TrimBlank(v.lit, after);
      TrimBlank(v.lit, "");
      assert v.lit + "" == v.lit;
    } else {
      assert raw == Render(v);
      TrimKeepsFirst(raw);
      var s := TrimRight(raw);
      NoWayBack(s[1..]);
    }
  }

  lemma {:induction false} TrimKeepsFirst(s: string)
    requires s != "" && !IsWS(s[0])
    ensures TrimRight(s) != "" && TrimRight(s)[0] == s[0]
    decreases |s|
  {
    if IsWS(s[|s| - 1]) { TrimKeepsFirst(s[..|s| - 1]); }
  }

  function Part(a: real, c: real): (x: real)
    requires 0.0 <= a <= 1.0 && 0.0 < c
    ensures 0.0 <= x <= c
  {
    assert (1.0 - a) * c >= 0.0;
    assert (1.0 - a) * c == c - a * c;
    a * c
  }

  predicate ProperPlan(plan: Plan) { 0.0 <= plan.share <= 1.0 }

  /** The synthesized count: a share of the completion, nothing for tiny ones. */
  function Share(comp: real, plan: Plan): (n: nat)
    requires ProperPlan(plan) && 0.0 < comp
    ensures n as real <= comp
    ensures if comp > TINY_COMPLETION then n as real <= Part(plan.share, comp) < n as real + 1.0 else n == 0
  {
    if comp > TINY_COMPLETION then WholePart(Part(plan.share, comp), comp) else 0
  }

  function WholePart(x: real, c: real): (n: nat)
    requires 0.0 <= x <= c
    ensures n as real <= c && n as real <= x < n as real + 1.0
  {
    x.Floor
  }
}
