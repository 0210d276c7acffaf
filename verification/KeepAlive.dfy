/** The keep-alive writer: internal/proxy/keepalive.go.

    Relay writes and heartbeat ticks reach one client writer in some order.  The theorems say, for
    every order: without its pings the output is what was relayed, no ping follows a terminal
    marker, and the client dispatches the same events as without pings, exactly as long as no
    ping can fall inside an event.  A line that is not blank and ends in CRLF makes that possible.
 */
module KeepAlive {
  import opened Sse
  import opened EventStream

  datatype Chunk = Relayed(text: string) | Ping

  /** The writer's fields; `out` is everything handed to the client. */
  datatype Writer = Writer(out: seq<Chunk>, last: int, boundary: bool, finished: bool, pings: nat)

  function NewWriter(now: int): Writer { Writer([], now, true, false, 0) }

  function LastLF(b: string): (i: int)
    ensures -1 <= i < |b| && (i >= 0 ==> b[i] == '\n') && forall k :: i < k < |b| ==> b[k] != '\n'
  {
    if b == "" then -1 else if b[|b| - 1] == '\n' then |b| - 1 else LastLF(b[..|b| - 1])
  }

  predicate EndsWithBlankLine(b: string)
  {
    var i := LastLF(b);
    i >= 0 && var last := b[LastLF(b[..i]) + 1..i]; last == "" || last == "\r"
  }

  function WriteStep(w: Writer, b: string, now: int): Writer
  {
    if b == "" then w
    else
      w.(out := w.out + [Relayed(b)], last := now, boundary := EndsWithBlankLine(b),
         finished := w.finished || IsTerminalLine(b))
  }

  predicate Due(w: Writer, now: int, interval: int) { !w.finished && w.boundary && now - w.last >= interval }

  function TickStep(w: Writer, now: int, interval: int): Writer
  {
    if Due(w, now, interval) then w.(out := w.out + [Ping], last := now, pings := w.pings + 1) else w
  }

  // ---------------------------------------------------------------- the writer itself

  class PingWriter {
    ghost var out: seq<Chunk>
    var last: int
    var boundary: bool
    var finished: bool
    var pings: nat
    const interval: int

    ghost function State(): Writer
      reads this
    {
      Writer(out, last, boundary, finished, pings)
    }

    constructor (every: int, now: int)
      ensures State() == NewWriter(now) && interval == every
    {
      out, last, boundary, finished, pings, interval := [], now, true, false, 0, every;
    }

    /** One relay-produced buffer, of which the client accepts `n` bytes. */
    method Write(b: string, n: nat, now: int)
      requires n <= |b|
      modifies this
      ensures State() == WriteStep(old(State()), b[..n], now)
    {
      hide EndsWithBlankLine;
      hide IsTerminalLine;
      var sent := b[..n];
      if n > 0 {
        out := out + [Relayed(sent)];
        last := now;
        boundary := EndsWithBlankLine(sent);
        if IsTerminalLine(sent) {
          finished := true;
        }
      }
    }

    /** One tick; `ok` tells whether the client takes the ping. */
    method MaybePing(now: int, ok: bool) returns (running: bool)
      modifies this
      ensures running <==> ok || !Due(old(State()), now, interval)
      ensures State() == if ok then TickStep(old(State()), now, interval) else old(State())
    {
      if finished || !boundary || now - last < interval {
        return true;
      }
      if !ok {
        return false;
      }
      out := out + [Ping];
      pings := pings + 1;
      last := now;
      running := true;
    }

    method Stop()
      modifies this
      ensures State() == old(State()).(finished := true)
    {
      finished := true;
    }
  }

  // ---------------------------------------------------------------- every interleaving

  datatype Step = Relay(b: string, at: int) | Tick(now: int)

  function Do(w: Writer, s: Step, interval: int): Writer
  {
    match s
    case Relay(b, at) => WriteStep(w, b, at)
    case Tick(now) => TickStep(w, now, interval)
  }

  function Run(steps: seq<Step>, start: int, interval: int): Writer
  {
    if steps == [] then NewWriter(start)
    else Do(Run(steps[..|steps| - 1], start, interval), steps[|steps| - 1], interval)
  }

  /** The buffers the relay wrote, in order. */
  function Pieces(steps: seq<Step>): seq<string>
  {
    if steps == [] then []
    else Pieces(steps[..|steps| - 1]) + PieceOf(steps[|steps| - 1])
  }

  function PieceOf(s: Step): seq<string> { if s.Relay? && s.b != "" then [s.b] else [] }

  function ChunkText(c: Chunk): string { if c.Ping? then PING else c.text }

  function ClientText(out: seq<Chunk>): string
  {
    if out == [] then "" else ClientText(out[..|out| - 1]) + ChunkText(out[|out| - 1])
  }

  function WithoutPings(out: seq<Chunk>): seq<string>
  {
    if out == [] then []
    else WithoutPings(out[..|out| - 1]) + if out[|out| - 1].Ping? then [] else [out[|out| - 1].text]
  }

  predicate AnyTerminal(ps: seq<string>) { exists i :: 0 <= i < |ps| && IsTerminalLine(ps[i]) }

  /** Where the writer's fields would allow a ping: at the start or after a blank line, and before
      any terminal marker. */
  predicate Eligible(ps: seq<string>)
  {
    (ps == [] || EndsWithBlankLine(ps[|ps| - 1])) && !AnyTerminal(ps)
  }

  lemma {:induction false} OutSnoc(out: seq<Chunk>, c: Chunk)
    ensures ClientText(out + [c]) == ClientText(out) + ChunkText(c)
    ensures WithoutPings(out + [c]) == WithoutPings(out) + if c.Ping? then [] else [c.text]
  {
    assert (out + [c])[..|out|] == out;
  }

  lemma {:induction false} TerminalSnoc(ps: seq<string>, p: string)
    ensures AnyTerminal(ps + [p]) <==> AnyTerminal(ps) || IsTerminalLine(p)
  {
    if AnyTerminal(ps) {
      var i :| 0 <= i < |ps| && IsTerminalLine(ps[i]);
      assert (ps + [p])[i] == ps[i];
    }
    if IsTerminalLine(p) { assert (ps + [p])[|ps|] == p; }
  }

  /** What the writer's fields mean, in every run: deleting the pings leaves what was relayed, and
      a ping is due only where one is eligible. */
  lemma {:induction false} FieldsTellPosition(steps: seq<Step>, start: int, interval: int)
    ensures var w, ps := Run(steps, start, interval), Pieces(steps);
            && WithoutPings(w.out) == ps && w.finished == AnyTerminal(ps)
            && (w.boundary <==> ps == [] || EndsWithBlankLine(ps[|ps| - 1]))
    decreases |steps|
  {
    hide Do;
    hide EndsWithBlankLine;
    hide AnyTerminal;
    if steps == [] {
      NoTerminal();
    } else {
      var n := |steps| - 1;
      FieldsTellPosition(steps[..n], start, interval);
      StepKeepsPosition(Run(steps[..n], start, interval), Pieces(steps[..n]), steps[n], interval);
    }
  }

  lemma {:induction false} NoTerminal()
    ensures !AnyTerminal([]) && WithoutPings([]) == []
  {}

  lemma {:induction false} StepKeepsPosition(w: Writer, ps: seq<string>, s: Step, interval: int)
    requires WithoutPings(w.out) == ps && w.finished == AnyTerminal(ps)
    requires w.boundary <==> ps == [] || EndsWithBlankLine(ps[|ps| - 1])
    ensures var v, qs := Do(w, s, interval), ps + PieceOf(s);
            && WithoutPings(v.out) == qs && v.finished == AnyTerminal(qs)
            && (v.boundary <==> qs == [] || EndsWithBlankLine(qs[|qs| - 1]))
  {
    hide EndsWithBlankLine;
    hide IsTerminalLine;
    hide AnyTerminal;
    hide WithoutPings;
    match s
    case Relay(b, at) =>
      assert b == "" ==> ps + PieceOf(s) == ps;
      OutSnoc(w.out, Relayed(b));
      TerminalSnoc(ps, b);
    case Tick(now) =>
      assert ps + PieceOf(s) == ps;
      OutSnoc(w.out, Ping);
  }

  /** When the client was last sent a byte, relayed or ping, or when the response began. */
  function LastSent(steps: seq<Step>, start: int, interval: int): int
  {
    if steps == [] then start
    else
      var n := |steps| - 1;
      match steps[n]
      case Relay(b, at) => if b == "" then LastSent(steps[..n], start, interval) else at
      case Tick(now) =>
        if Run(steps, start, interval).pings > Run(steps[..n], start, interval).pings then now
        else LastSent(steps[..n], start, interval)
  }

  lemma {:induction false} LastIsLastSent(steps: seq<Step>, start: int, interval: int)
    ensures Run(steps, start, interval).last == LastSent(steps, start, interval)
    decreases |steps|
  {
    hide EndsWithBlankLine;
    hide IsTerminalLine;
    if steps != [] { LastIsLastSent(steps[..|steps| - 1], start, interval); }
  }

  /** A tick sends a ping, and exactly one, if and only if the place is eligible and the client has
      been sent nothing for the interval. */
  lemma {:induction false} PingIff(steps: seq<Step>, start: int, interval: int, now: int)
    ensures var before, after := Run(steps, start, interval), Run(steps + [Tick(now)], start, interval);
            if Eligible(Pieces(steps)) && now - LastSent(steps, start, interval) >= interval
            then after.out == before.out + [Ping] && after.pings == before.pings + 1
            else after == before
  {
    hide Run;
    hide EndsWithBlankLine;
    hide AnyTerminal;
    hide LastSent;
    RunOn(steps, Tick(now), start, interval);
    LastIsLastSent(steps, start, interval);
    FieldsTellPosition(steps, start, interval);
  }

  lemma {:induction false} RunOn(steps: seq<Step>, s: Step, start: int, interval: int)
    ensures Run(steps + [s], start, interval) == Do(Run(steps, start, interval), s, interval)
  {
    hide Do;
    assert (steps + [s])[..|steps|] == steps;
  }

  /** Every ping stands where one is eligible: after what looks like a blank line, never after a
      terminal marker. */
  lemma {:induction false} PingsArePlaced(steps: seq<Step>, start: int, interval: int, i: nat)
    requires i < |Run(steps, start, interval).out| && Run(steps, start, interval).out[i].Ping?
    ensures Eligible(WithoutPings(Run(steps, start, interval).out[..i]))
    decreases |steps|
  {
    hide Eligible;
    hide EndsWithBlankLine;
    hide IsTerminalLine;
    hide WithoutPings;
    var n := |steps| - 1;
    var before := steps[..n];
    var w, out := Run(before, start, interval), Run(steps, start, interval).out;
    if i < |w.out| {
      assert out[..i] == w.out[..i];
      PingsArePlaced(before, start, interval, i);
    } else {
      assert out[..i] == w.out;
      FieldsTellPosition(before, start, interval);
      DueIsEligible(w, Pieces(before), steps[n].now, interval);
    }
  }

  // ---------------------------------------------------------------- pings do not change what is dispatched

  /** At every eligible place the client is between events. */
  ghost predicate PlacesIdle(ps: seq<string>)
  {
    forall k :: 0 <= k <= |ps| && Eligible(ps[..k]) ==> Idle(Reads(ps[..k]))
  }

  /** The client after reading the pieces, with nothing in between. */
  function Reads(ps: seq<string>): Parser { Take(FRESH, Unbom(Flat(ps))) }

  /** The client after reading everything handed to it. */
  function ClientReads(out: seq<Chunk>): Parser { Take(FRESH, Unbom(ClientText(out))) }

  /** A ping in front of the first write does not push a byte order mark aside, or to no effect. */
  predicate FirstPieceOk(ps: seq<string>)
  {
    ps != [] ==> Take(FRESH, ps[0]) == Take(FRESH, Unbom(ps[0])) && (|ps| > 1 ==> Settled(ps[0]))
  }

  /** For every interleaving over such a stream, the client with pings and the client without are
      in the same state at every moment, and have dispatched the same events. */
  lemma {:induction false} PingsAreInvisible(steps: seq<Step>, start: int, interval: int)
    requires PlacesIdle(Pieces(steps)) && FirstPieceOk(Pieces(steps))
    ensures ClientReads(Run(steps, start, interval).out) == Reads(Pieces(steps))
    ensures var s := ClientText(Run(steps, start, interval).out); s == Flat(Pieces(steps)) || Settled(s)
    decreases |steps|
  {
    hide Take;
    hide Eligible;
    hide Idle;
    hide Do;
    hide Settled;
    hide Reads;
    hide ClientReads;
    if steps != [] {
      var n := |steps| - 1;
      var before, ps := steps[..n], Pieces(steps[..n]);
      var w := Run(before, start, interval);
      PrefixIdle(Pieces(steps), |ps|);
      assert Pieces(steps)[..|ps|] == ps;
      PingsAreInvisible(before, start, interval);
      FieldsTellPosition(before, start, interval);
      match steps[n]
      case Relay(b, at) => RelayIsInvisible(w, ps, b, at, interval);
      case Tick(now) => TickIsInvisible(w, ps, now, interval);
    } else {
      NothingRead();
    }
  }

  lemma {:induction false} NothingRead()
    ensures ClientReads([]) == Reads([]) && ClientText([]) == Flat([])
  {}

  /** Once settled, both clients read on alike. */
  lemma {:induction false} ReadOn(t: string, more: string)
    requires Settled(t)
    ensures Take(FRESH, Unbom(t + more)) == Take(Take(FRESH, Unbom(t)), more) && Settled(t + more)
  {
    hide Take;
    hide Settled;
    UnbomMore(t, more);
    TakeConcat(FRESH, Unbom(t), more);
  }

  lemma {:induction false} FlatSettled(ps: seq<string>)
    requires ps != [] && Settled(ps[0])
    ensures Settled(Flat(ps))
    decreases |ps|
  {
    hide Settled;
    var n := |ps| - 1;
    if n == 0 {
      assert ps[..0] == [];
      assert Flat(ps) == ps[0];
    } else {
      FlatSettled(ps[..n]);
      UnbomMore(Flat(ps[..n]), ps[n]);
    }
  }

  lemma {:induction false} RelayIsInvisible(w: Writer, ps: seq<string>, b: string, at: int, interval: int)
    requires ClientReads(w.out) == Reads(ps) && (ClientText(w.out) == Flat(ps) || Settled(ClientText(w.out)))
    requires FirstPieceOk(ps + PieceOf(Relay(b, at)))
    ensures var v, qs := Do(w, Relay(b, at), interval), ps + PieceOf(Relay(b, at));
            ClientReads(v.out) == Reads(qs) && (ClientText(v.out) == Flat(qs) || Settled(ClientText(v.out)))
  {
    hide Take;
    hide ClientText;
    hide Flat;
    hide EndsWithBlankLine;
    hide IsTerminalLine;
    hide Settled;
    hide Unbom;
    if b == "" {
      assert ps + PieceOf(Relay(b, at)) == ps;
    } else {
      OutSnoc(w.out, Relayed(b));
      FlatSnoc(ps, b);
      var s := ClientText(w.out);
      if s != Flat(ps) {
        ReadOn(s, b);
        if ps == [] {
          assert (ps + [b])[0] == b;
          FirstRead(b);
        } else {
          assert (ps + [b])[0] == ps[0];
          FlatSettled(ps);
          ReadOn(Flat(ps), b);
        }
      }
    }
  }

  lemma {:induction false} FirstRead(b: string)
    ensures Reads([]) == FRESH && Reads([b]) == Take(FRESH, Unbom(b))
    ensures Flat([] + [b]) == b
  {
    hide Take;
    hide Unbom;
    FlatSnoc([], b);
    assert Flat([]) == "" && "" + b == b && [] + [b] == [b];
    assert Unbom("") == "" by { EmptyHasNoBom(); }
    TakeNothing(FRESH);
  }

  lemma {:induction false} EmptyHasNoBom() ensures Unbom("") == "" {}

  lemma {:induction false} TickIsInvisible(w: Writer, ps: seq<string>, now: int, interval: int)
    requires ClientReads(w.out) == Reads(ps) && (ClientText(w.out) == Flat(ps) || Settled(ClientText(w.out)))
    requires PlacesIdle(ps)
    requires w.finished == AnyTerminal(ps) && (w.boundary <==> ps == [] || EndsWithBlankLine(ps[|ps| - 1]))
    ensures var v := Do(w, Tick(now), interval);
            ClientReads(v.out) == Reads(ps + PieceOf(Tick(now))) && (ClientText(v.out) == Flat(ps + PieceOf(Tick(now))) || Settled(ClientText(v.out)))
  {
    hide Take;
    hide Eligible;
    hide Idle;
    hide ClientText;
    hide Flat;
    hide EndsWithBlankLine;
    hide IsTerminalLine;
    hide AnyTerminal;
    hide Settled;
    hide Unbom;
    assert ps + PieceOf(Tick(now)) == ps;
    if Due(w, now, interval) {
      DueIsEligible(w, ps, now, interval);
      assert ps[..|ps|] == ps;
      OutSnoc(w.out, Ping);
      PingIsInert(Reads(ps));
      var s := ClientText(w.out);
      if ps == [] && s == Flat(ps) {
        FirstRead(PING);
        PingIsSettled();
        assert Flat([]) == "" by { NothingFlat(); }
        assert s + PING == PING;
      } else {
        if s == Flat(ps) { PlaceIsSettled(ps); }
        ReadOn(s, PING);
      }
    }
  }

  lemma {:induction false} NothingFlat() ensures Flat([]) == "" {}

  lemma {:induction false} PingIsSettled()
    ensures Settled(PING) && Unbom(PING) == PING
  {
    assert PING[0] == ':' && BOM[0] != ':';
  }

  lemma {:induction false} PlaceIsSettled(ps: seq<string>)
    requires ps != [] && EndsWithBlankLine(ps[|ps| - 1])
    ensures Settled(Flat(ps))
  {
    var b := ps[|ps| - 1];
    var i := LastLF(b);
    BrokenIsSettled(Flat(ps), |Flat(ps)| - |b| + i);
  }

  lemma {:induction false} DueIsEligible(w: Writer, ps: seq<string>, now: int, interval: int)
    requires Due(w, now, interval) && w.finished == AnyTerminal(ps)
    requires w.boundary <==> ps == [] || EndsWithBlankLine(ps[|ps| - 1])
    ensures Eligible(ps)
  {
    hide EndsWithBlankLine;
    hide AnyTerminal;
  }

  lemma {:induction false} PrefixIdle(ps: seq<string>, n: nat)
    requires PlacesIdle(ps) && n <= |ps|
    ensures PlacesIdle(ps[..n])
  {
    hide Reads;
    hide Eligible;
    hide Idle;
    forall k | 0 <= k <= n && Eligible(ps[..n][..k]) ensures Idle(Reads(ps[..n][..k])) {
      assert ps[..n][..k] == ps[..k];
    }
  }
}
