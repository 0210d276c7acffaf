/** The process-wide byte budget under concurrency: internal/memlimit/memlimit.go, reached through
    the reservations of internal/proxy/admission.go.

    Any number of threads reserve and release.  Every load, compare-and-swap, add and store of the
    two shared counters is one step, and steps of different threads interleave freely.
 */
module Budget {
  import opened Wrappers

  /** Where a thread stands in reserve, Acquire, observePeak, release or Release. */
  datatype Pc =
    | Idle
    | Loading(n: int)
    | Swapping(n: int, seen: int)
    | PeakLoading(n: int, now: int)
    | PeakSwapping(n: int, now: int, peakSeen: int)
    | Booking(n: int)
    | Freeing
    | Clamping
    | Clearing

  datatype Thread = Thread(held: int, pc: Pc)

  /** `high` is the largest value `used` ever had; no thread reads it. */
  datatype State = State(limit: int, used: int, peak: int, high: int, threads: seq<Thread>)

  /** `Spawn` brings a new buffer; the others are a thread's own steps. */
  datatype Action = Spawn | Reserve(t: nat, n: int) | Release(t: nat) | Advance(t: nat)

  function Max(a: int, b: int): int { if a < b then b else a }

  function With(s: State, t: nat, held: int, pc: Pc): State
    requires t < |s.threads|
  {
    s.(threads := s.threads[t := Thread(held, pc)])
  }

  function Put(s: State, used: int): State { s.(used := used, high := Max(s.high, used)) }

  /** The next atomic step of a thread that is inside a call. */
  function Next(s: State, t: nat): State
    requires t < |s.threads|
  {
    var h := s.threads[t].held;
    match s.threads[t].pc
    case Idle => s
    case Loading(n) => if n > s.limit - s.used then With(s, t, h, Idle) else With(s, t, h, Swapping(n, s.used))
    case Swapping(n, seen) =>
      if s.used == seen then With(Put(s, seen + n), t, h, PeakLoading(n, seen + n)) else With(s, t, h, Loading(n))
    case PeakLoading(n, now) => With(s, t, h, if now <= s.peak then Booking(n) else PeakSwapping(n, now, s.peak))
    case PeakSwapping(n, now, seen) =>
      if s.peak == seen then With(s.(peak := now), t, h, Booking(n)) else With(s, t, h, PeakLoading(n, now))
    case Booking(n) => With(s, t, h + n, Idle)
    case Freeing => With(Put(s, s.used - h), t, h, if s.used - h < 0 then Clamping else Clearing)
    case Clamping => With(Put(s, 0), t, h, Clearing)
    case Clearing => With(s, t, 0, Idle)
  }

  function Do(s: State, a: Action): State
  {
    match a
    case Spawn => s.(threads := s.threads + [Thread(0, Idle)])
    case Reserve(t, n) =>
      if t < |s.threads| && s.threads[t].pc.Idle? && n > 0 then With(s, t, s.threads[t].held, Loading(n)) else s
    case Release(t) =>
      if t < |s.threads| && s.threads[t].pc.Idle? && s.threads[t].held != 0 then With(s, t, s.threads[t].held, Freeing) else s
    case Advance(t) => if t < |s.threads| then Next(s, t) else s
  }

  function Run(limit: int, actions: seq<Action>): State
  {
    if actions == [] then State(limit, 0, 0, 0, []) else Do(Run(limit, actions[..|actions| - 1]), actions[|actions| - 1])
  }

  // ---------------------------------------------------------------- the invariant

  /** What a thread accounts for in `used`: what it holds, and what it has taken but not yet
      booked, less what it has given back but not yet cleared. */
  function Owed(t: Thread): int
  {
    match t.pc
    case PeakLoading(n, _) => t.held + n
    case PeakSwapping(n, _, _) => t.held + n
    case Booking(n) => t.held + n
    case Clearing => 0
    case _ => t.held
  }

  function Total(ts: seq<Thread>): int { if ts == [] then 0 else Total(ts[..|ts| - 1]) + Owed(ts[|ts| - 1]) }

  predicate ThreadOk(t: Thread, s: State)
  {
    && t.held >= 0
    && match t.pc
       case Loading(n) => n > 0
       case Swapping(n, seen) => n > 0 && n <= s.limit - seen
       case PeakLoading(n, now) => n > 0 && now <= s.high
       case PeakSwapping(n, now, seen) => n > 0 && seen < now <= s.high
       case Booking(n) => n > 0
       case Clamping => false
       case _ => true
  }

  /** A thread that is about to raise the mark to `now`. */
  predicate Raising(t: Thread, now: int)
  {
    (t.pc.PeakLoading? && t.pc.now == now) || (t.pc.PeakSwapping? && t.pc.now == now)
  }

  ghost predicate PeakOk(s: State)
  {
    s.peak <= s.high && (s.peak == s.high || exists t :: 0 <= t < |s.threads| && Raising(s.threads[t], s.high))
  }

  ghost predicate Inv(s: State)
  {
    && 0 <= s.used <= Max(s.limit, 0)
    && s.used == Total(s.threads)
    && 0 <= s.peak && s.used <= s.high <= Max(s.limit, 0)
    && (forall t :: 0 <= t < |s.threads| ==> ThreadOk(s.threads[t], s))
    && PeakOk(s)
  }

  lemma {:induction false} TotalUpdate(ts: seq<Thread>, i: nat, t: Thread)
    requires i < |ts|
    ensures Total(ts[i := t]) == Total(ts) - Owed(ts[i]) + Owed(t)
    decreases |ts|
  {
    hide Owed;
    var n := |ts| - 1;
    if i < n {
      TotalUpdate(ts[..n], i, t);
      assert ts[i := t][..n] == ts[..n][i := t];
    } else {
      assert ts[i := t][..n] == ts[..n];
    }
  }

  lemma {:induction false} OwedWithin(ts: seq<Thread>, i: nat)
    requires i < |ts| && forall j :: 0 <= j < |ts| ==> Owed(ts[j]) >= 0
    ensures 0 <= Owed(ts[i]) <= Total(ts)
    decreases |ts|
  {
    hide Owed;
    var n := |ts| - 1;
    TotalNonneg(ts[..n]);
    if i < n { OwedWithin(ts[..n], i); }
  }

  lemma {:induction false} TotalNonneg(ts: seq<Thread>)
    requires forall j :: 0 <= j < |ts| ==> Owed(ts[j]) >= 0
    ensures Total(ts) >= 0
    decreases |ts|
  {
    hide Owed;
    if ts != [] { TotalNonneg(ts[..|ts| - 1]); }
  }

  /** A thread cannot give back more than is out. */
  lemma {:induction false} HeldWithin(s: State, t: nat)
    requires Inv(s) && t < |s.threads|
    ensures 0 <= Owed(s.threads[t]) <= s.used
  {
    forall j | 0 <= j < |s.threads| ensures Owed(s.threads[j]) >= 0 {
      assert ThreadOk(s.threads[j], s);
    }
    OwedWithin(s.threads, t);
  }

  // ---------------------------------------------------------------- every step keeps it

  /** Changing one thread and the counters keeps every other thread in order. */
  lemma {:induction false} OthersOk(s: State, s': State, t: nat)
    requires Inv(s) && t < |s.threads| && s'.limit == s.limit && s'.high >= s.high
    requires |s'.threads| == |s.threads| && s'.threads == s.threads[t := s'.threads[t]] && ThreadOk(s'.threads[t], s')
    ensures forall j :: 0 <= j < |s'.threads| ==> ThreadOk(s'.threads[j], s')
  {
    forall j | 0 <= j < |s'.threads| ensures ThreadOk(s'.threads[j], s') {
      if j != t {
        assert s'.threads[j] == s.threads[j] && ThreadOk(s.threads[j], s);
      }
    }
  }

  /** The mark is on its way as long as the thread that was raising it still is. */
  lemma {:induction false} PeakKept(s: State, s': State, t: nat)
    requires PeakOk(s) && t < |s.threads| && s'.high == s.high && s'.peak == s.peak
    requires |s'.threads| == |s.threads| && s'.threads == s.threads[t := s'.threads[t]]
    requires Raising(s.threads[t], s.high) ==> Raising(s'.threads[t], s.high) || s.peak == s.high
    ensures PeakOk(s')
  {
    hide Raising;
    if s.peak != s.high {
      var w :| 0 <= w < |s.threads| && Raising(s.threads[w], s.high);
      assert Raising(s'.threads[w], s'.high);
    }
  }

  lemma {:induction false} SwapKeeps(s: State, t: nat)
    requires Inv(s) && t < |s.threads| && s.threads[t].pc.Swapping? && s.used == s.threads[t].pc.seen
    ensures Inv(Next(s, t))
  {
    hide Total;
    var s' := Next(s, t);
    assert ThreadOk(s.threads[t], s);
    TotalUpdate(s.threads, t, s'.threads[t]);
    OthersOk(s, s', t);
    if s'.high == s.high {
      PeakKept(s, s', t);
    } else {
      assert Raising(s'.threads[t], s'.high);
    }
  }

  lemma {:induction false} RaiseKeeps(s: State, t: nat)
    requires Inv(s) && t < |s.threads| && s.threads[t].pc.PeakSwapping? && s.peak == s.threads[t].pc.peakSeen
    ensures Inv(Next(s, t))
  {
    hide Total;
    var s' := Next(s, t);
    assert ThreadOk(s.threads[t], s);
    TotalUpdate(s.threads, t, s'.threads[t]);
    OthersOk(s, s', t);
    if s'.peak != s'.high {
      var w :| 0 <= w < |s.threads| && Raising(s.threads[w], s.high);
      assert w != t;
      assert Raising(s'.threads[w], s'.high);
    }
  }

  lemma {:induction false} GiveBackKeeps(s: State, t: nat)
    requires Inv(s) && t < |s.threads| && s.threads[t].pc.Freeing?
    ensures Inv(Next(s, t))
  {
    hide Total;
    var s' := Next(s, t);
    assert ThreadOk(s.threads[t], s);
    HeldWithin(s, t);
    TotalUpdate(s.threads, t, s'.threads[t]);
    OthersOk(s, s', t);
    PeakKept(s, s', t);
  }

  /** Steps that leave both counters alone. */
  lemma {:induction false} QuietKeeps(s: State, s': State, t: nat)
    requires Inv(s) && t < |s.threads| && |s'.threads| == |s.threads| && s' == s.(threads := s.threads[t := s'.threads[t]])
    requires Owed(s'.threads[t]) == Owed(s.threads[t]) && ThreadOk(s'.threads[t], s')
    requires Raising(s.threads[t], s.high) ==> Raising(s'.threads[t], s.high) || s.peak == s.high
    ensures Inv(s')
  {
    hide Total;
    hide Owed;
    TotalUpdate(s.threads, t, s'.threads[t]);
    OthersOk(s, s', t);
    PeakKept(s, s', t);
  }

  lemma {:induction false} StepKeeps(s: State, t: nat)
    requires Inv(s) && t < |s.threads|
    ensures Inv(Next(s, t))
  {
    hide Total;
    var th := s.threads[t];
    assert ThreadOk(th, s);
    assert PeakOk(s);
    if th.pc.Swapping? && s.used == th.pc.seen {
      SwapKeeps(s, t);
    } else if th.pc.PeakSwapping? && s.peak == th.pc.peakSeen {
      RaiseKeeps(s, t);
    } else if th.pc.Freeing? {
      GiveBackKeeps(s, t);
    } else if th.pc.Idle? {
      assert Next(s, t) == s;
    } else {
      QuietKeeps(s, Next(s, t), t);
    }
  }

  lemma {:induction false} SpawnKeeps(s: State)
    requires Inv(s)
    ensures Inv(Do(s, Spawn))
  {
    var s' := Do(s, Spawn);
    assert s'.threads[..|s.threads|] == s.threads;
    forall j | 0 <= j < |s'.threads| ensures ThreadOk(s'.threads[j], s') {
      if j < |s.threads| { assert ThreadOk(s.threads[j], s); }
    }
    if s.peak != s.high {
      var w :| 0 <= w < |s.threads| && Raising(s.threads[w], s.high);
      assert Raising(s'.threads[w], s'.high);
    }
  }

  lemma {:induction false} RunsKeep(limit: int, actions: seq<Action>)
    ensures Inv(Run(limit, actions))
    decreases |actions|
  {
    hide Inv;
    hide Next;
    if actions == [] {
      StartHolds(limit);
    } else {
      var n := |actions| - 1;
      RunsKeep(limit, actions[..n]);
      var s := Run(limit, actions[..n]);
      match actions[n]
      case Spawn => SpawnKeeps(s);
      case Reserve(t, k) => if t < |s.threads| && s.threads[t].pc.Idle? && k > 0 { BeginKeeps(s, t, Loading(k)); }
      case Release(t) =>
        if t < |s.threads| && s.threads[t].pc.Idle? && s.threads[t].held != 0 { BeginKeeps(s, t, Freeing); }
      case Advance(t) => if t < |s.threads| { StepKeeps(s, t); }
    }
  }

  lemma {:induction false} StartHolds(limit: int)
    ensures Inv(State(limit, 0, 0, 0, []))
  {}

  lemma {:induction false} BeginKeeps(s: State, t: nat, pc: Pc)
    requires Inv(s) && t < |s.threads| && s.threads[t].pc.Idle? && (pc.Freeing? || (pc.Loading? && pc.n > 0))
    ensures Inv(With(s, t, s.threads[t].held, pc))
  {
    assert ThreadOk(s.threads[t], s);
    QuietKeeps(s, With(s, t, s.threads[t].held, pc), t);
  }

  // ---------------------------------------------------------------- what one call does

  /** A call carried through without interference: `n` steps of thread `t`. */
  function Steps(s: State, t: nat, n: nat): State
    decreases n
  {
    if n == 0 then s else Steps(Do(s, Advance(t)), t, n - 1)
  }

  /** Undisturbed, a reservation is granted exactly when it fits: then the counter and the holding grow by
      it and the mark covers the counter; otherwise everything is as before. */
  lemma {:induction false} GrantedIffItFits(s: State, t: nat, n: int)
    requires Inv(s) && t < |s.threads| && s.threads[t].pc.Idle? && n > 0
    ensures var r := Steps(Do(s, Reserve(t, n)), t, 5);
            && r.threads[t].pc.Idle? && |r.threads| == |s.threads| && r.limit == s.limit
            && (s.used + n <= s.limit ==> r.used == s.used + n && r.threads[t].held == s.threads[t].held + n && r.peak >= r.used)
            && (s.used + n > s.limit ==> r == s)
  {
    var h := s.threads[t].held;
    var s1 := Do(s, Reserve(t, n));
    assert s1 == With(s, t, h, Loading(n));
    FiveSteps(s1, t);
    var s2 := Next(s1, t);
    if s.used + n <= s.limit {
      assert s2.threads[t] == Thread(h, Swapping(n, s.used)) && s2.used == s.used;
      var s3 := Next(s2, t);
      assert s3.threads[t] == Thread(h, PeakLoading(n, s.used + n)) && s3.used == s.used + n && s3.peak == s.peak;
      var s4 := Next(s3, t);
      var s5 := Next(s4, t);
      assert s5.used == s.used + n && s5.peak >= s.used + n && s5.threads[t].held <= h + n;
    } else {
      assert s2.threads == s.threads[t := Thread(h, Idle)] == s.threads;
      assert s2 == s;
    }
  }

  lemma {:induction false} FiveSteps(s: State, t: nat)
    requires t < |s.threads|
    ensures Steps(s, t, 5) == Next(Next(Next(Next(Next(s, t), t), t), t), t)
  {
    hide Next;
    var s1 := Next(s, t);
    NextKeepsThreads(s, t);
    var s2 := Next(s1, t);
    NextKeepsThreads(s1, t);
    var s3 := Next(s2, t);
    NextKeepsThreads(s2, t);
    var s4 := Next(s3, t);
    NextKeepsThreads(s3, t);
    var s5 := Next(s4, t);
    assert Steps(s5, t, 0) == s5;
    assert Steps(s4, t, 1) == Steps(s5, t, 0);
    assert Steps(s3, t, 2) == Steps(s4, t, 1);
    assert Steps(s2, t, 3) == Steps(s3, t, 2);
    assert Steps(s1, t, 4) == Steps(s2, t, 3);
  }

  lemma {:induction false} NextKeepsThreads(s: State, t: nat)
    requires t < |s.threads|
    ensures |Next(s, t).threads| == |s.threads|
  {}

  /** The amount of the reservation a thread is in. */
  function Amount(pc: Pc): Option<int>
  {
    match pc
    case Loading(n) => Some(n)
    case Swapping(n, _) => Some(n)
    case PeakLoading(n, _) => Some(n)
    case PeakSwapping(n, _, _) => Some(n)
    case Booking(n) => Some(n)
    case _ => None
  }

  /** However others interfere, a reservation goes on for its amount until it is granted that amount,
      or until a load sees that it does not fit; a lost race is not a refusal. */
  lemma {:induction false} RefusedOnlyIfFull(s: State, t: nat)
    requires t < |s.threads| && Amount(s.threads[t].pc).Some?
    ensures var before, after, n := s.threads[t], Next(s, t).threads[t], Amount(s.threads[t].pc).value;
            if after.pc.Idle?
            then (before.pc.Booking? && after.held == before.held + n) || (before.pc.Loading? && after.held == before.held && s.used + n > s.limit)
            else after.held == before.held && Amount(after.pc) == Some(n)
    ensures forall u :: 0 <= u < |s.threads| && u != t ==> Next(s, t).threads[u] == s.threads[u]
  {}

  /** Undisturbed, a release gives back all that is held, and a second one nothing. */
  lemma {:induction false} ReleasedOnce(s: State, t: nat)
    requires Inv(s) && t < |s.threads| && s.threads[t].pc.Idle? && s.threads[t].held != 0
    ensures var r := Next(Next(Do(s, Release(t)), t), t);
            && r.used == s.used - s.threads[t].held && r.threads[t] == Thread(0, Idle) && Do(r, Release(t)) == r
  {
    HeldWithin(s, t);
  }

  // ---------------------------------------------------------------- what it is for

  function SumHeld(ts: seq<Thread>): int { if ts == [] then 0 else SumHeld(ts[..|ts| - 1]) + ts[|ts| - 1].held }

  predicate Quiescent(s: State) { forall t :: 0 <= t < |s.threads| ==> s.threads[t].pc.Idle? }

  /** In every interleaving, at every step: never below zero, never over the limit, the clamp is
      never reached, and each thread's part in `used` is what it holds plus what is in flight. */
  lemma {:induction false} NeverOverLimit(limit: int, actions: seq<Action>)
    ensures var s := Run(limit, actions);
            && 0 <= s.used <= Max(limit, 0) && s.used == Total(s.threads) && 0 <= s.peak <= s.high <= Max(limit, 0)
            && forall t :: 0 <= t < |s.threads| ==> !s.threads[t].pc.Clamping? && 0 <= s.threads[t].held
  {
    hide Next;
    RunsKeep(limit, actions);
    LimitStays(limit, actions);
    var s := Run(limit, actions);
    forall t | 0 <= t < |s.threads| ensures !s.threads[t].pc.Clamping? && 0 <= s.threads[t].held {
      assert ThreadOk(s.threads[t], s);
    }
  }

  lemma {:induction false} LimitStays(limit: int, actions: seq<Action>)
    ensures Run(limit, actions).limit == limit
    decreases |actions|
  {
    if actions != [] { LimitStays(limit, actions[..|actions| - 1]); }
  }

  /** When no call is in progress the counter is exactly what is held, and the mark is exactly the
      highest the counter ever was. */
  lemma {:induction false} QuiescentIsExact(limit: int, actions: seq<Action>)
    requires Quiescent(Run(limit, actions))
    ensures var s := Run(limit, actions); s.used == SumHeld(s.threads) && s.peak == s.high
  {
    hide Next;
    RunsKeep(limit, actions);
    IdleTotals(Run(limit, actions).threads);
  }

  lemma {:induction false} IdleTotals(ts: seq<Thread>)
    requires forall t :: 0 <= t < |ts| ==> ts[t].pc.Idle?
    ensures Total(ts) == SumHeld(ts)
    decreases |ts|
  {
    if ts != [] { IdleTotals(ts[..|ts| - 1]); }
  }

  /** `high` is what it says: at least every value `used` has had, and one of them. */
  lemma {:induction false} HighIsHighest(limit: int, actions: seq<Action>, n: nat)
    requires n <= |actions|
    ensures Run(limit, actions[..n]).used <= Run(limit, actions).high
    decreases |actions| - n
  {
    hide Next;
    if n == |actions| {
      assert actions[..n] == actions;
      RunsKeep(limit, actions);
    } else {
      HighGrows(limit, actions, n);
      RunsKeep(limit, actions[..n]);
    }
  }

  lemma {:induction false} HighGrows(limit: int, actions: seq<Action>, n: nat)
    requires n <= |actions|
    ensures Run(limit, actions[..n]).high <= Run(limit, actions).high
    decreases |actions|
  {
    if n < |actions| {
      var m := |actions| - 1;
      HighGrows(limit, actions[..m], n);
      assert actions[..m][..n] == actions[..n];
      HighOnlyRises(Run(limit, actions[..m]), actions[m]);
    } else {
      assert actions[..n] == actions;
    }
  }

  lemma {:induction false} HighOnlyRises(s: State, a: Action)
    ensures s.high <= Do(s, a).high
    ensures Do(s, a).high == s.high || Do(s, a).high == Do(s, a).used
  {}

  lemma {:induction false} HighWasReached(limit: int, actions: seq<Action>) returns (n: nat)
    ensures n <= |actions| && Run(limit, actions[..n]).used == Run(limit, actions).high
    decreases |actions|
  {
    hide Do;
    n := |actions|;
    assert actions[..n] == actions;
    if actions != [] {
      var m := |actions| - 1;
      HighOnlyRises(Run(limit, actions[..m]), actions[m]);
      if Run(limit, actions).high != Run(limit, actions).used {
        n := HighWasReached(limit, actions[..m]);
        assert actions[..m][..n] == actions[..n];
      }
    }
  }
}
