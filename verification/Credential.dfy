/** Credential rotation with cooldowns: internal/credential/state.go, internal/proxy/credential.go and
    the rate-limit part of internal/config/auth.go.  Times and durations are integers. */
module Credential {
  import opened Wrappers

  // ---------------------------------------------------------------- cooldown policy

  const SECOND := 1_000_000_000
  const DEFAULT_COOLDOWN := 2 * SECOND
  const DEFAULT_MAX := 60 * SECOND
  const MAX_CAP := 120 * SECOND

  datatype RateLimit = RateLimit(cooldown: int, maxCooldown: int)

  /** The configured rate limit; a member that is not stated is None, and the result is None when
      the configuration is refused. */
  function ParseRateLimit(cooldown: Option<int>, maxCooldown: Option<int>): (r: Option<RateLimit>)
    ensures r.Some? ==> 0 < r.value.cooldown <= r.value.maxCooldown <= 120 * SECOND
    ensures r.Some? ==> cooldown == Some(r.value.cooldown) || (cooldown.None? && r.value.cooldown == 2 * SECOND)
    ensures r.Some? ==> maxCooldown == Some(r.value.maxCooldown) || (maxCooldown.None? && r.value.maxCooldown == 60 * SECOND)
    ensures r.None? <==> (cooldown.Some? && cooldown.value <= 0)
                         || (maxCooldown.Some? && !(0 < maxCooldown.value <= MAX_CAP))
                         || (if cooldown.Some? then cooldown.value else DEFAULT_COOLDOWN)
                            > (if maxCooldown.Some? then maxCooldown.value else DEFAULT_MAX)
  {
    if cooldown.Some? && cooldown.value <= 0 then None
    else
      var c := if cooldown.Some? then cooldown.value else DEFAULT_COOLDOWN;
      if maxCooldown.Some? && maxCooldown.value <= 0 then None
      else if maxCooldown.Some? && maxCooldown.value > MAX_CAP then None
      else
        var m := if maxCooldown.Some? then maxCooldown.value else DEFAULT_MAX;
        if c > m then None else Some(RateLimit(c, m))
  }

  /** credentialCooldown */
  function CooldownFor(directive: int, rl: RateLimit): (d: int)
    requires 0 < rl.cooldown <= rl.maxCooldown
    ensures 0 < d <= rl.maxCooldown
    ensures directive > 0 ==> d <= directive && (d == directive || d == rl.maxCooldown)
    ensures directive <= 0 ==> d == rl.cooldown
  {
    if directive <= 0 then rl.cooldown else if directive > rl.maxCooldown then rl.maxCooldown else directive
  }

  // ---------------------------------------------------------------- the pool

  datatype Pool = Pool(cursor: nat, cooling: map<string, int>)

  predicate Ready(p: Pool, id: string, now: int) { id !in p.cooling || now >= p.cooling[id] }

  /** The key `off` places after the cursor. */
  function Turn(p: Pool, keys: seq<string>, off: nat): (i: nat)
    requires p.cursor < |keys| && off < |keys|
    ensures i < |keys|
  {
    if p.cursor + off < |keys| then p.cursor + off else p.cursor + off - |keys|
  }

  predicate Preferred(p: Pool, keys: seq<string>, now: int, preferred: string)
  {
    preferred != "" && preferred in keys && Ready(p, preferred, now)
  }

  predicate FirstTurn(p: Pool, keys: seq<string>, now: int, off: nat)
    requires p.cursor < |keys|
  {
    && off < |keys| && Ready(p, keys[Turn(p, keys, off)], now)
    && forall k :: 0 <= k < off ==> !Ready(p, keys[Turn(p, keys, k)], now)
  }

  function Find(p: Pool, keys: seq<string>, now: int, off: nat): (r: Option<nat>)
    requires p.cursor < |keys| && off <= |keys|
    requires forall k :: 0 <= k < off ==> !Ready(p, keys[Turn(p, keys, k)], now)
    ensures r.Some? ==> FirstTurn(p, keys, now, r.value)
    ensures r.None? ==> forall k :: 0 <= k < |keys| ==> !Ready(p, keys[Turn(p, keys, k)], now)
    decreases |keys| - off
  {
    if off == |keys| then None
    else if Ready(p, keys[Turn(p, keys, off)], now) then Some(off)
    else Find(p, keys, now, off + 1)
  }

  /** What an acquisition hands out, and the pool after it. */
  datatype Handed = Handed(id: Option<string>, pool: Pool)

  function Acquired(p: Pool, keys: seq<string>, now: int, preferred: string): Handed
    requires p.cursor < |keys|
  {
    if Preferred(p, keys, now, preferred) then Handed(Some(preferred), p)
    else
      var off := Find(p, keys, now, 0);
      if off.None? then Handed(None, p)
      else
        var i := Turn(p, keys, off.value);
        Handed(Some(keys[i]), p.(cursor := if i + 1 == |keys| then 0 else i + 1))
  }

  function Marked(p: Pool, keys: seq<string>, now: int, id: string, cooldown: int): Pool
  {
    if cooldown <= 0 || id !in keys || (id in p.cooling && p.cooling[id] > now + cooldown) then p
    else p.(cooling := p.cooling[id := now + cooldown])
  }

  /** Wrapping once is the remainder. */
  lemma {:induction false} Wrapped(a: nat, n: nat)
    requires 0 < n && a < 2 * n
    ensures a % n == if a < n then a else a - n
  {
    if a >= n { assert (a - n) % n == a - n; }
  }

  class CredentialPool {
    const keys: seq<string>
    var cursor: nat
    var cooling: map<string, int>

    ghost predicate Valid()
      reads this
    {
      cursor < |keys| && forall id :: id in cooling ==> id in keys
    }

    ghost function State(): Pool
      reads this
    {
      Pool(cursor, cooling)
    }

    constructor (spec: seq<string>)
      requires spec != []
      ensures Valid() && keys == spec && State() == Pool(0, map[])
    {
      keys, cursor, cooling := spec, 0, map[];
    }

    method Acquire(now: int, preferred: string) returns (id: Option<string>)
      requires Valid()
      modifies this
      ensures Valid() && Handed(id, State()) == Acquired(old(State()), keys, now, preferred)
    {
      var n := |keys|;
      ghost var p := State();
      if preferred != "" {
        var i := 0;
        while i < n
          invariant 0 <= i <= n && State() == p
          invariant Ready(p, preferred, now) ==> preferred !in keys[..i]
        {
          var ready := ReadyNow(keys[i], now);
          if keys[i] == preferred && ready {
            return Some(keys[i]);
          }
          i := i + 1;
        }
        assert keys[..n] == keys;
      }
      var off := 0;
      while off < n
        invariant 0 <= off <= n && State() == p
        invariant forall k :: 0 <= k < off ==> !Ready(p, keys[Turn(p, keys, k)], now)
        invariant Find(p, keys, now, 0) == Find(p, keys, now, off)
      {
        Wrapped(cursor + off, n);
        var idx := (cursor + off) % n;
        assert idx == Turn(p, keys, off);
        var ready := ReadyNow(keys[idx], now);
        if ready {
          Wrapped(idx + 1, n);
          cursor := (idx + 1) % n;
          return Some(keys[idx]);
        }
        off := off + 1;
      }
      id := None;
    }

    method ReadyNow(id: string, now: int) returns (ready: bool)
      ensures ready <==> Ready(State(), id, now)
    {
      ready := id !in cooling || now >= cooling[id];
    }

    method MarkRateLimited(now: int, id: string, cooldown: int)
      requires Valid()
      modifies this
      ensures Valid() && State() == Marked(old(State()), keys, now, id, cooldown)
    {
      if cooldown <= 0 {
        return;
      }
      var i := 0;
      while i < |keys|
        invariant 0 <= i <= |keys| && id !in keys[..i]
      {
        if keys[i] == id {
          var deadline := now + cooldown;
          if id in cooling && cooling[id] > deadline {
            return;
          }
          cooling := cooling[id := deadline];
          return;
        }
        i := i + 1;
      }
      assert keys[..i] == keys;
    }

    /** The earliest deadline still ahead, in whatever order the deadlines are visited. */
    method NextReady(now: int) returns (t: Option<int>)
      ensures t.None? <==> forall id :: id in cooling ==> cooling[id] <= now
      ensures t.Some? ==> t.value > now && (exists id :: id in cooling && cooling[id] == t.value)
                          && forall id :: id in cooling && cooling[id] > now ==> t.value <= cooling[id]
    {
      t := None;
      var rest := cooling.Keys;
      while rest != {}
        invariant rest <= cooling.Keys
        invariant t.None? <==> forall id :: id in cooling && id !in rest ==> cooling[id] <= now
        invariant t.Some? ==> t.value > now && (exists id :: id in cooling && cooling[id] == t.value)
        invariant t.Some? ==> forall id :: id in cooling && id !in rest && cooling[id] > now ==> t.value <= cooling[id]
        decreases rest
      {
        var id :| id in rest;
        var until := cooling[id];
        if until > now && (t.None? || until < t.value) {
          t := Some(until);
        }
        rest := rest - {id};
      }
    }
  }

  // ---------------------------------------------------------------- the deadline reported is exact

  lemma {:induction false} TurnsCover(p: Pool, keys: seq<string>, i: nat)
    requires p.cursor < |keys| && i < |keys|
    ensures var d := Distance(p, keys, i); d < |keys| && Turn(p, keys, d) == i
  {}

  /** An acquisition fails exactly when no key is ready, whatever it prefers. */
  lemma {:induction false} FailsIff(p: Pool, keys: seq<string>, now: int, preferred: string)
    requires p.cursor < |keys|
    ensures Acquired(p, keys, now, preferred).id.None? <==> forall i :: 0 <= i < |keys| ==> !Ready(p, keys[i], now)
  {
    var off := Find(p, keys, now, 0);
    if off.None? {
      forall i | 0 <= i < |keys| ensures !Ready(p, keys[i], now) {
        TurnsCover(p, keys, i);
      }
    }
  }

  /** A retry keeps its key while that is ready, and does not move the rotation; one whose key is
      cooling, unknown or not stated takes the first ready key in turn. */
  lemma {:induction false} RetriesKeepTheirKey(p: Pool, keys: seq<string>, now: int, preferred: string)
    requires p.cursor < |keys|
    ensures preferred != "" && preferred in keys && (preferred !in p.cooling || p.cooling[preferred] <= now) ==>
              Acquired(p, keys, now, preferred) == Handed(Some(preferred), p)
    ensures preferred == "" || preferred !in keys || (preferred in p.cooling && now < p.cooling[preferred]) ==>
              Acquired(p, keys, now, preferred) == Acquired(p, keys, now, "")
  {}

  /** When acquiring fails, the time reported is in the future, acquiring fails at every time before
      it, and succeeds at every time from it on. */
  method FailureIsExact(pool: CredentialPool, now: int, preferred: string) returns (t: Option<int>)
    requires pool.Valid() && Acquired(pool.State(), pool.keys, now, preferred).id.None?
    ensures t.Some? && t.value > now
    ensures forall x, who :: now <= x < t.value ==> Acquired(pool.State(), pool.keys, x, who).id.None?
    ensures forall x, who :: t.value <= x ==> Acquired(pool.State(), pool.keys, x, who).id.Some?
  {
    hide Acquired;
    var p, keys := Pool(pool.cursor, pool.cooling), pool.keys;
    t := pool.NextReady(now);
    FailsIff(p, keys, now, preferred);
    assert !Ready(p, keys[0], now);
    forall x, who | now <= x < t.value ensures Acquired(p, keys, x, who).id.None? {
      FailsIff(p, keys, x, who);
      forall i | 0 <= i < |keys| ensures !Ready(p, keys[i], x) {
        assert !Ready(p, keys[i], now);
      }
    }
    forall x, who | t.value <= x ensures Acquired(p, keys, x, who).id.Some? {
      FailsIff(p, keys, x, who);
      var id :| id in p.cooling && p.cooling[id] == t.value;
      var i :| 0 <= i < |keys| && keys[i] == id;
      assert Ready(p, keys[i], x);
    }
  }

  // ---------------------------------------------------------------- runs

  datatype Op = Acquire(now: int, preferred: string) | Mark(at: int, id: string, cooldown: int)

  function Do(p: Pool, keys: seq<string>, op: Op): (q: Pool)
    requires p.cursor < |keys|
    ensures q.cursor < |keys|
  {
    match op
    case Acquire(now, preferred) => Acquired(p, keys, now, preferred).pool
    case Mark(at, id, cooldown) => Marked(p, keys, at, id, cooldown)
  }

  function Run(keys: seq<string>, ops: seq<Op>): (p: Pool)
    requires keys != []
    ensures p.cursor < |keys|
  {
    if ops == [] then Pool(0, map[]) else Do(Run(keys, ops[..|ops| - 1]), keys, ops[|ops| - 1])
  }

  function Max(a: int, b: int): int { if a < b then b else a }

  predicate Counts(op: Op, id: string) { op.Mark? && op.id == id && op.cooldown > 0 }

  /** The latest deadline any mark of the key asked for. */
  function LatestDeadline(ops: seq<Op>, id: string): Option<int>
  {
    if ops == [] then None
    else
      var before, op := LatestDeadline(ops[..|ops| - 1], id), ops[|ops| - 1];
      if !Counts(op, id) then before
      else Some(if before.None? then op.at + op.cooldown else Max(before.value, op.at + op.cooldown))
  }

  function DeadlineOf(p: Pool, id: string): Option<int> { if id in p.cooling then Some(p.cooling[id]) else None }

  /** In every run a key's deadline is the latest its marks asked for, never shortened. */
  lemma {:induction false} DeadlineIsLatestMark(keys: seq<string>, ops: seq<Op>, id: string)
    requires keys != [] && id in keys
    ensures DeadlineOf(Run(keys, ops), id) == LatestDeadline(ops, id)
    decreases |ops|
  {
    hide Acquired;
    if ops != [] {
      var n := |ops| - 1;
      DeadlineIsLatestMark(keys, ops[..n], id);
      if ops[n].Acquire? { AcquireKeepsDeadlines(Run(keys, ops[..n]), keys, ops[n].now, ops[n].preferred); }
    }
  }

  lemma {:induction false} AcquireKeepsDeadlines(p: Pool, keys: seq<string>, now: int, preferred: string)
    requires p.cursor < |keys|
    ensures Acquired(p, keys, now, preferred).pool.cooling == p.cooling
  {}

  /** The latest deadline is the maximum: at least every mark's, and one of them. */
  lemma {:induction false} LatestIsMax(ops: seq<Op>, id: string)
    ensures forall i :: 0 <= i < |ops| && Counts(ops[i], id) ==>
              LatestDeadline(ops, id).Some? && ops[i].at + ops[i].cooldown <= LatestDeadline(ops, id).value
    ensures LatestDeadline(ops, id).Some? ==>
              exists i :: 0 <= i < |ops| && Counts(ops[i], id) && ops[i].at + ops[i].cooldown == LatestDeadline(ops, id).value
    decreases |ops|
  {
    if ops != [] {
      var n := |ops| - 1;
      var before := ops[..n];
      LatestIsMax(before, id);
      forall i | 0 <= i < |ops| && Counts(ops[i], id)
        ensures LatestDeadline(ops, id).Some? && ops[i].at + ops[i].cooldown <= LatestDeadline(ops, id).value
      {
        if i < n { assert before[i] == ops[i]; }
      }
      if LatestDeadline(ops, id).Some? && (!Counts(ops[n], id) || LatestDeadline(ops, id).value != ops[n].at + ops[n].cooldown) {
        var i :| 0 <= i < |before| && Counts(before[i], id) && before[i].at + before[i].cooldown == LatestDeadline(before, id).value;
        assert ops[i] == before[i];
      }
    }
  }

  /** With cooldowns taken from the policy, no key waits past its last mark's time plus the maximum. */
  lemma {:induction false} DeadlineIsBounded(keys: seq<string>, ops: seq<Op>, id: string, rl: RateLimit, last: int)
    requires keys != [] && id in keys && 0 < rl.cooldown <= rl.maxCooldown
    requires forall i :: 0 <= i < |ops| && Counts(ops[i], id) ==>
               ops[i].at <= last && exists d :: ops[i].cooldown == CooldownFor(d, rl)
    ensures DeadlineOf(Run(keys, ops), id).Some? ==> DeadlineOf(Run(keys, ops), id).value <= last + rl.maxCooldown
  {
    DeadlineIsLatestMark(keys, ops, id);
    LatestIsMax(ops, id);
  }

  // ---------------------------------------------------------------- no key starves

  /** How many places key `i` is after the cursor. */
  function Distance(p: Pool, keys: seq<string>, i: nat): (d: nat)
    requires p.cursor < |keys| && i < |keys|
    ensures d < |keys|
  {
    if i >= p.cursor then i - p.cursor else i + |keys| - p.cursor
  }

  /** An acquisition that moves the cursor: it succeeds, and not by preference. */
  predicate Moving(p: Pool, keys: seq<string>, op: Op)
    requires p.cursor < |keys|
  {
    op.Acquire? && !Preferred(p, keys, op.now, op.preferred) && Acquired(p, keys, op.now, op.preferred).id.Some?
  }

  /** Every other operation leaves the cursor where it was. */
  lemma {:induction false} OthersKeepCursor(p: Pool, keys: seq<string>, op: Op)
    requires p.cursor < |keys| && !Moving(p, keys, op)
    ensures Do(p, keys, op).cursor == p.cursor
  {}

  /** A moving acquisition hands out a ready key, or brings the cursor nearer to it. */
  lemma {:induction false} MovesNearer(p: Pool, keys: seq<string>, op: Op, i: nat)
    requires p.cursor < |keys| && i < |keys| && Moving(p, keys, op) && Ready(p, keys[i], op.now)
    ensures Acquired(p, keys, op.now, op.preferred).id == Some(keys[i]) || Distance(Do(p, keys, op), keys, i) < Distance(p, keys, i)
  {
    var off := Find(p, keys, op.now, 0);
    TurnsCover(p, keys, i);
    var d := Distance(p, keys, i);
    assert off.value <= d;
  }

  /** The moving acquisitions of a run from a pool. */
  function Movers(p: Pool, keys: seq<string>, ops: seq<Op>): nat
    requires p.cursor < |keys|
    decreases |ops|
  {
    if ops == [] then 0
    else (if Moving(p, keys, ops[0]) then 1 else 0) + Movers(Do(p, keys, ops[0]), keys, ops[1..])
  }

  /** Key `i` is ready whenever an acquisition moves the cursor. */
  predicate AlwaysReady(p: Pool, keys: seq<string>, ops: seq<Op>, i: nat)
    requires p.cursor < |keys| && i < |keys|
    decreases |ops|
  {
    ops == [] || ((Moving(p, keys, ops[0]) ==> Ready(p, keys[i], ops[0].now)) && AlwaysReady(Do(p, keys, ops[0]), keys, ops[1..], i))
  }

  /** Some moving acquisition hands out the key. */
  predicate Served(p: Pool, keys: seq<string>, ops: seq<Op>, id: string)
    requires p.cursor < |keys|
    decreases |ops|
  {
    ops != []
    && ((Moving(p, keys, ops[0]) && Acquired(p, keys, ops[0].now, ops[0].preferred).id == Some(id))
        || Served(Do(p, keys, ops[0]), keys, ops[1..], id))
  }

  lemma {:induction false} ServedInTurn(p: Pool, keys: seq<string>, ops: seq<Op>, i: nat)
    requires p.cursor < |keys| && i < |keys| && AlwaysReady(p, keys, ops, i) && Movers(p, keys, ops) > Distance(p, keys, i)
    ensures Served(p, keys, ops, keys[i])
    decreases |ops|
  {
    hide Acquired;
    hide Do;
    hide Moving;
    var op, q := ops[0], Do(p, keys, ops[0]);
    if Moving(p, keys, op) {
      assert op.Acquire? by { MovingIsAcquire(p, keys, op); }
      MovesNearer(p, keys, op, i);
      if Acquired(p, keys, op.now, op.preferred).id != Some(keys[i]) {
        ServedInTurn(q, keys, ops[1..], i);
      }
    } else {
      OthersKeepCursor(p, keys, op);
      ServedInTurn(q, keys, ops[1..], i);
    }
  }

  lemma {:induction false} MovingIsAcquire(p: Pool, keys: seq<string>, op: Op)
    requires p.cursor < |keys| && Moving(p, keys, op)
    ensures op.Acquire?
  {}

  /** No key starves: one that is ready at as many moving acquisitions as there are keys is handed
      out by one of them, whatever marks, failures and preferred retries come in between. */
  lemma {:induction false} NoStarvation(before: seq<Op>, keys: seq<string>, ops: seq<Op>, i: nat)
    requires i < |keys|
    requires AlwaysReady(Run(keys, before), keys, ops, i) && Movers(Run(keys, before), keys, ops) >= |keys|
    ensures Served(Run(keys, before), keys, ops, keys[i])
  {
    hide Run;
    ServedInTurn(Run(keys, before), keys, ops, i);
  }
}
