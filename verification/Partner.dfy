/** Partner authentication over the decision cache and the key store: internal/auth/partner.go.

    A request asks the cache, then the store, then stores the decision; requests overlap freely, and
    the store may change between any two steps.  The log records what was looked up, kept and
    answered, and the theorems say what every answer rests on.
 */
module Partner {
  import opened Wrappers
  import opened DecisionCache

  /** What the store answers for a digest. */
  datatype Record = Active(partner: string, key: string) | RevokedKey | OddStatus | NotFound | Broken

  function Decide(r: Record): Decision
  {
    match r
    case Active(partner, key) => Decision(Principal(partner, key), Ok)
    case RevokedKey => Decision(NOBODY, Revoked)
    case OddStatus => Decision(NOBODY, Unknown)
    case NotFound => Decision(NOBODY, Unknown)
    case Broken => Decision(NOBODY, Backend)
  }

  /** One undisturbed request: what the store would say is `record`, the three times are those of
      the cache lookup, the store lookup and the cache store. */
  method Authenticate(cache: Cache, wellFormed: bool, digest: string, record: Record, asked: int, kept: int)
    returns (d: Decision)
    requires cache.Valid()
    modifies cache
    ensures cache.Valid()
    ensures !wellFormed ==> d == Decision(NOBODY, Unknown) && cache.Contents() == old(cache.Contents())
    ensures wellFormed ==>
              var hit := Got(old(cache.Contents()), digest, asked);
              if hit.found.Some? then d == hit.found.value && cache.Contents() == hit.cache
              else d == Decide(record) && cache.Contents() == Kept(hit.cache, digest, Decide(record), kept, cache.capacity)
  {
    hide Got;
    if !wellFormed {
      return Decision(NOBODY, Unknown);
    }
    var found := cache.Get(digest, asked);
    if found.Some? {
      return found.value;
    }
    match record {
      case Active(partner, key) =>
        d := Decision(Principal(partner, key), Ok);
        cache.Put(digest, d, kept);
      case RevokedKey =>
        d := Decision(NOBODY, Revoked);
        cache.Put(digest, d, kept);
      case NotFound =>
        d := Decision(NOBODY, Unknown);
        cache.Put(digest, d, kept);
      case OddStatus =>
        d := Decision(NOBODY, Unknown);
        cache.Put(digest, d, kept);
      case Broken =>
        d := Decision(NOBODY, Backend);
    }
  }

  // ---------------------------------------------------------------- overlapping requests

  datatype Request = Missed(digest: string) | Looked(digest: string, record: Record) | Answered

  /** What happened, by which request `r`, and when. */
  datatype Fact =
    | LookedUp(r: nat, digest: string, record: Record, at: int)
    | Stored(r: nat, digest: string, decision: Decision, at: int)
    | Told(r: nat, digest: string, decision: Decision, at: int, cached: bool)

  datatype State = State(cache: seq<Entry>, requests: seq<Request>, log: seq<Fact>)

  /** `Ask` is a new request and its cache lookup; `Look` its store lookup; `Finish` its cache
      store and answer. */
  datatype Action = Ask(digest: string, now: int) | Look(r: nat, record: Record, now: int) | Finish(r: nat, now: int)

  /** What finishing a request adds to the log. */
  function Ending(r: nat, digest: string, d: Decision, now: int): seq<Fact>
  {
    if d.reason.Backend? then [Told(r, digest, d, now, false)] else [Stored(r, digest, d, now), Told(r, digest, d, now, false)]
  }

  function Do(s: State, a: Action, capacity: nat): State
  {
    match a
    case Ask(digest, now) =>
      var hit := Got(s.cache, digest, now);
      if hit.found.Some?
      then State(hit.cache, s.requests + [Answered], s.log + [Told(|s.requests|, digest, hit.found.value, now, true)])
      else State(hit.cache, s.requests + [Missed(digest)], s.log)
    case Look(r, record, now) =>
      if r < |s.requests| && s.requests[r].Missed? then
        var digest := s.requests[r].digest;
        State(s.cache, s.requests[r := Looked(digest, record)], s.log + [LookedUp(r, digest, record, now)])
      else s
    case Finish(r, now) =>
      if r < |s.requests| && s.requests[r].Looked? then
        var digest, d := s.requests[r].digest, Decide(s.requests[r].record);
        State(Kept(s.cache, digest, d, now, capacity), s.requests[r := Answered], s.log + Ending(r, digest, d, now))
      else s
  }

  function Run(actions: seq<Action>, capacity: nat): State
  {
    if actions == [] then State([], [], []) else Do(Run(actions[..|actions| - 1], capacity), actions[|actions| - 1], capacity)
  }

  // ---------------------------------------------------------------- what everything rests on

  /** Where a request's own store lookup stands in the log, or -1. */
  function LookupOf(log: seq<Fact>, r: nat): (k: int)
    ensures -1 <= k < |log| && (k >= 0 ==> log[k].LookedUp? && log[k].r == r)
  {
    if log == [] then -1
    else
      var n := |log| - 1;
      var k := LookupOf(log[..n], r);
      if k >= 0 then k else if log[n].LookedUp? && log[n].r == r then n else -1
  }

  /** Where a digest's last stored decision stands in the log, or -1. */
  function LastStored(log: seq<Fact>, digest: string): (j: int)
    ensures -1 <= j < |log| && (j >= 0 ==> log[j].Stored? && log[j].digest == digest)
  {
    if log == [] then -1
    else
      var n := |log| - 1;
      if log[n].Stored? && log[n].digest == digest then n else LastStored(log[..n], digest)
  }

  /** The request's own lookup was of this digest and decides this. */
  predicate LookedSo(log: seq<Fact>, r: nat, digest: string, d: Decision)
  {
    var k := LookupOf(log, r);
    k >= 0 && log[k].digest == digest && Decide(log[k].record) == d
  }

  /** What a fact in the log rests on, in the log before it. */
  predicate FactOk(log: seq<Fact>, i: nat)
    requires i < |log|
  {
    match log[i]
    case LookedUp(_, _, _, _) => true
    case Stored(r, digest, d, at) => !d.reason.Backend? && LookedSo(log[..i], r, digest, d)
    case Told(r, digest, d, at, cached) =>
      if cached then
        var j := LastStored(log[..i], digest);
        j >= 0 && log[j].decision == d && at - log[j].at < Ttl(d.reason)
      else
        LookedSo(log[..i], r, digest, d) && (!d.reason.Backend? ==> i > 0 && log[i - 1] == Stored(r, digest, d, at))
  }

  /** A cache entry is the last decision stored for its digest. */
  predicate EntryOk(log: seq<Fact>, e: Entry)
  {
    var j := LastStored(log, e.hash);
    j >= 0 && log[j].decision == e.decision && log[j].at + Ttl(e.decision.reason) == e.expiresAt
  }

  predicate RequestOk(log: seq<Fact>, r: nat, q: Request)
  {
    match q
    case Missed(_) => LookupOf(log, r) < 0
    case Looked(digest, record) => var k := LookupOf(log, r); k >= 0 && log[k].digest == digest && log[k].record == record
    case Answered => true
  }

  ghost predicate Inv(s: State)
  {
    && (forall i :: 0 <= i < |s.log| ==> FactOk(s.log, i))
    && (forall e :: e in s.cache ==> EntryOk(s.log, e))
    && (forall r :: 0 <= r < |s.requests| ==> RequestOk(s.log, r, s.requests[r]))
    && (forall i :: 0 <= i < |s.log| ==> s.log[i].r < |s.requests|)
    && Distinct(s.cache)
  }

  // ---------------------------------------------------------------- a growing log

  lemma {:induction false} LookupSnoc(log: seq<Fact>, f: Fact, r: nat)
    ensures LookupOf(log + [f], r) ==
            if LookupOf(log, r) >= 0 then LookupOf(log, r) else if f.LookedUp? && f.r == r then |log| else -1
  {
    assert (log + [f])[..|log|] == log;
  }

  lemma {:induction false} StoredSnoc(log: seq<Fact>, f: Fact, digest: string)
    ensures LastStored(log + [f], digest) == if f.Stored? && f.digest == digest then |log| else LastStored(log, digest)
  {
    assert (log + [f])[..|log|] == log;
  }

  lemma {:induction false} FactStays(log: seq<Fact>, f: Fact, i: nat)
    requires i < |log|
    ensures FactOk(log + [f], i) <==> FactOk(log, i)
  {
    hide LookedSo;
    hide LastStored;
    assert (log + [f])[..i] == log[..i];
    var j := LastStored(log[..i], log[i].digest);
    assert j >= 0 ==> (log + [f])[j] == log[j];
    assert i > 0 ==> (log + [f])[i - 1] == log[i - 1];
  }

  lemma {:induction false} RequestStays(log: seq<Fact>, f: Fact, r: nat, q: Request)
    requires RequestOk(log, r, q) && !(f.LookedUp? && f.r == r)
    ensures RequestOk(log + [f], r, q)
  {
    hide LookupOf;
    LookupSnoc(log, f, r);
    var k := LookupOf(log, r);
    assert k >= 0 ==> (log + [f])[k] == log[k];
  }

  lemma {:induction false} EntryStays(log: seq<Fact>, f: Fact, e: Entry)
    requires EntryOk(log, e) && !(f.Stored? && f.digest == e.hash)
    ensures EntryOk(log + [f], e)
  {
    hide LastStored;
    StoredSnoc(log, f, e.hash);
    var j := LastStored(log, e.hash);
    assert (log + [f])[j] == log[j];
  }

  /** A fact in order, of a known request, that stores nothing and looks nothing up that is not new. */
  lemma {:induction false} AddFact(s: State, f: Fact, requests: seq<Request>, cache: seq<Entry>)
    requires Inv(s) && |requests| >= |s.requests| && f.r < |requests| && FactOk(s.log + [f], |s.log|)
    requires forall r :: 0 <= r < |requests| ==>
               RequestOk(s.log + [f], r, requests[r]) || (r < |s.requests| && requests[r] == s.requests[r] && !(f.LookedUp? && f.r == r))
    requires Distinct(cache) && forall e :: e in cache ==> EntryOk(s.log + [f], e) || (e in s.cache && !(f.Stored? && f.digest == e.hash))
    ensures Inv(State(cache, requests, s.log + [f]))
  {
    hide FactOk;
    hide EntryOk;
    hide RequestOk;
    hide Distinct;
    var log := s.log + [f];
    forall i | 0 <= i < |log| ensures FactOk(log, i) {
      if i < |s.log| { FactStays(s.log, f, i); }
    }
    forall r | 0 <= r < |requests| ensures RequestOk(log, r, requests[r]) {
      if !RequestOk(log, r, requests[r]) { RequestStays(s.log, f, r, requests[r]); }
    }
    forall e | e in cache ensures EntryOk(log, e) {
      if !EntryOk(log, e) { EntryStays(s.log, f, e); }
    }
  }

  // ---------------------------------------------------------------- the cache's part

  lemma {:induction false} GotFromCache(c: seq<Entry>, digest: string, now: int)
    requires Distinct(c)
    ensures var hit := Got(c, digest, now);
            && Distinct(hit.cache) && (forall e :: e in hit.cache ==> e in c)
            && (hit.found.Some? ==> exists e :: e in c && e.hash == digest && e.decision == hit.found.value && now < e.expiresAt)
  {
    hide Without;
    var e := Find(c, digest);
    WithoutDistinct(c, digest);
    if e.Some? { assert e.value in c; }
  }

  lemma {:induction false} WithoutDistinct(c: seq<Entry>, h: string)
    requires Distinct(c)
    ensures Distinct(Without(c, h)) && forall i :: 0 <= i < |Without(c, h)| ==> Without(c, h)[i].hash != h
  {
    hide Without;
    var at := WithoutKeepsOrder(c, h);
    forall i, j | 0 <= i < j < |Without(c, h)| ensures Without(c, h)[i].hash != Without(c, h)[j].hash {
      assert at[i] < at[j];
    }
  }

  lemma {:induction false} KeptFromCache(c: seq<Entry>, digest: string, d: Decision, now: int, capacity: nat)
    requires Distinct(c)
    ensures var r := Kept(c, digest, d, now, capacity);
            && Distinct(r)
            && (forall e :: e in r ==> (e in c && (d.reason.Backend? || e.hash != digest))
                                       || (!d.reason.Backend? && e == Entry(digest, d, now + Ttl(d.reason))))
            && (capacity > 0 && !d.reason.Backend? ==> r != [] && r[0] == Entry(digest, d, now + Ttl(d.reason)))
  {
    hide Find;
    hide Without;
    WithoutDistinct(c, digest);
  }

  // ---------------------------------------------------------------- every step keeps it

  lemma {:induction false} NewRequest(log: seq<Fact>, n: nat, digest: string)
    requires forall i :: 0 <= i < |log| ==> log[i].r < n
    ensures RequestOk(log, n, Missed(digest)) && RequestOk(log, n, Answered)
  {
    hide LookupOf;
  }

  lemma {:induction false} AskKeeps(s: State, digest: string, now: int, capacity: nat)
    requires Inv(s)
    ensures Inv(Do(s, Ask(digest, now), capacity))
  {
    hide FactOk;
    hide EntryOk;
    hide RequestOk;
    hide Got;
    hide Distinct;
    var hit := Got(s.cache, digest, now);
    GotFromCache(s.cache, digest, now);
    if hit.found.Some? {
      var e :| e in s.cache && e.hash == digest && e.decision == hit.found.value && now < e.expiresAt;
      var told := Told(|s.requests|, digest, e.decision, now, true);
      ToldFromEntry(s.log, e, now, |s.requests|);
      AnsweredIsOk(s.log + [told], |s.requests|);
      AddFact(s, told, s.requests + [Answered], hit.cache);
    } else {
      NewRequest(s.log, |s.requests|, digest);
    }
  }

  lemma {:induction false} AnsweredIsOk(log: seq<Fact>, r: nat)
    ensures RequestOk(log, r, Answered)
  {}

  lemma {:induction false} ToldFromEntry(log: seq<Fact>, e: Entry, now: int, r: nat)
    requires EntryOk(log, e) && now < e.expiresAt
    ensures FactOk(log + [Told(r, e.hash, e.decision, now, true)], |log|)
  {
    hide LastStored;
    var told := Told(r, e.hash, e.decision, now, true);
    var all := log + [told];
    assert all[|log|] == told && all[..|log|] == log;
    assert all[LastStored(log, e.hash)] == log[LastStored(log, e.hash)];
  }

  lemma {:induction false} LookKeeps(s: State, r: nat, record: Record, now: int, capacity: nat)
    requires Inv(s) && r < |s.requests| && s.requests[r].Missed?
    ensures Inv(Do(s, Look(r, record, now), capacity))
  {
    hide EntryOk;
    hide Distinct;
    hide LookupOf;
    hide LookedSo;
    hide LastStored;
    var digest := s.requests[r].digest;
    var fact := LookedUp(r, digest, record, now);
    assert (s.log + [fact])[|s.log|] == fact;
    LookupSnoc(s.log, fact, r);
    assert RequestOk(s.log + [fact], r, Looked(digest, record));
    hide FactOk;
    hide RequestOk;
    AddFact(s, fact, s.requests[r := Looked(digest, record)], s.cache);
  }

  lemma {:induction false} FinishKeeps(s: State, r: nat, now: int, capacity: nat)
    requires Inv(s) && r < |s.requests| && s.requests[r].Looked?
    ensures Inv(Do(s, Finish(r, now), capacity))
  {
    hide FactOk;
    hide EntryOk;
    hide Kept;
    hide Decide;
    hide Distinct;
    hide LookupOf;
    var q := s.requests[r];
    var digest, d := q.digest, Decide(q.record);
    assert RequestOk(s.log, r, q);
    assert LookedSo(s.log, r, digest, d);
    hide RequestOk;
    hide LookedSo;
    var told := Told(r, digest, d, now, false);
    var done := s.requests[r := Answered];
    var kept := Kept(s.cache, digest, d, now, capacity);
    KeptFromCache(s.cache, digest, d, now, capacity);
    if d.reason.Backend? {
      EndingFacts(s.log, r, digest, d, now);
      AnsweredIsOk(s.log + [told], r);
      AddFact(s, told, done, kept);
    } else {
      var stored := Stored(r, digest, d, now);
      EndingFacts(s.log, r, digest, d, now);
      AnsweredIsOk(s.log + [stored], r);
      StoredIsEntry(s.log, r, digest, d, now);
      AddFact(s, stored, done, kept);
      var mid := State(kept, done, s.log + [stored]);
      assert s.log + Ending(r, digest, d, now) == mid.log + [told];
      AddFact(mid, told, done, kept);
    }
  }

  lemma {:induction false} StoredIsEntry(log: seq<Fact>, r: nat, digest: string, d: Decision, now: int)
    ensures EntryOk(log + [Stored(r, digest, d, now)], Entry(digest, d, now + Ttl(d.reason)))
  {
    hide LastStored;
    StoredSnoc(log, Stored(r, digest, d, now), digest);
  }

  lemma {:induction false} EndingFacts(log: seq<Fact>, r: nat, digest: string, d: Decision, now: int)
    requires LookedSo(log, r, digest, d)
    ensures d.reason.Backend? ==> FactOk(log + [Told(r, digest, d, now, false)], |log|)
    ensures !d.reason.Backend? ==> FactOk(log + [Stored(r, digest, d, now)], |log|)
    ensures !d.reason.Backend? ==>
              FactOk(log + [Stored(r, digest, d, now)] + [Told(r, digest, d, now, false)], |log| + 1)
  {
    hide LookupOf;
    var stored, told := Stored(r, digest, d, now), Told(r, digest, d, now, false);
    assert (log + [told])[..|log|] == log && (log + [stored])[..|log|] == log;
    var all := log + [stored] + [told];
    assert all[..|log| + 1] == log + [stored] && all[|log|] == stored;
    LookupSnoc(log, stored, r);
    var k := LookupOf(log, r);
    assert (log + [stored])[k] == log[k];
  }

  lemma {:induction false} RunsKeep(actions: seq<Action>, capacity: nat)
    ensures Inv(Run(actions, capacity))
    decreases |actions|
  {
    hide Inv;
    hide Got;
    hide Kept;
    if actions == [] {
      NothingLogged();
    } else {
      var n := |actions| - 1;
      RunsKeep(actions[..n], capacity);
      var s := Run(actions[..n], capacity);
      match actions[n]
      case Ask(digest, now) => AskKeeps(s, digest, now, capacity);
      case Look(r, record, now) => if r < |s.requests| && s.requests[r].Missed? { LookKeeps(s, r, record, now, capacity); }
      case Finish(r, now) => if r < |s.requests| && s.requests[r].Looked? { FinishKeeps(s, r, now, capacity); }
    }
  }

  lemma {:induction false} NothingLogged()
    ensures Inv(State([], [], []))
  {}

  // ---------------------------------------------------------------- the theorems

  /** Only an active record decides Ok. */
  lemma {:induction false} OkIsActive(r: Record, who: Principal)
    requires Decide(r) == Decision(who, Ok)
    ensures r == Active(who.partner, who.key)
  {}

  /** Each answer stands for exactly one kind of store answer, and only Ok names anyone. */
  lemma {:induction false} DecisionsStandFor(r: Record)
    ensures Decide(r).reason == Ok <==> r.Active?
    ensures Decide(r).reason == Revoked <==> r.RevokedKey?
    ensures Decide(r).reason == Backend <==> r.Broken?
    ensures Decide(r).reason == Unknown <==> r.NotFound? || r.OddStatus?
    ensures !r.Active? ==> Decide(r).principal == Principal("", "")
  {}

  /** The lookup behind a stored decision: the same request's, earlier in the log. */
  function Behind(log: seq<Fact>, j: nat): int
    requires j < |log|
  {
    LookupOf(log[..j], log[j].r)
  }

  /** How long a stored decision had waited since its lookup. */
  function Waited(log: seq<Fact>, j: nat): int
    requires j < |log|
  {
    var k := Behind(log, j);
    if k >= 0 then log[j].at - log[k].at else 0
  }

  predicate StoresOk(log: seq<Fact>, j: int) { 0 <= j < |log| && log[j].Stored? && log[j].decision.reason.Ok? }

  /** Every Ok stored rests on an active record its own request looked up for that digest. */
  lemma {:induction false} StoredOkIsActive(log: seq<Fact>, j: nat)
    requires StoresOk(log, j) && FactOk(log, j)
    ensures var k, who := Behind(log, j), log[j].decision.principal;
            0 <= k < j && log[k] == LookedUp(log[j].r, log[j].digest, Active(who.partner, who.key), log[k].at)
  {
    hide LookupOf;
    var k := Behind(log, j);
    assert log[..j][k] == log[k];
    OkIsActive(log[k].record, log[j].decision.principal);
  }

  /** Every Ok answer rests on an active record for that very digest, looked up at L and stored at S by
      one request: from the cache, the last one stored, less than sixty seconds before, so less
      than sixty seconds and the wait S - L after the lookup; otherwise its own, stored as it answers. */
  lemma {:induction false} OkRestsOnActive(actions: seq<Action>, capacity: nat, i: nat)
    requires i < |Run(actions, capacity).log|
    requires var f := Run(actions, capacity).log[i]; f.Told? && f.decision.reason.Ok?
    ensures var log := Run(actions, capacity).log;
            var f, who := log[i], log[i].decision.principal;
            var j := if f.cached then LastStored(log[..i], f.digest) else i - 1;
            && 0 <= j < i && log[j] == Stored(log[j].r, f.digest, f.decision, log[j].at)
            && (var k := Behind(log, j);
                0 <= k < j && log[k] == LookedUp(log[j].r, f.digest, Active(who.partner, who.key), log[k].at))
            && (if f.cached then f.at - log[j].at < POSITIVE_TTL else log[j].r == f.r && log[j].at == f.at)
  {
    hide Run;
    hide LookupOf;
    hide LastStored;
    RunsKeep(actions, capacity);
    var log := Run(actions, capacity).log;
    var f := log[i];
    assert FactOk(log, i);
    var j := if f.cached then LastStored(log[..i], f.digest) else i - 1;
    assert f.cached ==> log[..i][j] == log[j];
    assert FactOk(log, j);
    StoredOkIsActive(log, j);
  }

  /** With waits of at most `w` between lookup and store, no Ok is told sixty seconds and `w` after
      the last lookup that could have found the key active. */
  lemma {:induction false} RevocationLag(actions: seq<Action>, capacity: nat, i: nat, w: nat, revoked: int)
    requires i < |Run(actions, capacity).log|
    requires var f := Run(actions, capacity).log[i]; f.Told? && f.decision.reason.Ok?
    requires var log := Run(actions, capacity).log;
             && Prompt(log, w)
             && forall k :: 0 <= k < |log| && log[k].LookedUp? && log[k].digest == log[i].digest && log[k].record.Active? ==>
                  log[k].at <= revoked
    ensures Run(actions, capacity).log[i].at < revoked + POSITIVE_TTL + w
  {
    hide Run;
    hide LookupOf;
    hide LastStored;
    OkRestsOnActive(actions, capacity, i);
    var log := Run(actions, capacity).log;
    var j := if log[i].cached then LastStored(log[..i], log[i].digest) else i - 1;
    assert StoresOk(log, j);
  }

  // ---------------------------------------------------------------- and exactly so

  /** An Ok found in the cache is younger than sixty seconds and `w`, counted from its lookup. */
  predicate Timely(s: State, digest: string, now: int, w: int)
  {
    var found, j := Got(s.cache, digest, now).found, LastStored(s.log, digest);
    found.Some? && found.value.reason.Ok? ==> j >= 0 && now - s.log[j].at + Waited(s.log, j) < POSITIVE_TTL + w
  }

  /** At every moment of the run, whatever is asked and whenever. */
  ghost predicate AlwaysTimely(actions: seq<Action>, capacity: nat, w: int)
  {
    forall n, digest, now :: 0 <= n <= |actions| ==> Timely(Run(actions[..n], capacity), digest, now, w)
  }

  /** Every decision Ok was stored within `w` of its lookup. */
  predicate Prompt(log: seq<Fact>, w: int) { forall j :: 0 <= j < |log| && StoresOk(log, j) ==> Waited(log, j) <= w }

  lemma {:induction false} TimelyIfPrompt(s: State, digest: string, now: int, w: int)
    requires Inv(s) && Prompt(s.log, w)
    ensures Timely(s, digest, now, w)
  {
    hide LastStored;
    hide Waited;
    hide Got;
    GotFromCache(s.cache, digest, now);
    var found := Got(s.cache, digest, now).found;
    if found.Some? {
      var e :| e in s.cache && e.hash == digest && e.decision == found.value && now < e.expiresAt;
      assert EntryOk(s.log, e);
      if found.value.reason.Ok? { assert StoresOk(s.log, LastStored(s.log, digest)); }
    }
  }

  lemma {:induction false} LogGrows(actions: seq<Action>, capacity: nat, n: nat)
    requires n <= |actions|
    ensures Run(actions[..n], capacity).log <= Run(actions, capacity).log
    decreases |actions|
  {
    hide Got;
    hide Kept;
    if n < |actions| {
      var m := |actions| - 1;
      LogGrows(actions[..m], capacity, n);
      assert actions[..m][..n] == actions[..n];
    } else {
      assert actions[..n] == actions;
    }
  }

  lemma {:induction false} WaitStays(log: seq<Fact>, more: seq<Fact>, j: nat)
    requires j < |log| && log <= more
    ensures Waited(log, j) == Waited(more, j)
  {
    hide LookupOf;
    assert more[..j] == log[..j] && more[j] == log[j];
    var k := Behind(log, j);
    assert k >= 0 ==> more[k] == log[k];
  }

  /** The step at which a stored fact entered the log. */
  lemma {:induction false} StoredBy(actions: seq<Action>, capacity: nat, j: nat) returns (n: nat)
    requires j < |Run(actions, capacity).log| && Run(actions, capacity).log[j].Stored?
    ensures n < |actions| && |Run(actions[..n], capacity).log| == j && actions[n].Finish?
    ensures var s, f := Run(actions[..n], capacity), Run(actions, capacity).log[j];
            && f.r == actions[n].r < |s.requests| && s.requests[f.r].Looked? && s.requests[f.r].digest == f.digest
            && Decide(s.requests[f.r].record) == f.decision && f.at == actions[n].now && !f.decision.reason.Backend?
    decreases |actions|
  {
    hide Got;
    hide Kept;
    hide Decide;
    var m := |actions| - 1;
    var before := Run(actions[..m], capacity);
    if j < |before.log| {
      n := StoredBy(actions[..m], capacity, j);
      assert actions[..m][..n] == actions[..n];
    } else {
      n := m;
    }
  }

  /** A decision stored after a wait is served that much too long. */
  lemma {:induction false} PromptIfTimely(actions: seq<Action>, capacity: nat, j: nat, w: int)
    requires capacity > 0 && StoresOk(Run(actions, capacity).log, j)
    requires AlwaysTimely(actions, capacity, w)
    ensures Waited(Run(actions, capacity).log, j) <= w
  {
    hide Run;
    hide LookupOf;
    hide Waited;
    hide Timely;
    hide LastStored;
    var log := Run(actions, capacity).log;
    var f := log[j];
    var n := StoredBy(actions, capacity, j);
    var s, t := Run(actions[..n], capacity), Run(actions[..n + 1], capacity);
    RunStep(actions, n, capacity);
    LogGrows(actions, capacity, n + 1);
    RunsKeep(actions[..n], capacity);
    JustStored(s, actions[n].r, actions[n].now, capacity);
    WaitStays(t.log, log, j);
    assert Timely(t, f.digest, f.at + POSITIVE_TTL - 1, w);
    TimelyMeans(t, f.digest, f.at, w, j);
  }

  lemma {:induction false} RunStep(actions: seq<Action>, n: nat, capacity: nat)
    requires n < |actions|
    ensures Run(actions[..n + 1], capacity) == Do(Run(actions[..n], capacity), actions[n], capacity)
  {
    hide Do;
    assert actions[..n + 1][..n] == actions[..n];
  }

  /** Right after a decision is stored, it is found, and is the last stored. */
  lemma {:induction false} JustStored(s: State, r: nat, now: int, capacity: nat)
    requires Inv(s) && capacity > 0 && r < |s.requests| && s.requests[r].Looked? && !Decide(s.requests[r].record).reason.Backend?
    ensures var t, digest, d := Do(s, Finish(r, now), capacity), s.requests[r].digest, Decide(s.requests[r].record);
            && LastStored(t.log, digest) == |s.log| && |t.log| == |s.log| + 2 && t.log[|s.log|] == Stored(r, digest, d, now)
            && Got(t.cache, digest, now + Ttl(d.reason) - 1).found == Some(d)
  {
    hide Kept;
    hide LastStored;
    hide Decide;
    hide Without;
    var digest, d := s.requests[r].digest, Decide(s.requests[r].record);
    var stored, told := Stored(r, digest, d, now), Told(r, digest, d, now, false);
    assert s.log + Ending(r, digest, d, now) == s.log + [stored] + [told];
    StoredSnoc(s.log, stored, digest);
    StoredSnoc(s.log + [stored], told, digest);
    KeptFromCache(s.cache, digest, d, now, capacity);
  }

  lemma {:induction false} TimelyMeans(t: State, digest: string, at: int, w: int, j: nat)
    requires Timely(t, digest, at + POSITIVE_TTL - 1, w) && LastStored(t.log, digest) == j && t.log[j].at == at
    requires Got(t.cache, digest, at + POSITIVE_TTL - 1).found.Some?
    requires Got(t.cache, digest, at + POSITIVE_TTL - 1).found.value.reason.Ok?
    ensures Waited(t.log, j) <= w
  {
    hide LastStored;
    hide Waited;
    hide Got;
  }

  /** Counted from the lookup, every Ok the cache could give at any moment of a run is younger than
      sixty seconds and `w`, if and only if no decision Ok was stored more than `w` after its lookup. */
  lemma {:induction false} LagIff(actions: seq<Action>, capacity: nat, w: int)
    requires capacity > 0
    ensures AlwaysTimely(actions, capacity, w) <==> Prompt(Run(actions, capacity).log, w)
  {
    hide Run;
    hide Waited;
    hide Timely;
    var log := Run(actions, capacity).log;
    if Prompt(log, w) {
      forall n, digest, now | 0 <= n <= |actions| ensures Timely(Run(actions[..n], capacity), digest, now, w) {
        var s := Run(actions[..n], capacity);
        RunsKeep(actions[..n], capacity);
        LogGrows(actions, capacity, n);
        forall j | 0 <= j < |s.log| && StoresOk(s.log, j) ensures Waited(s.log, j) <= w {
          assert StoresOk(log, j);
          WaitStays(s.log, log, j);
        }
        TimelyIfPrompt(s, digest, now, w);
      }
    }
    if AlwaysTimely(actions, capacity, w) {
      forall j | 0 <= j < |log| && StoresOk(log, j) ensures Waited(log, j) <= w {
        PromptIfTimely(actions, capacity, j, w);
      }
    }
  }

  function TimeOf(a: Action): int { a.now }

  /** The clock does not run backwards. */
  predicate Ticking(actions: seq<Action>)
  {
    forall i, j :: 0 <= i <= j < |actions| ==> TimeOf(actions[i]) <= TimeOf(actions[j])
  }

  lemma {:induction false} LoggedByNow(actions: seq<Action>, capacity: nat, now: int)
    requires Ticking(actions) && (actions != [] ==> TimeOf(actions[|actions| - 1]) <= now)
    ensures forall i :: 0 <= i < |Run(actions, capacity).log| ==> Run(actions, capacity).log[i].at <= now
    decreases |actions|
  {
    hide Got;
    hide Kept;
    if actions != [] {
      var n := |actions| - 1;
      assert n > 0 ==> TimeOf(actions[n - 1]) <= TimeOf(actions[n]);
      LoggedByNow(actions[..n], capacity, now);
    }
  }

  lemma {:induction false} WaitsAreNatural(actions: seq<Action>, capacity: nat, j: nat)
    requires Ticking(actions) && j < |Run(actions, capacity).log| && Run(actions, capacity).log[j].Stored?
    ensures Waited(Run(actions, capacity).log, j) >= 0
  {
    hide Run;
    hide LookupOf;
    var log := Run(actions, capacity).log;
    var n := StoredBy(actions, capacity, j);
    assert n > 0 ==> TimeOf(actions[n - 1]) <= TimeOf(actions[n]);
    LoggedByNow(actions[..n], capacity, actions[n].now);
    LogGrows(actions, capacity, n);
    var k := Behind(log, j);
    assert k >= 0 ==> log[k] == Run(actions[..n], capacity).log[k];
  }

  /** So the documented sixty seconds, counted from the lookup, hold throughout a run if and only if
      every decision Ok is stored at the very time of its lookup. */
  lemma {:induction false} SixtySecondsIff(actions: seq<Action>, capacity: nat)
    requires capacity > 0 && Ticking(actions)
    ensures AlwaysTimely(actions, capacity, 0) <==>
            forall j :: 0 <= j < |Run(actions, capacity).log| && StoresOk(Run(actions, capacity).log, j) ==>
              Waited(Run(actions, capacity).log, j) == 0
  {
    hide Run;
    hide Waited;
    hide AlwaysTimely;
    LagIff(actions, capacity, 0);
    var log := Run(actions, capacity).log;
    forall j | 0 <= j < |log| && StoresOk(log, j) ensures Waited(log, j) >= 0 {
      WaitsAreNatural(actions, capacity, j);
    }
  }

  /** A refusal from the cache is less than five seconds old, is never a backend failure, and
      rests on what the store said about that digest. */
  lemma {:induction false} CachedRefusalIsRecent(actions: seq<Action>, capacity: nat, i: nat)
    requires i < |Run(actions, capacity).log|
    requires var f := Run(actions, capacity).log[i]; f.Told? && f.cached && f.decision.reason != Ok
    ensures var log := Run(actions, capacity).log;
            var f, j := log[i], LastStored(log[..i], log[i].digest);
            && 0 <= j < i && log[j] == Stored(log[j].r, f.digest, f.decision, log[j].at) && f.at - log[j].at < NEGATIVE_TTL
            && !f.decision.reason.Backend?
            && var k := Behind(log, j);
               0 <= k < j && log[k].LookedUp? && log[k].r == log[j].r && log[k].digest == f.digest
               && Decide(log[k].record) == f.decision
  {
    hide Run;
    hide LookupOf;
    hide LastStored;
    RunsKeep(actions, capacity);
    var log := Run(actions, capacity).log;
    assert FactOk(log, i);
    var j := LastStored(log[..i], log[i].digest);
    assert log[..i][j] == log[j];
    assert FactOk(log, j);
    assert log[..j][Behind(log, j)] == log[Behind(log, j)];
  }

  /** A backend failure is told only by the request that met it. */
  lemma {:induction false} BackendIsNeverReplayed(actions: seq<Action>, capacity: nat, i: nat)
    requires i < |Run(actions, capacity).log|
    requires var f := Run(actions, capacity).log[i]; f.Told? && f.decision.reason.Backend?
    ensures var log := Run(actions, capacity).log;
            var k := LookupOf(log[..i], log[i].r);
            !log[i].cached && 0 <= k < i && log[k].record.Broken? && log[k].digest == log[i].digest
  {
    hide Run;
    hide LookupOf;
    hide LastStored;
    RunsKeep(actions, capacity);
    var log := Run(actions, capacity).log;
    assert FactOk(log, i);
    CachedIsDefinite(log, i);
    assert log[..i][LookupOf(log[..i], log[i].r)] == log[LookupOf(log[..i], log[i].r)];
  }

  lemma {:induction false} CachedIsDefinite(log: seq<Fact>, i: nat)
    requires i < |log| && forall j :: 0 <= j <= i ==> FactOk(log, j)
    ensures log[i].Told? && log[i].cached ==> !log[i].decision.reason.Backend?
  {
    hide LookedSo;
    hide LastStored;
    if log[i].Told? && log[i].cached {
      var j := LastStored(log[..i], log[i].digest);
      assert FactOk(log, i) && log[..i][j] == log[j];
      assert FactOk(log, j);
    }
  }

  /** Here a key found active at 0 is stored at 100 s, and answered Ok at 159 s without the store
      being asked again, whatever became of the key in between. */
  lemma {:induction false} RevocationMayLagLonger()
    ensures var a := [Ask("k", 0), Look(0, Active("p", "q"), 0), Finish(0, 100 * SECOND), Ask("k", 159 * SECOND)];
            var yes := Decision(Principal("p", "q"), Ok);
            Run(a, 8).log == [LookedUp(0, "k", Active("p", "q"), 0), Stored(0, "k", yes, 100 * SECOND),
                              Told(0, "k", yes, 100 * SECOND, false), Told(1, "k", yes, 159 * SECOND, true)]
  {
    hide Got;
    hide Kept;
    hide Run;
    var a := [Ask("k", 0), Look(0, Active("p", "q"), 0), Finish(0, 100 * SECOND), Ask("k", 159 * SECOND)];
    var yes := Decision(Principal("p", "q"), Ok);
    var l1 := [LookedUp(0, "k", Active("p", "q"), 0)];
    var l2 := l1 + [Stored(0, "k", yes, 100 * SECOND), Told(0, "k", yes, 100 * SECOND, false)];
    OnlyEntry("k", yes, 100 * SECOND, 159 * SECOND);
    Nobody("k", 0);
    NextState(a, 0, State([], [], []));
    NextState(a, 1, State([], [Missed("k")], []));
    NextState(a, 2, State([], [Looked("k", Active("p", "q"))], l1));
    NextState(a, 3, State([Entry("k", yes, 160 * SECOND)], [Answered], l2));
    assert a[..4] == a;
  }

  lemma {:induction false} NextState(a: seq<Action>, n: nat, s: State)
    requires n < |a| && (if n == 0 then s == State([], [], []) else Run(a[..n], 8) == s)
    ensures Run(a[..n + 1], 8) == Do(s, a[n], 8)
  {
    hide Do;
    assert a[..n + 1][..n] == a[..n];
  }

  lemma {:induction false} Nobody(h: string, now: int)
    ensures Got([], h, now) == Hit([], None)
  {}

  lemma {:induction false} OnlyEntry(h: string, d: Decision, at: int, now: int)
    requires !d.reason.Backend? && now < at + Ttl(d.reason)
    ensures Kept([], h, d, at, 8) == [Entry(h, d, at + Ttl(d.reason))]
    ensures Got([Entry(h, d, at + Ttl(d.reason))], h, now).found == Some(d)
  {
    var e := Entry(h, d, at + Ttl(d.reason));
    assert Find([e], h) == Some(e);
  }
}
