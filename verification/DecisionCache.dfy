/** The bounded cache of authentication decisions: internal/auth/cache.go.

    `Got` and `Kept` say what get and put do to the list of entries, most recent first.  The class
    keeps a map and a recency list, as the source does, and is proved to hold exactly that list.
 */
module DecisionCache {
  import opened Wrappers

  datatype Reason = Ok | Unknown | Revoked | Backend

  datatype Principal = Principal(partner: string, key: string)

  const NOBODY := Principal("", "")

  datatype Decision = Decision(principal: Principal, reason: Reason)

  datatype Entry = Entry(hash: string, decision: Decision, expiresAt: int)

  const SECOND := 1_000_000_000
  const POSITIVE_TTL := 60 * SECOND
  const NEGATIVE_TTL := 5 * SECOND
  const DEFAULT_CAPACITY := 4096

  function Ttl(r: Reason): int { if r.Ok? then POSITIVE_TTL else NEGATIVE_TTL }

  // ---------------------------------------------------------------- the list of entries

  function Find(c: seq<Entry>, h: string): (r: Option<Entry>)
    ensures r.Some? <==> exists i :: 0 <= i < |c| && c[i].hash == h
    ensures r.Some? ==> r.value in c && r.value.hash == h
  {
    if c == [] then None else if c[0].hash == h then Some(c[0]) else Find(c[1..], h)
  }

  function Without(c: seq<Entry>, h: string): (r: seq<Entry>)
    ensures forall e :: e in r <==> e in c && e.hash != h
  {
    if c == [] then [] else (if c[0].hash == h then [] else [c[0]]) + Without(c[1..], h)
  }

  predicate Distinct(c: seq<Entry>) { forall i, j :: 0 <= i < j < |c| ==> c[i].hash != c[j].hash }

  datatype Hit = Hit(cache: seq<Entry>, found: Option<Decision>)

  /** An expired entry is dropped on sight, a live one becomes the most recent. */
  function Got(c: seq<Entry>, h: string, now: int): Hit
  {
    var e := Find(c, h);
    if e.None? then Hit(c, None)
    else if now >= e.value.expiresAt then Hit(Without(c, h), None)
    else Hit([e.value] + Without(c, h), Some(e.value.decision))
  }

  function Kept(c: seq<Entry>, h: string, d: Decision, now: int, capacity: nat): seq<Entry>
  {
    if d.reason.Backend? then c else Cut([Entry(h, d, now + Ttl(d.reason))] + Without(c, h), capacity)
  }

  function Cut(c: seq<Entry>, n: nat): seq<Entry> { if |c| <= n then c else c[..n] }

  // ---------------------------------------------------------------- the map and the recency list

  predicate Unique(order: seq<string>) { forall i, j :: 0 <= i < j < |order| ==> order[i] != order[j] }

  ghost predicate Linked(entries: map<string, Entry>, order: seq<string>)
  {
    Unique(order) && (forall h :: h in entries <==> h in order) && forall h :: h in entries ==> entries[h].hash == h
  }

  ghost function Listed(entries: map<string, Entry>, order: seq<string>): (c: seq<Entry>)
    requires Linked(entries, order)
    ensures |c| == |order| && forall i :: 0 <= i < |c| ==> order[i] in entries && c[i] == entries[order[i]]
  {
    seq(|order|, i requires 0 <= i < |order| => entries[order[i]])
  }

  lemma {:induction false} UniqueSize(order: seq<string>)
    requires Unique(order)
    ensures |set h | h in order| == |order|
    decreases |order|
  {
    var all := set h | h in order;
    if order == [] {
      assert all == {};
    } else {
      var n := |order| - 1;
      UniqueSize(order[..n]);
      assert all == (set h | h in order[..n]) + {order[n]};
      assert order[n] !in order[..n];
    }
  }

  /** Both sides have the same size. */
  lemma {:induction false} SameSize(entries: map<string, Entry>, order: seq<string>)
    requires Linked(entries, order)
    ensures |entries| == |order|
  {
    UniqueSize(order);
    assert entries.Keys == set h | h in order;
  }

  lemma {:induction false} FindIs(c: seq<Entry>, i: nat)
    requires Distinct(c) && i < |c|
    ensures Find(c, c[i].hash) == Some(c[i])
    decreases |c|
  {
    if i > 0 { FindIs(c[1..], i - 1); }
  }

  lemma {:induction false} WithoutAt(c: seq<Entry>, i: nat)
    requires Distinct(c) && i < |c|
    ensures Without(c, c[i].hash) == c[..i] + c[i + 1..]
    decreases |c|
  {
    hide Without;
    var h, d := c[i].hash, c[1..];
    WithoutFirst(c, h);
    if i > 0 {
      WithoutAt(d, i - 1);
      assert d[i - 1] == c[i] && c[0].hash != h;
      assert d[..i - 1] == c[1..i] && d[i..] == c[i + 1..];
      assert [c[0]] + c[1..i] == c[..i];
    } else {
      WithoutNothing(d, h);
    }
  }

  lemma {:induction false} WithoutFirst(c: seq<Entry>, h: string)
    requires c != []
    ensures Without(c, h) == (if c[0].hash == h then [] else [c[0]]) + Without(c[1..], h)
  {}

  lemma {:induction false} WithoutNothing(c: seq<Entry>, h: string)
    requires forall i :: 0 <= i < |c| ==> c[i].hash != h
    ensures Without(c, h) == c
    decreases |c|
  {
    if c != [] { WithoutNothing(c[1..], h); }
  }

  class Cache {
    const capacity: nat
    var entries: map<string, Entry>
    var order: seq<string>

    /** The map and the list hold the same keys, once each, and no more than fit. */
    ghost predicate Valid()
      reads this
    {
      Linked(entries, order) && 0 < capacity && |order| <= capacity
    }

    ghost function Contents(): seq<Entry>
      requires Valid()
      reads this
    {
      Listed(entries, order)
    }

    constructor (cap: int)
      ensures Valid() && Contents() == [] && capacity == if cap <= 0 then DEFAULT_CAPACITY else cap
    {
      capacity := if cap <= 0 then DEFAULT_CAPACITY else cap;
      entries, order := map[], [];
    }

    /** Where a key stands in the recency list. */
    method Place(h: string) returns (i: nat)
      requires h in order
      ensures i < |order| && order[i] == h
    {
      i := 0;
      while order[i] != h
        invariant i < |order| && h in order[i..]
        decreases |order| - i
      {
        assert order[i..] == [order[i]] + order[i + 1..];
        i := i + 1;
      }
    }

    method Get(h: string, now: int) returns (d: Option<Decision>)
      requires Valid()
      modifies this
      ensures Valid() && Hit(Contents(), d) == Got(old(Contents()), h, now) && |entries| <= capacity
    {
      hide Linked;
      hide Listed;
      hide Find;
      hide Without;
      SameSize(entries, order);
      if h !in entries {
        Absent(entries, order, h);
        return None;
      }
      var entry := entries[h];
      KeysListed(entries, order, h);
      var i := Place(h);
      var rest := order[..i] + order[i + 1..];
      Dropped(entries, order, i);
      if now >= entry.expiresAt {
        entries, order := entries - {h}, rest;
        SameSize(entries, order);
        return None;
      }
      Moved(entries, order, i, entry);
      assert entries[h := entry] == entries;
      order := [h] + rest;
      SameSize(entries, order);
      d := Some(entry.decision);
    }

    method Put(h: string, d: Decision, now: int)
      requires Valid()
      modifies this
      ensures Valid() && Contents() == Kept(old(Contents()), h, d, now, capacity) && |entries| <= capacity
    {
      hide Linked;
      hide Listed;
      hide Find;
      hide Without;
      SameSize(entries, order);
      if d.reason.Backend? {
        return;
      }
      var ttl := NEGATIVE_TTL;
      if d.reason.Ok? {
        ttl := POSITIVE_TTL;
      }
      var fresh_ := Entry(h, d, now + ttl);
      if h in entries {
        KeysListed(entries, order, h);
        var i := Place(h);
        Moved(entries, order, i, fresh_);
        entries, order := entries[h := fresh_], [h] + (order[..i] + order[i + 1..]);
        SameSize(entries, order);
        return;
      }
      Absent(entries, order, h);
      Added(entries, order, h, fresh_);
      entries, order := entries[h := fresh_], [h] + order;
      Evict();
    }

    /** Drop from the back of the list until what is left fits. */
    method Evict()
      requires Linked(entries, order) && 0 < capacity
      modifies this
      ensures Valid() && Contents() == Cut(Listed(old(entries), old(order)), capacity) && |entries| <= capacity
    {
      hide Linked;
      hide Listed;
      ghost var all := Listed(entries, order);
      SameSize(entries, order);
      assert all[..|order|] == all;
      while |entries| > capacity
        invariant Linked(entries, order) && |entries| == |order| && (|order| < |all| ==> capacity <= |order|)
        invariant |order| <= |all| && Listed(entries, order) == all[..|order|]
        decreases |entries|
      {
        var n := |order| - 1;
        LastDropped(entries, order);
        entries, order := entries - {order[n]}, order[..n];
        SameSize(entries, order);
        assert all[..n + 1][..n] == all[..n];
      }
    }
  }

  lemma {:induction false} KeysListed(entries: map<string, Entry>, order: seq<string>, h: string)
    requires Linked(entries, order) && h in entries
    ensures h in order
  {}

  lemma {:induction false} Absent(entries: map<string, Entry>, order: seq<string>, h: string)
    requires Linked(entries, order) && h !in entries
    ensures Find(Listed(entries, order), h).None? && Without(Listed(entries, order), h) == Listed(entries, order)
  {
    hide Without;
    WithoutNothing(Listed(entries, order), h);
  }

  /** Taking a key out of the map and its place out of the list. */
  lemma {:induction false} Dropped(entries: map<string, Entry>, order: seq<string>, i: nat)
    requires Linked(entries, order) && i < |order|
    ensures var h, rest := order[i], order[..i] + order[i + 1..];
            && Linked(entries - {h}, rest) && Find(Listed(entries, order), h) == Some(entries[h])
            && Listed(entries - {h}, rest) == Without(Listed(entries, order), h)
  {
    hide Find;
    hide Without;
    hide Linked;
    hide Listed;
    hide Distinct;
    var c := Listed(entries, order);
    ListedDistinct(entries, order);
    FindIs(c, i);
    WithoutAt(c, i);
    RestLinked(entries, order, i);
    RestListed(entries, order, i);
  }

  lemma {:induction false} RestListed(entries: map<string, Entry>, order: seq<string>, i: nat)
    requires i < |order| && Linked(entries, order) && Linked(entries - {order[i]}, order[..i] + order[i + 1..])
    ensures var c := Listed(entries, order);
            Listed(entries - {order[i]}, order[..i] + order[i + 1..]) == c[..i] + c[i + 1..]
  {
    hide Linked;
    hide Listed;
  }

  /** Putting an entry for a key first, with its place taken out. */
  lemma {:induction false} Moved(entries: map<string, Entry>, order: seq<string>, i: nat, e: Entry)
    requires Linked(entries, order) && i < |order| && e.hash == order[i]
    ensures var h, rest := order[i], order[..i] + order[i + 1..];
            Linked(entries[h := e], [h] + rest) && Listed(entries[h := e], [h] + rest) == [e] + Without(Listed(entries, order), h)
  {
    hide Find;
    hide Without;
    var h, rest := order[i], order[..i] + order[i + 1..];
    Dropped(entries, order, i);
    FrontLinked(entries[h := e], rest, h);
    FrontListed(entries - {h}, entries[h := e], rest, h);
  }

  lemma {:induction false} Added(entries: map<string, Entry>, order: seq<string>, h: string, e: Entry)
    requires Linked(entries, order) && h !in entries && e.hash == h
    ensures Linked(entries[h := e], [h] + order) && Listed(entries[h := e], [h] + order) == [e] + Listed(entries, order)
  {
    FrontLinked(entries[h := e], order, h);
    FrontListed(entries, entries[h := e], order, h);
  }

  lemma {:induction false} FrontListed(before: map<string, Entry>, after: map<string, Entry>, rest: seq<string>, h: string)
    requires Linked(before, rest) && Linked(after, [h] + rest) && forall k :: k in rest ==> after[k] == before[k]
    ensures Listed(after, [h] + rest) == [after[h]] + Listed(before, rest)
  {}

  lemma {:induction false} LastDropped(entries: map<string, Entry>, order: seq<string>)
    requires Linked(entries, order) && order != []
    ensures var n := |order| - 1;
            && Linked(entries - {order[n]}, order[..n])
            && Listed(entries - {order[n]}, order[..n]) == Listed(entries, order)[..n]
  {
    LastLinked(entries, order);
  }

  lemma {:induction false} ListedDistinct(entries: map<string, Entry>, order: seq<string>)
    requires Linked(entries, order)
    ensures Distinct(Listed(entries, order)) && forall i :: 0 <= i < |order| ==> Listed(entries, order)[i].hash == order[i]
  {}

  lemma {:induction false} RestLinked(entries: map<string, Entry>, order: seq<string>, i: nat)
    requires Linked(entries, order) && i < |order|
    ensures Linked(entries - {order[i]}, order[..i] + order[i + 1..])
    ensures order[i] !in order[..i] + order[i + 1..]
  {
    var rest := order[..i] + order[i + 1..];
    assert forall k :: 0 <= k < |rest| ==> rest[k] == order[if k < i then k else k + 1];
    forall h ensures h in entries - {order[i]} <==> h in rest {
      if h in entries && h != order[i] {
        var k :| 0 <= k < |order| && order[k] == h;
        assert rest[if k < i then k else k - 1] == h;
      }
    }
  }

  lemma {:induction false} FrontLinked(entries: map<string, Entry>, rest: seq<string>, h: string)
    requires h in entries && h !in rest && Unique(rest) && entries[h].hash == h
    requires forall k :: k in rest <==> k in entries && k != h
    requires forall k :: k in entries ==> entries[k].hash == k
    ensures Linked(entries, [h] + rest)
  {}

  lemma {:induction false} LastLinked(entries: map<string, Entry>, order: seq<string>)
    requires Linked(entries, order) && order != []
    ensures Linked(entries - {order[|order| - 1]}, order[..|order| - 1])
  {
    var n := |order| - 1;
    RestLinked(entries, order, n);
    assert order[..n] + order[n + 1..] == order[..n];
  }

  // ---------------------------------------------------------------- least recently used

  datatype Op = Get(h: string, now: int) | Put(h: string, d: Decision, at: int)

  function Do(c: seq<Entry>, op: Op, capacity: nat): seq<Entry>
  {
    match op
    case Get(h, now) => Got(c, h, now).cache
    case Put(h, d, at) => Kept(c, h, d, at, capacity)
  }

  function Run(ops: seq<Op>, capacity: nat): seq<Entry>
  {
    if ops == [] then [] else Do(Run(ops[..|ops| - 1], capacity), ops[|ops| - 1], capacity)
  }

  /** An operation uses a key when it stores a decision for it or finds one. */
  predicate Uses(c: seq<Entry>, op: Op, h: string)
  {
    op.h == h && if op.Get? then Got(c, h, op.now).found.Some? else !op.d.reason.Backend?
  }

  /** The position of the last operation that used a key. */
  function LastUse(ops: seq<Op>, capacity: nat, h: string): (n: int)
    ensures n < |ops|
  {
    if ops == [] then -1
    else
      var n := |ops| - 1;
      if Uses(Run(ops[..n], capacity), ops[n], h) then n else LastUse(ops[..n], capacity, h)
  }

  /** The list runs from the most to the least recently used key. */
  ghost predicate Ranked(ops: seq<Op>, capacity: nat, c: seq<Entry>)
  {
    forall i, j :: 0 <= i < j < |c| ==> LastUse(ops, capacity, c[i].hash) > LastUse(ops, capacity, c[j].hash)
  }

  /** `r` is what `c` has at the places `at`, in order. */
  ghost predicate Picks(at: seq<nat>, c: seq<Entry>, r: seq<Entry>)
  {
    && |at| == |r| && (forall i :: 0 <= i < |at| ==> at[i] < |c| && c[at[i]] == r[i])
    && forall i, j :: 0 <= i < j < |at| ==> at[i] < at[j]
  }

  function Shifted(at: seq<nat>): (r: seq<nat>)
    ensures |r| == |at| && forall i :: 0 <= i < |at| ==> r[i] == at[i] + 1
  {
    seq(|at|, i requires 0 <= i < |at| => at[i] + 1)
  }

  lemma {:induction false} PickOn(at: seq<nat>, c: seq<Entry>, r: seq<Entry>)
    requires c != [] && Picks(at, c[1..], r)
    ensures Picks(Shifted(at), c, r) && Picks([0] + Shifted(at), c, [c[0]] + r)
  {
    var next := Shifted(at);
    forall i | 0 <= i < |at| ensures next[i] < |c| && c[next[i]] == r[i] {
      assert c[1..][at[i]] == c[at[i] + 1];
    }
  }

  /** Taking entries out keeps the rest in order. */
  lemma {:induction false} WithoutKeepsOrder(c: seq<Entry>, h: string) returns (at: seq<nat>)
    ensures Picks(at, c, Without(c, h)) && forall i :: 0 <= i < |at| ==> at[i] < |c| && c[at[i]].hash != h
    decreases |c|
  {
    at := Places(c, h);
    forall i | 0 <= i < |at| ensures at[i] < |c| && c[at[i]].hash != h {
      assert Without(c, h)[i] in Without(c, h);
    }
  }

  lemma {:induction false} Places(c: seq<Entry>, h: string) returns (at: seq<nat>)
    ensures Picks(at, c, Without(c, h))
    decreases |c|
  {
    hide Picks;
    if c == [] {
      at := [];
      PickNothing(c);
    } else {
      var more := Places(c[1..], h);
      PickOn(more, c, Without(c[1..], h));
      at := if c[0].hash == h then Shifted(more) else [0] + Shifted(more);
      assert [] + Without(c[1..], h) == Without(c[1..], h);
    }
  }

  lemma {:induction false} PickNothing(c: seq<Entry>)
    ensures Picks([], c, [])
  {}

  lemma {:induction false} RecentFirst(ops: seq<Op>, capacity: nat)
    ensures Distinct(Run(ops, capacity)) && Ranked(ops, capacity, Run(ops, capacity))
    decreases |ops|
  {
    hide Find;
    hide Without;
    if ops != [] {
      var n := |ops| - 1;
      var before, op := ops[..n], ops[n];
      var c := Run(before, capacity);
      RecentFirst(before, capacity);
      var at := WithoutKeepsOrder(c, op.h);
      OthersKeepUse(ops, capacity, op.h);
      var rest := Without(c, op.h);
      if Uses(c, op, op.h) {
        FrontIsNewest(ops, capacity, c, at, Run(ops, capacity));
      } else if op.Get? && Find(c, op.h).Some? {
        RestRanked(ops, capacity, c, at);
      } else if op.Put? {
        SameRanked(ops, capacity, c);
      } else {
        SameRanked(ops, capacity, c);
      }
    }
  }

  lemma {:induction false} OthersKeepUse(ops: seq<Op>, capacity: nat, h: string)
    requires ops != [] && ops[|ops| - 1].h == h
    ensures forall k :: k != h ==> LastUse(ops, capacity, k) == LastUse(ops[..|ops| - 1], capacity, k)
  {}

  lemma {:induction false} SameRanked(ops: seq<Op>, capacity: nat, c: seq<Entry>)
    requires ops != [] && c == Run(ops[..|ops| - 1], capacity) && Ranked(ops[..|ops| - 1], capacity, c)
    requires !Uses(c, ops[|ops| - 1], ops[|ops| - 1].h)
    ensures Ranked(ops, capacity, c)
  {
    hide Uses;
    forall k ensures LastUse(ops, capacity, k) == LastUse(ops[..|ops| - 1], capacity, k) {
      OnlyItsKey(c, ops[|ops| - 1], k);
    }
  }

  lemma {:induction false} OnlyItsKey(c: seq<Entry>, op: Op, k: string)
    ensures k != op.h ==> !Uses(c, op, k)
  {}

  lemma {:induction false} RestRanked(ops: seq<Op>, capacity: nat, c: seq<Entry>, at: seq<nat>)
    requires ops != [] && Distinct(c) && Ranked(ops[..|ops| - 1], capacity, c)
    requires Picks(at, c, Without(c, ops[|ops| - 1].h)) && forall i :: 0 <= i < |at| ==> c[at[i]].hash != ops[|ops| - 1].h
    ensures Distinct(Without(c, ops[|ops| - 1].h)) && Ranked(ops, capacity, Without(c, ops[|ops| - 1].h))
  {
    hide LastUse;
    hide Without;
    OthersKeepUse(ops, capacity, ops[|ops| - 1].h);
    var rest := Without(c, ops[|ops| - 1].h);
    forall i, j | 0 <= i < j < |rest|
      ensures rest[i].hash != rest[j].hash && LastUse(ops, capacity, rest[i].hash) > LastUse(ops, capacity, rest[j].hash)
    {
      assert at[i] < at[j];
    }
  }

  lemma {:induction false} FrontIsNewest(ops: seq<Op>, capacity: nat, c: seq<Entry>, at: seq<nat>, r: seq<Entry>)
    requires ops != [] && c == Run(ops[..|ops| - 1], capacity) && r == Run(ops, capacity)
    requires Distinct(c) && Ranked(ops[..|ops| - 1], capacity, c) && Uses(c, ops[|ops| - 1], ops[|ops| - 1].h)
    requires Picks(at, c, Without(c, ops[|ops| - 1].h)) && forall i :: 0 <= i < |at| ==> c[at[i]].hash != ops[|ops| - 1].h
    ensures Distinct(r) && Ranked(ops, capacity, r)
  {
    hide Find;
    hide Without;
    hide Ranked;
    var op := ops[|ops| - 1];
    var rest := Without(c, op.h);
    RestRanked(ops, capacity, c, at);
    assert r == [] || (r[0].hash == op.h && r[1..] == rest[..|r| - 1] && |r| - 1 <= |rest|);
    assert LastUse(ops, capacity, op.h) == |ops| - 1;
    FrontRanked(ops, capacity, rest, r);
  }

  lemma {:induction false} FrontRanked(ops: seq<Op>, capacity: nat, rest: seq<Entry>, r: seq<Entry>)
    requires ops != [] && Distinct(rest) && Ranked(ops, capacity, rest) && (forall i :: 0 <= i < |rest| ==> rest[i].hash != ops[|ops| - 1].h)
    requires r == [] || (|r| - 1 <= |rest| && r[0].hash == ops[|ops| - 1].h && r[1..] == rest[..|r| - 1])
    requires LastUse(ops, capacity, ops[|ops| - 1].h) == |ops| - 1
    ensures Distinct(r) && Ranked(ops, capacity, r)
  {
    hide LastUse;
    forall k | 0 < k < |r| ensures r[k] == rest[k - 1] {
      assert r[k] == r[1..][k - 1] && rest[..|r| - 1][k - 1] == rest[k - 1];
    }
    forall i, j | 0 <= i < j < |r|
      ensures r[i].hash != r[j].hash && LastUse(ops, capacity, r[i].hash) > LastUse(ops, capacity, r[j].hash)
    {
      if i == 0 {
        OthersKeepUse(ops, capacity, ops[|ops| - 1].h);
      }
    }
  }

  /** What storing a decision pushes out was used longer ago than everything that stays. */
  lemma {:induction false} EvictsLeastRecentlyUsed(ops: seq<Op>, capacity: nat, h: string, d: Decision, now: int, gone: Entry, kept: Entry)
    requires var c := Run(ops, capacity);
             var r := Kept(c, h, d, now, capacity);
             gone in c && gone.hash != h && gone !in r && kept in c && kept in r && kept.hash != h
    ensures LastUse(ops, capacity, gone.hash) < LastUse(ops, capacity, kept.hash)
  {
    hide LastUse;
    hide Without;
    hide Run;
    var c := Run(ops, capacity);
    var at := WithoutKeepsOrder(c, h);
    var rest := Without(c, h);
    RecentFirst(ops, capacity);
    var g, k := CutOff([Entry(h, d, now + Ttl(d.reason))], rest, capacity, gone, kept);
    assert at[k] < at[g];
  }

  lemma {:induction false} CutOff(front: seq<Entry>, rest: seq<Entry>, n: nat, gone: Entry, kept: Entry) returns (g: nat, k: nat)
    requires gone in rest && gone !in Cut(front + rest, n) && kept in Cut(front + rest, n) && kept !in front
    ensures k < g < |rest| && rest[g] == gone && rest[k] == kept
  {
    var all, r := front + rest, Cut(front + rest, n);
    var m :| 0 <= m < |r| && r[m] == kept;
    k := m - |front|;
    assert all == r + all[|r|..];
    assert gone in all;
    assert gone in all[|r|..];
    var x :| 0 <= x < |all[|r|..]| && all[|r|..][x] == gone;
    g := |r| + x - |front|;
  }

  lemma {:induction false} NeverOverCapacity(ops: seq<Op>, capacity: nat)
    ensures |Run(ops, capacity)| <= capacity
    decreases |ops|
  {
    if ops != [] {
      var n := |ops| - 1;
      NeverOverCapacity(ops[..n], capacity);
      WithoutShorter(Run(ops[..n], capacity), ops[n].h);
    }
  }

  lemma {:induction false} WithoutShorter(c: seq<Entry>, h: string)
    ensures |Without(c, h)| <= |c| && (Find(c, h).Some? ==> |Without(c, h)| < |c|)
    decreases |c|
  {
    if c != [] { WithoutShorter(c[1..], h); }
  }

  // ---------------------------------------------------------------- what enters and what leaves

  /** A lookup finds a decision exactly when the cache holds one for the key that has not expired. */
  lemma {:induction false} FoundIff(c: seq<Entry>, h: string, now: int, d: Decision)
    requires Distinct(c)
    ensures Got(c, h, now).found == Some(d) <==> exists e :: e in c && e.hash == h && e.decision == d && now < e.expiresAt
  {
    hide Without;
    hide Find;
    if e :| e in c && e.hash == h && e.decision == d && now < e.expiresAt {
      var i :| 0 <= i < |c| && c[i] == e;
      FindIs(c, i);
    }
    if Find(c, h).Some? { assert Find(c, h).value in c; }
  }

  /** An operation that stores a decision: a put of anything but a backend failure. */
  predicate Storing(op: Op) { op.Put? && !op.d.reason.Backend? }

  /** Nothing enters but what is stored, for sixty seconds when it is Ok and five otherwise. */
  lemma {:induction false} EntersIff(ops: seq<Op>, op: Op, capacity: nat, e: Entry)
    requires capacity > 0 && e !in Run(ops, capacity)
    ensures e in Run(ops + [op], capacity) <==>
            Storing(op) && e == Entry(op.h, op.d, op.at + if op.d.reason.Ok? then 60_000_000_000 else 5_000_000_000)
  {
    hide Run;
    hide Without;
    hide Find;
    RunOn(ops, op, capacity);
    var c := Run(ops, capacity);
    if Storing(op) {
      var front := Entry(op.h, op.d, op.at + Ttl(op.d.reason));
      FrontStays([front] + Without(c, op.h), capacity);
    }
  }

  lemma {:induction false} FrontStays(c: seq<Entry>, n: nat)
    requires c != [] && n > 0
    ensures Cut(c, n) != [] && Cut(c, n)[0] == c[0] && forall e :: e in Cut(c, n) ==> e in c
  {}

  lemma {:induction false} RunOn(ops: seq<Op>, op: Op, capacity: nat)
    ensures Run(ops + [op], capacity) == Do(Run(ops, capacity), op, capacity)
  {
    hide Do;
    assert (ops + [op])[..|ops|] == ops;
  }

  lemma {:induction false} WithoutSelf(c: seq<Entry>, h: string)
    ensures forall e :: e in Without(c, h) ==> e.hash != h
  {}

  /** Of a list that fits, a new first entry pushes out the last one when the list is full and does
      not have its key. */
  lemma {:induction false} PushedOutIff(c: seq<Entry>, h: string, front: Entry, capacity: nat, i: nat)
    requires Distinct(c) && 0 < |c| <= capacity && i < |c| && c[i].hash != h && front.hash == h
    ensures c[i] !in Cut([front] + Without(c, h), capacity) <==>
            |c| == capacity && i == |c| - 1 && forall k :: k in c ==> k.hash != h
  {
    hide Find;
    hide Without;
    hide Cut;
    hide Distinct;
    if forall k :: k in c ==> k.hash != h {
      WithoutNothing(c, h);
      PushedOutOf(c, front, capacity, i);
    } else {
      WithoutShorter(c, h);
      Fits([front] + Without(c, h), capacity);
    }
  }

  lemma {:induction false} PushedOutOf(c: seq<Entry>, front: Entry, capacity: nat, i: nat)
    requires Distinct(c) && 0 < |c| <= capacity && i < |c| && c[i] != front
    ensures c[i] !in Cut([front] + c, capacity) <==> |c| == capacity && i == |c| - 1
  {
    if |c| == capacity {
      var n := |c| - 1;
      assert Cut([front] + c, capacity) == [front] + c[..n];
      if i < n { assert c[..n][i] == c[i]; }
    }
  }

  lemma {:induction false} Fits(c: seq<Entry>, n: nat)
    requires |c| <= n
    ensures Cut(c, n) == c
  {}

  /** The last place is the least recently used. */
  lemma {:induction false} LastIsOldest(ops: seq<Op>, capacity: nat, i: nat)
    requires i < |Run(ops, capacity)|
    ensures var c := Run(ops, capacity);
            i == |c| - 1 <==> forall k :: k in c && k != c[i] ==> LastUse(ops, capacity, c[i].hash) < LastUse(ops, capacity, k.hash)
  {
    hide Run;
    hide LastUse;
    RecentFirst(ops, capacity);
    var c := Run(ops, capacity);
    if i < |c| - 1 {
      assert c[i + 1] in c && c[i + 1] != c[i];
    }
  }

  /** An entry leaves exactly when a get sees it expired, another decision for its key replaces it, or
      a new key comes to a full cache in which it is the least recently used. */
  lemma {:induction false} LeavesIff(ops: seq<Op>, op: Op, capacity: nat, e: Entry)
    requires capacity > 0 && e in Run(ops, capacity)
    ensures var c := Run(ops, capacity);
            e !in Run(ops + [op], capacity) <==>
            if op.h == e.hash
            then (op.Get? && op.now >= e.expiresAt) || (Storing(op) && e != Entry(op.h, op.d, op.at + Ttl(op.d.reason)))
            else Storing(op) && |c| == capacity && (forall k :: k in c ==> k.hash != op.h)
                 && forall k :: k in c && k != e ==> LastUse(ops, capacity, e.hash) < LastUse(ops, capacity, k.hash)
  {
    hide Run;
    hide Without;
    hide Find;
    hide LastUse;
    RunOn(ops, op, capacity);
    RecentFirst(ops, capacity);
    NeverOverCapacity(ops, capacity);
    var c := Run(ops, capacity);
    var i :| 0 <= i < |c| && c[i] == e;
    if op.h == e.hash {
      FindIs(c, i);
      WithoutSelf(c, op.h);
      if Storing(op) { FrontStays([Entry(op.h, op.d, op.at + Ttl(op.d.reason))] + Without(c, op.h), capacity); }
    } else if Storing(op) {
      PushedOutIff(c, op.h, Entry(op.h, op.d, op.at + Ttl(op.d.reason)), capacity, i);
      LastIsOldest(ops, capacity, i);
    }
  }
}
