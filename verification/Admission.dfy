/** Admitted reading: internal/proxy/admission.go.

    The budget is shared, so each request to it may be granted or refused by what others hold:
    `answers` gives the outcome of each request in turn, and every theorem is for all of them.
 */
module Admission {

  const BLOCK_START := 0x1_0000
  const BLOCK_MAX := 0x10_0000

  function Min(a: int, b: int): int { if a < b then a else b }

  /** The size of the k-th block, and of the first k together. */
  function Block(k: nat): (b: int)
    ensures BLOCK_START <= b <= BLOCK_MAX
  {
    if k == 0 then BLOCK_START else Min(2 * Block(k - 1), BLOCK_MAX)
  }

  function Reserved(k: nat): int { if k == 0 then 0 else Reserved(k - 1) + Block(k - 1) }

  /** How a source ends: io.EOF itself, io.ErrUnexpectedEOF of its own, an error that wraps one of
      the two, or any other error. */
  datatype Ending = Eof | UnexpectedEof | Wrapping | Broken

  datatype Result = Bytes(b: string) | Refused | Failed

  class Admission {
    var held: int
    var asked: nat
    const answers: nat -> bool

    ghost predicate Valid()
      reads this
    {
      held >= 0
    }

    constructor (budget: nat -> bool)
      ensures Valid() && held == 0 && asked == 0 && answers == budget
    {
      held, asked, answers := 0, 0, budget;
    }

    method Reserve(n: int) returns (ok: bool)
      requires Valid()
      modifies this
      ensures Valid()
      ensures if n <= 0 then ok && held == old(held) && asked == old(asked)
              else ok == answers(old(asked)) && asked == old(asked) + 1 && held == old(held) + if ok then n else 0
    {
      if n <= 0 {
        return true;
      }
      ok := answers(asked);
      asked := asked + 1;
      if !ok {
        return;
      }
      held := held + n;
    }

    /** Gives back what is held; the result is what Budget.Release is asked to return. */
    method Release() returns (returned: int)
      requires Valid()
      modifies this
      ensures Valid() && returned == old(held) && held == 0 && asked == old(asked)
    {
      if held == 0 {
        return 0;
      }
      returned := held;
      held := 0;
    }
  }

  /** io.ReadFull of `want` bytes from what is left; `short` when the source ended first. */
  method ReadFull(left: string, want: int) returns (got: string, rest: string, short: bool)
    requires want > 0
    ensures got + rest == left && (short <==> |left| < want) && |got| == Min(|left|, want)
  {
    if |left| < want {
      return left, "", true;
    }
    got, rest, short := left[..want], left[want..], false;
  }

  /** How many blocks a source of `len` bytes asks for: the fewest that exceed it. */
  function Blocks(len: nat, k: nat): (n: nat)
    requires Reserved(k) <= len
    ensures n > k && Reserved(n - 1) <= len < Reserved(n)
    decreases len - Reserved(k)
  {
    if Reserved(k + 1) > len then k + 1 else Blocks(len, k + 1)
  }

  lemma {:induction false} BlocksStep(len: nat, k: nat)
    requires Reserved(k) <= len
    ensures Reserved(k + 1) == Reserved(k) + Block(k) && Block(k + 1) == Min(2 * Block(k), BLOCK_MAX)
    ensures Blocks(len, k) == if Reserved(k + 1) > len then k + 1 else Blocks(len, k + 1)
  {}

  lemma {:induction false} BlocksStart(len: nat)
    ensures Reserved(0) == 0 && Block(0) == BLOCK_START
  {}

  /** The first refusal among the requests a read makes. */
  ghost predicate FirstRefusal(answers: nat -> bool, k: nat) { !answers(k) && forall j :: 0 <= j < k ==> answers(j) }

  /** Reading a fresh buffer: it ends at the first refusal, or else with as many blocks as the
      source needs; what is held is exactly the granted blocks. */
  method ReadAllAdmitted(src: string, ending: Ending, a: Admission) returns (r: Result)
    requires a.Valid() && a.held == 0 && a.asked == 0
    modifies a
    ensures a.Valid()
    ensures var need := Blocks(|src|, 0);
            if forall j :: 0 <= j < need ==> a.answers(j)
            then a.held == Reserved(need) && r == (if ending.Broken? then Failed else Bytes(src))
            else r == Refused && exists k :: 0 <= k < need && FirstRefusal(a.answers, k) && a.held == Reserved(k)
  {
    hide Blocks;
    hide Block;
    hide Reserved;
    BlocksStart(|src|);
    var buf, left := "", src;
    var block := BLOCK_START;
    ghost var k := 0;
    while true
      invariant a.Valid() && a.asked == k && a.held == Reserved(k) && block == Block(k)
      invariant buf + left == src && |buf| == Reserved(k)
      invariant Blocks(|src|, 0) == Blocks(|src|, k)
      invariant forall j :: 0 <= j < k ==> a.answers(j)
      decreases |left|
    {
      BlocksStep(|src|, k);
      var ok := a.Reserve(block);
      if !ok {
        assert FirstRefusal(a.answers, k);
        return Refused;
      }
      var got, rest, short := ReadFull(left, block);
      assert buf + got + rest == src;
      buf, left := buf + got, rest;
      if short {
        if ending.Broken? {
          return Failed;
        }
        return Bytes(buf);
      }
      if block < BLOCK_MAX {
        block := block * 2;
        if block > BLOCK_MAX {
          block := BLOCK_MAX;
        }
      }
      k := k + 1;
    }
  }

  /** A block is at most 64 KiB more than all before it, until blocks stop growing. */
  lemma {:induction false} BlockGrows(k: nat)
    ensures Block(k) <= Min(BLOCK_MAX, Reserved(k) + BLOCK_START)
    decreases k
  {
    if k > 0 { BlockGrows(k - 1); }
  }

  /** The reservation is tight: it covers the bytes, with at most a mebibyte, and at most the
      length itself and 64 KiB, to spare. */
  lemma {:induction false} ReservationIsTight(len: nat)
    ensures len < Reserved(Blocks(len, 0)) <= len + Min(BLOCK_MAX, len + BLOCK_START)
  {
    BlockGrows(Blocks(len, 0) - 1);
  }

  /** Blocks double from 64 KiB to 1 MiB and stay there. */
  lemma {:induction false} ReservedIs(k: nat)
    ensures k <= 4 ==> Reserved(k) == [0, 0x1_0000, 0x3_0000, 0x7_0000, 0xF_0000][k]
    ensures k >= 4 ==> Reserved(k) == 0xF_0000 + (k - 4) * 0x10_0000 && Block(k) == 0x10_0000
    decreases k
  {
    if k > 4 {
      ReservedIs(k - 1);
    } else {
      assert Block(0) == 0x1_0000 && Block(1) == 0x2_0000 && Block(2) == 0x4_0000 && Block(3) == 0x8_0000 && Block(4) == 0x10_0000;
      assert Reserved(0) == 0 && Reserved(1) == 0x1_0000 && Reserved(2) == 0x3_0000 && Reserved(3) == 0x7_0000 && Reserved(4) == 0xF_0000;
    }
  }

  /** So a long body costs one request to the budget per mebibyte, after four for its first 960 KiB. */
  lemma {:induction false} RequestsAreFew(len: nat)
    ensures len >= 0xF_0000 ==> Blocks(len, 0) == 5 + (len - 0xF_0000) / 0x10_0000
    ensures len < 0xF_0000 ==> Blocks(len, 0) <= 4
  {
    hide Blocks;
    hide Reserved;
    hide Block;
    ReservedIs(0);
    var n := Blocks(len, 0);
    ReservedIs(n);
    ReservedIs(n - 1);
  }

  /** io.ReadAll, whose errors the read promises to match: only io.EOF itself is a complete read. */
  function ReadAll(src: string, ending: Ending): Result { if ending.Eof? then Bytes(src) else Failed }

  /** With the budget granting everything, the read answers as io.ReadAll does exactly when the
      source ends in io.EOF itself or in an error that matches neither io.EOF nor
      io.ErrUnexpectedEOF; any other ending passes for a complete body. */
  method AgreesWithReadAll(src: string, ending: Ending) returns (r: Result)
    ensures r == ReadAll(src, ending) <==> ending == Eof || ending == Broken
    ensures ending == UnexpectedEof || ending == Wrapping ==> r == Bytes(src)
  {
    var a := new Admission(n => true);
    r := ReadAllAdmitted(src, ending, a);
  }

  /** One release returns everything the read was granted, a second nothing. */
  method ReadThenRelease(src: string, ending: Ending, budget: nat -> bool) returns (r: Result, first: int, second: int)
    ensures second == 0
    ensures r.Bytes? ==> r.b == src && |src| < first <= |src| + Min(BLOCK_MAX, |src| + BLOCK_START)
    ensures r.Refused? ==> exists k :: FirstRefusal(budget, k) && first == Reserved(k)
    ensures r.Failed? ==> first == Reserved(Blocks(|src|, 0))
  {
    var a := new Admission(budget);
    r := ReadAllAdmitted(src, ending, a);
    first := a.Release();
    second := a.Release();
    ReservationIsTight(|src|);
  }
}
