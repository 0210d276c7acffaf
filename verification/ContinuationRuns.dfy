/** Whole runs of the continuation accumulator: internal/proxy/continuation.go.

    A run is any sequence of payloads and upstream responses.  `Clean` describes the runs that may
    be continued, in terms of the run alone: no state, no order of checks.  The main theorem says
    the accumulator's verdict is exactly that description.
 */
module ContinuationRuns {
  import opened Wrappers
  import opened Continuation

  datatype Move = NewResponse | See(claim: Claim)

  function Do(v: View, m: Move, limit: int): (w: View)
    requires Sound(v)
    ensures Sound(w)
  {
    match m
    case NewResponse => Begin(v)
    case See(c) => Step(v, c, limit)
  }

  function Run(run: seq<Move>, limit: int): (v: View)
    ensures Sound(v)
  {
    if run == [] then FRESH else Do(Run(run[..|run| - 1], limit), run[|run| - 1], limit)
  }

  datatype Input = Response | Data(name: string, payload: Payload)

  function MoveOf(api: Api, i: Input): Move { if i.Response? then NewResponse else See(Read(api, i.name, i.payload)) }

  function Moves(api: Api, inputs: seq<Input>): (r: seq<Move>)
    ensures |r| == |inputs| && forall i :: 0 <= i < |r| ==> r[i] == MoveOf(api, inputs[i])
  {
    seq(|inputs|, i requires 0 <= i < |inputs| => MoveOf(api, inputs[i]))
  }

  /** The accumulator over a whole logical stream. */
  method Judge(api: Api, limit: int, inputs: seq<Input>) returns (v: Verdict)
    ensures v == VerdictOf(Run(Moves(api, inputs), limit))
  {
    hide Step;
    hide Read;
    hide VerdictOf;
    var p := new PartialText(api, limit);
    ghost var run := Moves(api, inputs);
    var i := 0;
    while i < |inputs|
      invariant 0 <= i <= |inputs| && fresh(p) && p.Valid() && p.api == api && p.limit == limit
      invariant p.View() == Run(run[..i], limit)
    {
      assert run[..i + 1][..i] == run[..i];
      match inputs[i] {
        case Response => p.BeginUpstreamStream();
        case Data(name, payload) => p.Observe(name, payload);
      }
      i := i + 1;
    }
    assert run[..i] == run;
    v := p.Verdict();
  }

  // ---------------------------------------------------------------- what may be continued

  function ItemNamed(m: Move): Option<Item>
  {
    match m
    case See(Announces(i)) => i
    case See(Closes(i)) => i
    case See(Text(Some(p), _)) => Some(p.item)
    case _ => None
  }

  function PartNamed(m: Move): Option<nat>
  {
    match m
    case See(Text(Some(p), _)) => Some(p.contentIndex)
    case _ => None
  }

  predicate IsAnnouncement(m: Move) { m.See? && m.claim.Announces? }

  /** The text a payload adds to the answer. */
  function Adds(m: Move): string
  {
    match m
    case See(Choice(_, s, _)) => s
    case See(Text(_, Delta(s))) => s
    case _ => ""
  }

  /** All the text of the run, in wire order. */
  function Joined(run: seq<Move>): string
  {
    if run == [] then "" else Joined(run[..|run| - 1]) + Adds(run[|run| - 1])
  }

  /** The text of the response being read. */
  function Share(run: seq<Move>): string
  {
    if run == [] || run[|run| - 1].NewResponse? then "" else Share(run[..|run| - 1]) + Adds(run[|run| - 1])
  }

  /** A payload that is readable, names what it belongs to, forbids nothing and ends nothing. */
  predicate Plain(m: Move)
  {
    match m
    case NewResponse => true
    case See(Nothing) => true
    case See(Bad(_)) => false
    case See(Choice(index, _, ends)) => index == Some(0) && !ends
    case See(Announces(i)) => i.Some?
    case See(Closes(i)) => i.Some?
    case See(Text(p, says)) => p.Some? && (says.Delta? || says.Mark? || says.PartText?)
  }

  /** Two payloads of one response name one item and one part, and announce it once. */
  predicate Agree(a: Move, b: Move)
  {
    && !(IsAnnouncement(a) && IsAnnouncement(b))
    && (ItemNamed(a).Some? && ItemNamed(b).Some? ==> ItemNamed(a) == ItemNamed(b))
    && (PartNamed(a).Some? && PartNamed(b).Some? ==> PartNamed(a) == PartNamed(b))
  }

  predicate SameResponse(run: seq<Move>, i: int, j: int)
  {
    0 <= i <= j < |run| && forall k :: i < k <= j ==> !run[k].NewResponse?
  }

  /** What a closing part says it holds. */
  function PartSays(m: Move): Option<string>
  {
    match m
    case See(Text(_, PartText(t))) => Some(t)
    case _ => None
  }

  ghost predicate Clean(run: seq<Move>, limit: int)
  {
    && (forall i :: 0 <= i < |run| ==> Plain(run[i]))
    && (forall i, j :: 0 <= i < j < |run| && SameResponse(run, i, j) ==> Agree(run[i], run[j]))
    && (forall i :: 0 <= i < |run| && PartSays(run[i]).Some? ==> PartSays(run[i]).value == Share(run[..i]))
    && (Joined(run) == "" || |Joined(run)| < limit)
  }

  // ---------------------------------------------------------------- one more payload

  predicate Current(run: seq<Move>, i: int) { 0 <= i < |run| && forall k :: i < k < |run| ==> !run[k].NewResponse? }

  ghost predicate AgreesWithResponse(run: seq<Move>, m: Move)
  {
    m.NewResponse? || forall i :: Current(run, i) ==> Agree(run[i], m)
  }

  predicate Fits(run: seq<Move>, m: Move, limit: int)
  {
    && Plain(m)
    && (PartSays(m).Some? ==> PartSays(m).value == Share(run))
    && (Adds(m) == "" || |Joined(run)| + |Adds(m)| < limit)
  }

  lemma {:induction false} JoinedSnoc(run: seq<Move>, m: Move)
    ensures Joined(run + [m]) == Joined(run) + Adds(m)
    ensures Share(run + [m]) == if m.NewResponse? then "" else Share(run) + Adds(m)
  {
    assert (run + [m])[..|run|] == run;
  }

  lemma {:induction false} CleanSnoc(run: seq<Move>, m: Move, limit: int)
    ensures Clean(run + [m], limit) <==> Clean(run, limit) && Fits(run, m, limit) && AgreesWithResponse(run, m)
  {
    if Clean(run + [m], limit) { CleanInit(run, m, limit); }
    if Clean(run, limit) && Fits(run, m, limit) && AgreesWithResponse(run, m) { CleanMore(run, m, limit); }
  }

  lemma {:induction false} CleanInit(run: seq<Move>, m: Move, limit: int)
    requires Clean(run + [m], limit)
    ensures Clean(run, limit) && Fits(run, m, limit) && AgreesWithResponse(run, m)
  {
    hide Plain;
    hide Agree;
    hide Joined;
    hide Share;
    var all := run + [m];
    JoinedSnoc(run, m);
    assert all[|run|] == m && all[..|run|] == run;
    forall i | 0 <= i < |run|
      ensures Plain(run[i]) && (PartSays(run[i]).Some? ==> PartSays(run[i]).value == Share(run[..i]))
    {
      assert all[i] == run[i] && all[..i] == run[..i];
    }
    forall i, j | 0 <= i < j < |run| && SameResponse(run, i, j) ensures Agree(run[i], run[j]) {
      assert SameResponse(all, i, j);
    }
    if !m.NewResponse? {
      forall i | Current(run, i) ensures Agree(run[i], m) {
        assert SameResponse(all, i, |run|);
      }
    }
  }

  lemma {:induction false} CleanMore(run: seq<Move>, m: Move, limit: int)
    requires Clean(run, limit) && Fits(run, m, limit) && AgreesWithResponse(run, m)
    ensures Clean(run + [m], limit)
  {
    hide Plain;
    hide Agree;
    hide Joined;
    hide Share;
    var all := run + [m];
    JoinedSnoc(run, m);
    assert all[..|run|] == run;
    forall i | 0 <= i < |all|
      ensures Plain(all[i]) && (PartSays(all[i]).Some? ==> PartSays(all[i]).value == Share(all[..i]))
    {
      if i < |run| { assert all[i] == run[i] && all[..i] == run[..i]; }
    }
    forall i, j | 0 <= i < j < |all| && SameResponse(all, i, j) ensures Agree(all[i], all[j]) {
      if j < |run| {
        assert SameResponse(run, i, j) by { assert forall k :: i < k <= j ==> run[k] == all[k]; }
      } else {
        assert Current(run, i) by { assert forall k :: i < k < |run| ==> run[k] == all[k]; }
        assert !all[j].NewResponse?;
      }
    }
  }

  // ---------------------------------------------------------------- what the fields hold

  /** The item, the part and the announcement the current response has named. */
  function CurrentItem(run: seq<Move>): Option<Item>
  {
    if run == [] || run[|run| - 1].NewResponse? then None
    else if ItemNamed(run[|run| - 1]).Some? then ItemNamed(run[|run| - 1])
    else CurrentItem(run[..|run| - 1])
  }

  function CurrentPart(run: seq<Move>): Option<nat>
  {
    if run == [] || run[|run| - 1].NewResponse? then None
    else if PartNamed(run[|run| - 1]).Some? then PartNamed(run[|run| - 1])
    else CurrentPart(run[..|run| - 1])
  }

  predicate CurrentSeen(run: seq<Move>)
  {
    run != [] && !run[|run| - 1].NewResponse? && (IsAnnouncement(run[|run| - 1]) || CurrentSeen(run[..|run| - 1]))
  }

  lemma {:induction false} CurrentSnoc(run: seq<Move>, m: Move)
    ensures CurrentItem(run + [m]) ==
            if m.NewResponse? then None else if ItemNamed(m).Some? then ItemNamed(m) else CurrentItem(run)
    ensures CurrentPart(run + [m]) ==
            if m.NewResponse? then None else if PartNamed(m).Some? then PartNamed(m) else CurrentPart(run)
    ensures CurrentSeen(run + [m]) <==> !m.NewResponse? && (IsAnnouncement(m) || CurrentSeen(run))
  {
    assert (run + [m])[..|run|] == run;
  }

  predicate AgreesWithFields(run: seq<Move>, m: Move)
  {
    && (IsAnnouncement(m) ==> !CurrentSeen(run))
    && (ItemNamed(m).Some? ==> CurrentItem(run).None? || CurrentItem(run) == ItemNamed(m))
    && (PartNamed(m).Some? ==> CurrentPart(run).None? || CurrentPart(run) == PartNamed(m))
  }

  lemma {:induction false} CurrentInit(run: seq<Move>, i: int)
    requires run != []
    ensures Current(run, i) <==>
            i == |run| - 1 || (!run[|run| - 1].NewResponse? && Current(run[..|run| - 1], i))
  {
    var n := |run| - 1;
    if Current(run, i) && i < n {
      assert forall k :: i < k < n ==> run[..n][k] == run[k];
    }
    if Current(run[..n], i) && !run[n].NewResponse? {
      assert forall k :: i < k < n ==> run[..n][k] == run[k];
    }
  }

  /** Every payload of the current response agrees with what it has named, and that was named by one of them. */
  lemma {:induction false} FieldsAreNamed(run: seq<Move>, limit: int)
    requires Clean(run, limit)
    ensures forall i :: Current(run, i) ==>
              && (IsAnnouncement(run[i]) ==> CurrentSeen(run))
              && (ItemNamed(run[i]).Some? ==> ItemNamed(run[i]) == CurrentItem(run))
              && (PartNamed(run[i]).Some? ==> PartNamed(run[i]) == CurrentPart(run))
    ensures CurrentSeen(run) ==> exists i :: Current(run, i) && IsAnnouncement(run[i])
    ensures CurrentItem(run).Some? ==> exists i :: Current(run, i) && ItemNamed(run[i]) == CurrentItem(run)
    ensures CurrentPart(run).Some? ==> exists i :: Current(run, i) && PartNamed(run[i]) == CurrentPart(run)
    decreases |run|
  {
    hide Clean;
    hide ItemNamed;
    hide PartNamed;
    hide IsAnnouncement;
    hide CurrentItem;
    hide CurrentPart;
    hide CurrentSeen;
    if run == [] {
      NothingNamed();
    } else {
      var n := |run| - 1;
      var before, m := run[..n], run[n];
      assert run == before + [m];
      CleanSnoc(before, m, limit);
      FieldsAreNamed(before, limit);
      CurrentSnoc(before, m);
      CurrentInit(run, n);
      BoundariesNameNothing(m);
      forall i | Current(run, i)
        ensures && (IsAnnouncement(run[i]) ==> CurrentSeen(run))
                && (ItemNamed(run[i]).Some? ==> ItemNamed(run[i]) == CurrentItem(run))
                && (PartNamed(run[i]).Some? ==> PartNamed(run[i]) == CurrentPart(run))
      {
        CurrentInit(run, i);
        if i < n {
          assert before[i] == run[i];
          assert Agree(before[i], m);
        }
      }
      if CurrentSeen(run) && !IsAnnouncement(m) {
        var i :| Current(before, i) && IsAnnouncement(before[i]);
        CurrentInit(run, i);
        assert run[i] == before[i];
      }
      if CurrentItem(run).Some? && !ItemNamed(m).Some? {
        var i :| Current(before, i) && ItemNamed(before[i]) == CurrentItem(before);
        CurrentInit(run, i);
        assert run[i] == before[i];
      }
      if CurrentPart(run).Some? && !PartNamed(m).Some? {
        var i :| Current(before, i) && PartNamed(before[i]) == CurrentPart(before);
        CurrentInit(run, i);
        assert run[i] == before[i];
      }
    }
  }

  lemma {:induction false} NothingNamed()
    ensures CurrentItem([]).None? && CurrentPart([]).None? && !CurrentSeen([])
  {}

  lemma {:induction false} BoundariesNameNothing(m: Move)
    ensures m.NewResponse? ==> ItemNamed(m).None? && PartNamed(m).None? && !IsAnnouncement(m)
  {}

  /** Agreement with every payload of the response is agreement with the fields. */
  lemma {:induction false} AgreementIsLocal(run: seq<Move>, m: Move, limit: int)
    requires Clean(run, limit) && !m.NewResponse?
    ensures AgreesWithResponse(run, m) <==> AgreesWithFields(run, m)
  {
    hide Clean;
    hide ItemNamed;
    hide PartNamed;
    hide IsAnnouncement;
    hide CurrentItem;
    hide CurrentPart;
    hide CurrentSeen;
    hide Current;
    FieldsAreNamed(run, limit);
  }

  /** A live accumulator is a summary of the run. */
  predicate Holds(v: View, run: seq<Move>)
  {
    && v.Live? && v.start <= |v.text| && v.text == Joined(run) && v.text[v.start..] == Share(run)
    && v.seen == CurrentSeen(run) && v.item == CurrentItem(run) && v.part == CurrentPart(run)
  }

  lemma {:induction false} StepHolds(v: View, run: seq<Move>, c: Claim, limit: int)
    requires Holds(v, run)
    ensures Step(v, c, limit).Live? <==> Fits(run, See(c), limit) && AgreesWithFields(run, See(c))
    ensures Step(v, c, limit).Live? ==> Holds(Step(v, c, limit), run + [See(c)])
  {
    hide Holds;
    hide Step;
    hide Fits;
    hide AgreesWithFields;
    if c.Text? { TextHolds(v, run, c, limit); } else { OtherHolds(v, run, c, limit); }
  }

  /** Binding succeeds exactly when the place agrees with what was named, and records it. */
  lemma {:induction false} BindHolds(v: View, run: seq<Move>, p: Place)
    requires Holds(v, run)
    ensures var w := BindPlace(v, p);
            && (w.Live? <==> (CurrentItem(run).None? || CurrentItem(run) == Some(p.item))
                             && (CurrentPart(run).None? || CurrentPart(run) == Some(p.contentIndex)))
            && (w.Live? ==> w == v.(item := Some(p.item), part := Some(p.contentIndex)))
  {
    hide CurrentItem;
    hide CurrentPart;
    hide CurrentSeen;
    hide Joined;
    hide Share;
  }

  /** What is heard at a bound place keeps the summary of the text, or ends it. */
  lemma {:induction false} HearHolds(w: View, run: seq<Move>, says: Saying, place: Place, limit: int)
    requires w.Live? && w.start <= |w.text| && w.text == Joined(run) && w.text[w.start..] == Share(run)
    ensures var m := See(Text(Some(place), says));
            && (Hear(w, says, limit).Live? <==> Fits(run, m, limit))
            && (Hear(w, says, limit).Live? ==>
                  var x := Hear(w, says, limit);
                  && x == w.(text := x.text) && x.text == Joined(run) + Adds(m) && x.start <= |x.text|
                  && x.text[x.start..] == Share(run) + Adds(m))
  {
    hide Joined;
    hide Share;
    match says
    case Delta(s) => assert (w.text + s)[w.start..] == w.text[w.start..] + s;
    case Whole(t) =>
    case Mark => assert w.text + "" == w.text && Share(run) + "" == Share(run);
    case PartText(t) => assert w.text + "" == w.text && Share(run) + "" == Share(run);
    case Spoiled(r) =>
  }

  lemma {:induction false} TextHolds(v: View, run: seq<Move>, c: Claim, limit: int)
    requires Holds(v, run) && c.Text?
    ensures Step(v, c, limit).Live? <==> Fits(run, See(c), limit) && AgreesWithFields(run, See(c))
    ensures Step(v, c, limit).Live? ==> Holds(Step(v, c, limit), run + [See(c)])
  {
    hide CurrentItem;
    hide CurrentPart;
    hide CurrentSeen;
    hide Joined;
    hide Share;
    hide Hear;
    hide BindPlace;
    JoinedSnoc(run, See(c));
    CurrentSnoc(run, See(c));
    if c.place.Some? {
      BindHolds(v, run, c.place.value);
      HearHolds(v.(item := Some(c.place.value.item), part := Some(c.place.value.contentIndex)), run, c.says, c.place.value, limit);
    }
  }

  lemma {:induction false} OtherHolds(v: View, run: seq<Move>, c: Claim, limit: int)
    requires Holds(v, run) && !c.Text?
    ensures Step(v, c, limit).Live? <==> Fits(run, See(c), limit) && AgreesWithFields(run, See(c))
    ensures Step(v, c, limit).Live? ==> Holds(Step(v, c, limit), run + [See(c)])
  {
    hide CurrentItem;
    hide CurrentPart;
    hide CurrentSeen;
    hide Joined;
    hide Share;
    JoinedSnoc(run, See(c));
    CurrentSnoc(run, See(c));
  }

  lemma {:induction false} BeginHolds(v: View, run: seq<Move>)
    requires Holds(v, run)
    ensures Holds(Begin(v), run + [NewResponse])
  {
    hide CurrentItem;
    hide CurrentPart;
    hide CurrentSeen;
    hide Joined;
    hide Share;
    JoinedSnoc(run, NewResponse);
    CurrentSnoc(run, NewResponse);
  }

  /** The accumulator is live exactly after the clean runs, and then holds their text. */
  lemma {:induction false} LiveIffClean(run: seq<Move>, limit: int)
    ensures Run(run, limit).Live? <==> Clean(run, limit)
    ensures Run(run, limit).Live? ==> Holds(Run(run, limit), run)
    decreases |run|
  {
    hide Clean;
    hide Holds;
    hide Step;
    hide Fits;
    hide AgreesWithFields;
    if run == [] {
      EmptyIsClean(limit);
    } else {
      var n := |run| - 1;
      var before, m := run[..n], run[n];
      assert run == before + [m];
      LiveIffClean(before, limit);
      CleanSnoc(before, m, limit);
      if Run(before, limit).Live? {
        match m
        case NewResponse =>
          BeginHolds(Run(before, limit), before);
          BoundaryFits(before, limit);
        case See(c) =>
          StepHolds(Run(before, limit), before, c, limit);
          AgreementIsLocal(before, m, limit);
      } else {
        LatchStays(Run(before, limit), m, limit);
      }
    }
  }

  lemma {:induction false} EmptyIsClean(limit: int)
    ensures Clean([], limit) && Holds(FRESH, [])
  {}

  lemma {:induction false} BoundaryFits(run: seq<Move>, limit: int)
    ensures Fits(run, NewResponse, limit) && AgreesWithResponse(run, NewResponse)
  {}

  lemma {:induction false} LatchStays(v: View, m: Move, limit: int)
    requires !v.Live?
    ensures Do(v, m, limit) == v
  {}

  // ---------------------------------------------------------------- the theorems

  /** A run may be continued exactly when it is clean and has text, and then with exactly its text. */
  lemma {:induction false} RecoverableIff(run: seq<Move>, limit: int, text: string)
    ensures VerdictOf(Run(run, limit)) == Recoverable(text) <==> Clean(run, limit) && text == Joined(run) && text != ""
  {
    hide Clean;
    LiveIffClean(run, limit);
  }

  lemma {:induction false} LatchForever(run: seq<Move>, more: seq<Move>, limit: int)
    requires !Run(run, limit).Live?
    ensures Run(run + more, limit) == Run(run, limit)
    decreases |more|
  {
    hide Step;
    if more == [] {
      assert run + more == run;
    } else {
      var n := |more| - 1;
      assert (run + more)[..|run| + n] == run + more[..n];
      LatchForever(run, more[..n], limit);
      LatchStays(Run(run, limit), more[n], limit);
    }
  }

  /** What ends the answer: a finish reason, or a done event whose text is the response's own, or
      the first of it, if it fits. */
  predicate Ends(run: seq<Move>, m: Move, limit: int)
  {
    match m
    case See(Choice(index, s, ends)) => index == Some(0) && ends && (s == "" || |Joined(run)| + |s| < limit)
    case See(Text(Some(_), Whole(Some(t)))) =>
      t == Share(run) || (Share(run) == "" && |Joined(run)| + |t| < limit)
    case _ => false
  }

  lemma {:induction false} StepEnds(v: View, run: seq<Move>, m: Move, limit: int)
    requires Holds(v, run)
    ensures Do(v, m, limit).Over? <==> Ends(run, m, limit) && AgreesWithFields(run, m)
  {
    hide CurrentItem;
    hide CurrentPart;
    hide CurrentSeen;
    hide Joined;
    hide Share;
  }

  /** The verdict is "finished" exactly when, after a clean run, a payload ended the answer. */
  lemma {:induction false} TerminalIff(run: seq<Move>, limit: int)
    ensures VerdictOf(Run(run, limit)) == Terminal <==>
            exists i :: 0 <= i < |run| && Clean(run[..i], limit) && Ends(run[..i], run[i], limit)
                        && AgreesWithResponse(run[..i], run[i])
    decreases |run|
  {
    hide Clean;
    hide Do;
    hide Holds;
    hide Ends;
    hide AgreesWithFields;
    hide AgreesWithResponse;
    if Run(run, limit).Over? {
      var i := FirstLatch(run, limit);
      assert run[..i + 1] == run[..i] + [run[i]];
      LiveIffClean(run[..i], limit);
      StepEnds(Run(run[..i], limit), run[..i], run[i], limit);
      OnlySeenEnds(run[..i], run[i], limit);
      AgreementIsLocal(run[..i], run[i], limit);
    }
    if i :| 0 <= i < |run| && Clean(run[..i], limit) && Ends(run[..i], run[i], limit)
            && AgreesWithResponse(run[..i], run[i]) {
      LiveIffClean(run[..i], limit);
      OnlySeenEnds(run[..i], run[i], limit);
      AgreementIsLocal(run[..i], run[i], limit);
      StepEnds(Run(run[..i], limit), run[..i], run[i], limit);
      assert run[..i + 1][..i] == run[..i];
      assert run[..i + 1] + run[i + 1..] == run;
      LatchForever(run[..i + 1], run[i + 1..], limit);
    }
  }

  lemma {:induction false} OnlySeenEnds(run: seq<Move>, m: Move, limit: int)
    requires Ends(run, m, limit)
    ensures !m.NewResponse?
  {}

  /** The payload at which a latched run stopped being clean; everything after it is ignored. */
  lemma {:induction false} FirstLatch(run: seq<Move>, limit: int) returns (i: nat)
    requires !Run(run, limit).Live?
    ensures i < |run| && Run(run[..i], limit).Live? && Run(run[..i + 1], limit) == Run(run, limit)
    ensures Do(Run(run[..i], limit), run[i], limit) == Run(run, limit)
    decreases |run|
  {
    hide Step;
    var n := |run| - 1;
    if Run(run[..n], limit).Live? {
      i := n;
      assert run[..i + 1] == run;
    } else {
      i := FirstLatch(run[..n], limit);
      assert run[..n][..i] == run[..i] && run[..n][..i + 1] == run[..i + 1];
      LatchStays(Run(run[..n], limit), run[n], limit);
    }
  }

  /** A refusal or an end, once latched, is the verdict of every longer run; and while a run can be
      continued its text only grows. */
  lemma {:induction false} VerdictsAreMonotone(run: seq<Move>, more: seq<Move>, limit: int)
    ensures !Run(run, limit).Live? ==> VerdictOf(Run(run + more, limit)) == VerdictOf(Run(run, limit))
    ensures Run(run + more, limit).Live? ==>
              && Run(run, limit).Live? && Run(run, limit).text <= Run(run + more, limit).text
              && Run(run, limit).start <= |Run(run, limit).text|
  {
    hide Do;
    hide Clean;
    if !Run(run, limit).Live? {
      LatchForever(run, more, limit);
    } else if Run(run + more, limit).Live? {
      LiveIffClean(run, limit);
      LiveIffClean(run + more, limit);
      JoinedGrows(run, more);
    }
  }

  lemma {:induction false} JoinedGrows(run: seq<Move>, more: seq<Move>)
    ensures Joined(run) <= Joined(run + more)
    decreases |more|
  {
    if more == [] {
      assert run + more == run;
    } else {
      var n := |more| - 1;
      assert (run + more)[..|run| + n] == run + more[..n];
      JoinedGrows(run, more[..n]);
    }
  }

  // ---------------------------------------------------------------- what a continued stream never carried

  /** A Chat payload that calls a tool, in its first choice. */
  predicate ChatCallsTool(p: Payload)
  {
    p.Doc? && p.value.JObj?
    && match Stated(p.value.members, "choices")
       case Some(JArr(items)) =>
         |items| == 1 && items[0].JObj?
         && (match Stated(items[0].members, "delta")
             case Some(JObj(d)) => Stated(d, "tool_calls").Some? || Stated(d, "function_call").Some?
             case _ => false)
       case _ => false
  }

  predicate ChatFinishes(p: Payload)
  {
    p.Doc? && p.value.JObj?
    && match Stated(p.value.members, "choices")
       case Some(JArr(items)) =>
         |items| >= 1 && items[0].JObj? && Stated(items[0].members, "finish_reason").Some?
       case _ => false
  }

  predicate SeveralChoices(p: Payload)
  {
    p.Doc? && p.value.JObj?
    && match Stated(p.value.members, "choices")
       case Some(JArr(items)) => |items| > 1
       case _ => false
  }

  predicate Fails(p: Payload) { p.Doc? && p.value.JObj? && Stated(p.value.members, "error").Some? }

  /** The envelope of a Responses event states an error, or is no object. */
  predicate EnvelopeFails(p: Payload)
  {
    p.Doc? && p.value.JObj?
    && match Stated(p.value.members, "response")
       case None => false
       case Some(JObj(r)) => Stated(r, "error").Some?
       case Some(_) => true
  }

  /** The event line and the payload name the frame alike. */
  predicate NamedAlike(name: string, p: Payload)
  {
    p.Doc? && p.value.JObj? && name != "" && Stated(p.value.members, "type") == Some(JStr(name))
  }

  const READ_EVENTS := {TEXT_DELTA, "response.output_text.done", "response.refusal.done", "response.output_item.added",
                        "response.output_item.done", "response.content_part.added", "response.content_part.done",
                        "response.output_text.annotation.added"}

  /** A Responses event that a continued stream may hold at all. */
  predicate KnownEvent(p: Payload)
  {
    p.Doc? && p.value.JObj?
    && match Stated(p.value.members, "type")
       case Some(JStr(kind)) => kind in READ_EVENTS - {"response.output_text.done"} || kind in METADATA_EVENTS
       case _ => false
  }

  predicate ResponsesCallsTool(p: Payload)
  {
    p.Doc? && p.value.JObj?
    && match (Stated(p.value.members, "type"), Stated(p.value.members, "item"))
       case (Some(JStr(kind)), Some(JObj(item))) =>
         (kind == "response.output_item.added" || kind == "response.output_item.done")
         && Stated(item, "type") != Some(JStr("message")) && Stated(item, "type") != Some(JStr("reasoning"))
       case _ => false
  }

  predicate Declines(p: Payload)
  {
    p.Doc? && p.value.JObj?
    && match (Stated(p.value.members, "type"), Stated(p.value.members, "refusal"))
       case (Some(JStr(kind)), Some(v)) => kind == "response.refusal.done" && v != JStr("")
       case _ => false
  }

  /** Forbidden shapes never read as plain. */
  lemma {:induction false} ForbiddenIsNotPlain(name: string, p: Payload)
    ensures ChatCallsTool(p) || ChatFinishes(p) || SeveralChoices(p) || Fails(p) || p.NotJson?
            ==> !Plain(See(Read(Chat, name, p)))
    ensures !KnownEvent(p) || ResponsesCallsTool(p) || Declines(p) || Fails(p) || EnvelopeFails(p) || !NamedAlike(name, p)
            ==> !Plain(See(Read(Responses, name, p)))
  {
    ChatForbidden(name, p);
    ResponsesForbidden(name, p);
  }

  lemma {:induction false} ChatForbidden(name: string, p: Payload)
    ensures ChatCallsTool(p) || ChatFinishes(p) || SeveralChoices(p) || Fails(p) || p.NotJson?
            ==> !Plain(See(Read(Chat, name, p)))
  {}

  lemma {:induction false} ResponsesForbidden(name: string, p: Payload)
    ensures !KnownEvent(p) || ResponsesCallsTool(p) || Declines(p) || Fails(p) || EnvelopeFails(p) || !NamedAlike(name, p)
            ==> !Plain(See(Read(Responses, name, p)))
  {}

  /** A stream that can be continued carried no tool call, refusal, failure, unknown event or end,
      in any of its payloads, of any of its responses. */
  lemma {:induction false} ContinuedStreamIsPlain(api: Api, inputs: seq<Input>, limit: int, i: nat)
    requires VerdictOf(Run(Moves(api, inputs), limit)).Recoverable? && i < |inputs| && inputs[i].Data?
    ensures var p := inputs[i].payload;
            && (api.Chat? ==> !ChatCallsTool(p) && !ChatFinishes(p) && !SeveralChoices(p) && !Fails(p) && !p.NotJson?)
            && (api.Responses? ==> && KnownEvent(p) && !ResponsesCallsTool(p) && !Declines(p) && !Fails(p)
                                   && !EnvelopeFails(p) && NamedAlike(inputs[i].name, p))
  {
    hide Read;
    hide Plain;
    hide Run;
    LiveIffClean(Moves(api, inputs), limit);
    assert Plain(Moves(api, inputs)[i]);
    ForbiddenIsNotPlain(inputs[i].name, inputs[i].payload);
  }

  /** Within one response every delta of a continued stream comes from one place. */
  lemma {:induction false} OnePlacePerResponse(run: seq<Move>, limit: int, i: nat, j: nat)
    requires VerdictOf(Run(run, limit)).Recoverable? && i < j && SameResponse(run, i, j)
    requires PartNamed(run[i]).Some? && PartNamed(run[j]).Some?
    ensures run[i].claim.place == run[j].claim.place
  {
    hide Run;
    LiveIffClean(run, limit);
    assert Agree(run[i], run[j]);
  }

  // ---------------------------------------------------------------- the text, read off the wire

  /** The assistant text a payload carries, as the two APIs define it. */
  function WireText(api: Api, p: Payload): string
  {
    if !p.Doc? || !p.value.JObj? then ""
    else if api.Chat? then
      match Stated(p.value.members, "choices")
      case Some(JArr(items)) =>
        if |items| == 1 && items[0].JObj? then
          (match Stated(items[0].members, "delta")
           case Some(JObj(d)) => TextMember(d, "content")
           case _ => "")
        else ""
      case _ => ""
    else if Stated(p.value.members, "type") == Some(JStr(TEXT_DELTA)) then TextMember(p.value.members, "delta")
    else ""
  }

  function TextMember(o: Object, key: string): string
  {
    match Stated(o, key)
    case Some(JStr(s)) => s
    case _ => ""
  }

  function WireTexts(api: Api, inputs: seq<Input>): string
  {
    if inputs == [] then ""
    else
      var i := inputs[|inputs| - 1];
      WireTexts(api, inputs[..|inputs| - 1]) + if i.Data? then WireText(api, i.payload) else ""
  }

  /** A plain payload adds exactly the text it carries. */
  lemma {:induction false} PlainAddsItsText(api: Api, name: string, p: Payload)
    requires Plain(See(Read(api, name, p)))
    ensures Adds(See(Read(api, name, p))) == WireText(api, p)
  {}

  lemma {:induction false} JoinedIsWireText(api: Api, inputs: seq<Input>)
    requires forall i :: 0 <= i < |inputs| ==> Plain(MoveOf(api, inputs[i]))
    ensures Joined(Moves(api, inputs)) == WireTexts(api, inputs)
    decreases |inputs|
  {
    hide Read;
    hide Plain;
    hide WireText;
    hide Adds;
    if inputs != [] {
      var n := |inputs| - 1;
      JoinedIsWireText(api, inputs[..n]);
      assert Moves(api, inputs) == Moves(api, inputs[..n]) + [MoveOf(api, inputs[n])];
      JoinedSnoc(Moves(api, inputs[..n]), MoveOf(api, inputs[n]));
      if inputs[n].Data? { PlainAddsItsText(api, inputs[n].name, inputs[n].payload); } else { BoundaryAddsNothing(); }
    }
  }

  lemma {:induction false} BoundaryAddsNothing()
    ensures Adds(NewResponse) == ""
  {}

  /** The prefix of a stream that can be continued is the text its payloads carried, all of it, in
      wire order, across all its responses. */
  lemma {:induction false} RecoveredTextIsTheWire(api: Api, inputs: seq<Input>, limit: int)
    requires VerdictOf(Run(Moves(api, inputs), limit)).Recoverable?
    ensures VerdictOf(Run(Moves(api, inputs), limit)).text == WireTexts(api, inputs)
    ensures 0 < |WireTexts(api, inputs)| < limit
  {
    hide Run;
    hide Plain;
    hide Read;
    var run := Moves(api, inputs);
    LiveIffClean(run, limit);
    forall i | 0 <= i < |inputs| ensures Plain(MoveOf(api, inputs[i])) {
      assert run[i] == MoveOf(api, inputs[i]) && Plain(run[i]);
    }
    JoinedIsWireText(api, inputs);
  }
}
