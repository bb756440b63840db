/**
 * The race of worker goroutines in acquireAnyAuto: one worker per pool waits
 * for a lease, one compare-and-swap decides the winner, a buffered channel
 * carries the winner's lease, and the caller either receives it or times out.
 * Every step below is atomic; any interleaving of steps is a run.
 */
module Race {
  import opened Domain

  datatype Phase = Waiting | Acquired | Checked | Won | Sent | Released | GaveUp

  datatype Caller = Selecting | TimedOut | Sealed | Returned(winner: nat) | Left

  /** `late` is the worker whose lease the caller drained and released on the timeout exit. */
  datatype State = State(
    workers: seq<Phase>,
    accepted: bool,
    timedOut: bool,
    cancelled: bool,
    results: seq<nat>,
    caller: Caller,
    late: Option<nat>)

  datatype Step =
    | Acquire(w: nat)
    | GiveUp(w: nat)
    | Check(w: nat)
    | Swap(w: nat)
    | Send(w: nat)
    | BackOff(w: nat)
    | ContextEnds
    | Receive
    | TimeOut
    | Seal
    | DrainLate
    | Cancel

  /** Without a worker the caller returns at once. */
  function Start(n: nat): State {
    State(seq(n, _ => Waiting), false, false, false, [], if n == 0 then Left else Selecting, None)
  }

  predicate At(s: State, w: nat, p: Phase) {
    w < |s.workers| && s.workers[w] == p
  }

  predicate Enabled(s: State, e: Step) {
    match e
    case Acquire(w) => At(s, w, Waiting)
    case GiveUp(w) => At(s, w, Waiting) && s.cancelled
    case Check(w) => At(s, w, Acquired)
    case Swap(w) => At(s, w, Checked)
    case Send(w) => At(s, w, Won) && |s.results| < |s.workers|
    case BackOff(w) => At(s, w, Won) && s.cancelled
    case ContextEnds => !s.timedOut
    case Receive => s.caller == Selecting && s.results != []
    case TimeOut => s.caller == Selecting && s.timedOut
    case Seal => s.caller == TimedOut
    case DrainLate => s.caller == Sealed
    case Cancel => (s.caller.Returned? || s.caller == Left) && !s.cancelled
  }

  function Move(s: State, w: nat, p: Phase): State
    requires w < |s.workers|
  {
    s.(workers := s.workers[w := p])
  }

  function Next(s: State, e: Step): State
    requires Enabled(s, e)
  {
    match e
    case Acquire(w) => Move(s, w, Acquired)
    case GiveUp(w) => Move(s, w, GaveUp)
    case Check(w) => Move(s, w, if s.cancelled then Released else Checked)
    case Swap(w) => if s.accepted then Move(s, w, Released) else Move(s, w, Won).(accepted := true)
    case Send(w) => Move(s, w, Sent).(results := s.results + [w])
    case BackOff(w) => Move(s, w, Released)
    case ContextEnds => s.(timedOut := true, cancelled := true)
    case Receive => s.(caller := Returned(s.results[0]), results := s.results[1..])
    case TimeOut => s.(caller := TimedOut)
    case Seal => s.(caller := Sealed, accepted := true)
    case DrainLate =>
      if s.results == [] then s.(caller := Left)
      else s.(caller := Left, late := Some(s.results[0]), results := s.results[1..])
    case Cancel => s.(cancelled := true)
  }

  ghost predicate Possible(s: State, es: seq<Step>)
    decreases |es|
  {
    es == [] || (Enabled(s, es[0]) && Possible(Next(s, es[0]), es[1..]))
  }

  ghost function After(s: State, es: seq<Step>): State
    requires Possible(s, es)
    decreases |es|
  {
    if es == [] then s else After(Next(s, es[0]), es[1..])
  }

  lemma Prepended(s: State, e: Step, t: State, es: seq<Step>) returns (r: seq<Step>)
    requires Enabled(s, e) && Next(s, e) == t && Possible(t, es)
    ensures Possible(s, r) && After(s, r) == After(t, es)
  {
    r := [e] + es;
    assert r[1..] == es;
  }

  // ------------------------------------------------------------------
  // At most one winner, and no lease is lost
  // ------------------------------------------------------------------

  predicate Winning(p: Phase) {
    p == Won || p == Sent
  }

  /** Where a sent lease is: in the channel, with the caller, or drained and released by the caller. */
  predicate Delivered(s: State, w: nat) {
    s.results == [w] || s.caller == Returned(w) || s.late == Some(w)
  }

  ghost predicate Inv(s: State) {
    && (forall v, w :: 0 <= v < w < |s.workers| ==> !(Winning(s.workers[v]) && Winning(s.workers[w])))
    && (forall w :: 0 <= w < |s.workers| && Winning(s.workers[w]) ==> s.accepted)
    && (forall w :: 0 <= w < |s.workers| ==> (s.workers[w] == Sent <==> Delivered(s, w)))
    && |s.results| <= 1
    && (s.results != [] ==> At(s, s.results[0], Sent) && !s.caller.Returned? && s.late == None)
    && (s.caller.Returned? ==> At(s, s.caller.winner, Sent) && s.late == None)
    && (s.late.Some? ==> At(s, s.late.value, Sent) && s.caller == Left)
    && (s.caller == Sealed || s.caller == Left ==> s.accepted || s.workers == [])
  }

  lemma StepKeepsInv(s: State, e: Step)
    requires Inv(s) && Enabled(s, e)
    ensures Inv(Next(s, e))
  {
    match e
    case Acquire(w) => OutsiderMovesOn(s, w, Acquired);
    case GiveUp(w) => OutsiderMovesOn(s, w, GaveUp);
    case Check(w) => OutsiderMovesOn(s, w, if s.cancelled then Released else Checked);
    case Swap(w) =>
      if s.accepted {
        OutsiderMovesOn(s, w, Released);
      } else {
        FirstSwapWins(s, w);
      }
    case Send(w) => SendDelivers(s, w);
    case BackOff(w) => WinnerBacksOff(s, w);
    case Receive => CallerTakes(s);
    case DrainLate => CallerTakes(s);
    case ContextEnds => SignalsKeepInv(s, true, true);
    case Cancel => SignalsKeepInv(s, s.timedOut, true);
    case TimeOut => CallerGivesUp(s);
    case Seal => CallerGivesUp(s);
  }

  lemma SignalsKeepInv(s: State, timedOut: bool, cancelled: bool)
    requires Inv(s)
    ensures Inv(s.(timedOut := timedOut, cancelled := cancelled))
  {
  }

  lemma CallerGivesUp(s: State)
    requires Inv(s) && (s.caller == Selecting || s.caller == TimedOut)
    ensures Inv(s.(caller := TimedOut)) && Inv(s.(caller := Sealed, accepted := true))
  {
  }

  lemma FirstSwapWins(s: State, w: nat)
    requires Inv(s) && At(s, w, Checked) && !s.accepted
    ensures Inv(Move(s, w, Won).(accepted := true))
  {
  }

  lemma SendDelivers(s: State, w: nat)
    requires Inv(s) && At(s, w, Won)
    ensures Inv(Move(s, w, Sent).(results := s.results + [w]))
  {
    assert Winning(s.workers[w]);
    assert forall v :: 0 <= v < |s.workers| && v != w ==> !Winning(s.workers[v]);
    assert s.results == [] && !s.caller.Returned? && s.late == None;
    assert s.results + [w] == [w];
  }

  lemma CallerTakes(s: State)
    requires Inv(s) && (s.caller == Selecting || s.caller == Sealed)
    ensures s.caller == Selecting && s.results != [] ==> Inv(Next(s, Receive))
    ensures s.caller == Sealed ==> Inv(Next(s, DrainLate))
  {
    if s.results != [] {
      assert s.results == [s.results[0]];
    }
  }

  lemma OutsiderMovesOn(s: State, w: nat, p: Phase)
    requires Inv(s) && w < |s.workers| && !Winning(s.workers[w]) && !Winning(p)
    ensures Inv(Move(s, w, p))
  {
  }

  lemma WinnerBacksOff(s: State, w: nat)
    requires Inv(s) && At(s, w, Won)
    ensures Inv(Move(s, w, Released))
  {
  }

  lemma {:induction false} RunKeepsInv(s: State, es: seq<Step>)
    requires Inv(s) && Possible(s, es)
    ensures Inv(After(s, es))
    decreases |es|
  {
    if es != [] {
      StepKeepsInv(s, es[0]);
      RunKeepsInv(Next(s, es[0]), es[1..]);
    }
  }

  predicate Finished(p: Phase) {
    p == Sent || p == Released || p == GaveUp
  }

  /** Nothing is left to run. */
  ghost predicate Quiescent(s: State) {
    (s.caller.Returned? || s.caller == Left) && forall w :: 0 <= w < |s.workers| ==> Finished(s.workers[w])
  }

  /** A worker that holds no lease any more, nor has passed one on. */
  predicate LetGo(s: State, w: nat) {
    At(s, w, Released) || At(s, w, GaveUp) || (At(s, w, Sent) && s.late == Some(w))
  }

  /** Over every interleaving at most one worker ever sends its lease. */
  lemma AtMostOneLeaseIsSent(n: nat, es: seq<Step>, v: nat, w: nat)
    requires Possible(Start(n), es)
    requires At(After(Start(n), es), v, Sent) && At(After(Start(n), es), w, Sent)
    ensures v == w
  {
    RunKeepsInv(Start(n), es);
  }

  /**
   * At quiescence, when the caller got a lease every other worker has let go
   * of its own; when it got none, at most one worker, the winner of the swap
   * whose lease lies in the channel, has not.
   */
  lemma LeasesAtQuiescence(n: nat, es: seq<Step>)
    requires Possible(Start(n), es) && Quiescent(After(Start(n), es))
    ensures var s := After(Start(n), es);
            && (s.caller.Returned? ==>
                  && At(s, s.caller.winner, Sent)
                  && s.results == []
                  && forall w :: 0 <= w < |s.workers| && w != s.caller.winner ==> LetGo(s, w))
            && (s.caller == Left ==>
                  && |s.results| <= 1
                  && forall w :: 0 <= w < |s.workers| ==> (LetGo(s, w) <==> s.results != [w]))
  {
    RunKeepsInv(Start(n), es);
    var s := After(Start(n), es);
    forall w | 0 <= w < |s.workers|
      ensures s.caller.Returned? && w != s.caller.winner ==> LetGo(s, w)
      ensures s.caller == Left ==> (LetGo(s, w) <==> s.results != [w])
    {
      assert Finished(s.workers[w]);
    }
  }

  // ------------------------------------------------------------------
  // When the timeout exit leaves a lease behind
  // ------------------------------------------------------------------

  ghost predicate SomeoneWon(s: State) {
    exists w: nat :: At(s, w, Won)
  }

  lemma {:induction false} NothingLeftWithoutWinner(s: State, es: seq<Step>)
    requires Inv(s) && s.caller == Left && s.results == [] && !SomeoneWon(s) && Possible(s, es)
    ensures After(s, es).results == []
    decreases |es|
  {
    if es != [] {
      StepKeepsInv(s, es[0]);
      var s' := Next(s, es[0]);
      assert !SomeoneWon(s') by {
        if exists w: nat :: At(s', w, Won) {
          var w: nat :| At(s', w, Won);
          assert At(s, w, Won);
        }
      }
      NothingLeftWithoutWinner(s', es[1..]);
    }
  }

  /**
   * Once the caller has drained the channel and found it empty, a lease can
   * still end up in the channel, where nobody receives it, exactly when some
   * worker has already won the swap but not yet sent.
   */
  lemma LeaseLeftBehindExactlyWhen(s: State)
    requires Inv(s) && s.caller == Left && s.results == []
    ensures (exists es :: Possible(s, es) && After(s, es).results != []) <==> SomeoneWon(s)
  {
    if SomeoneWon(s) {
      var w: nat :| At(s, w, Won);
      assert Possible(Next(s, Send(w)), []);
      var es := Prepended(s, Send(w), Next(s, Send(w)), []);
      assert After(s, es).results == [w];
    } else {
      forall es | Possible(s, es)
        ensures After(s, es).results == []
      {
        NothingLeftWithoutWinner(s, es);
      }
    }
  }

  /** What lies in the channel after the caller has left stays there. */
  lemma {:induction false} LeftBehindStays(s: State, es: seq<Step>)
    requires Inv(s) && s.caller == Left && s.results != [] && Possible(s, es)
    ensures After(s, es).results == s.results
    decreases |es|
  {
    if es != [] {
      StepKeepsInv(s, es[0]);
      assert Winning(s.workers[s.results[0]]);
      LeftBehindStays(Next(s, es[0]), es[1..]);
    }
  }

  lemma {:induction false} NothingThereWithoutSend(s: State, es: seq<Step>)
    requires s.caller == Left && s.results == [] && Possible(s, es) && After(s, es).results != []
    ensures exists k :: 0 <= k < |es| && es[k].Send?
    decreases |es|
  {
    assert es != [];
    if !es[0].Send? {
      NothingThereWithoutSend(Next(s, es[0]), es[1..]);
      var k :| 0 <= k < |es| - 1 && es[1..][k].Send?;
      assert es[k + 1].Send?;
    }
  }

  /** The caller releases what is in the channel when it drains, so a lease left behind was sent after that. */
  lemma {:induction false} LeftBehindIsSentLate(s: State, es: seq<Step>)
    requires Inv(s) && s.caller == Sealed && Possible(s, es) && After(s, es).caller == Left && After(s, es).results != []
    ensures exists j, k :: 0 <= j < k < |es| && es[j] == DrainLate && es[k].Send?
    decreases |es|
  {
    var s' := Next(s, es[0]);
    if es[0] == DrainLate {
      NothingThereWithoutSend(s', es[1..]);
      var k :| 0 <= k < |es| - 1 && es[1..][k].Send?;
      assert es[k + 1].Send?;
    } else {
      StepKeepsInv(s, es[0]);
      LeftBehindIsSentLate(s', es[1..]);
      var j, k :| 0 <= j < k < |es| - 1 && es[1..][j] == DrainLate && es[1..][k].Send?;
      assert es[j + 1] == DrainLate && es[k + 1].Send?;
    }
  }

  /** It does happen: one worker wins, the context ends, the caller drains nothing, the worker sends. */
  lemma ALeaseCanBeLeftBehind() returns (es: seq<Step>)
    ensures Possible(Start(1), es) && Quiescent(After(Start(1), es)) && After(Start(1), es).results == [0]
  {
    assert [Waiting][0 := Acquired] == [Acquired] && [Acquired][0 := Checked] == [Checked] && [Checked][0 := Won] == [Won];
    assert Start(1).workers == [Waiting];
    var acquired := State([Acquired], false, false, false, [], Selecting, None);
    var checked := State([Checked], false, false, false, [], Selecting, None);
    var won := State([Won], true, false, false, [], Selecting, None);
    es := TimeOutLeavesLease(won);
    es := Prepended(checked, Swap(0), won, es);
    es := Prepended(acquired, Check(0), checked, es);
    es := Prepended(Start(1), Acquire(0), acquired, es);
  }

  lemma TimeOutLeavesLease(won: State) returns (es: seq<Step>)
    requires won == State([Won], true, false, false, [], Selecting, None)
    ensures Possible(won, es) && After(won, es) == State([Sent], true, true, true, [0], Left, None)
  {
    assert [Won][0 := Sent] == [Sent] && [] + [0] == [0];
    var left := State([Won], true, true, true, [], Left, None);
    es := Prepended(left, Send(0), State([Sent], true, true, true, [0], Left, None), []);
    es := Prepended(left.(caller := Sealed), DrainLate, left, es);
    es := Prepended(left.(caller := TimedOut), Seal, left.(caller := Sealed), es);
    es := Prepended(left.(caller := Selecting), TimeOut, left.(caller := TimedOut), es);
    es := Prepended(won, ContextEnds, left.(caller := Selecting), es);
  }

  // ------------------------------------------------------------------
  // Every run ends, and not before quiescence
  // ------------------------------------------------------------------

  function PhaseLeft(p: Phase): nat {
    match p
    case Waiting => 4
    case Acquired => 3
    case Checked => 2
    case Won => 1
    case _ => 0
  }

  function WorkLeft(ps: seq<Phase>): nat {
    if ps == [] then 0 else PhaseLeft(ps[0]) + WorkLeft(ps[1..])
  }

  function CallerLeft(c: Caller): nat {
    match c
    case Selecting => 3
    case TimedOut => 2
    case Sealed => 1
    case _ => 0
  }

  function StepsLeft(s: State): nat {
    WorkLeft(s.workers) + CallerLeft(s.caller) + (if s.timedOut then 0 else 1) + (if s.cancelled then 0 else 1)
  }

  lemma {:induction false} WorkAfterMove(ps: seq<Phase>, w: nat, p: Phase)
    requires w < |ps|
    ensures WorkLeft(ps[w := p]) == WorkLeft(ps) - PhaseLeft(ps[w]) + PhaseLeft(p)
  {
    if w > 0 {
      WorkAfterMove(ps[1..], w - 1, p);
      assert ps[w := p][1..] == ps[1..][w - 1 := p];
    } else {
      assert ps[w := p][1..] == ps[1..];
    }
  }

  lemma StepSpendsWork(s: State, e: Step)
    requires Enabled(s, e)
    ensures StepsLeft(Next(s, e)) < StepsLeft(s)
  {
    if e.Acquire? || e.GiveUp? || e.Check? || e.Swap? || e.Send? || e.BackOff? {
      WorkAfterMove(s.workers, e.w, Next(s, e).workers[e.w]);
    }
  }

  lemma {:induction false} WorkAtStart(n: nat)
    ensures WorkLeft(seq(n, _ => Waiting)) == 4 * n
  {
    if n > 0 {
      WorkAtStart(n - 1);
      assert seq(n, _ => Waiting)[1..] == seq(n - 1, _ => Waiting);
    }
  }

  lemma {:induction false} RunSpendsWork(s: State, es: seq<Step>)
    requires Possible(s, es)
    ensures |es| + StepsLeft(After(s, es)) <= StepsLeft(s)
    decreases |es|
  {
    if es != [] {
      StepSpendsWork(s, es[0]);
      RunSpendsWork(Next(s, es[0]), es[1..]);
    }
  }

  /** No run of a race over n pools takes more than 4n + 5 steps, and a run that cannot go on has reached quiescence. */
  lemma EveryRaceEnds(n: nat, es: seq<Step>)
    requires Possible(Start(n), es)
    ensures |es| <= 4 * n + 5
    ensures (forall e :: !Enabled(After(Start(n), es), e)) ==> Quiescent(After(Start(n), es))
  {
    WorkAtStart(n);
    RunSpendsWork(Start(n), es);
    RunKeepsInv(Start(n), es);
    if forall e :: !Enabled(After(Start(n), es), e) {
      StuckIsQuiescent(After(Start(n), es));
    }
  }

  lemma StuckIsQuiescent(s: State)
    requires Inv(s) && forall e :: !Enabled(s, e)
    ensures Quiescent(s)
  {
    assert !Enabled(s, ContextEnds) && !Enabled(s, TimeOut) && !Enabled(s, Seal) && !Enabled(s, DrainLate);
    forall w | 0 <= w < |s.workers|
      ensures Finished(s.workers[w])
    {
      assert !Enabled(s, Acquire(w)) && !Enabled(s, Check(w)) && !Enabled(s, Swap(w)) && !Enabled(s, Send(w));
      if s.workers[w] == Won && s.results != [] {
        assert Winning(s.workers[s.results[0]]);
      }
    }
  }

  // ------------------------------------------------------------------
  // Who gets through
  // ------------------------------------------------------------------

  /** A worker that has not looked at the context before it was cancelled never wins: its lease goes back. */
  lemma {:induction false} LateWorkerNeverWins(s: State, es: seq<Step>, w: nat)
    requires s.cancelled && (At(s, w, Waiting) || At(s, w, Acquired) || At(s, w, Released) || At(s, w, GaveUp)) && Possible(s, es)
    ensures At(After(s, es), w, Waiting) || At(After(s, es), w, Acquired) || At(After(s, es), w, Released) || At(After(s, es), w, GaveUp)
    decreases |es|
  {
    if es != [] {
      LateWorkerNeverWins(Next(s, es[0]), es[1..], w);
    }
  }

  /** Before the context ends, the caller waits or has a lease, and while it waits every lease let go was beaten by one on its way. */
  ghost predicate Undisturbed(s: State) {
    && !s.timedOut && (s.caller == Selecting || s.caller.Returned?)
    && (s.caller == Selecting ==>
          && !s.cancelled
          && (forall w :: 0 <= w < |s.workers| ==> s.workers[w] != GaveUp && (s.workers[w] == Released ==> s.accepted))
          && (s.accepted ==> exists w :: 0 <= w < |s.workers| && Winning(s.workers[w])))
  }

  lemma StepStaysUndisturbed(s: State, e: Step)
    requires Undisturbed(s) && Enabled(s, e) && e != ContextEnds
    ensures Undisturbed(Next(s, e))
  {
    var s' := Next(s, e);
    if s.caller == Selecting && s.accepted {
      var w :| 0 <= w < |s.workers| && Winning(s.workers[w]);
      assert s'.caller == Selecting ==> Winning(s'.workers[w]);
    } else if s.caller == Selecting && e.Swap? {
      assert Winning(s'.workers[e.w]);
    }
  }

  lemma {:induction false} RunStaysUndisturbed(s: State, es: seq<Step>)
    requires Undisturbed(s) && Possible(s, es) && ContextEnds !in es
    ensures Undisturbed(After(s, es))
    decreases |es|
  {
    if es != [] {
      StepStaysUndisturbed(s, es[0]);
      RunStaysUndisturbed(Next(s, es[0]), es[1..]);
    }
  }

  /** While the caller waits undisturbed, a worker can move or the caller can receive. */
  lemma CanMoveOn(s: State) returns (e: Step)
    requires Inv(s) && Undisturbed(s) && s.caller == Selecting && s.workers != []
    ensures Enabled(s, e) && e != ContextEnds
  {
    var first: nat := 0;
    if exists w: nat :: w < |s.workers| && Winning(s.workers[w]) {
      var w: nat :| w < |s.workers| && Winning(s.workers[w]);
      e := if s.workers[w] == Sent then Receive else Send(w);
      if s.workers[w] == Won && s.results != [] {
        assert Winning(s.workers[s.results[0]]);
      }
    } else {
      e := if s.workers[first] == Waiting then Acquire(first) else if s.workers[first] == Acquired then Check(first) else Swap(first);
    }
  }

  /** Unless the context ends, a race over at least one pool cannot stop before the caller has a lease. */
  lemma UndisturbedRaceDelivers(n: nat, es: seq<Step>)
    requires n > 0 && Possible(Start(n), es) && ContextEnds !in es
    ensures var s := After(Start(n), es); s.caller.Returned? || exists e :: e != ContextEnds && Enabled(s, e)
  {
    var s := After(Start(n), es);
    RunKeepsInv(Start(n), es);
    RunStaysUndisturbed(Start(n), es);
    WorkersStay(Start(n), es);
    if s.caller == Selecting {
      var e := CanMoveOn(s);
    }
  }

  lemma {:induction false} WorkersStay(s: State, es: seq<Step>)
    requires Possible(s, es)
    ensures |After(s, es).workers| == |s.workers|
    decreases |es|
  {
    if es != [] {
      WorkersStay(Next(s, es[0]), es[1..]);
    }
  }
}
