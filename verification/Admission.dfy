/**
 * Admission control by a slot channel and an atomic counter, as the search
 * service guards live searches; without slots it is the router's queue for
 * automatic searches. Threads interleave between any two atomic operations.
 */
module Admission {
  import opened Domain
  import opened Sequences

  /** `slots` is the channel's capacity, None for the router's queue. */
  datatype Limits = Limits(slots: Option<nat>, queueMax: nat)

  /**
   * A thread between its increment and its decrement of the counter is
   * counted; it remembers the depth its increment returned.
   */
  datatype Phase =
    | Idle
    | Missed
    | Counted(depth: int)
    | Waiting(depth: int)
    | Served(depth: int)
    | Withdrawing(depth: int)
    | Rejecting(depth: int)
    | Holding

  /** `order` lists the counted threads by the time of their increment. */
  datatype State = State(phases: seq<Phase>, slots: nat, queued: int, order: seq<nat>)

  datatype Step =
    | TakeFreeSlot(t: nat)
    | Miss(t: nat)
    | Increment(t: nat)
    | Decide(t: nat)
    | TakeSlot(t: nat)
    | Withdraw(t: nat)
    | Decrement(t: nat)
    | FreeSlot(t: nat)

  predicate IsCounted(p: Phase) {
    p.Counted? || p.Waiting? || p.Served? || p.Withdrawing? || p.Rejecting?
  }

  /** Past the depth check and not rejected. */
  predicate IsAdmitted(p: Phase) {
    p.Waiting? || p.Served? || p.Withdrawing?
  }

  predicate HoldsSlot(p: Phase) {
    p.Served? || p.Holding?
  }

  function Start(n: nat): State {
    State(seq(n, _ => Idle), 0, 0, [])
  }

  predicate SlotFree(limits: Limits, s: State) {
    limits.slots.Some? && s.slots < limits.slots.value
  }

  predicate Enabled(limits: Limits, s: State, e: Step) {
    && e.t < |s.phases|
    && var p := s.phases[e.t];
       match e
       case TakeFreeSlot(_) => p.Idle? && SlotFree(limits, s)
       case Miss(_) => p.Idle? && !SlotFree(limits, s)
       case Increment(_) => p.Missed?
       case Decide(_) => p.Counted?
       case TakeSlot(_) => p.Waiting? && SlotFree(limits, s)
       case Withdraw(_) => p.Waiting?
       case Decrement(_) => p.Served? || p.Withdrawing? || p.Rejecting?
       case FreeSlot(_) => p.Holding? && s.slots > 0
  }

  function Without(order: seq<nat>, t: nat): seq<nat> {
    if order == [] then [] else if order[0] == t then order[1..] else [order[0]] + Without(order[1..], t)
  }

  function Next(limits: Limits, s: State, e: Step): State
    requires Enabled(limits, s, e)
  {
    var p := s.phases[e.t];
    match e
    case TakeFreeSlot(t) => s.(phases := s.phases[t := Holding], slots := s.slots + 1)
    case Miss(t) => s.(phases := s.phases[t := Missed])
    case Increment(t) =>
      s.(phases := s.phases[t := Counted(s.queued + 1)],
         queued := s.queued + 1, order := s.order + [t])
    case Decide(t) => s.(phases := s.phases[t := if p.depth > limits.queueMax then Rejecting(p.depth) else Waiting(p.depth)])
    case TakeSlot(t) => s.(phases := s.phases[t := Served(p.depth)], slots := s.slots + 1)
    case Withdraw(t) => s.(phases := s.phases[t := Withdrawing(p.depth)])
    case Decrement(t) =>
      s.(phases := s.phases[t := if p.Served? then Holding else Idle], queued := s.queued - 1, order := Without(s.order, t))
    case FreeSlot(t) => s.(phases := s.phases[t := Idle], slots := s.slots - 1)
  }

  ghost predicate Possible(limits: Limits, s: State, es: seq<Step>)
    decreases |es|
  {
    es == [] || (Enabled(limits, s, es[0]) && Possible(limits, Next(limits, s, es[0]), es[1..]))
  }

  ghost function After(limits: Limits, s: State, es: seq<Step>): State
    requires Possible(limits, s, es)
    decreases |es|
  {
    if es == [] then s else After(limits, Next(limits, s, es[0]), es[1..])
  }

  ghost function Holders(phases: seq<Phase>): set<nat> {
    set t: nat | t < |phases| && HoldsSlot(phases[t])
  }

  ghost function Admitted(phases: seq<Phase>): set<nat> {
    set t: nat | t < |phases| && IsAdmitted(phases[t])
  }

  ghost function InQueue(phases: seq<Phase>): set<nat> {
    set t: nat | t < |phases| && IsCounted(phases[t])
  }

  // ------------------------------------------------------------------
  // The invariant
  // ------------------------------------------------------------------

  /** A counted thread's depth is at least its place in the order of increments: departures only shorten the queue before it. */
  ghost predicate DepthsCover(s: State) {
    forall k :: 0 <= k < |s.order| ==>
      && s.order[k] < |s.phases|
      && IsCounted(s.phases[s.order[k]])
      && s.phases[s.order[k]].depth >= k + 1
  }

  ghost predicate DepthsAdmitted(limits: Limits, s: State) {
    forall t :: 0 <= t < |s.phases| && IsAdmitted(s.phases[t]) ==> s.phases[t].depth <= limits.queueMax
  }

  ghost predicate Inv(limits: Limits, s: State) {
    && Ordered(limits, s)
    && DepthsAdmitted(limits, s)
    && s.slots == |Holders(s.phases)|
    && (limits.slots.Some? ==> s.slots <= limits.slots.value)
    && (limits.slots.None? ==> s.slots == 0)
  }

  /** Removing `t` shifts what stood behind it one place forward. */
  lemma {:induction false} WithoutShape(order: seq<nat>, t: nat) returns (i: nat)
    requires t in order
    ensures i < |order| && order[i] == t && |Without(order, t)| == |order| - 1
    ensures forall k :: 0 <= k < |order| - 1 ==> Without(order, t)[k] == order[if k < i then k else k + 1]
    ensures forall u :: u in order && u != t ==> u in Without(order, t)
  {
    if order[0] == t {
      i := 0;
    } else {
      i := WithoutShape(order[1..], t);
      i := i + 1;
    }
  }

  /** One thread's move changes the number of slot holders by its own share. */
  lemma HoldersAfter(phases: seq<Phase>, t: nat, p: Phase)
    requires t < |phases|
    ensures |Holders(phases[t := p])| == |Holders(phases)| - Share(phases[t]) + Share(p)
  {
    var others := Holders(phases) - {t};
    assert Holders(phases) == if HoldsSlot(phases[t]) then others + {t} else others;
    assert Holders(phases[t := p]) == if HoldsSlot(p) then others + {t} else others;
  }

  function Share(p: Phase): nat {
    if HoldsSlot(p) then 1 else 0
  }

  lemma StepKeepsSlots(limits: Limits, s: State, e: Step)
    requires s.slots == |Holders(s.phases)| && Enabled(limits, s, e)
    ensures Next(limits, s, e).slots == |Holders(Next(limits, s, e).phases)|
  {
    HoldersAfter(s.phases, e.t, Next(limits, s, e).phases[e.t]);
  }

  ghost predicate Ordered(limits: Limits, s: State) {
    && Distinct(s.order)
    && DepthsCover(s)
    && (forall t :: 0 <= t < |s.phases| && IsCounted(s.phases[t]) ==> t in s.order)
    && s.queued == |s.order|
  }

  lemma WithoutKeepsOrder(limits: Limits, s: State, t: nat, p: Phase)
    requires Ordered(limits, s) && t in s.order && !IsCounted(p) && t < |s.phases|
    ensures Ordered(limits, s.(phases := s.phases[t := p], queued := s.queued - 1, order := Without(s.order, t)))
  {
    var i := WithoutShape(s.order, t);
    var rest := Without(s.order, t);
    assert Distinct(rest);
    forall k | 0 <= k < |rest|
      ensures rest[k] != t && rest[k] < |s.phases| && IsCounted(s.phases[rest[k]]) && s.phases[rest[k]].depth >= k + 1
    {
      var j := if k < i then k else k + 1;
      assert rest[k] == s.order[j] && j != i;
    }
  }

  lemma IncrementKeepsOrder(limits: Limits, s: State, t: nat)
    requires Ordered(limits, s) && t < |s.phases| && !IsCounted(s.phases[t])
    ensures Ordered(limits, s.(phases := s.phases[t := Counted(s.queued + 1)], queued := s.queued + 1, order := s.order + [t]))
  {
    assert t !in s.order;
  }

  lemma SamePlaceKeepsOrder(limits: Limits, s: State, t: nat, p: Phase, slots: nat)
    requires Ordered(limits, s) && t < |s.phases|
    requires IsCounted(p) <==> IsCounted(s.phases[t])
    requires IsCounted(p) ==> p.depth == s.phases[t].depth
    ensures Ordered(limits, s.(phases := s.phases[t := p], slots := slots))
  {
  }

  lemma StepKeepsOrder(limits: Limits, s: State, e: Step)
    requires Ordered(limits, s) && Enabled(limits, s, e)
    ensures Ordered(limits, Next(limits, s, e))
  {
    var s' := Next(limits, s, e);
    if e.Decrement? {
      WithoutKeepsOrder(limits, s, e.t, s'.phases[e.t]);
    } else if e.Increment? {
      IncrementKeepsOrder(limits, s, e.t);
    } else {
      SamePlaceKeepsOrder(limits, s, e.t, s'.phases[e.t], s'.slots);
    }
  }

  lemma StepKeepsInv(limits: Limits, s: State, e: Step)
    requires Inv(limits, s) && Enabled(limits, s, e)
    ensures Inv(limits, Next(limits, s, e))
  {
    StepKeepsSlots(limits, s, e);
    StepKeepsOrder(limits, s, e);
    StepKeepsDepths(limits, s, e);
  }

  lemma StepKeepsDepths(limits: Limits, s: State, e: Step)
    requires DepthsAdmitted(limits, s) && Enabled(limits, s, e)
    ensures DepthsAdmitted(limits, Next(limits, s, e))
  {
  }

  lemma {:induction false} RunKeepsInv(limits: Limits, s: State, es: seq<Step>)
    requires Inv(limits, s) && Possible(limits, s, es)
    ensures Inv(limits, After(limits, s, es))
    decreases |es|
  {
    if es != [] {
      StepKeepsInv(limits, s, es[0]);
      RunKeepsInv(limits, Next(limits, s, es[0]), es[1..]);
    }
  }

  // ------------------------------------------------------------------
  // What the limits guarantee
  // ------------------------------------------------------------------

  /**
   * Over every interleaving of any number of threads: at most `slots` threads
   * hold a slot, at most `queueMax` threads are past the depth check and
   * still counted, and the counter is exactly the number of threads between
   * their increment and their decrement.
   */
  lemma AdmissionIsBounded(limits: Limits, n: nat, es: seq<Step>)
    requires Possible(limits, Start(n), es)
    ensures var s := After(limits, Start(n), es);
            && (limits.slots.Some? ==> |Holders(s.phases)| <= limits.slots.value)
            && |Admitted(s.phases)| <= limits.queueMax
            && s.queued == |InQueue(s.phases)|
  {
    assert Holders(Start(n).phases) == {};
    RunKeepsInv(limits, Start(n), es);
    var s := After(limits, Start(n), es);
    assert Elements(s.order) == InQueue(s.phases);
    ElementsSize(s.order);
    var head := if |s.order| <= limits.queueMax then s.order else s.order[..limits.queueMax];
    forall t | t in Admitted(s.phases)
      ensures t in Elements(head)
    {
      var k :| 0 <= k < |s.order| && s.order[k] == t;
      assert k < |head| && head[k] == t;
    }
    ElementsSize(head);
    SubsetSize(Admitted(s.phases), Elements(head));
  }

  lemma {:induction false} Extended(limits: Limits, s: State, es: seq<Step>, e: Step)
    requires Possible(limits, s, es) && Enabled(limits, After(limits, s, es), e)
    ensures Possible(limits, s, es + [e]) && After(limits, s, es + [e]) == Next(limits, After(limits, s, es), e)
    decreases |es|
  {
    var r := es + [e];
    if es == [] {
      assert r[1..] == [] && Possible(limits, Next(limits, s, e), []);
    } else {
      Extended(limits, Next(limits, s, es[0]), es[1..], e);
      assert r[1..] == es[1..] + [e];
    }
  }

  // ------------------------------------------------------------------
  // When a search is turned away although nobody is admitted
  // ------------------------------------------------------------------

  ghost predicate Reachable(limits: Limits, n: nat, s: State) {
    exists es :: Possible(limits, Start(n), es) && After(limits, Start(n), es) == s
  }

  lemma StartIsReachable(limits: Limits, n: nat)
    ensures Reachable(limits, n, Start(n))
  {
    assert Possible(limits, Start(n), []) && After(limits, Start(n), []) == Start(n);
  }

  lemma NextIsReachable(limits: Limits, n: nat, s: State, e: Step)
    requires Reachable(limits, n, s) && Enabled(limits, s, e)
    ensures Reachable(limits, n, Next(limits, s, e))
  {
    var es :| Possible(limits, Start(n), es) && After(limits, Start(n), es) == s;
    Extended(limits, Start(n), es, e);
  }

  /** The slots a thread must find taken before it queues. */
  function SlotCount(limits: Limits): nat {
    if limits.slots.Some? then limits.slots.value else 0
  }

  /** Past a missed slot, and without one. */
  predicate IsPending(p: Phase) {
    p.Missed? || p.Counted? || p.Waiting? || p.Withdrawing? || p.Rejecting?
  }

  ghost function Pending(phases: seq<Phase>): set<nat> {
    set t: nat | t < |phases| && IsPending(phases[t])
  }

  ghost function Below(n: nat): set<nat> {
    if n == 0 then {} else Below(n - 1) + {n - 1}
  }

  lemma {:induction false} BelowSize(n: nat)
    ensures |Below(n)| == n && forall t: nat :: t in Below(n) <==> t < n
  {
    if n > 0 {
      BelowSize(n - 1);
    }
  }

  /** Pending threads have found all slots taken by others, and no depth exceeds the number of threads. */
  ghost predicate Crowded(limits: Limits, n: nat, s: State) {
    && |s.phases| == n
    && (Pending(s.phases) != {} ==> |Pending(s.phases)| + SlotCount(limits) <= n)
    && (forall t :: 0 <= t < n && IsCounted(s.phases[t]) ==> s.phases[t].depth <= n)
  }

  /** A thread that misses has all the slots held by threads that are not pending. */
  lemma MissCrowds(limits: Limits, phases: seq<Phase>, t: nat)
    requires t < |phases| && phases[t].Idle? && |Holders(phases)| >= SlotCount(limits)
    ensures |Pending(phases) + {t}| + SlotCount(limits) <= |phases|
  {
    var pending, holders := Pending(phases) + {t}, Holders(phases);
    assert pending !! holders;
    BelowSize(|phases|);
    assert pending + holders <= Below(|phases|);
    SubsetSize(pending + holders, Below(|phases|));
  }

  lemma QueueBelow(limits: Limits, s: State, t: nat)
    requires Ordered(limits, s) && t < |s.phases| && !IsCounted(s.phases[t])
    ensures s.queued + 1 <= |s.phases|
  {
    var order := s.order + [t];
    assert Distinct(order);
    ElementsSize(order);
    BelowSize(|s.phases|);
    SubsetSize(Elements(order), Below(|s.phases|));
  }

  lemma PendingAfter(phases: seq<Phase>, t: nat, p: Phase)
    requires t < |phases|
    ensures Pending(phases[t := p]) == if IsPending(p) then Pending(phases) + {t} else Pending(phases) - {t}
  {
  }

  lemma StepKeepsPending(limits: Limits, s: State, e: Step)
    requires s.slots == |Holders(s.phases)| && Enabled(limits, s, e)
    requires Pending(s.phases) != {} ==> |Pending(s.phases)| + SlotCount(limits) <= |s.phases|
    ensures var after := Pending(Next(limits, s, e).phases); after != {} ==> |after| + SlotCount(limits) <= |s.phases|
  {
    var before := Pending(s.phases);
    var p := Next(limits, s, e).phases[e.t];
    PendingAfter(s.phases, e.t, p);
    if e.Miss? {
      MissCrowds(limits, s.phases, e.t);
    } else {
      assert IsPending(p) ==> e.t in before;
      SubsetSize(Pending(Next(limits, s, e).phases), before);
    }
  }

  lemma StepKeepsCrowded(limits: Limits, n: nat, s: State, e: Step)
    requires Inv(limits, s) && Crowded(limits, n, s) && Enabled(limits, s, e)
    ensures Crowded(limits, n, Next(limits, s, e))
  {
    StepKeepsPending(limits, s, e);
    if e.Increment? {
      QueueBelow(limits, s, e.t);
    }
  }

  lemma {:induction false} RunKeepsCrowded(limits: Limits, n: nat, s: State, es: seq<Step>)
    requires Inv(limits, s) && Crowded(limits, n, s) && Possible(limits, s, es)
    ensures Inv(limits, After(limits, s, es)) && Crowded(limits, n, After(limits, s, es))
    decreases |es|
  {
    if es != [] {
      StepKeepsInv(limits, s, es[0]);
      StepKeepsCrowded(limits, n, s, es[0]);
      RunKeepsCrowded(limits, n, Next(limits, s, es[0]), es[1..]);
    }
  }

  lemma ReachableIsCrowded(limits: Limits, n: nat, s: State)
    requires Reachable(limits, n, s)
    ensures Inv(limits, s) && Crowded(limits, n, s)
  {
    var es :| Possible(limits, Start(n), es) && After(limits, Start(n), es) == s;
    assert Holders(Start(n).phases) == {} && Pending(Start(n).phases) == {};
    RunKeepsCrowded(limits, n, Start(n), es);
  }

  /** Some thread is counted over the limit, although nobody is admitted. */
  ghost predicate OverLimitAlone(limits: Limits, s: State) {
    && Admitted(s.phases) == {}
    && exists t: nat :: t < |s.phases| && s.phases[t].Counted? && s.phases[t].depth > limits.queueMax
  }

  /** The queue is full, but only of threads that have been rejected, and the next thread is about to be counted. */
  ghost predicate FullOfRejected(limits: Limits, s: State) {
    && s.queued >= limits.queueMax
    && (forall u :: 0 <= u < |s.phases| && IsCounted(s.phases[u]) ==> s.phases[u].Rejecting?)
    && exists t: nat :: t < |s.phases| && s.phases[t].Missed?
  }

  /** The next thread of such a queue is rejected as well, and at no time is anybody admitted. */
  lemma FullOfRejectedRejects(limits: Limits, s: State, t: nat)
    requires FullOfRejected(limits, s) && t < |s.phases| && s.phases[t].Missed?
    ensures Admitted(s.phases) == {} && Enabled(limits, s, Increment(t))
    ensures var s1 := Next(limits, s, Increment(t));
            && OverLimitAlone(limits, s1) && Enabled(limits, s1, Decide(t))
            && var s2 := Next(limits, s1, Decide(t)); s2.phases[t].Rejecting? && Admitted(s2.phases) == {}
  {
    var s1 := Next(limits, s, Increment(t));
    assert s1.phases[t].Counted?;
  }

  lemma OverLimitAloneOnlyIf(limits: Limits, n: nat, s: State)
    requires Reachable(limits, n, s) && OverLimitAlone(limits, s)
    ensures n > limits.queueMax && n > SlotCount(limits)
  {
    ReachableIsCrowded(limits, n, s);
    var t: nat :| t < |s.phases| && s.phases[t].Counted? && s.phases[t].depth > limits.queueMax;
    assert t in Pending(s.phases);
  }

  lemma FullOfRejectedOnlyIf(limits: Limits, n: nat, s: State)
    requires Reachable(limits, n, s) && FullOfRejected(limits, s)
    ensures n > limits.queueMax + SlotCount(limits)
  {
    ReachableIsCrowded(limits, n, s);
    var t: nat :| t < |s.phases| && s.phases[t].Missed?;
    var queue := Elements(s.order);
    ElementsSize(s.order);
    assert t !in queue && queue + {t} <= Pending(s.phases);
    SubsetSize(queue + {t}, Pending(s.phases));
    assert t in Pending(s.phases);
  }

  // The first run: every admitted thread ends up holding a slot or gives up.

  /** `j` threads are counted, the first of them on a slot; thread `j` is idle and the slots left are held by the next ones. */
  function StagePhase(k: nat, j: nat, u: nat): Phase {
    if u < j then if u < k then Served(u + 1) else Waiting(u + 1)
    else if j < u <= k then Holding
    else Idle
  }

  function Upto(low: nat, high: nat): seq<nat>
    requires low <= high
  {
    seq(high - low, i requires 0 <= i < high - low => low + i)
  }

  function Stage(k: nat, n: nat, j: nat): State {
    State(seq(n, u requires 0 <= u < n => StagePhase(k, j, u)), k, j, Upto(0, j))
  }

  function Filling(n: nat, first: nat, i: nat): State {
    State(seq(n, u requires 0 <= u < n => if first <= u < first + i then Holding else Idle), i, 0, [])
  }

  /** Any group of threads can take the slots first. */
  lemma {:induction false} SlotsFill(limits: Limits, n: nat, first: nat, i: nat)
    requires i <= SlotCount(limits) && first + i <= n
    ensures Reachable(limits, n, Filling(n, first, i))
  {
    if i == 0 {
      StartIsReachable(limits, n);
      assert Filling(n, first, 0).phases == Start(n).phases;
    } else {
      SlotsFill(limits, n, first, i - 1);
      var s := Filling(n, first, i - 1);
      NextIsReachable(limits, n, s, TakeFreeSlot(first + i - 1));
      assert Next(limits, s, TakeFreeSlot(first + i - 1)).phases == Filling(n, first, i).phases;
    }
  }

  /** An idle thread that finds no slot is counted, and decides. */
  lemma Queues(limits: Limits, n: nat, s: State, t: nat)
    requires Reachable(limits, n, s) && t < |s.phases| && s.phases[t].Idle? && !SlotFree(limits, s)
    ensures Reachable(limits, n, s.(phases := s.phases[t := Missed]))
    ensures Reachable(limits, n, s.(phases := s.phases[t := Counted(s.queued + 1)], queued := s.queued + 1, order := s.order + [t]))
    ensures var p := if s.queued + 1 > limits.queueMax then Rejecting(s.queued + 1) else Waiting(s.queued + 1);
            Reachable(limits, n, s.(phases := s.phases[t := p], queued := s.queued + 1, order := s.order + [t]))
  {
    var s1 := Next(limits, s, Miss(t));
    NextIsReachable(limits, n, s, Miss(t));
    var s2 := Next(limits, s1, Increment(t));
    NextIsReachable(limits, n, s1, Increment(t));
    NextIsReachable(limits, n, s2, Decide(t));
    assert s1.phases[t := Counted(s.queued + 1)] == s.phases[t := Counted(s.queued + 1)];
    assert s2.phases[t := Rejecting(s.queued + 1)] == s.phases[t := Rejecting(s.queued + 1)];
    assert s2.phases[t := Waiting(s.queued + 1)] == s.phases[t := Waiting(s.queued + 1)];
  }

  /** A waiting thread at the head of the order gives up. */
  lemma GivesUp(limits: Limits, n: nat, s: State, t: nat)
    requires Reachable(limits, n, s) && t < |s.phases| && s.phases[t].Waiting? && s.order != [] && s.order[0] == t
    ensures Reachable(limits, n, s.(phases := s.phases[t := Idle], queued := s.queued - 1, order := s.order[1..]))
  {
    var s1 := Next(limits, s, Withdraw(t));
    NextIsReachable(limits, n, s, Withdraw(t));
    NextIsReachable(limits, n, s1, Decrement(t));
    assert s1.phases[t := Idle] == s.phases[t := Idle];
  }

  /** One thread frees its slot, and a waiting one takes it. */
  lemma PassesSlot(limits: Limits, n: nat, s: State, from: nat, to: nat)
    requires Reachable(limits, n, s) && from < |s.phases| && to < |s.phases| && from != to
    requires s.phases[from].Holding? && s.phases[to].Waiting? && limits.slots.Some? && 0 < s.slots <= limits.slots.value
    ensures Reachable(limits, n, s.(phases := s.phases[from := Idle][to := Served(s.phases[to].depth)]))
  {
    var s1 := Next(limits, s, FreeSlot(from));
    NextIsReachable(limits, n, s, FreeSlot(from));
    NextIsReachable(limits, n, s1, TakeSlot(to));
  }

  lemma {:induction false} StageIsReached(limits: Limits, n: nat, j: nat)
    requires n > limits.queueMax && n > SlotCount(limits) && j <= limits.queueMax
    ensures Reachable(limits, n, Stage(SlotCount(limits), n, j))
  {
    hide Reachable, Enabled, Next;
    var k := SlotCount(limits);
    if j == 0 {
      SlotsFill(limits, n, 1, k);
      assert Filling(n, 1, k) == Stage(k, n, 0);
    } else {
      var i := j - 1;
      StageIsReached(limits, n, i);
      var s := Stage(k, n, i);
      Queues(limits, n, s, i);
      var s1 := s.(phases := s.phases[i := Waiting(j)], queued := j, order := s.order + [i]);
      assert s1.order == Upto(0, j);
      if i < k {
        PassesSlot(limits, n, s1, j, i);
        assert s1.phases[j := Idle][i := Served(j)] == Stage(k, n, j).phases;
      } else {
        assert s1.phases == Stage(k, n, j).phases;
      }
    }
  }

  /** Thread `q` has been counted over the limit, and the first `d` of the admitted threads are no longer counted. */
  function Leaving(k: nat, n: nat, q: nat, d: nat): State
    requires d <= q
  {
    State(seq(n, u requires 0 <= u < n =>
            if u == q then Counted(q + 1) else if u < d then if u < k then Holding else Idle else StagePhase(k, q, u)),
          k, q + 1 - d, Upto(d, q + 1))
  }

  lemma {:induction false} AdmittedLeave(limits: Limits, n: nat, d: nat)
    requires n > limits.queueMax && n > SlotCount(limits) && d <= limits.queueMax
    ensures Reachable(limits, n, Leaving(SlotCount(limits), n, limits.queueMax, d))
  {
    hide Reachable;
    var k, q := SlotCount(limits), limits.queueMax;
    if d == 0 {
      StageIsReached(limits, n, q);
      var s := Stage(k, n, q);
      Queues(limits, n, s, q);
      assert s.order + [q] == Upto(0, q + 1);
      assert s.phases[q := Counted(q + 1)] == Leaving(k, n, q, 0).phases;
    } else {
      var i := d - 1;
      AdmittedLeave(limits, n, i);
      var s := Leaving(k, n, q, i);
      assert s.order[0] == i && s.order[1..] == Upto(d, q + 1);
      if i < k {
        NextIsReachable(limits, n, s, Decrement(i));
        assert s.phases[i := Holding] == Leaving(k, n, q, d).phases;
      } else {
        GivesUp(limits, n, s, i);
        assert s.phases[i := Idle] == Leaving(k, n, q, d).phases;
      }
    }
  }

  /**
   * Some run counts a thread over the limit while nobody is admitted exactly
   * when there are more threads than queue places, and more than slots.
   */
  lemma OverLimitAloneExactlyWhen(limits: Limits, n: nat)
    ensures (exists s :: Reachable(limits, n, s) && OverLimitAlone(limits, s))
            <==> n > limits.queueMax && n > SlotCount(limits)
  {
    if s :| Reachable(limits, n, s) && OverLimitAlone(limits, s) {
      OverLimitAloneOnlyIf(limits, n, s);
    }
    if n > limits.queueMax && n > SlotCount(limits) {
      var q := limits.queueMax;
      AdmittedLeave(limits, n, q);
      var s := Leaving(SlotCount(limits), n, q, q);
      assert s.phases[q] == Counted(q + 1) && OverLimitAlone(limits, s);
    }
  }

  // The second run: one thread after the other gives up and comes back to be rejected.

  /** `j` threads wait, and the slots are held by threads behind the queue's places. */
  function Full(k: nat, n: nat, q: nat, j: nat): State {
    State(seq(n, u requires 0 <= u < n => if u < j then Waiting(u + 1) else if q < u <= q + k then Holding else Idle),
          k, j, Upto(0, j))
  }

  lemma {:induction false} FullIsReached(limits: Limits, n: nat, j: nat)
    requires n > limits.queueMax + SlotCount(limits) && j <= limits.queueMax
    ensures Reachable(limits, n, Full(SlotCount(limits), n, limits.queueMax, j))
  {
    hide Reachable, Enabled, Next;
    var k, q := SlotCount(limits), limits.queueMax;
    if j == 0 {
      SlotsFill(limits, n, q + 1, k);
      assert Filling(n, q + 1, k) == Full(k, n, q, 0);
    } else {
      FullIsReached(limits, n, j - 1);
      var s := Full(k, n, q, j - 1);
      Queues(limits, n, s, j - 1);
      assert s.order + [j - 1] == Upto(0, j);
      assert s.phases[j - 1 := Waiting(j)] == Full(k, n, q, j).phases;
    }
  }

  /** Thread `q` has been rejected, and so have the first `c` waiting threads, one after the other. */
  function Churned(k: nat, n: nat, q: nat, c: nat): State
    requires c <= q
  {
    State(seq(n, u requires 0 <= u < n =>
            if u < c || u == q then Rejecting(q + 1) else if u < q then Waiting(u + 1)
            else if q < u <= q + k then Holding else Idle),
          k, q + 1, Upto(c, q + 1) + Upto(0, c))
  }

  lemma {:induction false} ChurnIsReached(limits: Limits, n: nat, c: nat)
    requires n > limits.queueMax + SlotCount(limits) && c <= limits.queueMax
    ensures Reachable(limits, n, Churned(SlotCount(limits), n, limits.queueMax, c))
  {
    hide Reachable, Enabled, Next;
    var k, q := SlotCount(limits), limits.queueMax;
    if c == 0 {
      FullIsReached(limits, n, q);
      var s := Full(k, n, q, q);
      Queues(limits, n, s, q);
      assert s.order + [q] == Upto(0, q + 1) + Upto(0, 0);
      assert s.phases[q := Rejecting(q + 1)] == Churned(k, n, q, 0).phases;
    } else {
      ChurnIsReached(limits, n, c - 1);
      var s := Churned(k, n, q, c - 1);
      ComesBackRejected(limits, n, s, c - 1);
      assert s.order[1..] + [c - 1] == Upto(c, q + 1) + Upto(0, c);
      assert s.phases[c - 1 := Rejecting(q + 1)] == Churned(k, n, q, c).phases;
    }
  }

  /** A waiting thread gives up, finds no slot again, and is rejected; before that the queue holds the others only. */
  lemma ComesBackRejected(limits: Limits, n: nat, s: State, t: nat)
    requires Reachable(limits, n, s) && t < |s.phases| && s.phases[t].Waiting? && s.order != [] && s.order[0] == t
    requires s.queued > limits.queueMax && !SlotFree(limits, s)
    ensures Reachable(limits, n, s.(phases := s.phases[t := Rejecting(s.queued)], order := s.order[1..] + [t]))
    ensures Reachable(limits, n, s.(phases := s.phases[t := Missed], queued := s.queued - 1, order := s.order[1..]))
  {
    GivesUp(limits, n, s, t);
    var s1 := s.(phases := s.phases[t := Idle], queued := s.queued - 1, order := s.order[1..]);
    Queues(limits, n, s1, t);
    assert s1.phases[t := Rejecting(s.queued)] == s.phases[t := Rejecting(s.queued)];
    assert s1.phases[t := Missed] == s.phases[t := Missed];
  }

  lemma FullOfRejectedIf(limits: Limits, n: nat) returns (s: State)
    requires n > limits.queueMax + SlotCount(limits)
    ensures Reachable(limits, n, s) && FullOfRejected(limits, s)
  {
    var k, q := SlotCount(limits), limits.queueMax;
    if q == 0 {
      FullIsReached(limits, n, 0);
      s := Full(k, n, 0, 0);
      Queues(limits, n, s, 0);
      s := s.(phases := s.phases[0 := Missed]);
      assert s.phases[0].Missed?;
    } else {
      ChurnIsReached(limits, n, q - 1);
      s := Churned(k, n, q, q - 1);
      ComesBackRejected(limits, n, s, q - 1);
      s := s.(phases := s.phases[q - 1 := Missed], queued := q, order := s.order[1..]);
      assert s.phases[q - 1].Missed?;
    }
  }

  /**
   * Some run rejects a thread although every thread in the queue has itself
   * been rejected, so that nobody waits, exactly when there are more threads
   * than queue places and slots together.
   */
  lemma RejectionWithoutWaitersExactlyWhen(limits: Limits, n: nat)
    ensures (exists s :: Reachable(limits, n, s) && FullOfRejected(limits, s))
            <==> n > limits.queueMax + SlotCount(limits)
  {
    if s :| Reachable(limits, n, s) && FullOfRejected(limits, s) {
      FullOfRejectedOnlyIf(limits, n, s);
    }
    if n > limits.queueMax + SlotCount(limits) {
      var s := FullOfRejectedIf(limits, n);
    }
  }
}
