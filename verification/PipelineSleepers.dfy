/** The pipeline with its sleeping threads made explicit: workers asleep on either queue, the
    aggregator asleep on one, whom each notification wakes, and spurious wakeups. The producer
    only ever uses `tryPush` and never sleeps on a queue. */
module PipelineSleepers {
  import opened Options
  import opened BoundedQueues
  import opened Pipeline
  import opened PipelineInvariants
  import opened PipelineTheorems
  import opened PipelineTermination

  /** The pipeline, and which of its threads sleep inside `waitPop` and `waitPush`. */
  datatype Sleepers<P, O, M> = Sleepers(
    s: State<P, O, M>, popAsleep: set<nat>, pushAsleep: set<nat>, aggregatorAsleep: bool)

  /** `pick` is the worker that the step's `notify_one` wakes, if there is one to wake. */
  datatype Happening<M> =
    | Step(a: Action<M>, pick: nat)
    | Sleep(w: nat)
    | SleepAggregator
    | Wake(w: nat)
    | WakeAggregator

  function AllAwake<P, O, M>(c: Config<P, O, M>): Sleepers<P, O, M> {
    Sleepers(Start(c), {}, {}, false)
  }

  predicate WorkerAwake<P, O, M>(z: Sleepers<P, O, M>, w: nat) {
    w !in z.popAsleep && w !in z.pushAsleep
  }

  predicate Awake<P, O, M>(z: Sleepers<P, O, M>, a: Action<M>) {
    match a
    case ProducerStep => true
    case WorkerStep(w) => WorkerAwake(z, w)
    case WorkerThrow(w, _) => WorkerAwake(z, w)
    case AggregatorStep => !z.aggregatorAsleep
    case AggregatorThrow(_, _) => !z.aggregatorAsleep
  }

  // ---------------------------------------------------------------- notifications

  predicate PushesPackets<P, O, M>(s: State<P, O, M>, a: Action<M>) {
    a.ProducerStep? && s.producer.at.Pushing? && s.shared.packetQueue.PushOutcome() == Pushed
  }

  predicate PushesObservations<P, O, M>(s: State<P, O, M>, a: Action<M>) {
    a.WorkerStep? && a.w < |s.workers| && s.workers[a.w].PushingOut? && !s.shared.observationQueue.closed
  }

  predicate PopsObservations<P, O, M>(s: State<P, O, M>, a: Action<M>) {
    a.AggregatorStep? && s.aggregator.at.AwaitingObservations? && s.shared.observationQueue.items != []
  }

  predicate Closes<P, O, M>(s: State<P, O, M>, a: Action<M>, at: ProducerPoint, isClosing: Handler -> bool) {
    || (a.ProducerStep? && s.producer.at == at)
    || (a.WorkerStep? && a.w < |s.workers| && s.workers[a.w].WorkerFailing? && isClosing(s.workers[a.w].handler))
    || (a.AggregatorStep? && s.aggregator.at.AggregatorFailing? && isClosing(s.aggregator.at.handler))
  }

  predicate ClosesPacketQueue<P, O, M>(s: State<P, O, M>, a: Action<M>) {
    Closes(s, a, ClosingPackets, (h: Handler) => h.ClosePackets?)
  }

  predicate ClosesObservationQueue<P, O, M>(s: State<P, O, M>, a: Action<M>) {
    Closes(s, a, ClosingObservations, (h: Handler) => h.CloseObservations?)
  }

  predicate MayPick(sleepers: set<nat>, pick: nat) {
    sleepers == {} || pick in sleepers
  }

  predicate CanHappen<P, O, M>(c: Config<P, O, M>, z: Sleepers<P, O, M>, h: Happening<M>) {
    match h
    case Step(a, pick) =>
      && Awake(z, a) && Enabled(c, z.s, a)
      && (PushesPackets(z.s, a) ==> MayPick(z.popAsleep, pick))
      && (PopsObservations(z.s, a) ==> MayPick(z.pushAsleep, pick))
    case Sleep(w) =>
      && w < |z.s.workers| && WorkerAwake(z, w)
      && (|| (z.s.workers[w].AwaitingPackets? && !z.s.shared.packetQueue.CanWaitPop())
          || (z.s.workers[w].PushingOut? && !z.s.shared.observationQueue.CanWaitPush()))
    case SleepAggregator =>
      !z.aggregatorAsleep && z.s.aggregator.at.AwaitingObservations? && !z.s.shared.observationQueue.CanWaitPop()
    case Wake(w) => !WorkerAwake(z, w)
    case WakeAggregator => z.aggregatorAsleep
  }

  /** Who sleeps in `waitPop` on the packet queue after a step. */
  function PopAsleepAfter<P, O, M>(z: Sleepers<P, O, M>, a: Action<M>, pick: nat): set<nat> {
    if ClosesPacketQueue(z.s, a) then {} else if PushesPackets(z.s, a) then z.popAsleep - {pick} else z.popAsleep
  }

  function PushAsleepAfter<P, O, M>(z: Sleepers<P, O, M>, a: Action<M>, pick: nat): set<nat> {
    if ClosesObservationQueue(z.s, a) then {}
    else if PopsObservations(z.s, a) then z.pushAsleep - {pick}
    else z.pushAsleep
  }

  predicate AggregatorAsleepAfter<P, O, M>(z: Sleepers<P, O, M>, a: Action<M>) {
    z.aggregatorAsleep && !ClosesObservationQueue(z.s, a) && !PushesObservations(z.s, a)
  }

  function Happen<P, O, M>(c: Config<P, O, M>, z: Sleepers<P, O, M>, h: Happening<M>): Sleepers<P, O, M>
    requires CanHappen(c, z, h)
  {
    match h
    case Step(a, pick) =>
      Sleepers(Next(c, z.s, a), PopAsleepAfter(z, a, pick), PushAsleepAfter(z, a, pick), AggregatorAsleepAfter(z, a))
    case Sleep(w) =>
      if z.s.workers[w].AwaitingPackets? then z.(popAsleep := z.popAsleep + {w})
      else z.(pushAsleep := z.pushAsleep + {w})
    case SleepAggregator => z.(aggregatorAsleep := true)
    case Wake(w) => z.(popAsleep := z.popAsleep - {w}, pushAsleep := z.pushAsleep - {w})
    case WakeAggregator => z.(aggregatorAsleep := false)
  }

  /** Where a sequence of happenings leads, or None if some of it could not happen. */
  function Interleaved<P, O, M>(c: Config<P, O, M>, hs: seq<Happening<M>>): Option<Sleepers<P, O, M>> {
    if hs == [] then Some(AllAwake(c))
    else
      var last := |hs| - 1;
      var before := Interleaved(c, hs[..last]);
      if before.Some? && CanHappen(c, before.value, hs[last]) then Some(Happen(c, before.value, hs[last])) else None
  }

  // ---------------------------------------------------------------- the pipeline underneath

  /** The steps among the happenings. */
  function ScheduleOf<M>(hs: seq<Happening<M>>): seq<Action<M>> {
    if hs == [] then []
    else
      var last := hs[|hs| - 1];
      ScheduleOf(hs[..|hs| - 1]) + if last.Step? then [last.a] else []
  }

  /** Sleeping and waking change nothing but who sleeps: the pipeline underneath follows a
      schedule, so everything proved of all schedules holds with sleepers too. */
  lemma {:induction false} SleepersFollowASchedule<P, O, M>(c: Config<P, O, M>, hs: seq<Happening<M>>)
    requires Interleaved(c, hs).Some?
    ensures Reached(c, ScheduleOf(hs)) == Some(Interleaved(c, hs).value.s)
  {
    if hs != [] {
      var before, last := hs[..|hs| - 1], hs[|hs| - 1];
      SleepersFollowASchedule(c, before);
      if last.Step? {
        var longer := ScheduleOf(before) + [last.a];
        assert longer[..|longer| - 1] == ScheduleOf(before);
      } else {
        assert ScheduleOf(before) + [] == ScheduleOf(before);
      }
    }
  }

  // ---------------------------------------------------------------- no lost wakeup

  ghost function AwakePoppers<P, O>(ws: seq<Worker<P, O>>, asleep: set<nat>): set<nat> {
    set w: nat | w < |ws| && ws[w].AwaitingPackets? && w !in asleep
  }

  ghost function AwakePushers<P, O>(ws: seq<Worker<P, O>>, asleep: set<nat>): set<nat> {
    set w: nat | w < |ws| && ws[w].PushingOut? && w !in asleep
  }

  /** Who sleeps is where it says, and has been left asleep for a reason: no more batches of
      packets than workers awake to fetch them, no more free places than workers awake to fill
      them, and nothing for the aggregator. */
  ghost predicate PoppersRest<P, O>(ws: seq<Worker<P, O>>, asleep: set<nat>, q: Queue<seq<P>>) {
    && (forall w :: w in asleep ==> w < |ws| && ws[w].AwaitingPackets?)
    && (asleep != {} ==> !q.closed && |q.items| <= |AwakePoppers(ws, asleep)|)
  }

  ghost predicate PushersRest<P, O>(ws: seq<Worker<P, O>>, asleep: set<nat>, q: Queue<seq<O>>) {
    && (forall w :: w in asleep ==> w < |ws| && ws[w].PushingOut?)
    && (asleep != {} ==> !q.closed && q.capacity - |q.items| <= |AwakePushers(ws, asleep)|)
  }

  ghost predicate AggregatorRests<O, M>(a: Aggregator<O, M>, asleep: bool, q: Queue<seq<O>>) {
    asleep ==> a.at.AwaitingObservations? && !q.closed && q.items == []
  }

  ghost predicate Resting<P, O, M>(z: Sleepers<P, O, M>) {
    && PoppersRest(z.s.workers, z.popAsleep, z.s.shared.packetQueue)
    && PushersRest(z.s.workers, z.pushAsleep, z.s.shared.observationQueue)
    && AggregatorRests(z.s.aggregator, z.aggregatorAsleep, z.s.shared.observationQueue)
  }

  /** Two sets that differ in one element at most. */
  lemma OneApart(a: set<nat>, b: set<nat>, x: nat)
    requires a - {x} == b - {x}
    ensures |b| >= |a| - 1
    ensures x !in a || x in b ==> |b| >= |a|
  {
    assert |a - {x}| >= |a| - 1;
    if x in b {
      assert b == (a - {x}) + {x};
    } else {
      assert b == a - {x};
      if x !in a {
        assert a == a - {x};
      }
    }
  }

  lemma ReplacePopper<P, O>(ws: seq<Worker<P, O>>, asleep: set<nat>, i: nat, w: Worker<P, O>)
    requires i < |ws| && i !in asleep
    ensures |AwakePoppers(ws[i := w], asleep)| >= |AwakePoppers(ws, asleep)| - 1
    ensures !ws[i].AwaitingPackets? || w.AwaitingPackets? ==>
              |AwakePoppers(ws[i := w], asleep)| >= |AwakePoppers(ws, asleep)|
  {
    OneApart(AwakePoppers(ws, asleep), AwakePoppers(ws[i := w], asleep), i);
  }

  lemma ReplacePusher<P, O>(ws: seq<Worker<P, O>>, asleep: set<nat>, i: nat, w: Worker<P, O>)
    requires i < |ws| && i !in asleep
    ensures |AwakePushers(ws[i := w], asleep)| >= |AwakePushers(ws, asleep)| - 1
    ensures !ws[i].PushingOut? || w.PushingOut? ==>
              |AwakePushers(ws[i := w], asleep)| >= |AwakePushers(ws, asleep)|
  {
    OneApart(AwakePushers(ws, asleep), AwakePushers(ws[i := w], asleep), i);
  }

  lemma WakePopper<P, O>(ws: seq<Worker<P, O>>, asleep: set<nat>, w: nat)
    requires w in asleep && w < |ws| && ws[w].AwaitingPackets?
    ensures |AwakePoppers(ws, asleep - {w})| == |AwakePoppers(ws, asleep)| + 1
  {
    assert AwakePoppers(ws, asleep - {w}) == AwakePoppers(ws, asleep) + {w};
  }

  lemma WakePusher<P, O>(ws: seq<Worker<P, O>>, asleep: set<nat>, w: nat)
    requires w in asleep && w < |ws| && ws[w].PushingOut?
    ensures |AwakePushers(ws, asleep - {w})| == |AwakePushers(ws, asleep)| + 1
  {
    assert AwakePushers(ws, asleep - {w}) == AwakePushers(ws, asleep) + {w};
  }

  lemma ProducerStepKeepsRest<P, O, M>(c: Config<P, O, M>, z: Sleepers<P, O, M>, pick: nat)
    requires Resting(z) && CanHappen(c, z, Step(ProducerStep, pick))
    ensures Resting(Happen(c, z, Step(ProducerStep, pick)))
  {
    if PushesPackets(z.s, ProducerStep) && z.popAsleep != {} {
      WakePopper(z.s.workers, z.popAsleep, pick);
    }
  }

  lemma WorkerStepKeepsRest<P, O, M>(c: Config<P, O, M>, z: Sleepers<P, O, M>, i: nat, pick: nat)
    requires Resting(z) && CanHappen(c, z, Step(WorkerStep(i), pick))
    ensures Resting(Happen(c, z, Step(WorkerStep(i), pick)))
  {
    var (w, _) := WorkerNext(c, z.s.workers[i], z.s.shared);
    ReplacePopper(z.s.workers, z.popAsleep, i, w);
    ReplacePusher(z.s.workers, z.pushAsleep, i, w);
  }

  lemma AggregatorStepKeepsRest<P, O, M>(c: Config<P, O, M>, z: Sleepers<P, O, M>, pick: nat)
    requires Resting(z) && CanHappen(c, z, Step(AggregatorStep, pick))
    ensures Resting(Happen(c, z, Step(AggregatorStep, pick)))
  {
    if PopsObservations(z.s, AggregatorStep) && z.pushAsleep != {} {
      WakePusher(z.s.workers, z.pushAsleep, pick);
    }
  }

  lemma ThrowKeepsRest<P, O, M>(c: Config<P, O, M>, z: Sleepers<P, O, M>, a: Action<M>, pick: nat)
    requires Resting(z) && Throws(a) && CanHappen(c, z, Step(a, pick))
    ensures Resting(Happen(c, z, Step(a, pick)))
  {
    if a.WorkerThrow? {
      var w := WorkerFails(WorkerThrew(a.what), true, z.s.shared).0;
      ReplacePopper(z.s.workers, z.popAsleep, a.w, w);
      ReplacePusher(z.s.workers, z.pushAsleep, a.w, w);
    }
  }

  lemma SleepKeepsRest<P, O, M>(c: Config<P, O, M>, z: Sleepers<P, O, M>, h: Happening<M>)
    requires Resting(z) && !h.Step? && CanHappen(c, z, h)
    ensures Resting(Happen(c, z, h))
  {
    match h
    case Wake(w) =>
      assert w !in z.popAsleep ==> z.popAsleep - {w} == z.popAsleep;
      assert w !in z.pushAsleep ==> z.pushAsleep - {w} == z.pushAsleep;
      if w in z.popAsleep {
        WakePopper(z.s.workers, z.popAsleep, w);
      }
      if w in z.pushAsleep {
        WakePusher(z.s.workers, z.pushAsleep, w);
      }
    case _ =>
  }

  lemma HappeningKeepsRest<P, O, M>(c: Config<P, O, M>, z: Sleepers<P, O, M>, h: Happening<M>)
    requires Resting(z) && CanHappen(c, z, h)
    ensures Resting(Happen(c, z, h))
  {
    match h
    case Step(ProducerStep, pick) => ProducerStepKeepsRest(c, z, pick);
    case Step(WorkerStep(i), pick) => WorkerStepKeepsRest(c, z, i, pick);
    case Step(AggregatorStep, pick) => AggregatorStepKeepsRest(c, z, pick);
    case Step(a, pick) => ThrowKeepsRest(c, z, a, pick);
    case _ => SleepKeepsRest(c, z, h);
  }

  lemma {:induction false} AlwaysResting<P, O, M>(c: Config<P, O, M>, hs: seq<Happening<M>>)
    requires Interleaved(c, hs).Some?
    ensures Resting(Interleaved(c, hs).value)
  {
    if hs != [] {
      var before := hs[..|hs| - 1];
      AlwaysResting(c, before);
      HappeningKeepsRest(c, Interleaved(c, before).value, hs[|hs| - 1]);
    }
  }

  // ---------------------------------------------------------------- progress

  /** Some thread is awake and can take a step of the pipeline without throwing. */
  ghost predicate SomeoneCanStep<P, O, M(!new)>(c: Config<P, O, M>, z: Sleepers<P, O, M>) {
    exists a: Action<M>, pick :: !Throws(a) && CanHappen(c, z, Step(a, pick))
  }

  lemma SomePick(sleepers: set<nat>) returns (pick: nat)
    ensures MayPick(sleepers, pick)
  {
    pick := 0;
    if sleepers != {} {
      pick :| pick in sleepers;
    }
  }

  lemma StepIfAwake<P, O, M(!new)>(c: Config<P, O, M>, z: Sleepers<P, O, M>, a: Action<M>)
    requires Awake(z, a) && Enabled(c, z.s, a) && !Throws(a)
    ensures SomeoneCanStep(c, z)
  {
    var pick := SomePick(if a.AggregatorStep? then z.pushAsleep else z.popAsleep);
    assert CanHappen(c, z, Step(a, pick));
  }

  /** If a thread that could go on sleeps, another one awake can go on in its place. */
  lemma SomeoneAwake<P, O, M>(c: Config<P, O, M>, z: Sleepers<P, O, M>, a: Action<M>) returns (b: Action<M>)
    requires Resting(z) && Enabled(c, z.s, a) && !Throws(a)
    ensures Awake(z, b) && Enabled(c, z.s, b) && !Throws(b)
  {
    b := a;
    if a.WorkerStep? && a.w in z.popAsleep {
      assert AwakePoppers(z.s.workers, z.popAsleep) != {};
      var w :| w in AwakePoppers(z.s.workers, z.popAsleep);
      b := WorkerStep(w);
    } else if a.WorkerStep? && a.w in z.pushAsleep {
      assert AwakePushers(z.s.workers, z.pushAsleep) != {};
      var w :| w in AwakePushers(z.s.workers, z.pushAsleep);
      b := WorkerStep(w);
    }
  }

  /** Deadlock freedom with real sleepers: after anything that can happen, throws and spurious
      wakeups included, some thread that is awake can take a step of the pipeline, until `run`
      has returned. */
  lemma SomeoneCanAlwaysStep<P, O(!new), M(!new)>(c: Config<P, O, M>, hs: seq<Happening<M>>)
    requires Interleaved(c, hs).Some? && !Interleaved(c, hs).value.s.producer.at.Returned?
    ensures SomeoneCanStep(c, Interleaved(c, hs).value)
  {
    var z := Interleaved(c, hs).value;
    SleepersFollowASchedule(c, hs);
    ReachedInvariant(c, ScheduleOf(hs));
    AlwaysResting(c, hs);
    AlwaysAStep(c, z.s);
    var a: Action<M> :| !Throws(a) && Enabled(c, z.s, a);
    var b := SomeoneAwake(c, z, a);
    StepIfAwake(c, z, b);
  }

  // ---------------------------------------------------------------- termination

  function Spurious<M>(hs: seq<Happening<M>>): nat {
    if hs == [] then 0
    else Spurious(hs[..|hs| - 1]) + if IsWake(hs[|hs| - 1]) then 1 else 0
  }

  ghost function Asleep<P, O, M>(z: Sleepers<P, O, M>): nat {
    |z.popAsleep| + |z.pushAsleep| + if z.aggregatorAsleep then 1 else 0
  }

  /** Steps weigh more than all the threads that could fall asleep between two of them. */
  ghost function Weight<P, O, M>(c: Config<P, O, M>, z: Sleepers<P, O, M>): int {
    (|z.s.workers| + 2) * Budget(c, z.s) - Asleep(z)
  }

  lemma {:induction false} SetBelow(s: set<nat>, n: nat)
    requires forall x :: x in s ==> x < n
    ensures |s| <= n
  {
    if n == 0 {
      assert s == {};
    } else {
      SetBelow(s - {n - 1}, n - 1);
      assert |s| <= |s - {n - 1}| + 1;
    }
  }

  lemma SleepersAreFew<P, O, M>(z: Sleepers<P, O, M>)
    requires Resting(z)
    ensures Asleep(z) <= |z.s.workers| + 1
  {
    assert z.popAsleep !! z.pushAsleep;
    assert |z.popAsleep + z.pushAsleep| == |z.popAsleep| + |z.pushAsleep|;
    SetBelow(z.popAsleep + z.pushAsleep, |z.s.workers|);
  }

  lemma {:induction false} AtLeast(n: nat, d: nat)
    requires d >= 1
    ensures n * d >= n
  {
    if d > 1 {
      AtLeast(n, d - 1);
      assert n * d == n * (d - 1) + n;
    }
  }

  lemma Lighter(n: nat, before: nat, after: nat)
    requires after < before
    ensures n * after <= n * before - n
  {
    AtLeast(n, before - after);
    assert n * before == n * after + n * (before - after);
  }

  lemma StepWeighs<P, O, M>(c: Config<P, O, M>, z: Sleepers<P, O, M>, h: Happening<M>)
    requires Resting(z) && Control(c, z.s) && h.Step? && CanHappen(c, z, h)
    ensures Weight(c, Happen(c, z, h)) < Weight(c, z)
  {
    StepSpends(c, z.s, h.a);
    SleepersAreFew(z);
    Lighter(|z.s.workers| + 2, Budget(c, z.s), Budget(c, Next(c, z.s, h.a)));
  }

  lemma WakingOne(a: set<nat>, b: set<nat>, w: nat)
    requires a !! b && (w in a || w in b)
    ensures |a - {w}| + |b - {w}| == |a| + |b| - 1
  {
    if w in a {
      assert b - {w} == b;
    } else {
      assert a - {w} == a;
    }
  }

  predicate IsWake<M>(h: Happening<M>) {
    h.Wake? || h.WakeAggregator?
  }

  lemma WakeCounts<P, O, M>(c: Config<P, O, M>, z: Sleepers<P, O, M>, h: Happening<M>)
    requires Resting(z) && IsWake(h) && CanHappen(c, z, h)
    ensures Happen(c, z, h).s == z.s && Asleep(Happen(c, z, h)) == Asleep(z) - 1
  {
    if h.Wake? {
      assert z.popAsleep !! z.pushAsleep;
      WakingOne(z.popAsleep, z.pushAsleep, h.w);
    }
  }

  lemma SleepCounts<P, O, M>(c: Config<P, O, M>, z: Sleepers<P, O, M>, h: Happening<M>)
    requires !h.Step? && !IsWake(h) && CanHappen(c, z, h)
    ensures Happen(c, z, h).s == z.s && Asleep(Happen(c, z, h)) == Asleep(z) + 1
  {
  }

  /** What one happening does to the weight. */
  lemma HappeningWeighs<P, O, M>(c: Config<P, O, M>, z: Sleepers<P, O, M>, h: Happening<M>)
    requires Resting(z) && Control(c, z.s) && CanHappen(c, z, h)
    ensures Weight(c, Happen(c, z, h)) + 1 <= Weight(c, z) + if IsWake(h) then 2 else 0
  {
    if h.Step? {
      StepWeighs(c, z, h);
    } else if IsWake(h) {
      WakeCounts(c, z, h);
    } else {
      SleepCounts(c, z, h);
    }
  }

  lemma {:induction false} HappeningsWeigh<P, O(!new), M>(c: Config<P, O, M>, hs: seq<Happening<M>>)
    requires Interleaved(c, hs).Some?
    ensures |hs| + Weight(c, Interleaved(c, hs).value) <= Weight(c, AllAwake(c)) + 2 * Spurious(hs)
  {
    if hs != [] {
      var before, h := hs[..|hs| - 1], hs[|hs| - 1];
      HappeningsWeigh(c, before);
      AlwaysResting(c, before);
      var z := Interleaved(c, before).value;
      assert Control(c, z.s) by {
        SleepersFollowASchedule(c, before);
        ReachedInvariant(c, ScheduleOf(before));
      }
      HappeningWeighs(c, z, h);
    }
  }

  /** Termination with real sleepers: however threads fall asleep and are woken, no run is longer
      than a bound fixed by the packets, but for the spurious wakeups that the system adds. */
  lemma SleepingIsBounded<P, O(!new), M>(c: Config<P, O, M>, hs: seq<Happening<M>>)
    requires Interleaved(c, hs).Some?
    ensures var n := c.Options().parserWorkerCount;
            |hs| <= (n + 2) * Budget(c, Start(c)) + n + 1 + 2 * Spurious(hs)
  {
    var z := Interleaved(c, hs).value;
    HappeningsWeigh(c, hs);
    assert |z.s.workers| == c.Options().parserWorkerCount by {
      SleepersFollowASchedule(c, hs);
      ReachedInvariant(c, ScheduleOf(hs));
    }
    assert Asleep(z) <= |z.s.workers| + 1 by {
      AlwaysResting(c, hs);
      SleepersAreFew(z);
    }
    NotNegative(|z.s.workers| + 2, Budget(c, z.s));
    StartWeight(c);
  }

  lemma StartWeight<P, O, M>(c: Config<P, O, M>)
    ensures Weight(c, AllAwake(c)) == (c.Options().parserWorkerCount + 2) * Budget(c, Start(c))
  {
  }

  lemma NotNegative(a: nat, b: nat)
    ensures a * b >= 0
  {
  }
}
