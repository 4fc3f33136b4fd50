/** Threads inside the queue's blocking methods, with the two condition variables made
    explicit: which threads sleep, which have been notified (or woke up spuriously) and
    still have to reacquire the mutex, and whom each `notify_one` picks. */
module QueueThreads {
  import opened Options
  import opened BoundedQueues
  import opened QueueHistories

  type Thread = nat

  /** A thread in none of the four sets is outside the queue's blocking methods. */
  datatype Threads<T> = Threads(
    h: History<T>,
    popAsleep: set<Thread>,   // asleep on notEmpty_
    popWoken: set<Thread>,    // inside waitPop, runnable
    pushAsleep: set<Thread>,  // asleep on notFull_
    pushWoken: set<Thread>,   // inside waitPush, runnable
    value: map<Thread, T>)    // what a thread that sleeps in waitPush came to push

  /** `pick` is the sleeper that the step's `notify_one` wakes, if there is one to wake. */
  datatype Event<T> =
    | CallTryPush(x: T, pick: Thread)
    | CallWaitPush(t: Thread, x: T, pick: Thread)
    | ResumeWaitPush(t: Thread, pick: Thread)
    | CallWaitPop(t: Thread, pick: Thread)
    | ResumeWaitPop(t: Thread, pick: Thread)
    | CallClose
    | SpuriousWakeup(t: Thread)

  function NewThreads<T>(capacity: nat): Threads<T> {
    Threads(Perform(capacity, []), {}, {}, {}, {}, map[])
  }

  predicate Outside<T>(s: Threads<T>, t: Thread) {
    t !in s.popAsleep && t !in s.popWoken && t !in s.pushAsleep && t !in s.pushWoken
  }

  predicate MayPick(sleepers: set<Thread>, pick: Thread) {
    sleepers == {} || pick in sleepers
  }

  function NotifyPopper<T>(s: Threads<T>, pick: Thread): Threads<T> {
    if s.popAsleep == {} then s
    else s.(popAsleep := s.popAsleep - {pick}, popWoken := s.popWoken + {pick})
  }

  function NotifyPusher<T>(s: Threads<T>, pick: Thread): Threads<T> {
    if s.pushAsleep == {} then s
    else s.(pushAsleep := s.pushAsleep - {pick}, pushWoken := s.pushWoken + {pick})
  }

  predicate CanHappen<T>(s: Threads<T>, e: Event<T>) {
    match e
    case CallTryPush(_, pick) => MayPick(s.popAsleep, pick)
    case CallWaitPush(t, _, pick) => Outside(s, t) && MayPick(s.popAsleep, pick)
    case ResumeWaitPush(t, pick) => t in s.pushWoken && t in s.value && MayPick(s.popAsleep, pick)
    case CallWaitPop(t, pick) => Outside(s, t) && MayPick(s.pushAsleep, pick)
    case ResumeWaitPop(t, pick) => t in s.popWoken && MayPick(s.pushAsleep, pick)
    case CallClose => true
    case SpuriousWakeup(t) => t in s.popAsleep || t in s.pushAsleep
  }

  /** `notFull_.wait` checks its condition first, sleeps while it is false, and checks it
      again after every wakeup; `waitPush` itself follows once the condition holds. */
  function WaitPushFrom<T>(s: Threads<T>, t: Thread, x: T, pick: Thread): Threads<T> {
    if !s.h.q.CanWaitPush() then
      s.(pushAsleep := s.pushAsleep + {t}, pushWoken := s.pushWoken - {t}, value := s.value[t := x])
    else
      var pushed := s.(h := Record(s.h, WaitPush(x)), pushWoken := s.pushWoken - {t});
      if s.h.q.closed then pushed else NotifyPopper(pushed, pick)
  }

  function WaitPopFrom<T>(s: Threads<T>, t: Thread, pick: Thread): Threads<T> {
    if !s.h.q.CanWaitPop() then
      s.(popAsleep := s.popAsleep + {t}, popWoken := s.popWoken - {t})
    else
      var popped := s.(h := Record(s.h, WaitPop), popWoken := s.popWoken - {t});
      if s.h.q.items == [] then popped else NotifyPusher(popped, pick)
  }

  function Happen<T>(s: Threads<T>, e: Event<T>): Threads<T>
    requires CanHappen(s, e)
  {
    match e
    case CallTryPush(x, pick) =>
      var pushed := s.(h := Record(s.h, TryPush(x)));
      if s.h.q.PushOutcome() == Pushed then NotifyPopper(pushed, pick) else pushed
    case CallWaitPush(t, x, pick) => WaitPushFrom(s, t, x, pick)
    case ResumeWaitPush(t, pick) => WaitPushFrom(s, t, s.value[t], pick)
    case CallWaitPop(t, pick) => WaitPopFrom(s, t, pick)
    case ResumeWaitPop(t, pick) => WaitPopFrom(s, t, pick)
    case CallClose =>
      s.(h := Record(s.h, Close),
         popAsleep := {}, popWoken := s.popWoken + s.popAsleep,
         pushAsleep := {}, pushWoken := s.pushWoken + s.pushAsleep)
    case SpuriousWakeup(t) =>
      if t in s.popAsleep then s.(popAsleep := s.popAsleep - {t}, popWoken := s.popWoken + {t})
      else s.(pushAsleep := s.pushAsleep - {t}, pushWoken := s.pushWoken + {t})
  }

  /** The state after the given interleaving, or None when some event could not happen. */
  function Interleave<T>(capacity: nat, events: seq<Event<T>>): Option<Threads<T>> {
    if events == [] then Some(NewThreads(capacity))
    else
      var last := |events| - 1;
      var s := Interleave(capacity, events[..last]);
      if s.Some? && CanHappen(s.value, events[last]) then Some(Happen(s.value, events[last])) else None
  }

  ghost predicate NoLostWakeup<T>(s: Threads<T>) {
    && (s.popAsleep != {} ==> |s.h.q.items| <= |s.popWoken|)
    && (s.pushAsleep != {} ==> s.h.q.capacity - |s.h.q.items| <= |s.pushWoken|)
    && (s.h.q.closed ==> s.popAsleep == {} && s.pushAsleep == {})
  }

  ghost predicate WellPlaced<T>(s: Threads<T>) {
    && s.popAsleep !! s.popWoken
    && s.pushAsleep !! s.pushWoken
    && s.pushAsleep + s.pushWoken <= s.value.Keys
  }

  lemma NotifyPopperMovesOne<T>(s: Threads<T>, pick: Thread)
    requires WellPlaced(s) && MayPick(s.popAsleep, pick)
    ensures WellPlaced(NotifyPopper(s, pick))
    ensures s.popAsleep != {} ==> |NotifyPopper(s, pick).popWoken| == |s.popWoken| + 1
  {
  }

  lemma NotifyPusherMovesOne<T>(s: Threads<T>, pick: Thread)
    requires WellPlaced(s) && MayPick(s.pushAsleep, pick)
    ensures WellPlaced(NotifyPusher(s, pick))
    ensures s.pushAsleep != {} ==> |NotifyPusher(s, pick).pushWoken| == |s.pushWoken| + 1
  {
  }

  lemma WaitPushKeepsWakeups<T>(s: Threads<T>, t: Thread, x: T, pick: Thread)
    requires WellPlaced(s) && NoLostWakeup(s) && MayPick(s.popAsleep, pick)
    requires Outside(s, t) || t in s.pushWoken
    ensures WellPlaced(WaitPushFrom(s, t, x, pick)) && NoLostWakeup(WaitPushFrom(s, t, x, pick))
  {
    if s.h.q.CanWaitPush() {
      var pushed := s.(h := Record(s.h, WaitPush(x)), pushWoken := s.pushWoken - {t});
      assert WellPlaced(pushed);
      assert |s.pushWoken - {t}| >= |s.pushWoken| - 1;
      if !s.h.q.closed {
        NotifyPopperMovesOne(pushed, pick);
      }
    }
  }

  lemma WaitPopKeepsWakeups<T>(s: Threads<T>, t: Thread, pick: Thread)
    requires WellPlaced(s) && NoLostWakeup(s) && MayPick(s.pushAsleep, pick)
    requires Outside(s, t) || t in s.popWoken
    ensures WellPlaced(WaitPopFrom(s, t, pick)) && NoLostWakeup(WaitPopFrom(s, t, pick))
  {
    if s.h.q.CanWaitPop() {
      var popped := s.(h := Record(s.h, WaitPop), popWoken := s.popWoken - {t});
      assert WellPlaced(popped);
      assert |s.popWoken - {t}| >= |s.popWoken| - 1;
      if s.h.q.items != [] {
        NotifyPusherMovesOne(popped, pick);
      }
    }
  }

  lemma TryPushKeepsWakeups<T>(s: Threads<T>, x: T, pick: Thread)
    requires WellPlaced(s) && NoLostWakeup(s) && MayPick(s.popAsleep, pick)
    ensures var s' := Happen(s, CallTryPush(x, pick)); WellPlaced(s') && NoLostWakeup(s')
  {
    NotifyPopperMovesOne(s.(h := Record(s.h, TryPush(x))), pick);
  }

  lemma CloseKeepsWakeups<T>(s: Threads<T>)
    requires WellPlaced(s)
    ensures var s' := Happen(s, CallClose); WellPlaced(s') && NoLostWakeup(s')
  {
  }

  lemma StepKeepsWakeups<T>(s: Threads<T>, e: Event<T>)
    requires WellPlaced(s) && NoLostWakeup(s) && CanHappen(s, e)
    ensures WellPlaced(Happen(s, e)) && NoLostWakeup(Happen(s, e))
  {
    match e
    case CallTryPush(x, pick) => TryPushKeepsWakeups(s, x, pick);
    case CallWaitPush(t, x, pick) => WaitPushKeepsWakeups(s, t, x, pick);
    case ResumeWaitPush(t, pick) => WaitPushKeepsWakeups(s, t, s.value[t], pick);
    case CallWaitPop(t, pick) => WaitPopKeepsWakeups(s, t, pick);
    case ResumeWaitPop(t, pick) => WaitPopKeepsWakeups(s, t, pick);
    case CallClose => CloseKeepsWakeups(s);
    case SpuriousWakeup(t) =>
      if t in s.popAsleep {
        assert |s.popWoken + {t}| == |s.popWoken| + 1;
      } else {
        assert |s.pushWoken + {t}| == |s.pushWoken| + 1;
      }
  }

  /** One `notify_one` per push and per pop is enough, for any number of threads, any
      interleaving, any choice of the thread to wake and any spurious wakeups. */
  lemma {:induction false} NotifyOneSuffices<T>(capacity: nat, events: seq<Event<T>>)
    requires Interleave(capacity, events).Some?
    ensures WellPlaced(Interleave(capacity, events).value)
    ensures NoLostWakeup(Interleave(capacity, events).value)
  {
    if events != [] {
      NotifyOneSuffices(capacity, events[..|events| - 1]);
      StepKeepsWakeups(Interleave(capacity, events[..|events| - 1]).value, events[|events| - 1]);
    }
  }

  lemma SomePick(sleepers: set<Thread>) returns (pick: Thread)
    ensures MayPick(sleepers, pick)
  {
    pick := 0;
    if sleepers != {} {
      pick :| pick in sleepers;
    }
  }

  ghost predicate PopperCanRun<T>(s: Threads<T>) {
    exists t, pick :: CanHappen(s, ResumeWaitPop(t, pick))
  }

  ghost predicate PusherCanRun<T>(s: Threads<T>) {
    exists t, pick :: CanHappen(s, ResumeWaitPush(t, pick))
  }

  /** An item, a free slot or a close never waits for a thread that sleeps: some thread on
      the same side is runnable. So once every runnable thread has run, a sleeping consumer
      means an open empty queue and a sleeping producer an open full one. */
  lemma SleepersHaveNothingToDo<T>(capacity: nat, events: seq<Event<T>>)
    requires Interleave(capacity, events).Some?
    ensures var s := Interleave(capacity, events).value;
            && (s.popAsleep != {} && s.h.q.CanWaitPop() ==> PopperCanRun(s))
            && (s.pushAsleep != {} && s.h.q.CanWaitPush() ==> PusherCanRun(s))
  {
    NotifyOneSuffices(capacity, events);
    var s := Interleave(capacity, events).value;
    FollowsQueue(capacity, events);
    FifoHistory(capacity, Operations(capacity, events));
    if s.popAsleep != {} && s.h.q.CanWaitPop() {
      var t :| t in s.popWoken;
      var pick := SomePick(s.pushAsleep);
      assert CanHappen(s, ResumeWaitPop(t, pick));
    }
    if s.pushAsleep != {} && s.h.q.CanWaitPush() {
      var t :| t in s.pushWoken;
      var pick := SomePick(s.popAsleep);
      assert CanHappen(s, ResumeWaitPush(t, pick));
    }
  }

  /** The critical section an event completes on the queue, if it completes one. */
  function Effect<T>(s: Threads<T>, e: Event<T>): seq<Operation<T>>
    requires CanHappen(s, e)
  {
    match e
    case CallTryPush(x, _) => [TryPush(x)]
    case CallWaitPush(_, x, _) => if s.h.q.CanWaitPush() then [WaitPush(x)] else []
    case ResumeWaitPush(t, _) => if s.h.q.CanWaitPush() then [WaitPush(s.value[t])] else []
    case CallWaitPop(_, _) => if s.h.q.CanWaitPop() then [WaitPop] else []
    case ResumeWaitPop(_, _) => if s.h.q.CanWaitPop() then [WaitPop] else []
    case CallClose => [Close]
    case SpuriousWakeup(_) => []
  }

  function Operations<T>(capacity: nat, events: seq<Event<T>>): seq<Operation<T>>
    requires Interleave(capacity, events).Some?
  {
    if events == [] then []
    else
      var before := events[..|events| - 1];
      Operations(capacity, before) + Effect(Interleave(capacity, before).value, events[|events| - 1])
  }

  /** Sleeping and waking never touch the queue: every interleaving of threads is, seen from
      the queue, a history of whole critical sections, each run only when its wait condition
      held. What is proved of queue histories (order, capacity, closing) therefore holds of
      every interleaving, and treating a blocking call as one guarded step loses nothing. */
  lemma {:induction false} FollowsQueue<T>(capacity: nat, events: seq<Event<T>>)
    requires Interleave(capacity, events).Some?
    ensures Admissible(capacity, Operations(capacity, events))
    ensures Interleave(capacity, events).value.h == Perform(capacity, Operations(capacity, events))
  {
    if events != [] {
      var before := events[..|events| - 1];
      FollowsQueue(capacity, before);
      var ops := Operations(capacity, before);
      var effect := Effect(Interleave(capacity, before).value, events[|events| - 1]);
      assert Operations(capacity, events) == ops + effect;
      if effect == [] {
        assert ops + effect == ops;
      } else {
        ExtendAdmissible(capacity, ops, effect[0]);
        assert ops + effect == ops + [effect[0]];
      }
    }
  }

  lemma ExtendAdmissible<T>(capacity: nat, ops: seq<Operation<T>>, op: Operation<T>)
    requires Admissible(capacity, ops) && Enabled(Perform(capacity, ops).q, op)
    ensures Admissible(capacity, ops + [op])
    ensures Perform(capacity, ops + [op]) == Record(Perform(capacity, ops), op)
  {
    var longer := ops + [op];
    assert longer[..|longer| - 1] == ops;
    forall i | 0 <= i < |longer| ensures Enabled(Perform(capacity, longer[..i]).q, longer[i]) {
      assert i < |ops| ==> longer[..i] == ops[..i];
    }
  }
}
