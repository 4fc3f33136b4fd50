/** Every schedule is finite: each step uses up part of a budget fixed by the packets. */
module PipelineTermination {
  import opened Options
  import opened Sequences
  import opened Pipeline
  import opened PipelineInvariants
  import opened PipelineLedgers
  import opened PipelineTheorems

  // The budgets: what each thread may still do, given what it holds, plus what each queued
  // batch lets its receiver do.

  function ProducerPointBudget(at: ProducerPoint): nat {
    match at
    case Pushing(final) => if final then 7 else 10
    case Counting(final, _) => if final then 6 else 9
    case Capturing => 8
    case ClosingPackets => 5
    case JoiningWorkers => 4
    case ClosingObservations => 3
    case JoiningAggregator => 2
    case Returned => 1
  }

  function PacketsBudget<P, O, M>(c: Config<P, O, M>, ps: seq<P>, each: nat): nat {
    |c.ParseAll(ps)| + each * |ps|
  }

  function ProducerBudget<P, O, M>(c: Config<P, O, M>, p: Producer<P>): nat {
    ProducerPointBudget(p.at) + PacketsBudget(c, p.rest, 16)
    + if p.at.Counting? then 0 else PacketsBudget(c, p.pending, 12)
  }

  function HandlerBudget(h: Handler): nat {
    match h
    case RecordError(_, _) => 3
    case ClosePackets(_) => 2
    case CloseObservations => 1
  }

  function WorkerBudget<P, O, M>(c: Config<P, O, M>, w: Worker<P, O>): nat {
    match w
    case AwaitingPackets => 4
    case Parsing(todo, out) => 8 + |out| + PacketsBudget(c, todo, 2)
    case Counted(todo, out) => 7 + |out| + PacketsBudget(c, todo, 2)
    case PushingOut(out) => 7 + |out|
    case WorkerFailing(h) => HandlerBudget(h)
    case WorkerDone => 0
  }

  function AggregatorBudget<O>(at: AggregatorPoint<O>): nat {
    match at
    case AwaitingObservations => 4
    case Applying(batch, next) => if next <= |batch| then 5 + |batch| - next else 5
    case AggregatorFailing(h) => HandlerBudget(h)
    case AggregatorDone => 0
  }

  function QueuesBudget<P, O, M>(c: Config<P, O, M>, g: Shared<P, O>): nat {
    PacketsBudget(c, Flat(g.packetQueue.items), 2) + 5 * |g.packetQueue.items|
    + |Flat(g.observationQueue.items)| + 2 * |g.observationQueue.items|
  }

  function AllWorkersBudget<P, O, M>(c: Config<P, O, M>, ws: seq<Worker<P, O>>): nat {
    if ws == [] then 0 else WorkerBudget(c, ws[0]) + AllWorkersBudget(c, ws[1..])
  }

  function Budget<P, O, M>(c: Config<P, O, M>, s: State<P, O, M>): nat {
    ProducerBudget(c, s.producer) + AllWorkersBudget(c, s.workers)
    + AggregatorBudget(s.aggregator.at) + QueuesBudget(c, s.shared)
  }

  lemma {:induction false} ReplaceWorkerBudget<P, O, M>(
    c: Config<P, O, M>, ws: seq<Worker<P, O>>, i: nat, w: Worker<P, O>)
    requires i < |ws|
    ensures AllWorkersBudget(c, ws[i := w]) + WorkerBudget(c, ws[i]) == AllWorkersBudget(c, ws) + WorkerBudget(c, w)
  {
    if i == 0 {
      assert ws[i := w][1..] == ws[1..];
    } else {
      assert ws[i := w][1..] == ws[1..][i - 1 := w];
      ReplaceWorkerBudget(c, ws[1..], i - 1, w);
    }
  }

  lemma PacketsBudgetConcat<P, O, M>(c: Config<P, O, M>, a: seq<P>, b: seq<P>, each: nat)
    ensures PacketsBudget(c, a + b, each) == PacketsBudget(c, a, each) + PacketsBudget(c, b, each)
  {
    ParseAllConcat(c, a, b);
    assert each * |a + b| == each * (|a| + |b|) == each * |a| + each * |b|;
  }

  /** A packet weighs less once it is in the pending batch. */
  lemma TakenPacket<P, O, M>(c: Config<P, O, M>, rest: seq<P>, pending: seq<P>)
    requires rest != []
    ensures PacketsBudget(c, rest[1..], 16) + PacketsBudget(c, pending + [rest[0]], 12) + 4
         == PacketsBudget(c, rest, 16) + PacketsBudget(c, pending, 12)
  {
    assert rest == [rest[0]] + rest[1..];
    PacketsBudgetConcat(c, [rest[0]], rest[1..], 16);
    PacketsBudgetConcat(c, pending, [rest[0]], 12);
  }

  lemma ProducerSpends<P, O, M>(c: Config<P, O, M>, s: State<P, O, M>)
    requires ProducerPlace(s.producer) && ProducerEnabled(s)
    ensures var (p', g') := ProducerNext(c.Options(), s.producer, s.shared);
            ProducerBudget(c, p') + QueuesBudget(c, g') < ProducerBudget(c, s.producer) + QueuesBudget(c, s.shared)
  {
    var p, g := s.producer, s.shared;
    if p.at.Capturing? && p.rest != [] {
      TakenPacket(c, p.rest, p.pending);
    } else if p.at.Pushing? {
      FlatAppend(g.packetQueue.items, p.pending);
      PacketsBudgetConcat(c, Flat(g.packetQueue.items), p.pending, 2);
    }
  }

  lemma WorkerSpends<P, O, M>(c: Config<P, O, M>, w: Worker<P, O>, g: Shared<P, O>)
    requires WorkerEnabled(w, g)
    ensures var (w', g') := WorkerNext(c, w, g);
            WorkerBudget(c, w') + QueuesBudget(c, g') < WorkerBudget(c, w) + QueuesBudget(c, g)
  {
    var (w', g') := WorkerNext(c, w, g);
    match w
    case AwaitingPackets =>
      if g.packetQueue.items != [] {
        PacketsBudgetConcat(c, g.packetQueue.items[0], Flat(g.packetQueue.items[1..]), 2);
      }
    case Counted(todo, out) =>
      assert QueuesBudget(c, g') == QueuesBudget(c, g);
    case PushingOut(out) => FlatAppend(g.observationQueue.items, out);
    case Parsing(_, _) =>
      assert QueuesBudget(c, g') == QueuesBudget(c, g);
    case WorkerFailing(_) =>
      assert QueuesBudget(c, g') == QueuesBudget(c, g);
  }

  lemma AggregatorSpends<P, O, M>(c: Config<P, O, M>, a: Aggregator<O, M>, g: Shared<P, O>)
    requires AggregatorEnabled(a, g) && (a.at.Applying? ==> a.at.next <= |a.at.batch|)
    ensures var (a', g') := AggregatorNext(c, a, g);
            AggregatorBudget(a'.at) + QueuesBudget(c, g') < AggregatorBudget(a.at) + QueuesBudget(c, g)
  {
    var (a', g') := AggregatorNext(c, a, g);
    if a.at.AwaitingObservations? && g.observationQueue.items != [] {
      var batch := g.observationQueue.items[0];
      assert Flat(g.observationQueue.items) == batch + Flat(g.observationQueue.items[1..]);
      assert g'.packetQueue == g.packetQueue && g'.observationQueue.items == g.observationQueue.items[1..];
    } else {
      SameQueuesSameBudget(c, g, g');
    }
  }

  lemma SameQueuesSameBudget<P, O, M>(c: Config<P, O, M>, g: Shared<P, O>, g': Shared<P, O>)
    requires g'.packetQueue.items == g.packetQueue.items && g'.observationQueue.items == g.observationQueue.items
    ensures QueuesBudget(c, g') == QueuesBudget(c, g)
  {
  }

  lemma StepSpends<P, O, M>(c: Config<P, O, M>, s: State<P, O, M>, a: Action<M>)
    requires Control(c, s) && Enabled(c, s, a)
    ensures Budget(c, Next(c, s, a)) < Budget(c, s)
  {
    match a
    case ProducerStep => ProducerSpends(c, s);
    case WorkerStep(i) =>
      WorkerSpends(c, s.workers[i], s.shared);
      ReplaceWorkerBudget(c, s.workers, i, WorkerNext(c, s.workers[i], s.shared).0);
    case WorkerThrow(i, what) =>
      ReplaceWorkerBudget(c, s.workers, i, WorkerFails(WorkerThrew(what), true, s.shared).0);
    case AggregatorStep => AggregatorSpends(c, s.aggregator, s.shared);
    case AggregatorThrow(_, _) =>
  }

  /** Termination: no schedule is longer than the budget of the starting state, whatever
      throws. Together with `AlwaysAStep`, every run that keeps being scheduled returns. */
  lemma {:induction false} SchedulesAreBounded<P, O(!new), M>(c: Config<P, O, M>, schedule: seq<Action<M>>)
    requires Reached(c, schedule).Some?
    ensures |schedule| + Budget(c, Reached(c, schedule).value) <= Budget(c, Start(c))
  {
    if schedule != [] {
      var last := |schedule| - 1;
      SchedulesAreBounded(c, schedule[..last]);
      ReachedInvariant(c, schedule[..last]);
      StepSpends(c, Reached(c, schedule[..last]).value, schedule[last]);
    }
  }

  /** From `s`, at most `n` more steps, none of them throwing, can make `run` return. */
  ghost predicate CanReturn<P, O, M(!new)>(c: Config<P, O, M>, s: State<P, O, M>, n: nat)
    decreases n
  {
    || s.producer.at.Returned?
    || (n > 0 && exists a: Action<M> :: !Throws(a) && Enabled(c, s, a) && CanReturn(c, Next(c, s, a), n - 1))
  }

  lemma {:induction false} StateCanReturn<P, O, M(!new)>(c: Config<P, O, M>, s: State<P, O, M>, n: nat)
    requires Control(c, s) && Budget(c, s) <= n
    ensures CanReturn(c, s, n)
    decreases n
  {
    if !s.producer.at.Returned? {
      AlwaysAStep(c, s);
      var a: Action<M> :| !Throws(a) && Enabled(c, s, a);
      StepKeepsControl(c, s, a);
      StepSpends(c, s, a);
      StateCanReturn(c, Next(c, s, a), n - 1);
    }
  }

  /** From wherever a schedule has led, throws included, the remaining budget is enough to
      make `run` return. */
  lemma ReachedCanReturn<P, O(!new), M(!new)>(c: Config<P, O, M>, schedule: seq<Action<M>>, s: State<P, O, M>)
    requires Reached(c, schedule) == Some(s)
    ensures CanReturn(c, s, Budget(c, s))
  {
    assert Control(c, s) by {
      ReachedInvariant(c, schedule);
    }
    StateCanReturn(c, s, Budget(c, s));
  }
}
