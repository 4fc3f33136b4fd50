/** Which batches the pipeline makes of the packets, which of them are dropped, and how they stay
    together on their way. */
module PipelineBatches {
  import opened BoundedQueues
  import opened Pipeline
  import opened PipelineLedgers
  import opened PipelineTheorems

  // ---------------------------------------------------------------- sizes

  predicate Fits<T>(q: Queue<T>, capacity: nat) {
    q.capacity == capacity && |q.items| <= q.highWatermark <= capacity
  }

  lemma StepKeepsSizes<P, O, M>(c: Config<P, O, M>, s: State<P, O, M>, a: Action<M>)
    requires Enabled(c, s, a)
    ensures var g, g' := s.shared, Next(c, s, a).shared;
            && (Fits(g.packetQueue, g.packetQueue.capacity) ==> Fits(g'.packetQueue, g.packetQueue.capacity))
            && (Fits(g.observationQueue, g.observationQueue.capacity) ==>
                  Fits(g'.observationQueue, g.observationQueue.capacity))
            && |Next(c, s, a).workers| == |s.workers|
  {
  }

  /** A run has the workers and the queues that were asked for, or the defaults; the packet
      queue's capacity has no default. Neither queue ever outgrows its capacity. */
  lemma {:induction false} RunsAsRequested<P, O, M>(c: Config<P, O, M>, schedule: seq<Action<M>>)
    requires Reached(c, schedule).Some?
    ensures var s, r := Reached(c, schedule).value, c.requested;
            && Fits(s.shared.packetQueue, r.packetQueueCapacity)
            && Fits(s.shared.observationQueue,
                    if r.observationQueueCapacity == 0 then 1024 else r.observationQueueCapacity)
            && |s.workers| == if r.parserWorkerCount > 0 then r.parserWorkerCount
                              else if c.hardwareThreads > 4 then 2 else 1
  {
    if schedule != [] {
      var last := |schedule| - 1;
      RunsAsRequested(c, schedule[..last]);
      StepKeepsSizes(c, Reached(c, schedule[..last]).value, schedule[last]);
    }
  }

  // ---------------------------------------------------------------- full batches

  /** The batch size that a request leads to. */
  function BatchSize(requested: nat): nat {
    if requested == 0 then 128 else requested
  }

  function Min(a: nat, b: nat): nat {
    if a <= b then a else b
  }

  /** Where the `i`-th batch begins. */
  function First(i: nat, size: nat): nat {
    i * size
  }

  /** `size` packets from a position on, or all that are left. */
  function Stretch<P>(packets: seq<P>, size: nat, at: nat): seq<P>
    requires at <= |packets|
  {
    packets[at..Min(at + size, |packets|)]
  }

  ghost predicate CutInOrder<P>(packets: seq<P>, size: nat, offered: seq<Offer<P>>) {
    forall i :: 0 <= i < |offered| ==>
      First(i, size) < |packets| && offered[i].batch == Stretch(packets, size, First(i, size))
  }

  /** `done` packets were captured; the `k`-th batch is full, or the last. */
  ghost predicate Ready<P>(packets: seq<P>, size: nat, k: nat, pending: seq<P>, done: nat, final: bool) {
    && First(k, size) < |packets| && pending == Stretch(packets, size, First(k, size))
    && done == First(k, size) + |pending|
    && if final then done == |packets| else |pending| == size
  }

  /** The packets delivered so far, and the cuts made in them. */
  ghost predicate Batching<P>(packets: seq<P>, size: nat, p: Producer<P>) {
    && CutInOrder(packets, size, p.offered)
    && |p.rest| <= |packets| && p.rest == packets[|packets| - |p.rest|..]
    && var done, k := |packets| - |p.rest|, |p.offered|;
       match p.at
       case Capturing =>
         |p.pending| < size && done == First(k, size) + |p.pending| && p.pending == packets[First(k, size)..done]
       case Pushing(final) => Ready(packets, size, k, p.pending, done, final)
       case Counting(final, _) => k > 0 && Ready(packets, size, k - 1, p.pending, done, final)
       case _ => done == |packets| <= First(k, size)
  }

  lemma NextFirst(k: nat, size: nat)
    ensures First(k + 1, size) == First(k, size) + size
  {
  }

  lemma OneMorePacket<P>(packets: seq<P>, size: nat, p: Producer<P>)
    requires Batching(packets, size, p) && p.at.Capturing? && p.rest != []
    ensures var done := |packets| - |p.rest|;
            && p.pending + [p.rest[0]] == packets[First(|p.offered|, size)..done + 1]
            && p.rest[1..] == packets[done + 1..]
  {
    var done := |packets| - |p.rest|;
    assert p.rest[0] == packets[done];
  }

  lemma BatchIsReady<P>(packets: seq<P>, size: nat, k: nat, pending: seq<P>, done: nat, final: bool)
    requires First(k, size) <= done <= |packets| && pending == packets[First(k, size)..done] && pending != []
    requires if final then done == |packets| && |pending| <= size else |pending| == size
    ensures Ready(packets, size, k, pending, done, final)
  {
  }

  lemma OnePacketMoreWaits<P>(packets: seq<P>, size: nat, p: Producer<P>)
    requires Batching(packets, size, p) && p.at.Capturing? && p.rest != [] && |p.pending| + 1 < size
    ensures Batching(packets, size, Producer(Capturing, p.rest[1..], p.pending + [p.rest[0]], p.offered))
  {
    OneMorePacket(packets, size, p);
  }

  lemma OnePacketMoreFills<P>(packets: seq<P>, size: nat, p: Producer<P>)
    requires Batching(packets, size, p) && p.at.Capturing? && p.rest != [] && |p.pending| + 1 == size
    ensures Batching(packets, size, Producer(Pushing(false), p.rest[1..], p.pending + [p.rest[0]], p.offered))
  {
    OneMorePacket(packets, size, p);
    BatchIsReady(packets, size, |p.offered|, p.pending + [p.rest[0]], |packets| - |p.rest| + 1, false);
  }

  lemma LastPacketsAreFlushed<P>(packets: seq<P>, size: nat, p: Producer<P>)
    requires Batching(packets, size, p) && p.at.Capturing? && p.rest == []
    ensures Batching(packets, size, p.(at := if p.pending == [] then ClosingPackets else Pushing(true)))
  {
    if p.pending != [] {
      BatchIsReady(packets, size, |p.offered|, p.pending, |packets|, true);
    }
  }

  lemma CapturingKeepsBatching<P, O, M>(c: Config<P, O, M>, p: Producer<P>, g: Shared<P, O>)
    requires Batching(c.packets, BatchSize(c.requested.packetBatchSize), p) && p.at.Capturing?
    ensures Batching(c.packets, BatchSize(c.requested.packetBatchSize), ProducerNext(c.Options(), p, g).0)
  {
    var size := BatchSize(c.requested.packetBatchSize);
    if p.rest == [] {
      LastPacketsAreFlushed(c.packets, size, p);
    } else if |p.pending| + 1 < size {
      OnePacketMoreWaits(c.packets, size, p);
    } else {
      OnePacketMoreFills(c.packets, size, p);
    }
  }

  lemma PushingKeepsBatching<P, O, M>(c: Config<P, O, M>, p: Producer<P>, g: Shared<P, O>)
    requires Batching(c.packets, BatchSize(c.requested.packetBatchSize), p) && p.at.Pushing?
    ensures Batching(c.packets, BatchSize(c.requested.packetBatchSize), ProducerNext(c.Options(), p, g).0)
  {
  }

  lemma CountingKeepsBatching<P, O, M>(c: Config<P, O, M>, p: Producer<P>, g: Shared<P, O>)
    requires Batching(c.packets, BatchSize(c.requested.packetBatchSize), p) && p.at.Counting?
    ensures Batching(c.packets, BatchSize(c.requested.packetBatchSize), ProducerNext(c.Options(), p, g).0)
  {
    NextFirst(|p.offered| - 1, BatchSize(c.requested.packetBatchSize));
  }

  lemma ProducerKeepsBatching<P, O, M>(c: Config<P, O, M>, p: Producer<P>, g: Shared<P, O>)
    requires Batching(c.packets, BatchSize(c.requested.packetBatchSize), p)
    ensures Batching(c.packets, BatchSize(c.requested.packetBatchSize), ProducerNext(c.Options(), p, g).0)
  {
    match p.at
    case Capturing => CapturingKeepsBatching(c, p, g);
    case Pushing(_) => PushingKeepsBatching(c, p, g);
    case Counting(_, _) => CountingKeepsBatching(c, p, g);
    case _ =>
  }

  lemma {:induction false} ReachedBatching<P, O, M>(c: Config<P, O, M>, schedule: seq<Action<M>>)
    requires Reached(c, schedule).Some?
    ensures Batching(c.packets, BatchSize(c.requested.packetBatchSize), Reached(c, schedule).value.producer)
  {
    if schedule != [] {
      var last := |schedule| - 1;
      ReachedBatching(c, schedule[..last]);
      var s := Reached(c, schedule[..last]).value;
      if schedule[last].ProducerStep? {
        ProducerKeepsBatching(c, s.producer, s.shared);
      }
    }
  }

  /** After every schedule the batches offered so far are the successive stretches of as many
      packets as asked for; while packets are being captured fewer than that are waiting, so a
      batch is offered as soon as it is full; and at the end the last one was offered too. */
  lemma BatchesAreCutInOrder<P, O(!new), M>(c: Config<P, O, M>, schedule: seq<Action<M>>)
    requires Reached(c, schedule).Some?
    ensures var p := Reached(c, schedule).value.producer;
            var size := if c.requested.packetBatchSize == 0 then 128 else c.requested.packetBatchSize;
            var captured := Reached(c, schedule).value.shared.counters.captured;
            && (forall i :: 0 <= i < |p.offered| ==>
                  First(i, size) < |c.packets| && p.offered[i].batch == Stretch(c.packets, size, First(i, size)))
            && (p.at.Capturing? ==>
                  && |p.pending| < size && First(|p.offered|, size) <= captured <= |c.packets|
                  && p.pending == c.packets[First(|p.offered|, size)..captured])
            && (p.at.Returned? ==> captured == |c.packets| <= First(|p.offered|, size))
  {
    ReachedBatching(c, schedule);
    ReachedInvariant(c, schedule);
  }

  // ---------------------------------------------------------------- whole batches

  /** The batches that the packet queue took, in order. */
  function Taken<P>(offered: seq<Offer<P>>): seq<seq<P>> {
    if offered == [] then []
    else
      var before, last := Taken(offered[..|offered| - 1]), offered[|offered| - 1];
      if last.taken then before + [last.batch] else before
  }

  lemma {:induction false} TakenWereOffered<P>(offered: seq<Offer<P>>)
    ensures |Taken(offered)| <= |offered|
  {
    if offered != [] {
      TakenWereOffered(offered[..|offered| - 1]);
    }
  }

  /** All that one batch makes. */
  ghost predicate MadeOfOne<P(!new), O, M>(c: Config<P, O, M>, batches: seq<seq<P>>, out: seq<O>) {
    out != [] && exists b :: b in batches && out == c.ParseAll(b)
  }

  /** `todo` is the rest of a batch, `out` what was made of the packets before it. */
  ghost predicate InTheMiddle<P(!new), O, M>(c: Config<P, O, M>, batches: seq<seq<P>>, todo: seq<P>, out: seq<O>) {
    exists b, k: nat :: b in batches && k <= |b| && todo == b[k..] && out == c.ParseAll(b[..k])
  }

  ghost predicate WorkerKeepsWhole<P(!new), O, M>(c: Config<P, O, M>, batches: seq<seq<P>>, w: Worker<P, O>) {
    match w
    case Parsing(todo, out) => InTheMiddle(c, batches, todo, out)
    case Counted(todo, out) => InTheMiddle(c, batches, todo, out)
    case PushingOut(out) => MadeOfOne(c, batches, out)
    case _ => true
  }

  /** The queue holds the batches that it took last, and every batch of observations is what one
      taken batch of packets makes, never empty and never mixed with another one. */
  ghost predicate QueuesHoldWhole<P(!new), O, M>(c: Config<P, O, M>, batches: seq<seq<P>>, g: Shared<P, O>) {
    && (exists m: nat :: m <= |batches| && g.packetQueue.items == batches[m..])
    && forall i :: 0 <= i < |g.observationQueue.items| ==> MadeOfOne(c, batches, g.observationQueue.items[i])
  }

  ghost predicate AllWhole<P(!new), O, M>(c: Config<P, O, M>, s: State<P, O, M>) {
    var batches := Taken(s.producer.offered);
    && QueuesHoldWhole(c, batches, s.shared)
    && (forall i :: 0 <= i < |s.workers| ==> WorkerKeepsWhole(c, batches, s.workers[i]))
    && (s.aggregator.at.Applying? ==> MadeOfOne(c, batches, s.aggregator.at.batch))
  }

  lemma OnePacketOn<P(!new), O, M>(c: Config<P, O, M>, batches: seq<seq<P>>, todo: seq<P>, out: seq<O>)
    requires InTheMiddle(c, batches, todo, out) && todo != []
    ensures InTheMiddle(c, batches, todo[1..], out + c.ParseOne(todo[0]))
  {
    var b, k: nat :| b in batches && k <= |b| && todo == b[k..] && out == c.ParseAll(b[..k]);
    ParseAllOneMore(c, b, k);
    assert todo[1..] == b[k + 1..];
  }

  lemma BatchDone<P(!new), O, M>(c: Config<P, O, M>, batches: seq<seq<P>>, out: seq<O>)
    requires InTheMiddle(c, batches, [], out) && out != []
    ensures MadeOfOne(c, batches, out)
  {
    var b, k: nat :| b in batches && k <= |b| && [] == b[k..] && out == c.ParseAll(b[..k]);
    assert b[..k] == b;
  }

  lemma BatchBegun<P(!new), O, M>(c: Config<P, O, M>, batches: seq<seq<P>>, b: seq<P>)
    requires b in batches
    ensures InTheMiddle(c, batches, b, [])
  {
    assert b[0..] == b && c.ParseAll(b[..0]) == [];
  }

  lemma WorkerStepKeepsWhole<P(!new), O, M>(
    c: Config<P, O, M>, batches: seq<seq<P>>, w: Worker<P, O>, g: Shared<P, O>)
    requires WorkerEnabled(w, g) && WorkerKeepsWhole(c, batches, w) && QueuesHoldWhole(c, batches, g)
    ensures var (w', g') := WorkerNext(c, w, g); WorkerKeepsWhole(c, batches, w') && QueuesHoldWhole(c, batches, g')
  {
    var (w', g') := WorkerNext(c, w, g);
    match w
    case AwaitingPackets =>
      if g.packetQueue.items != [] {
        NextBatch(batches, g.packetQueue.items);
        BatchBegun(c, batches, g.packetQueue.items[0]);
      }
    case Parsing(todo, out) =>
      if todo == [] && out != [] {
        BatchDone(c, batches, out);
      }
    case Counted(todo, out) => OnePacketOn(c, batches, todo, out);
    case _ =>
  }

  lemma NextBatch<P>(batches: seq<seq<P>>, items: seq<seq<P>>)
    requires items != [] && exists m: nat :: m <= |batches| && items == batches[m..]
    ensures items[0] in batches && exists m: nat :: m <= |batches| && items[1..] == batches[m..]
  {
    var m: nat :| m <= |batches| && items == batches[m..];
    assert items[1..] == batches[m + 1..];
  }

  lemma MadeOfMore<P(!new), O, M>(c: Config<P, O, M>, batches: seq<seq<P>>, b: seq<P>, out: seq<O>)
    requires MadeOfOne(c, batches, out)
    ensures MadeOfOne(c, batches + [b], out)
  {
    var a :| a in batches && out == c.ParseAll(a);
    assert a in batches + [b];
  }

  lemma WorkerWithMore<P(!new), O, M>(c: Config<P, O, M>, batches: seq<seq<P>>, b: seq<P>, w: Worker<P, O>)
    requires WorkerKeepsWhole(c, batches, w)
    ensures WorkerKeepsWhole(c, batches + [b], w)
  {
    match w
    case PushingOut(out) => MadeOfMore(c, batches, b, out);
    case Parsing(todo, out) => InTheMiddleOfMore(c, batches, b, todo, out);
    case Counted(todo, out) => InTheMiddleOfMore(c, batches, b, todo, out);
    case _ =>
  }

  lemma InTheMiddleOfMore<P(!new), O, M>(
    c: Config<P, O, M>, batches: seq<seq<P>>, b: seq<P>, todo: seq<P>, out: seq<O>)
    requires InTheMiddle(c, batches, todo, out)
    ensures InTheMiddle(c, batches + [b], todo, out)
  {
    var a, k: nat :| a in batches && k <= |a| && todo == a[k..] && out == c.ParseAll(a[..k]);
    assert a in batches + [b];
  }

  lemma QueuedLast<P>(batches: seq<seq<P>>, items: seq<seq<P>>, b: seq<P>)
    requires exists m: nat :: m <= |batches| && items == batches[m..]
    ensures exists m: nat :: m <= |batches + [b]| && items + [b] == (batches + [b])[m..]
  {
    var m: nat :| m <= |batches| && items == batches[m..];
    assert items + [b] == (batches + [b])[m..];
  }

  lemma OfferTaken<P>(offered: seq<Offer<P>>, o: Offer<P>)
    ensures Taken(offered + [o]) == if o.taken then Taken(offered) + [o.batch] else Taken(offered)
  {
    assert (offered + [o])[..|offered|] == offered;
  }

  lemma PushKeepsWhole<P(!new), O, M>(c: Config<P, O, M>, s: State<P, O, M>)
    requires AllWhole(c, s) && s.producer.at.Pushing?
    ensures AllWhole(c, Next(c, s, ProducerStep))
  {
    var p, p' := s.producer, Next(c, s, ProducerStep).producer;
    OfferTaken(p.offered, p'.offered[|p.offered|]);
    if p'.at.pushed {
      var batches, b := Taken(p.offered), p.pending;
      QueuedLast(batches, s.shared.packetQueue.items, b);
      forall i | 0 <= i < |s.shared.observationQueue.items|
        ensures MadeOfOne(c, batches + [b], s.shared.observationQueue.items[i])
      {
        MadeOfMore(c, batches, b, s.shared.observationQueue.items[i]);
      }
      forall i | 0 <= i < |s.workers| ensures WorkerKeepsWhole(c, batches + [b], s.workers[i]) {
        WorkerWithMore(c, batches, b, s.workers[i]);
      }
      if s.aggregator.at.Applying? {
        MadeOfMore(c, batches, b, s.aggregator.at.batch);
      }
    }
  }

  lemma ProducerStepKeepsWhole<P(!new), O, M>(c: Config<P, O, M>, s: State<P, O, M>)
    requires AllWhole(c, s) && ProducerEnabled(s)
    ensures AllWhole(c, Next(c, s, ProducerStep))
  {
    if s.producer.at.Pushing? {
      PushKeepsWhole(c, s);
    }
  }

  lemma WorkersKeepWhole<P(!new), O, M>(c: Config<P, O, M>, s: State<P, O, M>, i: nat)
    requires AllWhole(c, s) && Enabled(c, s, WorkerStep(i))
    ensures AllWhole(c, Next(c, s, WorkerStep(i)))
  {
    WorkerStepKeepsWhole(c, Taken(s.producer.offered), s.workers[i], s.shared);
  }

  lemma AggregatorKeepsWhole<P(!new), O, M>(c: Config<P, O, M>, s: State<P, O, M>)
    requires AllWhole(c, s) && Enabled(c, s, AggregatorStep)
    ensures AllWhole(c, Next(c, s, AggregatorStep))
  {
    var g, g' := s.shared, Next(c, s, AggregatorStep).shared;
    assert g'.packetQueue.items == g.packetQueue.items;
    assert g'.observationQueue.items == g.observationQueue.items
           || (g.observationQueue.items != [] && g'.observationQueue.items == g.observationQueue.items[1..]);
  }

  lemma ThrowKeepsWhole<P(!new), O, M>(c: Config<P, O, M>, s: State<P, O, M>, a: Action<M>)
    requires AllWhole(c, s) && Enabled(c, s, a) && Throws(a)
    ensures AllWhole(c, Next(c, s, a))
  {
  }

  lemma StepKeepsWhole<P(!new), O, M>(c: Config<P, O, M>, s: State<P, O, M>, a: Action<M>)
    requires AllWhole(c, s) && Enabled(c, s, a)
    ensures AllWhole(c, Next(c, s, a))
  {
    match a
    case ProducerStep => ProducerStepKeepsWhole(c, s);
    case WorkerStep(i) => WorkersKeepWhole(c, s, i);
    case AggregatorStep => AggregatorKeepsWhole(c, s);
    case _ => ThrowKeepsWhole(c, s, a);
  }

  /** Batches stay whole in every run: the packet queue holds the batches that it took last, in
      order; a worker is in the middle of one taken batch; and each batch of observations comes
      from one taken batch of packets, complete and never empty. */
  lemma {:induction false} BatchesStayWhole<P(!new), O, M>(c: Config<P, O, M>, schedule: seq<Action<M>>)
    requires Reached(c, schedule).Some?
    ensures AllWhole(c, Reached(c, schedule).value)
  {
    if schedule == [] {
      assert Taken<P>([])[0..] == [];
    } else {
      var last := |schedule| - 1;
      BatchesStayWhole(c, schedule[..last]);
      StepKeepsWhole(c, Reached(c, schedule[..last]).value, schedule[last]);
    }
  }

  // ---------------------------------------------------------------- dropped batches

  /** The state in which a batch was offered explains the queue's answer. */
  ghost predicate Decides<P, O, M>(c: Config<P, O, M>, t: State<P, O, M>, i: nat, o: Offer<P>) {
    && t.producer.at.Pushing? && |t.producer.offered| == i && t.producer.pending == o.batch
    && (o.taken <==> !t.shared.packetQueue.closed
                     && |t.shared.packetQueue.items| < c.requested.packetQueueCapacity)
  }

  /** Each batch was offered at one moment of the run, and was dropped if and only if at that
      moment the packet queue was closed or held as many batches as its capacity. */
  lemma {:induction false} OffersAreDecided<P, O(!new), M>(c: Config<P, O, M>, schedule: seq<Action<M>>, i: nat)
    returns (n: nat)
    requires Reached(c, schedule).Some? && i < |Reached(c, schedule).value.producer.offered|
    ensures n < |schedule| && Reached(c, schedule[..n]).Some? && schedule[n].ProducerStep?
    ensures Decides(c, Reached(c, schedule[..n]).value, i, Reached(c, schedule).value.producer.offered[i])
  {
    var last := |schedule| - 1;
    var before := schedule[..last];
    var s := Reached(c, before).value;
    if i < |s.producer.offered| {
      n := OffersAreDecided(c, before, i);
      assert before[..n] == schedule[..n];
    } else {
      n := last;
      ReachedInvariant(c, before);
    }
  }

  lemma FewerTimes(i: nat, size: nat, capacity: nat)
    requires First(i, size) < First(capacity, size)
    ensures i < capacity
  {
    assert (i - capacity) * size == i * size - capacity * size < 0;
  }

  /** A queue with room for all batches drops none, unless something throws. */
  lemma RoomyQueueDropsNothing<P(!new), O(!new), M>(c: Config<P, O, M>, schedule: seq<Action<M>>)
    requires Reached(c, schedule).Some? && NothingThrew(schedule)
    requires |c.packets| <= c.requested.packetQueueCapacity * BatchSize(c.requested.packetBatchSize)
    ensures var offered := Reached(c, schedule).value.producer.offered;
            forall i :: 0 <= i < |offered| ==> offered[i].taken
  {
    var offered := Reached(c, schedule).value.producer.offered;
    ReachedBatching(c, schedule);
    forall i | 0 <= i < |offered| ensures offered[i].taken {
      var n := OffersAreDecided(c, schedule, i);
      FewerTimes(i, BatchSize(c.requested.packetBatchSize), c.requested.packetQueueCapacity);
      FailedExactlyWhenThrown(c, schedule[..n]);
      ReachedInvariant(c, schedule[..n]);
      BatchesStayWhole(c, schedule[..n]);
      TakenWereOffered(Reached(c, schedule[..n]).value.producer.offered);
    }
  }
}
