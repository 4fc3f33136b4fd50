/** What every step of the pipeline keeps, whichever thread takes it. */
module PipelineInvariants {
  import opened BoundedQueues
  import opened Pipeline

  // ---------------------------------------------------------------- control

  predicate PacketsClosedByProducer(p: ProducerPoint) {
    p.JoiningWorkers? || WorkersJoined(p)
  }

  predicate WorkersJoined(p: ProducerPoint) {
    p.ClosingObservations? || ObservationsClosedByProducer(p)
  }

  predicate ObservationsClosedByProducer(p: ProducerPoint) {
    p.JoiningAggregator? || p.Returned?
  }

  ghost predicate Shape<P, O, M>(c: Config<P, O, M>, s: State<P, O, M>) {
    && |s.workers| == c.Options().parserWorkerCount
    && s.shared.packetQueue.capacity == c.Options().packetQueueCapacity
    && s.shared.observationQueue.capacity == c.Options().observationQueueCapacity
    && |s.shared.observationQueue.items| <= s.shared.observationQueue.capacity
    && (forall i :: 0 <= i < |s.workers| && s.workers[i].Counted? ==> s.workers[i].todo != [])
    && (s.aggregator.at.Applying? ==> s.aggregator.at.next <= |s.aggregator.at.batch|)
  }

  predicate ClosesBoth(h: Handler) {
    h.CloseObservations? || h.both
  }

  /** The fixed order of shutdown. */
  ghost predicate Shutdown<P, O, M>(s: State<P, O, M>) {
    var p := s.producer.at;
    && (PacketsClosedByProducer(p) ==> s.shared.packetQueue.closed)
    && (ObservationsClosedByProducer(p) ==> s.shared.observationQueue.closed)
    && (WorkersJoined(p) ==> forall i :: 0 <= i < |s.workers| ==> s.workers[i].WorkerDone?)
    && (p.Returned? ==> s.aggregator.at.AggregatorDone?)
    && (s.aggregator.at.AggregatorFailing? ==> ClosesBoth(s.aggregator.at.handler))
    && (s.aggregator.at.AggregatorDone? ==> s.shared.observationQueue.closed)
  }

  ghost predicate ProducerPlace<P>(p: Producer<P>) {
    && (p.at.Pushing? || p.at.Counting? ==> p.pending != [])
    && ((p.at.Pushing? || p.at.Counting?) && p.at.final ==> p.rest == [])
    && (p.at.ClosingPackets? || PacketsClosedByProducer(p.at) ==> p.rest == [] && p.pending == [])
  }

  predicate WorkerRecords<P, O>(w: Worker<P, O>) {
    w.WorkerFailing? && w.handler.RecordError?
  }

  predicate AggregatorRecords<O, M>(a: Aggregator<O, M>) {
    a.at.AggregatorFailing? && a.at.handler.RecordError?
  }

  /** A failure is on its way into `error`, or there already. */
  ghost predicate ErrorRecorded<P, O, M>(s: State<P, O, M>) {
    && (s.shared.error.Some? ==> s.shared.failed)
    && (s.shared.failed && s.shared.error.None? ==>
          || AggregatorRecords(s.aggregator)
          || exists i :: 0 <= i < |s.workers| && WorkerRecords(s.workers[i]))
  }

  /** What the absence of a failure so far guarantees. */
  ghost predicate CleanSoFar<P, O, M>(s: State<P, O, M>) {
    !s.shared.failed ==>
      && (s.shared.packetQueue.closed ==> PacketsClosedByProducer(s.producer.at))
      && (s.shared.observationQueue.closed ==> ObservationsClosedByProducer(s.producer.at))
      && !s.aggregator.at.AggregatorFailing?
      && (s.aggregator.at.AggregatorDone? ==> s.shared.observationQueue.items == [])
      && forall i :: 0 <= i < |s.workers| ==>
           && !s.workers[i].WorkerFailing?
           && (s.workers[i].WorkerDone? ==> s.shared.packetQueue.closed && s.shared.packetQueue.items == [])
  }

  ghost predicate Control<P, O, M>(c: Config<P, O, M>, s: State<P, O, M>) {
    Shape(c, s) && Shutdown(s) && ProducerPlace(s.producer) && ErrorRecorded(s) && CleanSoFar(s)
  }

  lemma StartControl<P, O, M>(c: Config<P, O, M>)
    ensures Control(c, Start(c))
  {
  }

  lemma ProducerKeepsControl<P, O, M>(c: Config<P, O, M>, s: State<P, O, M>)
    requires Control(c, s) && ProducerEnabled(s)
    ensures Control(c, Next(c, s, ProducerStep))
  {
  }

  lemma WorkerKeepsPlaces<P, O, M>(c: Config<P, O, M>, s: State<P, O, M>, i: nat)
    requires Control(c, s) && Enabled(c, s, WorkerStep(i))
    ensures var s' := Next(c, s, WorkerStep(i)); Shape(c, s') && Shutdown(s')
  {
  }

  lemma WorkerKeepsCleanSoFar<P, O, M>(c: Config<P, O, M>, s: State<P, O, M>, i: nat)
    requires Control(c, s) && Enabled(c, s, WorkerStep(i))
    ensures CleanSoFar(Next(c, s, WorkerStep(i)))
  {
  }

  lemma WorkerKeepsErrorRecorded<P, O, M>(c: Config<P, O, M>, s: State<P, O, M>, i: nat)
    requires Control(c, s) && Enabled(c, s, WorkerStep(i))
    ensures ErrorRecorded(Next(c, s, WorkerStep(i)))
  {
    var s' := Next(c, s, WorkerStep(i));
    forall v | 0 <= v < |s.workers| && v != i ensures s'.workers[v] == s.workers[v] {
    }
    assert !s.shared.failed && s'.shared.failed ==> WorkerRecords(s'.workers[i]);
  }

  lemma WorkerThrowKeepsControl<P, O, M>(c: Config<P, O, M>, s: State<P, O, M>, i: nat, what: string)
    requires Control(c, s) && Enabled(c, s, WorkerThrow(i, what))
    ensures Control(c, Next(c, s, WorkerThrow(i, what)))
  {
    assert WorkerRecords(Next(c, s, WorkerThrow(i, what)).workers[i]);
  }

  lemma AggregatorKeepsControl<P, O, M>(c: Config<P, O, M>, s: State<P, O, M>)
    requires Control(c, s) && AggregatorEnabled(s.aggregator, s.shared)
    ensures Control(c, Next(c, s, AggregatorStep))
  {
  }

  lemma AggregatorThrowKeepsControl<P, O, M>(c: Config<P, O, M>, s: State<P, O, M>, what: string, left: M)
    requires Control(c, s) && AggregatorMayThrow(s.aggregator)
    ensures Control(c, Next(c, s, AggregatorThrow(what, left)))
  {
  }

  lemma StepKeepsControl<P, O, M>(c: Config<P, O, M>, s: State<P, O, M>, a: Action<M>)
    requires Control(c, s) && Enabled(c, s, a)
    ensures Control(c, Next(c, s, a))
  {
    match a
    case ProducerStep => ProducerKeepsControl(c, s);
    case WorkerStep(i) =>
      WorkerKeepsPlaces(c, s, i);
      WorkerKeepsCleanSoFar(c, s, i);
      WorkerKeepsErrorRecorded(c, s, i);
    case WorkerThrow(i, what) => WorkerThrowKeepsControl(c, s, i, what);
    case AggregatorStep => AggregatorKeepsControl(c, s);
    case AggregatorThrow(what, left) => AggregatorThrowKeepsControl(c, s, what, left);
  }

  // ---------------------------------------------------------------- the producer's ledger

  /** Every captured packet is counted as enqueued or dropped once, or is still pending. */
  ghost predicate CaptureLedger<P, O, M>(c: Config<P, O, M>, p: Producer<P>, k: Counters) {
    && Batches(p.offered) + (if p.at.Counting? then [] else p.pending) + p.rest == c.packets
    && k.captured == |c.packets| - |p.rest|
    && k.captured == k.enqueued + k.dropped + |p.pending|
    && |Accepted(p.offered)| == k.enqueued + (if p.at.Counting? && p.at.pushed then |p.pending| else 0)
    && Refused(p.offered) == k.batchesDropped + (if p.at.Counting? && !p.at.pushed then 1 else 0)
  }

  lemma OfferOne<P>(offered: seq<Offer<P>>, o: Offer<P>)
    ensures Batches(offered + [o]) == Batches(offered) + o.batch
    ensures Accepted(offered + [o]) == Accepted(offered) + if o.taken then o.batch else []
    ensures Refused(offered + [o]) == Refused(offered) + if o.taken then 0 else 1
  {
    assert (offered + [o])[..|offered|] == offered;
  }

  lemma ProducerKeepsCaptureLedger<P, O, M>(c: Config<P, O, M>, p: Producer<P>, g: Shared<P, O>)
    requires ProducerPlace(p) && CaptureLedger(c, p, g.counters)
    ensures var (p', g') := ProducerNext(c.Options(), p, g); CaptureLedger(c, p', g'.counters)
  {
    if p.at.Pushing? {
      OfferOne(p.offered, Offer(p.pending, g.packetQueue.PushOutcome() == Pushed));
    } else if p.at.Capturing? && p.rest != [] {
      assert p.pending + p.rest == (p.pending + [p.rest[0]]) + p.rest[1..];
    }
  }
}
