/** The concurrent capture pipeline as a state machine: one producer, any number of parser
    workers and one aggregator around two bounded queues. A schedule is the sequence of
    steps that the threads happen to take; every statement that touches shared state is one
    step, a blocking queue call is a step enabled by its wait condition, and wherever the
    source may throw a throwing step is possible too. */
module Pipeline {
  import opened Options
  import opened BoundedQueues

  const DEFAULT_PACKET_BATCH_SIZE: nat := 128
  const DEFAULT_QUEUE_CAPACITY: nat := 1024

  datatype LivePipelineOptions = LivePipelineOptions(
    packetBatchSize: nat,
    packetQueueCapacity: nat,
    observationQueueCapacity: nat,
    parserWorkerCount: nat)

  function DefaultWorkerCount(hardwareThreads: nat): nat {
    if hardwareThreads <= 4 then 1 else 2
  }

  /** The packet queue's capacity is deliberately left alone, so it may be 0. */
  function Normalize(o: LivePipelineOptions, hardwareThreads: nat): LivePipelineOptions {
    LivePipelineOptions(
      if o.packetBatchSize == 0 then DEFAULT_PACKET_BATCH_SIZE else o.packetBatchSize,
      o.packetQueueCapacity,
      if o.observationQueueCapacity == 0 then DEFAULT_QUEUE_CAPACITY else o.observationQueueCapacity,
      if o.parserWorkerCount == 0 then DefaultWorkerCount(hardwareThreads) else o.parserWorkerCount)
  }

  /** What a run is started with. The parser and the monitor are any functions at all. */
  datatype Config<!P, !O, !M> = Config(
    requested: LivePipelineOptions,
    hardwareThreads: nat,
    packets: seq<P>,
    producerError: Option<string>,
    ethernet: P -> bool,
    parse: P -> seq<O>,
    newMonitor: M,
    apply: (M, O) -> M)
  {
    function Options(): LivePipelineOptions {
      Normalize(requested, hardwareThreads)
    }

    function ParseOne(p: P): seq<O> {
      if ethernet(p) then parse(p) else []
    }

    /** Everything the sequential loop would parse out of these packets. */
    function ParseAll(ps: seq<P>): seq<O> {
      if ps == [] then [] else ParseOne(ps[0]) + ParseAll(ps[1..])
    }

    /** A fresh monitor fed these observations one after the other. */
    function Monitor(os: seq<O>): M {
      if os == [] then newMonitor else apply(Monitor(os[..|os| - 1]), os[|os| - 1])
    }
  }

  datatype Failure =
    | QueueClosedEarly
    | WorkerThrew(what: string)
    | AggregatorThrew(what: string)
  {
    function Message(): string {
      match this
      case QueueClosedEarly => "observation queue closed before parser workers finished"
      case WorkerThrew(what) => "parser worker failed" + what
      case AggregatorThrew(what) => "asset aggregator failed" + what
    }
  }

  /** What is left of an error handler: it records the error, then closes one queue or both. */
  datatype Handler =
    | RecordError(failure: Failure, both: bool)
    | ClosePackets(both: bool)
    | CloseObservations

  datatype ProducerPoint =
    | Capturing
    | Pushing(final: bool)
    | Counting(final: bool, pushed: bool)
    | ClosingPackets
    | JoiningWorkers
    | ClosingObservations
    | JoiningAggregator
    | Returned

  /** A batch given to `tryPush`, and whether the queue took it. */
  datatype Offer<P> = Offer(batch: seq<P>, taken: bool)

  /** `rest` is what the packet source still has to deliver; `offered` only records history. */
  datatype Producer<P> = Producer(at: ProducerPoint, rest: seq<P>, pending: seq<P>, offered: seq<Offer<P>>)

  datatype Worker<P, O> =
    | AwaitingPackets
    | Parsing(todo: seq<P>, out: seq<O>)
    | Counted(todo: seq<P>, out: seq<O>)  // todo[0] is counted as parsed but not parsed yet
    | PushingOut(out: seq<O>)
    | WorkerFailing(handler: Handler)
    | WorkerDone

  datatype AggregatorPoint<O> =
    | AwaitingObservations
    | Applying(batch: seq<O>, next: nat)
    | AggregatorFailing(handler: Handler)
    | AggregatorDone

  /** `applied` only records history: what the monitor was given since the run started. */
  datatype Aggregator<O, M> = Aggregator(at: AggregatorPoint<O>, monitor: M, applied: seq<O>)

  datatype Counters = Counters(
    captured: nat, enqueued: nat, dropped: nat, batchesDropped: nat,
    parsed: nat, produced: nat, applied: nat)

  /** What the threads share. `failed` only records whether a thread ever failed. */
  datatype Shared<P, O> = Shared(
    packetQueue: Queue<seq<P>>,
    observationQueue: Queue<seq<O>>,
    counters: Counters,
    error: Option<Failure>,
    failed: bool)

  datatype State<P, O, M> = State(
    producer: Producer<P>,
    workers: seq<Worker<P, O>>,
    aggregator: Aggregator<O, M>,
    shared: Shared<P, O>)

  function Start<P, O, M>(c: Config<P, O, M>): State<P, O, M> {
    State(
      Producer(Capturing, c.packets, [], []),
      seq(c.Options().parserWorkerCount, _ => AwaitingPackets),
      Aggregator(AwaitingObservations, c.newMonitor, []),
      Shared(EmptyQueue(c.Options().packetQueueCapacity), EmptyQueue(c.Options().observationQueueCapacity),
             Counters(0, 0, 0, 0, 0, 0, 0), None, false))
  }

  // ---------------------------------------------------------------- the producer

  /** Packet delivery, `enqueuePacket`, `flushPacketBatch`, and the shutdown sequence of `run`. */
  function ProducerNext<P, O>(o: LivePipelineOptions, p: Producer<P>, g: Shared<P, O>): (Producer<P>, Shared<P, O>)
  {
    match p.at
    case Capturing =>
      if p.rest == [] then
        (p.(at := if p.pending == [] then ClosingPackets else Pushing(true)), g)
      else
        var pending := p.pending + [p.rest[0]];
        (Producer(if |pending| >= o.packetBatchSize then Pushing(false) else Capturing,
                  p.rest[1..], pending, p.offered),
         g.(counters := g.counters.(captured := g.counters.captured + 1)))
    case Pushing(final) =>
      var taken := g.packetQueue.PushOutcome() == Pushed;
      (p.(at := Counting(final, taken), offered := p.offered + [Offer(p.pending, taken)]),
       g.(packetQueue := g.packetQueue.TryPush(p.pending)))
    case Counting(final, pushed) =>
      var n := |p.pending|;
      var k := g.counters;
      (p.(at := if final then ClosingPackets else Capturing, pending := []),
       g.(counters := if pushed then k.(enqueued := k.enqueued + n)
                      else k.(dropped := k.dropped + n, batchesDropped := k.batchesDropped + 1)))
    case ClosingPackets => (p.(at := JoiningWorkers), g.(packetQueue := g.packetQueue.Close()))
    case JoiningWorkers => (p.(at := ClosingObservations), g)
    case ClosingObservations => (p.(at := JoiningAggregator), g.(observationQueue := g.observationQueue.Close()))
    case JoiningAggregator => (p.(at := Returned), g)
    case Returned => (p, g)
  }

  // ---------------------------------------------------------------- error handlers

  function Handle<P, O>(h: Handler, g: Shared<P, O>): Shared<P, O> {
    match h
    case RecordError(failure, _) => g.(error := if g.error.None? then Some(failure) else g.error)
    case ClosePackets(_) => g.(packetQueue := g.packetQueue.Close())
    case CloseObservations => g.(observationQueue := g.observationQueue.Close())
  }

  function HandlerNext(h: Handler): Option<Handler> {
    match h
    case RecordError(_, both) => Some(ClosePackets(both))
    case ClosePackets(both) => if both then Some(CloseObservations) else None
    case CloseObservations => None
  }

  // ---------------------------------------------------------------- parser workers

  predicate WorkerEnabled<P, O>(w: Worker<P, O>, g: Shared<P, O>) {
    match w
    case AwaitingPackets => g.packetQueue.CanWaitPop()
    case PushingOut(_) => g.observationQueue.CanWaitPush()
    case Counted(todo, _) => todo != []
    case WorkerDone => false
    case _ => true
  }

  function WorkerNext<P, O, M>(c: Config<P, O, M>, w: Worker<P, O>, g: Shared<P, O>): (Worker<P, O>, Shared<P, O>)
    requires WorkerEnabled(w, g)
  {
    match w
    case AwaitingPackets =>
      if g.packetQueue.items == [] then (WorkerDone, g)
      else (Parsing(g.packetQueue.items[0], []), g.(packetQueue := g.packetQueue.WaitPop()))
    case Parsing(todo, out) =>
      if todo != [] then (Counted(todo, out), g.(counters := g.counters.(parsed := g.counters.parsed + 1)))
      else (if out == [] then AwaitingPackets else PushingOut(out), g)
    case Counted(todo, out) =>
      var observations := c.ParseOne(todo[0]);
      (Parsing(todo[1..], out + observations),
       g.(counters := g.counters.(produced := g.counters.produced + |observations|)))
    case PushingOut(out) =>
      if g.observationQueue.closed then
        WorkerFails(QueueClosedEarly, false, g)
      else (AwaitingPackets, g.(observationQueue := g.observationQueue.WaitPush(out)))
    case WorkerFailing(h) =>
      (match HandlerNext(h) case Some(h') => WorkerFailing(h') case None => WorkerDone, Handle(h, g))
  }

  function WorkerFails<P, O>(failure: Failure, both: bool, g: Shared<P, O>): (Worker<P, O>, Shared<P, O>) {
    (WorkerFailing(RecordError(failure, both)), g.(failed := true))
  }

  /** Only parsing an Ethernet packet can throw. */
  predicate WorkerMayThrow<P, O, M>(c: Config<P, O, M>, w: Worker<P, O>) {
    w.Counted? && w.todo != [] && c.ethernet(w.todo[0])
  }

  // ---------------------------------------------------------------- the aggregator

  predicate AggregatorEnabled<P, O, M>(a: Aggregator<O, M>, g: Shared<P, O>) {
    match a.at
    case AwaitingObservations => g.observationQueue.CanWaitPop()
    case AggregatorDone => false
    case _ => true
  }

  function AggregatorNext<P, O, M>(c: Config<P, O, M>, a: Aggregator<O, M>, g: Shared<P, O>)
    : (Aggregator<O, M>, Shared<P, O>)
    requires AggregatorEnabled(a, g)
  {
    match a.at
    case AwaitingObservations =>
      if g.observationQueue.items == [] then (a.(at := AggregatorDone), g)
      else (a.(at := Applying(g.observationQueue.items[0], 0)), g.(observationQueue := g.observationQueue.WaitPop()))
    case Applying(batch, next) =>
      if next < |batch| then
        (Aggregator(Applying(batch, next + 1), c.apply(a.monitor, batch[next]), a.applied + [batch[next]]), g)
      else
        (a.(at := AwaitingObservations), g.(counters := g.counters.(applied := g.counters.applied + |batch|)))
    case AggregatorFailing(h) =>
      (a.(at := match HandlerNext(h) case Some(h') => AggregatorFailing(h') case None => AggregatorDone), Handle(h, g))
  }

  /** The callbacks that the monitor fires can throw. */
  predicate AggregatorMayThrow<O, M>(a: Aggregator<O, M>) {
    a.at.Applying? && a.at.next < |a.at.batch|
  }

  function AggregatorThrows<P, O, M>(a: Aggregator<O, M>, g: Shared<P, O>, what: string, left: M)
    : (Aggregator<O, M>, Shared<P, O>)
  {
    (a.(at := AggregatorFailing(RecordError(AggregatorThrew(what), true)), monitor := left), g.(failed := true))
  }

  // ---------------------------------------------------------------- schedules

  datatype Action<M> =
    | ProducerStep
    | WorkerStep(w: nat)
    | WorkerThrow(w: nat, what: string)
    | AggregatorStep
    | AggregatorThrow(what: string, left: M)  // `left` is the monitor as the throwing call leaves it

  predicate ProducerEnabled<P, O, M>(s: State<P, O, M>) {
    match s.producer.at
    case JoiningWorkers => forall w :: 0 <= w < |s.workers| ==> s.workers[w].WorkerDone?
    case JoiningAggregator => s.aggregator.at.AggregatorDone?
    case Returned => false
    case _ => true
  }

  predicate Enabled<P, O, M>(c: Config<P, O, M>, s: State<P, O, M>, a: Action<M>) {
    match a
    case ProducerStep => ProducerEnabled(s)
    case WorkerStep(w) => w < |s.workers| && WorkerEnabled(s.workers[w], s.shared)
    case WorkerThrow(w, _) => w < |s.workers| && WorkerMayThrow(c, s.workers[w])
    case AggregatorStep => AggregatorEnabled(s.aggregator, s.shared)
    case AggregatorThrow(_, _) => AggregatorMayThrow(s.aggregator)
  }

  function Next<P, O, M>(c: Config<P, O, M>, s: State<P, O, M>, a: Action<M>): State<P, O, M>
    requires Enabled(c, s, a)
  {
    match a
    case ProducerStep =>
      var (p, g) := ProducerNext(c.Options(), s.producer, s.shared);
      s.(producer := p, shared := g)
    case WorkerStep(i) =>
      var (w, g) := WorkerNext(c, s.workers[i], s.shared);
      s.(workers := s.workers[i := w], shared := g)
    case WorkerThrow(i, what) =>
      var (w, g) := WorkerFails(WorkerThrew(what), true, s.shared);
      s.(workers := s.workers[i := w], shared := g)
    case AggregatorStep =>
      var (a, g) := AggregatorNext(c, s.aggregator, s.shared);
      s.(aggregator := a, shared := g)
    case AggregatorThrow(what, left) =>
      var (a, g) := AggregatorThrows(s.aggregator, s.shared, what, left);
      s.(aggregator := a, shared := g)
  }

  /** Where a schedule leads, or None if some step of it was not enabled. */
  function Reached<P, O, M>(c: Config<P, O, M>, schedule: seq<Action<M>>): Option<State<P, O, M>> {
    if schedule == [] then Some(Start(c))
    else
      var last := |schedule| - 1;
      var before := Reached(c, schedule[..last]);
      if before.Some? && Enabled(c, before.value, schedule[last])
      then Some(Next(c, before.value, schedule[last]))
      else None
  }

  /** The error that `run` reports for a finished run: the producer's comes first. */
  function ResultError<P, O, M>(c: Config<P, O, M>, s: State<P, O, M>): Option<string> {
    if c.producerError.Some? then c.producerError
    else if s.shared.error.Some? then Some(s.shared.error.value.Message())
    else None
  }

  /** The packets of the batches that the packet queue took, in the order of capture. */
  function Accepted<P>(offered: seq<Offer<P>>): seq<P> {
    if offered == [] then []
    else
      var last := offered[|offered| - 1];
      Accepted(offered[..|offered| - 1]) + if last.taken then last.batch else []
  }

  function Batches<P>(offered: seq<Offer<P>>): seq<P> {
    if offered == [] then [] else Batches(offered[..|offered| - 1]) + offered[|offered| - 1].batch
  }

  function Refused<P>(offered: seq<Offer<P>>): nat {
    if offered == [] then 0
    else Refused(offered[..|offered| - 1]) + if offered[|offered| - 1].taken then 0 else 1
  }
}
