/** The code that the pipeline's threads run, method by method. Each method is proved to take
    exactly the steps of the state machine that belong to its thread, which is what happens
    when no other thread interferes; the state machine says what interference can do. */
module PipelineRunners {
  import opened Options
  import opened BoundedQueues
  import opened Pipeline
  import opened PipelineLedgers

  /** `n` steps, one after the other. */
  function Iterate<S>(step: S -> S, s: S, n: nat): S {
    if n == 0 then s else step(Iterate(step, s, n - 1))
  }

  lemma {:induction false} IterateAdd<S>(step: S -> S, s: S, m: nat, n: nat)
    ensures Iterate(step, s, m + n) == Iterate(step, Iterate(step, s, m), n)
  {
    if n > 0 {
      IterateAdd(step, s, m, n - 1);
    }
  }

  type ProducerView<P, O> = (Producer<P>, Shared<P, O>)

  function ProducerOne<P, O>(o: LivePipelineOptions): ProducerView<P, O> -> ProducerView<P, O> {
    (v: ProducerView<P, O>) => ProducerNext(o, v.0, v.1)
  }

  function ProducerSteps<P, O>(o: LivePipelineOptions, v: ProducerView<P, O>, n: nat): ProducerView<P, O> {
    Iterate(ProducerOne(o), v, n)
  }

  type WorkerView<P, O> = Option<(Worker<P, O>, Shared<P, O>)>

  /** One step of a worker; None when a step was not possible. */
  function WorkerOne<P, O, M>(c: Config<P, O, M>): WorkerView<P, O> -> WorkerView<P, O> {
    (v: WorkerView<P, O>) =>
      if v.Some? && WorkerEnabled(v.value.0, v.value.1) then Some(WorkerNext(c, v.value.0, v.value.1)) else None
  }

  function WorkerSteps<P, O, M>(c: Config<P, O, M>, v: WorkerView<P, O>, n: nat): WorkerView<P, O> {
    Iterate(WorkerOne(c), v, n)
  }

  type AggregatorView<!P, O, M> = Option<(Aggregator<O, M>, Shared<P, O>)>

  function AggregatorOne<P, O, M>(c: Config<P, O, M>): AggregatorView<P, O, M> -> AggregatorView<P, O, M> {
    (v: AggregatorView<P, O, M>) =>
      if v.Some? && AggregatorEnabled(v.value.0, v.value.1)
      then Some(AggregatorNext(c, v.value.0, v.value.1)) else None
  }

  function AggregatorSteps<P, O, M>(c: Config<P, O, M>, v: AggregatorView<P, O, M>, n: nat): AggregatorView<P, O, M> {
    Iterate(AggregatorOne(c), v, n)
  }

  class PipelineRunner<P(!new), O(!new), M> {
    const config: Config<P, O, M>
    const packetQueue: BoundedQueue<seq<P>>
    const observationQueue: BoundedQueue<seq<O>>
    var counters: Counters
    var pendingPacketBatch: seq<P>
    var assetMonitor: M
    var error: Option<Failure>
    ghost var offered: seq<Offer<P>>
    ghost var applied: seq<O>
    ghost var failed: bool

    ghost predicate Valid() {
      (packetQueue as object) != (observationQueue as object)
    }

    ghost function SharedState(): Shared<P, O>
      reads this, packetQueue, observationQueue
    {
      Shared(packetQueue.State(), observationQueue.State(), counters, error, failed)
    }

    /** The producer at `at`, with `rest` still to be delivered. */
    ghost function ProducerState(at: ProducerPoint, rest: seq<P>): ProducerView<P, O>
      reads this, packetQueue, observationQueue
    {
      (Producer(at, rest, pendingPacketBatch, offered), SharedState())
    }

    ghost function WorkerState(w: Worker<P, O>): WorkerView<P, O>
      reads this, packetQueue, observationQueue
    {
      Some((w, SharedState()))
    }

    ghost function AggregatorState(at: AggregatorPoint<O>): AggregatorView<P, O, M>
      reads this, packetQueue, observationQueue
    {
      Some((Aggregator(at, assetMonitor, applied), SharedState()))
    }

    constructor (config: Config<P, O, M>)
      ensures Valid() && this.config == config && fresh(packetQueue) && fresh(observationQueue)
      ensures var s := Start(config);
              && ProducerState(Capturing, config.packets) == (s.producer, s.shared)
              && AggregatorState(AwaitingObservations) == Some((s.aggregator, s.shared))
    {
      this.config := config;
      packetQueue := new BoundedQueue(config.Options().packetQueueCapacity);
      observationQueue := new BoundedQueue(config.Options().observationQueueCapacity);
      counters := Counters(0, 0, 0, 0, 0, 0, 0);
      pendingPacketBatch, assetMonitor, error := [], config.newMonitor, None;
      offered, applied, failed := [], [], false;
    }

    /** Only the first error is kept. */
    method SetError(failure: Failure, ghost both: bool)
      modifies this`error
      ensures SharedState() == Handle(RecordError(failure, both), old(SharedState()))
    {
      if error.None? {
        error := Some(failure);
      }
    }

    /** The pushing and the counting are two steps: another thread can run in between. */
    method FlushPacketBatch(ghost final: bool, ghost rest: seq<P>)
      requires Valid()
      modifies this, packetQueue
      ensures assetMonitor == old(assetMonitor) && applied == old(applied)
      ensures old(pendingPacketBatch) == [] ==> ProducerState(Capturing, rest) == old(ProducerState(Capturing, rest))
      ensures old(pendingPacketBatch) != [] ==>
                ProducerState(if final then ClosingPackets else Capturing, rest)
                == ProducerSteps(config.Options(), old(ProducerState(Pushing(final), rest)), 2)
    {
      if pendingPacketBatch == [] {
        return;
      }
      var packetCount := |pendingPacketBatch|;
      var result := packetQueue.TryPush(pendingPacketBatch);
      offered := offered + [Offer(pendingPacketBatch, result == Pushed)];
      assert ProducerState(Counting(final, result == Pushed), rest)
          == ProducerSteps(config.Options(), old(ProducerState(Pushing(final), rest)), 1);
      if result == Pushed {
        counters := counters.(enqueued := counters.enqueued + packetCount);
      } else {
        counters := counters.(dropped := counters.dropped + packetCount);
        counters := counters.(batchesDropped := counters.batchesDropped + 1);
      }
      pendingPacketBatch := [];
    }

    method EnqueuePacket(packet: P, ghost rest: seq<P>) returns (ghost steps: nat)
      requires Valid()
      modifies this, packetQueue
      ensures assetMonitor == old(assetMonitor) && applied == old(applied)
      ensures ProducerState(Capturing, rest)
              == ProducerSteps(config.Options(), old(ProducerState(Capturing, [packet] + rest)), steps)
    {
      counters := counters.(captured := counters.captured + 1);
      pendingPacketBatch := pendingPacketBatch + [packet];
      ghost var full := |pendingPacketBatch| >= config.Options().packetBatchSize;
      assert ([packet] + rest)[1..] == rest;
      assert ProducerState(if full then Pushing(false) else Capturing, rest)
          == ProducerSteps(config.Options(), old(ProducerState(Capturing, [packet] + rest)), 1);
      steps := 1;
      if |pendingPacketBatch| >= config.Options().packetBatchSize {
        IterateAdd(ProducerOne(config.Options()), old(ProducerState(Capturing, [packet] + rest)), 1, 2);
        FlushPacketBatch(false, rest);
        steps := 3;
      }
    }

    method EnqueueNext(i: nat, ghost start: ProducerView<P, O>, ghost steps: nat) returns (ghost steps': nat)
      requires Valid() && i < |config.packets|
      requires ProducerState(Capturing, config.packets[i..]) == ProducerSteps(config.Options(), start, steps)
      modifies this, packetQueue
      ensures ProducerState(Capturing, config.packets[i + 1..]) == ProducerSteps(config.Options(), start, steps')
    {
      assert config.packets[i..] == [config.packets[i]] + config.packets[i + 1..];
      ghost var more := EnqueuePacket(config.packets[i], config.packets[i + 1..]);
      IterateAdd(ProducerOne(config.Options()), start, steps, more);
      steps' := steps + more;
    }

    /** The packet source's calls of the callback that `run` gives it. */
    method DeliverPackets() returns (ghost steps: nat)
      requires Valid()
      modifies this, packetQueue
      ensures ProducerState(Capturing, [])
              == ProducerSteps(config.Options(), old(ProducerState(Capturing, config.packets)), steps)
    {
      steps := 0;
      ghost var start := ProducerState(Capturing, config.packets);
      assert config.packets[0..] == config.packets;
      for i := 0 to |config.packets|
        invariant ProducerState(Capturing, config.packets[i..]) == ProducerSteps(config.Options(), start, steps)
      {
        steps := EnqueueNext(i, start, steps);
      }
      assert config.packets[|config.packets|..] == [];
    }

    method FinishCapture() returns (ghost steps: nat)
      requires Valid()
      modifies this, packetQueue
      ensures ProducerState(JoiningWorkers, [])
              == ProducerSteps(config.Options(), old(ProducerState(Capturing, [])), steps)
    {
      ghost var start, pending := ProducerState(Capturing, []), pendingPacketBatch;
      assert ProducerState(if pending == [] then ClosingPackets else Pushing(true), [])
          == ProducerSteps(config.Options(), start, 1);
      steps := 1;
      FlushPacketBatch(true, []);
      if pending != [] {
        IterateAdd(ProducerOne(config.Options()), start, 1, 2);
        steps := 3;
      }
      assert ProducerState(ClosingPackets, []) == ProducerSteps(config.Options(), start, steps);
      packetQueue.Close();
      steps := steps + 1;
    }

    /** The producer's part of `run`, up to the first join. */
    method ProducePackets() returns (ghost steps: nat)
      requires Valid()
      modifies this, packetQueue
      ensures ProducerState(JoiningWorkers, [])
              == ProducerSteps(config.Options(), old(ProducerState(Capturing, config.packets)), steps)
    {
      ghost var start := ProducerState(Capturing, config.packets);
      ghost var first := DeliverPackets();
      ghost var second := FinishCapture();
      IterateAdd(ProducerOne(config.Options()), start, first, second);
      steps := first + second;
    }

    /** `step` is what a worker's step does, under a name. */
    ghost predicate IsWorkerStep(step: WorkerView<P, O> -> WorkerView<P, O>) {
      forall v {:trigger WorkerOne(config)(v)} :: step(v) == WorkerOne(config)(v)
    }

    /** `throws` says whether the parser throws on this packet, which only Ethernet packets
        reach; the packet is counted as parsed before that. */
    method ParsePacket(
      packet: P, throws: bool, observations: seq<O>, ghost todo: seq<P>,
      ghost step: WorkerView<P, O> -> WorkerView<P, O>)
      returns (observations': seq<O>, threw: bool)
      requires IsWorkerStep(step) && todo != [] && todo[0] == packet
      modifies this`counters
      ensures threw == (throws && config.ethernet(packet))
      ensures observations' == if threw then observations else observations + config.ParseOne(packet)
      ensures |observations'| >= |observations|
      ensures counters == old(counters).(parsed := old(counters).parsed + 1,
                                         produced := old(counters).produced + |observations'| - |observations|)
      ensures Iterate(step, old(WorkerState(Parsing(todo, observations))), if threw then 1 else 2)
              == WorkerState(if threw then Counted(todo, observations) else Parsing(todo[1..], observations'))
    {
      ghost var start := WorkerState(Parsing(todo, observations));
      threw := false;
      counters := counters.(parsed := counters.parsed + 1);
      ghost var counted := WorkerState(Counted(todo, observations));
      assert WorkerOne(config)(start) == counted;
      assert Iterate(step, start, 1) == counted;
      if !config.ethernet(packet) {
        assert observations + [] == observations;
        assert WorkerOne(config)(counted) == WorkerState(Parsing(todo[1..], observations));
        return observations, false;
      }
      if throws {
        return observations, true;
      }
      var more := config.parse(packet);
      counters := counters.(produced := counters.produced + |more|);
      observations' := observations + more;
      assert WorkerOne(config)(counted) == WorkerState(Parsing(todo[1..], observations'));
    }

    /** One turn of the loop, as steps from the start of the batch. */
    method ParseNext(
      packets: seq<P>, i: nat, throws: bool, observations: seq<O>, ghost start: WorkerView<P, O>,
      ghost step: WorkerView<P, O> -> WorkerView<P, O>)
      returns (observations': seq<O>, threw: bool)
      requires IsWorkerStep(step) && i < |packets|
      requires Iterate(step, start, 2 * i) == WorkerState(Parsing(packets[i..], observations))
      modifies this`counters
      ensures threw == (throws && config.ethernet(packets[i]))
      ensures observations' == if threw then observations else observations + config.ParseOne(packets[i])
      ensures |observations'| >= |observations|
      ensures counters == old(counters).(parsed := old(counters).parsed + 1,
                                         produced := old(counters).produced + |observations'| - |observations|)
      ensures threw ==> Iterate(step, start, 2 * i + 1) == WorkerState(Counted(packets[i..], observations))
      ensures !threw ==> Iterate(step, start, 2 * (i + 1)) == WorkerState(Parsing(packets[i + 1..], observations'))
    {
      assert packets[i..][1..] == packets[i + 1..];
      IterateAdd(step, start, 2 * i, if throws && config.ethernet(packets[i]) then 1 else 2);
      observations', threw := ParsePacket(packets[i], throws, observations, packets[i..], step);
    }

    /** The loop; `at` is the packet on which the parser throws, if any, and `sofar[i]` what the
        first `i` packets make. */
    method ParsePackets(
      packets: seq<P>, at: Option<nat>, ghost step: WorkerView<P, O> -> WorkerView<P, O>,
      ghost sofar: seq<seq<O>>)
      returns (observations: seq<O>, threw: bool, ghost done: nat)
      requires at.Some? ==> at.value < |packets| && config.ethernet(packets[at.value])
      requires IsWorkerStep(step) && |sofar| == |packets| + 1 && sofar[0] == []
      requires forall i {:trigger packets[i]} :: 0 <= i < |packets| ==>
                 sofar[i + 1] == sofar[i] + config.ParseOne(packets[i])
      modifies this`counters
      ensures threw == at.Some? && done == (if threw then at.value else |packets|) && observations == sofar[done]
      ensures counters == old(counters).(parsed := old(counters).parsed + done + if threw then 1 else 0,
                                         produced := old(counters).produced + |observations|)
      ensures Iterate(step, old(WorkerState(Parsing(packets, []))), 2 * done + if threw then 1 else 0)
              == WorkerState(if threw then Counted(packets[done..], observations) else Parsing([], observations))
    {
      observations, threw, done := [], false, 0;
      ghost var start, was := WorkerState(Parsing(packets, [])), counters;
      assert packets[0..] == packets;
      for i := 0 to |packets|
        invariant done == i && observations == sofar[i] && !threw
        invariant at.Some? ==> i <= at.value
        invariant counters.parsed == was.parsed + i && counters.produced == was.produced + |observations|
        invariant counters == was.(parsed := counters.parsed, produced := counters.produced)
        invariant Iterate(step, start, 2 * i) == WorkerState(Parsing(packets[i..], observations))
      {
        observations, threw := ParseNext(packets, i, at == Some(i), observations, start, step);
        if threw {
          return;
        }
        done := i + 1;
      }
      assert packets[|packets|..] == [];
    }

    /** What a worker does with one batch of packets: two steps for each packet, up to the one
        on which the parser throws, if it does. */
    method ParseBatch(packets: seq<P>, throwsAt: Option<nat>) returns (observations: seq<O>, threw: bool)
      modifies this`counters
      ensures threw <==> throwsAt.Some? && throwsAt.value < |packets| && config.ethernet(packets[throwsAt.value])
      ensures var done := if threw then throwsAt.value else |packets|;
              && observations == config.ParseAll(packets[..done])
              && counters == old(counters).(parsed := old(counters).parsed + done + if threw then 1 else 0,
                                            produced := old(counters).produced + |observations|)
              && WorkerSteps(config, old(WorkerState(Parsing(packets, []))), 2 * done + if threw then 1 else 0)
                 == WorkerState(if threw then Counted(packets[done..], observations) else Parsing([], observations))
    {
      ghost var sofar := seq(|packets| + 1, i requires 0 <= i <= |packets| => config.ParseAll(packets[..i]));
      forall i | 0 <= i < |packets| ensures sofar[i + 1] == sofar[i] + config.ParseOne(packets[i]) {
        ParseAllOneMore(config, packets, i);
      }
      ghost var done;
      var hits := throwsAt.Some? && throwsAt.value < |packets| && config.ethernet(packets[throwsAt.value]);
      observations, threw, done := ParsePackets(packets, if hits then throwsAt else None, WorkerOne(config), sofar);
    }

    /** The worker's `catch`: after an exception it records the error and closes both queues. */
    method FailWorker(what: string)
      requires Valid()
      modifies this, packetQueue, observationQueue
      ensures WorkerSteps(config, old(Some(WorkerFails(WorkerThrew(what), true, SharedState()))), 3)
              == WorkerState(WorkerDone)
    {
      failed := true;
      ghost var start: WorkerView<P, O> := Some(WorkerFails(WorkerThrew(what), true, SharedState()));
      SetError(WorkerThrew(what), true);
      assert WorkerSteps(config, start, 1) == WorkerState(WorkerFailing(ClosePackets(true)));
      packetQueue.Close();
      assert WorkerSteps(config, start, 2) == WorkerState(WorkerFailing(CloseObservations));
      observationQueue.Close();
    }

    /** The end of the worker's loop body, from the return of the wait inside `waitPush` on. A
        queue found closed is an error, and closes the other queue. */
    method PushObservations(observations: seq<O>) returns (pushed: bool)
      requires Valid() && observationQueue.State().CanWaitPush()
      modifies this, packetQueue, observationQueue
      ensures pushed == !old(observationQueue.closed)
      ensures WorkerSteps(config, old(WorkerState(PushingOut(observations))), if pushed then 1 else 3)
              == WorkerState(if pushed then AwaitingPackets else WorkerDone)
    {
      ghost var start := WorkerState(PushingOut(observations));
      pushed := observationQueue.WaitPush(observations);
      if pushed {
        assert WorkerSteps(config, start, 1) == WorkerState(AwaitingPackets);
        return;
      }
      failed := true;
      assert WorkerSteps(config, start, 1) == WorkerState(WorkerFailing(RecordError(QueueClosedEarly, false)));
      SetError(QueueClosedEarly, false);
      assert WorkerSteps(config, start, 2) == WorkerState(WorkerFailing(ClosePackets(false)));
      packetQueue.Close();
    }

    /** What the aggregator does with one batch: a step for each observation, and one to count.
        `throwsAt` is the observation on which a callback throws, if one does, and `left` the
        monitor as that call leaves it; the batch is then not counted. */
    method ApplyBatch(observations: seq<O>, throwsAt: Option<nat>, left: M) returns (threw: bool, ghost before: M)
      modifies this
      ensures threw <==> throwsAt.Some? && throwsAt.value < |observations|
      ensures !threw ==>
                && counters == old(counters).(applied := old(counters).applied + |observations|)
                && AggregatorSteps(config, old(AggregatorState(Applying(observations, 0))), |observations| + 1)
                   == AggregatorState(AwaitingObservations)
      ensures threw ==>
                && SharedState() == old(SharedState()) && assetMonitor == left
                && AggregatorSteps(config, old(AggregatorState(Applying(observations, 0))), throwsAt.value)
                   == Some((Aggregator(Applying(observations, throwsAt.value), before, applied), SharedState()))
    {
      ghost var start := AggregatorState(Applying(observations, 0));
      before := assetMonitor;
      for i := 0 to |observations|
        invariant throwsAt.Some? ==> throwsAt.value >= i
        invariant SharedState() == old(SharedState())
        invariant AggregatorSteps(config, start, i) == AggregatorState(Applying(observations, i))
      {
        before := assetMonitor;
        if throwsAt == Some(i) {
          assetMonitor := left;
          return true, before;
        }
        assetMonitor := config.apply(assetMonitor, observations[i]);
        applied := applied + [observations[i]];
      }
      counters := counters.(applied := counters.applied + |observations|);
      threw := false;
    }

    /** The aggregator's `catch`. */
    method FailAggregator(what: string, ghost at: Aggregator<O, M>)
      requires Valid() && at.applied == applied
      modifies this, packetQueue, observationQueue
      ensures AggregatorSteps(config, old(Some(AggregatorThrows(at, SharedState(), what, assetMonitor))), 3)
              == AggregatorState(AggregatorDone)
    {
      failed := true;
      ghost var start: AggregatorView<P, O, M> := Some(AggregatorThrows(at, SharedState(), what, assetMonitor));
      SetError(AggregatorThrew(what), true);
      assert AggregatorSteps(config, start, 1) == AggregatorState(AggregatorFailing(ClosePackets(true)));
      packetQueue.Close();
      assert AggregatorSteps(config, start, 2) == AggregatorState(AggregatorFailing(CloseObservations));
      observationQueue.Close();
    }
  }
}
