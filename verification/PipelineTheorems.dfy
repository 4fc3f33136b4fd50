/** What the pipeline guarantees over whole schedules. */
module PipelineTheorems {
  import opened Sequences
  import opened Pipeline
  import opened PipelineInvariants
  import opened PipelineLedgers

  // ---------------------------------------------------------------- reachable states

  ghost predicate Invariant<P, O(!new), M>(c: Config<P, O, M>, s: State<P, O, M>) {
    && Control(c, s)
    && CaptureLedger(c, s.producer, s.shared.counters)
    && PacketLedger(s) && ObservationCount(s) && MonitorFollows(c, s)
    && forall x :: ObservationLedger(c, s, x)
  }

  lemma StepKeepsInvariant<P, O(!new), M>(c: Config<P, O, M>, s: State<P, O, M>, a: Action<M>)
    requires Invariant(c, s) && Enabled(c, s, a)
    ensures Invariant(c, Next(c, s, a))
  {
    StepKeepsControl(c, s, a);
    StepKeepsCaptureLedger(c, s, a);
    StepKeepsCounts(c, s, a);
    StepKeepsMonitor(c, s, a);
    forall x ensures ObservationLedger(c, Next(c, s, a), x) {
      StepKeepsObservations(c, s, a, x);
    }
  }

  /** The invariant holds after every schedule, throwing steps included. */
  lemma {:induction false} ReachedInvariant<P, O(!new), M>(c: Config<P, O, M>, schedule: seq<Action<M>>)
    requires Reached(c, schedule).Some?
    ensures Invariant(c, Reached(c, schedule).value)
  {
    if schedule == [] {
      StartControl(c);
      StartLedgers(c);
    } else {
      var last := |schedule| - 1;
      ReachedInvariant(c, schedule[..last]);
      StepKeepsInvariant(c, Reached(c, schedule[..last]).value, schedule[last]);
    }
  }

  // ---------------------------------------------------------------- errors

  predicate Throws<M>(a: Action<M>) {
    a.WorkerThrow? || a.AggregatorThrow?
  }

  lemma FailureStays<P, O, M>(c: Config<P, O, M>, s: State<P, O, M>, a: Action<M>)
    requires Enabled(c, s, a) && (s.shared.failed || Throws(a))
    ensures Next(c, s, a).shared.failed
  {
  }

  predicate NothingThrew<M>(schedule: seq<Action<M>>) {
    forall j :: 0 <= j < |schedule| ==> !Throws(schedule[j])
  }

  /** Only a throwing step makes a run fail: a worker never finds the observation queue closed
      under its hands while nothing has failed yet. */
  lemma StepsDoNotFail<P, O, M>(c: Config<P, O, M>, s: State<P, O, M>, a: Action<M>)
    requires Control(c, s) && Enabled(c, s, a) && !s.shared.failed && !Throws(a)
    ensures !Next(c, s, a).shared.failed
  {
    if a.WorkerStep? && s.workers[a.w].PushingOut? {
      assert !s.shared.observationQueue.closed;
    }
  }

  lemma {:induction false} FailedExactlyWhenThrown<P, O(!new), M>(c: Config<P, O, M>, schedule: seq<Action<M>>)
    requires Reached(c, schedule).Some?
    ensures Reached(c, schedule).value.shared.failed <==> !NothingThrew(schedule)
  {
    if schedule != [] {
      var last := |schedule| - 1;
      var before := schedule[..last];
      var s := Reached(c, before).value;
      FailedExactlyWhenThrown(c, before);
      ReachedInvariant(c, before);
      assert schedule == before + [schedule[last]];
      if s.shared.failed || Throws(schedule[last]) {
        FailureStays(c, s, schedule[last]);
      } else {
        StepsDoNotFail(c, s, schedule[last]);
      }
    }
  }

  /** Failures are reported, and nothing else is: a finished run carries a worker's or the
      aggregator's error if and only if one of its steps threw. */
  lemma ThrowsAreReported<P, O(!new), M>(c: Config<P, O, M>, schedule: seq<Action<M>>)
    requires Reached(c, schedule).Some? && Reached(c, schedule).value.producer.at.Returned?
    ensures Reached(c, schedule).value.shared.error.None? <==> NothingThrew(schedule)
    ensures NothingThrew(schedule) ==> ResultError(c, Reached(c, schedule).value) == c.producerError
    ensures !NothingThrew(schedule) ==> ResultError(c, Reached(c, schedule).value).Some?
  {
    FailedExactlyWhenThrown(c, schedule);
    ReachedInvariant(c, schedule);
    FinishedFailing(c, Reached(c, schedule).value);
  }

  lemma FinishedFailing<P, O, M>(c: Config<P, O, M>, s: State<P, O, M>)
    requires Control(c, s) && s.producer.at.Returned?
    ensures s.shared.error.Some? <==> s.shared.failed
  {
  }

  // ---------------------------------------------------------------- no silent loss

  /** In every finished run, failing ones included, each packet of the source was counted as
      enqueued or as dropped, and nothing was parsed or applied that was not there; without
      a worker or aggregator error, everything enqueued was parsed and everything produced
      was applied. The packet queue's capacity may be 0. */
  lemma NoSilentLoss<P, O(!new), M>(c: Config<P, O, M>, schedule: seq<Action<M>>)
    requires Reached(c, schedule).Some? && Reached(c, schedule).value.producer.at.Returned?
    ensures var s := Reached(c, schedule).value;
            var k := s.shared.counters;
            && k.captured == |c.packets| == k.enqueued + k.dropped
            && Batches(s.producer.offered) == c.packets
            && |Accepted(s.producer.offered)| == k.enqueued
            && Refused(s.producer.offered) == k.batchesDropped
            && k.parsed <= k.enqueued
            && k.applied <= k.produced
            && (s.shared.error.None? ==> k.parsed == k.enqueued && k.applied == k.produced)
  {
    ReachedInvariant(c, schedule);
    var s := Reached(c, schedule).value;
    if s.shared.error.None? {
      FinishedClean(c, s);
    }
  }

  /** A finished run without an error left nothing behind. */
  lemma FinishedClean<P, O(!new), M>(c: Config<P, O, M>, s: State<P, O, M>)
    requires Control(c, s) && s.producer.at.Returned? && s.shared.error.None?
    ensures !s.shared.failed && s.aggregator.at.AggregatorDone?
    ensures s.shared.packetQueue.items == [] && s.shared.observationQueue.items == []
    ensures AllUncounted(s.workers) == 0 && AllUnpushed(s.workers) == 0 && forall x :: AllHeld(c, s.workers, x) == 0
  {
    IdleWorkersHoldNothing(c, s.workers);
    assert s.workers[0].WorkerDone?;
  }

  // ---------------------------------------------------------------- schedule independence

  /** With any number of workers and any schedule, a run that ends without an error gave the
      monitor a rearrangement of what the sequential loop parses out of the accepted packets,
      and the monitor is exactly what that rearrangement makes of a fresh one. */
  lemma ScheduleIndependence<P, O(!new), M>(c: Config<P, O, M>, schedule: seq<Action<M>>)
    requires Reached(c, schedule).Some?
    requires Reached(c, schedule).value.producer.at.Returned? && Reached(c, schedule).value.shared.error.None?
    ensures var s := Reached(c, schedule).value;
            && multiset(s.aggregator.applied) == multiset(c.ParseAll(Accepted(s.producer.offered)))
            && s.aggregator.monitor == c.Monitor(s.aggregator.applied)
  {
    ReachedInvariant(c, schedule);
    var s := Reached(c, schedule).value;
    FinishedClean(c, s);
    forall x ensures multiset(s.aggregator.applied)[x] == multiset(c.ParseAll(Accepted(s.producer.offered)))[x] {
      assert ObservationLedger(c, s, x);
    }
  }

  /** Every run, failing or not, only ever applied observations of accepted packets, each at
      most as often as it occurs in them. */
  lemma NothingInvented<P, O(!new), M>(c: Config<P, O, M>, schedule: seq<Action<M>>)
    requires Reached(c, schedule).Some?
    ensures var s := Reached(c, schedule).value;
            multiset(s.aggregator.applied) <= multiset(c.ParseAll(Accepted(s.producer.offered)))
  {
    ReachedInvariant(c, schedule);
    var s := Reached(c, schedule).value;
    forall x ensures multiset(s.aggregator.applied)[x] <= multiset(c.ParseAll(Accepted(s.producer.offered)))[x] {
      assert ObservationLedger(c, s, x);
    }
  }

  // ---------------------------------------------------------------- one worker: refinement

  /** With one worker the observations on their way are one line, in the order of capture. */
  ghost predicate InOrder<P, O, M>(c: Config<P, O, M>, s: State<P, O, M>) {
    |s.workers| == 1 && !s.shared.failed ==>
      s.aggregator.applied
      + (HeldByAggregator(s.aggregator.at)
         + (Flat(s.shared.observationQueue.items)
            + (HeldByWorker(c, s.workers[0]) + c.ParseAll(Flat(s.shared.packetQueue.items)))))
      == c.ParseAll(Accepted(s.producer.offered))
  }

  lemma WorkerKeepsOrder<P, O, M>(c: Config<P, O, M>, s: State<P, O, M>)
    requires InOrder(c, s) && CleanSoFar(s) && Enabled(c, s, WorkerStep(0))
    ensures InOrder(c, Next(c, s, WorkerStep(0)))
  {
    if !WorkerFails?(c, s.workers[0], s.shared) {
      WorkerCarries(c, s.workers[0], s.shared);
    }
  }

  lemma ProducerKeepsOrder<P, O, M>(c: Config<P, O, M>, s: State<P, O, M>)
    requires InOrder(c, s) && ProducerEnabled(s)
    ensures InOrder(c, Next(c, s, ProducerStep))
  {
    if |s.workers| == 1 && !s.shared.failed {
      var batch := ProducerOffers(c.Options(), s.producer, s.shared);
      ParseAllConcat(c, Flat(s.shared.packetQueue.items), batch);
      ParseAllConcat(c, Accepted(s.producer.offered), batch);
      AppendInside(s.aggregator.applied, HeldByAggregator(s.aggregator.at), Flat(s.shared.observationQueue.items),
              HeldByWorker(c, s.workers[0]), c.ParseAll(Flat(s.shared.packetQueue.items)), c.ParseAll(batch));
    }
  }

  lemma AggregatorKeepsOrder<P, O, M>(c: Config<P, O, M>, s: State<P, O, M>)
    requires InOrder(c, s) && Shape(c, s) && Enabled(c, s, AggregatorStep)
    ensures InOrder(c, Next(c, s, AggregatorStep))
  {
    if |s.workers| == 1 && !s.shared.failed {
      var (a', g') := AggregatorNext(c, s.aggregator, s.shared);
      AggregatorCarries(c, s.aggregator, s.shared);
      var more := HeldByWorker(c, s.workers[0]) + c.ParseAll(Flat(s.shared.packetQueue.items));
      AssociativeLast(s.aggregator.applied, HeldByAggregator(s.aggregator.at),
                      Flat(s.shared.observationQueue.items), more);
      AssociativeLast(a'.applied, HeldByAggregator(a'.at), Flat(g'.observationQueue.items), more);
    }
  }

  lemma StepKeepsOrder<P, O, M>(c: Config<P, O, M>, s: State<P, O, M>, a: Action<M>)
    requires InOrder(c, s) && Shape(c, s) && CleanSoFar(s) && Enabled(c, s, a)
    ensures InOrder(c, Next(c, s, a))
  {
    if |s.workers| == 1 {
      match a
      case ProducerStep => ProducerKeepsOrder(c, s);
      case WorkerStep(_) => WorkerKeepsOrder(c, s);
      case AggregatorStep => AggregatorKeepsOrder(c, s);
      case _ => FailureStays(c, s, a);
    }
  }

  lemma {:induction false} ReachedInOrder<P, O(!new), M>(c: Config<P, O, M>, schedule: seq<Action<M>>)
    requires Reached(c, schedule).Some?
    ensures InOrder(c, Reached(c, schedule).value)
  {
    if schedule != [] {
      var last := |schedule| - 1;
      var s := Reached(c, schedule[..last]).value;
      ReachedInvariant(c, schedule[..last]);
      ReachedInOrder(c, schedule[..last]);
      StepKeepsOrder(c, s, schedule[last]);
    }
  }

  /** With one worker, every schedule that ends without an error applies exactly what the
      sequential loop applies for the accepted packets, in the same order, so the final
      monitor (assets and callbacks) is the sequential one. */
  lemma SingleWorkerRefinement<P, O(!new), M>(c: Config<P, O, M>, schedule: seq<Action<M>>)
    requires c.Options().parserWorkerCount == 1
    requires Reached(c, schedule).Some?
    requires Reached(c, schedule).value.producer.at.Returned? && Reached(c, schedule).value.shared.error.None?
    ensures var s := Reached(c, schedule).value;
            && s.aggregator.applied == c.ParseAll(Accepted(s.producer.offered))
            && s.aggregator.monitor == c.Monitor(c.ParseAll(Accepted(s.producer.offered)))
  {
    ReachedInvariant(c, schedule);
    ReachedInOrder(c, schedule);
    FinishedClean(c, Reached(c, schedule).value);
  }

  // ---------------------------------------------------------------- progress

  /** Deadlock freedom: whatever happened so far, some thread can take a step without
      throwing until `run` has returned. It rests on the observation queue's capacity being
      at least 1 after normalisation and on `tryPush` never blocking. */
  lemma AlwaysAStep<P, O, M>(c: Config<P, O, M>, s: State<P, O, M>)
    requires Control(c, s) && !s.producer.at.Returned?
    ensures exists a: Action<M> :: !Throws(a) && Enabled(c, s, a)
  {
    if ProducerEnabled(s) {
      assert Enabled(c, s, ProducerStep);
    } else if s.producer.at.JoiningWorkers? {
      var i :| 0 <= i < |s.workers| && !s.workers[i].WorkerDone?;
      if !Enabled(c, s, WorkerStep(i)) {
        assert Enabled(c, s, AggregatorStep);
      }
    } else {
      assert Enabled(c, s, AggregatorStep);
    }
  }
}
