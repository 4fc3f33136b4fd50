/** Which error a run reports. */
module PipelineErrors {
  import opened Options
  import opened Pipeline
  import opened PipelineInvariants
  import opened PipelineTheorems

  // ---------------------------------------------------------------- the first one is kept

  function Recording(h: Handler): Option<Failure> {
    if h.RecordError? then Some(h.failure) else None
  }

  /** The failure that a thread is recording when its step is the one taken. */
  function RecordedBy<P, O, M>(s: State<P, O, M>, a: Action<M>): Option<Failure> {
    match a
    case WorkerStep(i) =>
      if i < |s.workers| && s.workers[i].WorkerFailing? then Recording(s.workers[i].handler) else None
    case AggregatorStep =>
      if s.aggregator.at.AggregatorFailing? then Recording(s.aggregator.at.handler) else None
    case _ => None
  }

  /** The failure that the `n`-th step of a schedule records. */
  function RecordedAt<P, O, M>(c: Config<P, O, M>, schedule: seq<Action<M>>, n: nat): Option<Failure>
    requires n < |schedule|
  {
    var before := Reached(c, schedule[..n]);
    if before.None? then None else RecordedBy(before.value, schedule[n])
  }

  lemma StepRecords<P, O, M>(c: Config<P, O, M>, s: State<P, O, M>, a: Action<M>)
    requires Enabled(c, s, a)
    ensures Next(c, s, a).shared.error == if s.shared.error.Some? then s.shared.error else RecordedBy(s, a)
  {
  }

  lemma RecordedBefore<P, O, M>(c: Config<P, O, M>, schedule: seq<Action<M>>, n: nat)
    requires n < |schedule| - 1
    ensures RecordedAt(c, schedule, n) == RecordedAt(c, schedule[..|schedule| - 1], n)
  {
    assert schedule[..|schedule| - 1][..n] == schedule[..n];
  }

  /** No failure is recorded in the first `n` steps. */
  ghost predicate NoneRecorded<P, O, M>(c: Config<P, O, M>, schedule: seq<Action<M>>, n: nat)
    requires n <= |schedule|
  {
    forall m :: 0 <= m < n ==> RecordedAt(c, schedule, m) == None
  }

  lemma NoneRecordedBefore<P, O, M>(c: Config<P, O, M>, schedule: seq<Action<M>>, n: nat)
    requires n < |schedule|
    ensures NoneRecorded(c, schedule, n) <==> NoneRecorded(c, schedule[..|schedule| - 1], n)
  {
    var before := schedule[..|schedule| - 1];
    forall m {:trigger RecordedAt(c, schedule, m)} {:trigger RecordedAt(c, before, m)} | 0 <= m < n
      ensures RecordedAt(c, schedule, m) == RecordedAt(c, before, m)
    {
      RecordedBefore(c, schedule, m);
    }
  }

  /** However many threads fail, the error kept is the one recorded first. */
  lemma {:induction false} FirstErrorIsKept<P, O, M>(c: Config<P, O, M>, schedule: seq<Action<M>>)
    requires Reached(c, schedule).Some?
    ensures var error := Reached(c, schedule).value.shared.error;
            match error
            case None => NoneRecorded(c, schedule, |schedule|)
            case Some(_) => exists n: nat :: n < |schedule| && RecordedAt(c, schedule, n) == error
                                             && NoneRecorded(c, schedule, n)
  {
    if schedule != [] {
      var last := |schedule| - 1;
      var before := schedule[..last];
      var s := Reached(c, before).value;
      FirstErrorIsKept(c, before);
      StepRecords(c, s, schedule[last]);
      assert RecordedAt(c, schedule, last) == RecordedBy(s, schedule[last]);
      if s.shared.error.Some? {
        var n: nat :| n < |before| && RecordedAt(c, before, n) == s.shared.error && NoneRecorded(c, before, n);
        RecordedBefore(c, schedule, n);
        NoneRecordedBefore(c, schedule, n);
      } else {
        NoneRecordedBefore(c, schedule, last);
      }
    }
  }

  // ---------------------------------------------------------------- where it comes from

  /** Some step of the schedule threw what the failure is about. */
  ghost predicate CausedBy<M(!new)>(schedule: seq<Action<M>>, failure: Failure) {
    match failure
    case WorkerThrew(what) => exists w :: WorkerThrow(w, what) in schedule
    case AggregatorThrew(what) => exists left :: AggregatorThrow(what, left) in schedule
    case QueueClosedEarly => !NothingThrew(schedule)
  }

  ghost predicate HandlerCaused<M(!new)>(schedule: seq<Action<M>>, h: Handler) {
    h.RecordError? ==> CausedBy(schedule, h.failure)
  }

  ghost predicate AllCaused<P, O, M(!new)>(schedule: seq<Action<M>>, s: State<P, O, M>) {
    && (s.shared.error.Some? ==> CausedBy(schedule, s.shared.error.value))
    && (s.aggregator.at.AggregatorFailing? ==> HandlerCaused(schedule, s.aggregator.at.handler))
    && forall i :: 0 <= i < |s.workers| && s.workers[i].WorkerFailing? ==>
         HandlerCaused(schedule, s.workers[i].handler)
  }

  lemma StillCaused<M(!new)>(schedule: seq<Action<M>>, a: Action<M>, failure: Failure)
    requires CausedBy(schedule, failure)
    ensures CausedBy(schedule + [a], failure)
  {
    var more := schedule + [a];
    match failure
    case WorkerThrew(what) =>
      var w :| WorkerThrow(w, what) in schedule;
      assert WorkerThrow(w, what) in more;
    case AggregatorThrew(what) =>
      var left :| AggregatorThrow(what, left) in schedule;
      assert AggregatorThrow(what, left) in more;
    case QueueClosedEarly =>
      var j :| 0 <= j < |schedule| && Throws(schedule[j]);
      assert more[j] == schedule[j];
  }

  lemma AllStillCaused<P, O, M(!new)>(schedule: seq<Action<M>>, a: Action<M>, s: State<P, O, M>)
    requires AllCaused(schedule, s)
    ensures AllCaused(schedule + [a], s)
  {
    if s.shared.error.Some? {
      StillCaused(schedule, a, s.shared.error.value);
    }
    if s.aggregator.at.AggregatorFailing? && s.aggregator.at.handler.RecordError? {
      StillCaused(schedule, a, s.aggregator.at.handler.failure);
    }
    forall i | 0 <= i < |s.workers| && s.workers[i].WorkerFailing?
      ensures HandlerCaused(schedule + [a], s.workers[i].handler)
    {
      if s.workers[i].handler.RecordError? {
        StillCaused(schedule, a, s.workers[i].handler.failure);
      }
    }
  }

  lemma StepKeepsCauses<P, O, M(!new)>(
    c: Config<P, O, M>, schedule: seq<Action<M>>, s: State<P, O, M>, a: Action<M>)
    requires AllCaused(schedule, s) && a in schedule && Control(c, s) && Enabled(c, s, a)
    requires s.shared.failed ==> !NothingThrew(schedule)
    ensures AllCaused(schedule, Next(c, s, a))
  {
    if a.WorkerStep? && s.workers[a.w].PushingOut? && s.shared.observationQueue.closed {
      assert s.shared.failed;
    }
  }

  lemma {:induction false} ReachedCauses<P, O(!new), M(!new)>(c: Config<P, O, M>, schedule: seq<Action<M>>)
    requires Reached(c, schedule).Some?
    ensures AllCaused(schedule, Reached(c, schedule).value)
  {
    if schedule != [] {
      var last := |schedule| - 1;
      var before := schedule[..last];
      var s := Reached(c, before).value;
      ReachedCauses(c, before);
      assert schedule == before + [schedule[last]];
      AllStillCaused(before, schedule[last], s);
      ReachedInvariant(c, before);
      FailedExactlyWhenThrown(c, before);
      StepKeepsCauses(c, schedule, s, schedule[last]);
    }
  }

  /** The text for a failure. */
  ghost predicate Tells<M(!new)>(schedule: seq<Action<M>>, text: string) {
    || (exists w, what :: WorkerThrow(w, what) in schedule && text == "parser worker failed" + what)
    || (exists what, left :: AggregatorThrow(what, left) in schedule && text == "asset aggregator failed" + what)
    || (!NothingThrew(schedule) && text == "observation queue closed before parser workers finished")
  }

  lemma MessageTells<M(!new)>(schedule: seq<Action<M>>, failure: Failure)
    requires CausedBy(schedule, failure)
    ensures Tells(schedule, failure.Message())
  {
  }

  /** What a finished run reports: the producer's error if there is one; otherwise nothing when
      no step threw, and else the text that goes with a step that did throw. */
  lemma ReportedError<P, O(!new), M(!new)>(c: Config<P, O, M>, schedule: seq<Action<M>>)
    requires Reached(c, schedule).Some? && Reached(c, schedule).value.producer.at.Returned?
    ensures var report := ResultError(c, Reached(c, schedule).value);
            if c.producerError.Some? then report == c.producerError
            else if NothingThrew(schedule) then report == None
            else report.Some? && Tells(schedule, report.value)
  {
    ThrowsAreReported(c, schedule);
    ReachedCauses(c, schedule);
    var error := Reached(c, schedule).value.shared.error;
    if error.Some? {
      MessageTells(schedule, error.value);
    }
  }

  // ---------------------------------------------------------------- queues closed early

  predicate Closing(h: Handler) {
    h.ClosePackets? || h.CloseObservations?
  }

  /** A queue is closed before its time only by a thread whose failure is on record already. */
  ghost predicate EarlyCloseIsRecorded<P, O, M>(s: State<P, O, M>) {
    var p := s.producer.at;
    s.shared.error.None? ==>
      && (s.shared.packetQueue.closed ==> PacketsClosedByProducer(p))
      && (s.shared.observationQueue.closed ==> ObservationsClosedByProducer(p))
      && (s.aggregator.at.AggregatorFailing? ==> !Closing(s.aggregator.at.handler))
      && forall i :: 0 <= i < |s.workers| && s.workers[i].WorkerFailing? ==> !Closing(s.workers[i].handler)
  }

  lemma StepKeepsEarlyClose<P, O, M>(c: Config<P, O, M>, s: State<P, O, M>, a: Action<M>)
    requires EarlyCloseIsRecorded(s) && Enabled(c, s, a)
    ensures EarlyCloseIsRecorded(Next(c, s, a))
  {
  }

  /** In every run the error is recorded before any queue is closed because of it. */
  lemma {:induction false} RecordedBeforeClosing<P, O, M>(c: Config<P, O, M>, schedule: seq<Action<M>>)
    requires Reached(c, schedule).Some?
    ensures EarlyCloseIsRecorded(Reached(c, schedule).value)
  {
    if schedule != [] {
      var last := |schedule| - 1;
      RecordedBeforeClosing(c, schedule[..last]);
      StepKeepsEarlyClose(c, Reached(c, schedule[..last]).value, schedule[last]);
    }
  }

  /** What is left for a thread that threw, and what it has done already: with nothing left
      both queues are closed. */
  predicate OnItsWayOut<P, O>(left: Option<Handler>, g: Shared<P, O>) {
    match left
    case None => g.packetQueue.closed && g.observationQueue.closed
    case Some(CloseObservations) => g.packetQueue.closed
    case Some(h) => h.both
  }

  function WorkerLeft<P, O>(w: Worker<P, O>): Option<Handler> {
    if w.WorkerFailing? then Some(w.handler) else None
  }

  function AggregatorLeft<O, M>(a: Aggregator<O, M>): Option<Handler> {
    if a.at.AggregatorFailing? then Some(a.at.handler) else None
  }

  predicate Leaving<P, O>(w: Worker<P, O>, g: Shared<P, O>) {
    (w.WorkerFailing? || w.WorkerDone?) && OnItsWayOut(WorkerLeft(w), g)
  }

  ghost predicate ThrowersLeave<P, O, M(!new)>(schedule: seq<Action<M>>, s: State<P, O, M>) {
    && (forall w: nat, what :: WorkerThrow(w, what) in schedule ==> w < |s.workers| && Leaving(s.workers[w], s.shared))
    && (forall what, left :: AggregatorThrow(what, left) in schedule ==>
          (s.aggregator.at.AggregatorFailing? || s.aggregator.at.AggregatorDone?)
          && OnItsWayOut(AggregatorLeft(s.aggregator), s.shared))
  }

  lemma LeavingStays<P, O, M>(c: Config<P, O, M>, s: State<P, O, M>, a: Action<M>, w: nat)
    requires Enabled(c, s, a) && w < |s.workers| && Leaving(s.workers[w], s.shared)
    ensures w < |Next(c, s, a).workers| && Leaving(Next(c, s, a).workers[w], Next(c, s, a).shared)
  {
  }

  lemma AggregatorLeavingStays<P, O, M>(c: Config<P, O, M>, s: State<P, O, M>, a: Action<M>)
    requires Enabled(c, s, a) && (s.aggregator.at.AggregatorFailing? || s.aggregator.at.AggregatorDone?)
    requires OnItsWayOut(AggregatorLeft(s.aggregator), s.shared)
    ensures var s' := Next(c, s, a);
            (s'.aggregator.at.AggregatorFailing? || s'.aggregator.at.AggregatorDone?)
            && OnItsWayOut(AggregatorLeft(s'.aggregator), s'.shared)
  {
  }

  lemma {:induction false} ReachedThrowersLeave<P, O, M(!new)>(c: Config<P, O, M>, schedule: seq<Action<M>>)
    requires Reached(c, schedule).Some?
    ensures ThrowersLeave(schedule, Reached(c, schedule).value)
  {
    if schedule != [] {
      var last := |schedule| - 1;
      var before, a := schedule[..last], schedule[last];
      var s := Reached(c, before).value;
      ReachedThrowersLeave(c, before);
      assert schedule == before + [a];
      forall w: nat, what | WorkerThrow(w, what) in schedule
        ensures w < |Next(c, s, a).workers| && Leaving(Next(c, s, a).workers[w], Next(c, s, a).shared)
      {
        if WorkerThrow(w, what) in before {
          LeavingStays(c, s, a, w);
        }
      }
      forall what, left | AggregatorThrow(what, left) in schedule
        ensures var s' := Next(c, s, a);
                (s'.aggregator.at.AggregatorFailing? || s'.aggregator.at.AggregatorDone?)
                && OnItsWayOut(AggregatorLeft(s'.aggregator), s'.shared)
      {
        if AggregatorThrow(what, left) in before {
          AggregatorLeavingStays(c, s, a);
        }
      }
    }
  }

  /** A thread that threw has closed both queues by the time it ends, so that nobody goes on
      waiting for it. */
  lemma ThrowersCloseBoth<P, O, M(!new)>(c: Config<P, O, M>, schedule: seq<Action<M>>)
    requires Reached(c, schedule).Some?
    ensures var s := Reached(c, schedule).value;
            && (forall w: nat, what :: WorkerThrow(w, what) in schedule ==>
                  && w < |s.workers| && (s.workers[w].WorkerFailing? || s.workers[w].WorkerDone?)
                  && (s.workers[w].WorkerDone? ==> s.shared.packetQueue.closed && s.shared.observationQueue.closed))
            && (forall what, left :: AggregatorThrow(what, left) in schedule && s.aggregator.at.AggregatorDone? ==>
                  s.shared.packetQueue.closed && s.shared.observationQueue.closed)
  {
    ReachedThrowersLeave(c, schedule);
  }

  ghost predicate DoneMeansClosed<P, O, M>(s: State<P, O, M>) {
    && (s.aggregator.at.AggregatorDone? ==> s.shared.observationQueue.closed)
    && (s.aggregator.at.AggregatorFailing? ==> ClosesBoth(s.aggregator.at.handler))
    && forall i :: 0 <= i < |s.workers| ==>
         && (s.workers[i].WorkerDone? ==> s.shared.packetQueue.closed)
         && (s.workers[i].WorkerFailing? && s.workers[i].handler.CloseObservations? ==> s.shared.packetQueue.closed)
  }

  /** No thread ends, failing or not, before its own queue is closed. */
  lemma {:induction false} EndedMeansClosed<P, O, M>(c: Config<P, O, M>, schedule: seq<Action<M>>)
    requires Reached(c, schedule).Some?
    ensures DoneMeansClosed(Reached(c, schedule).value)
  {
    if schedule != [] {
      var last := |schedule| - 1;
      EndedMeansClosed(c, schedule[..last]);
      StepKeepsDone(c, Reached(c, schedule[..last]).value, schedule[last]);
    }
  }

  lemma StepKeepsDone<P, O, M>(c: Config<P, O, M>, s: State<P, O, M>, a: Action<M>)
    requires DoneMeansClosed(s) && Enabled(c, s, a)
    ensures DoneMeansClosed(Next(c, s, a))
  {
  }

  /** A worker that finds the observation queue closed under its hands never works again, even
      when it is not the first to fail. */
  lemma {:induction false} ClosedPushStops<P, O, M>(c: Config<P, O, M>, schedule: seq<Action<M>>, n: nat, i: nat)
    requires Reached(c, schedule).Some? && n < |schedule| && schedule[n] == WorkerStep(i)
    requires Reached(c, schedule[..n]).Some? && i < |Reached(c, schedule[..n]).value.workers|
    requires var t := Reached(c, schedule[..n]).value; t.workers[i].PushingOut? && t.shared.observationQueue.closed
    ensures var s := Reached(c, schedule).value;
            i < |s.workers| && (s.workers[i].WorkerFailing? || s.workers[i].WorkerDone?)
  {
    var last := |schedule| - 1;
    if n < last {
      assert schedule[..last][..n] == schedule[..n];
      ClosedPushStops(c, schedule[..last], n, i);
      StoppedStays(c, Reached(c, schedule[..last]).value, schedule[last], i);
    }
  }

  lemma StoppedStays<P, O, M>(c: Config<P, O, M>, s: State<P, O, M>, a: Action<M>, i: nat)
    requires Enabled(c, s, a) && i < |s.workers| && (s.workers[i].WorkerFailing? || s.workers[i].WorkerDone?)
    ensures var s' := Next(c, s, a);
            i < |s'.workers| && (s'.workers[i].WorkerFailing? || s'.workers[i].WorkerDone?)
  {
  }
}
