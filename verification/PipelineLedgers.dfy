/** Where every packet and every observation is at any moment of a run. */
module PipelineLedgers {
  import opened Sequences
  import opened BoundedQueues
  import opened Pipeline
  import opened PipelineInvariants

  lemma {:induction false} ParseAllConcat<P, O, M>(c: Config<P, O, M>, a: seq<P>, b: seq<P>)
    ensures c.ParseAll(a + b) == c.ParseAll(a) + c.ParseAll(b)
  {
    if a == [] {
      assert a + b == b;
    } else {
      assert (a + b)[1..] == a[1..] + b;
      ParseAllConcat(c, a[1..], b);
    }
  }

  lemma ParseAllOneMore<P, O, M>(c: Config<P, O, M>, ps: seq<P>, i: nat)
    requires i < |ps|
    ensures c.ParseAll(ps[..i + 1]) == c.ParseAll(ps[..i]) + c.ParseOne(ps[i])
  {
    assert ps[..i + 1] == ps[..i] + [ps[i]];
    ParseAllConcat(c, ps[..i], [ps[i]]);
    assert c.ParseAll([ps[i]]) == c.ParseOne(ps[i]) + [] == c.ParseOne(ps[i]);
  }

  // ---------------------------------------------------------------- what each thread holds

  /** Packets a worker took off the queue and has not counted as parsed. */
  function Uncounted<P, O>(w: Worker<P, O>): nat {
    match w
    case Parsing(todo, _) => |todo|
    case Counted(todo, _) => if todo == [] then 0 else |todo| - 1
    case _ => 0
  }

  /** Observations a worker produced and has not pushed. */
  function Unpushed<P, O>(w: Worker<P, O>): seq<O> {
    match w
    case Parsing(_, out) => out
    case Counted(_, out) => out
    case PushingOut(out) => out
    case _ => []
  }

  /** Those, and the ones still inside the packets it took. */
  function HeldByWorker<P, O, M>(c: Config<P, O, M>, w: Worker<P, O>): seq<O> {
    match w
    case Parsing(todo, out) => out + c.ParseAll(todo)
    case Counted(todo, out) => out + c.ParseAll(todo)
    case PushingOut(out) => out
    case _ => []
  }

  function HeldByAggregator<O>(at: AggregatorPoint<O>): seq<O> {
    if at.Applying? && at.next <= |at.batch| then at.batch[at.next..] else []
  }

  function AllUncounted<P, O>(ws: seq<Worker<P, O>>): nat {
    if ws == [] then 0 else Uncounted(ws[0]) + AllUncounted(ws[1..])
  }

  function AllUnpushed<P, O>(ws: seq<Worker<P, O>>): nat {
    if ws == [] then 0 else |Unpushed(ws[0])| + AllUnpushed(ws[1..])
  }

  /** How often `x` occurs in a sequence. Ledgers of values are kept per value. */
  ghost function Occurs<O>(x: O, os: seq<O>): nat {
    multiset(os)[x]
  }

  lemma OccursConcat<O>(x: O, a: seq<O>, b: seq<O>)
    ensures Occurs(x, a + b) == Occurs(x, a) + Occurs(x, b)
  {
  }

  ghost function AllHeld<P, O, M>(c: Config<P, O, M>, ws: seq<Worker<P, O>>, x: O): nat {
    if ws == [] then 0 else Occurs(x, HeldByWorker(c, ws[0])) + AllHeld(c, ws[1..], x)
  }

  lemma {:induction false} ReplaceUncounted<P, O>(ws: seq<Worker<P, O>>, i: nat, w: Worker<P, O>)
    requires i < |ws|
    ensures AllUncounted(ws[i := w]) + Uncounted(ws[i]) == AllUncounted(ws) + Uncounted(w)
  {
    if i == 0 {
      assert ws[i := w][1..] == ws[1..];
    } else {
      assert ws[i := w][1..] == ws[1..][i - 1 := w];
      ReplaceUncounted(ws[1..], i - 1, w);
    }
  }

  lemma {:induction false} ReplaceUnpushed<P, O>(ws: seq<Worker<P, O>>, i: nat, w: Worker<P, O>)
    requires i < |ws|
    ensures AllUnpushed(ws[i := w]) + |Unpushed(ws[i])| == AllUnpushed(ws) + |Unpushed(w)|
  {
    if i == 0 {
      assert ws[i := w][1..] == ws[1..];
    } else {
      assert ws[i := w][1..] == ws[1..][i - 1 := w];
      ReplaceUnpushed(ws[1..], i - 1, w);
    }
  }

  lemma {:induction false} ReplaceHeld<P, O, M>(
    c: Config<P, O, M>, ws: seq<Worker<P, O>>, i: nat, w: Worker<P, O>, x: O)
    requires i < |ws|
    ensures AllHeld(c, ws[i := w], x) + Occurs(x, HeldByWorker(c, ws[i]))
            == AllHeld(c, ws, x) + Occurs(x, HeldByWorker(c, w))
  {
    if i == 0 {
      assert ws[i := w][1..] == ws[1..];
    } else {
      assert ws[i := w][1..] == ws[1..][i - 1 := w];
      ReplaceHeld(c, ws[1..], i - 1, w, x);
    }
  }

  predicate Idle<P, O>(w: Worker<P, O>) {
    w.AwaitingPackets? || w.WorkerDone?
  }

  lemma {:induction false} IdleWorkersHoldNothing<P, O(!new), M>(c: Config<P, O, M>, ws: seq<Worker<P, O>>)
    requires forall i :: 0 <= i < |ws| ==> Idle(ws[i])
    ensures AllUncounted(ws) == 0 && AllUnpushed(ws) == 0 && forall x :: AllHeld(c, ws, x) == 0
  {
    if ws != [] {
      IdleWorkersHoldNothing(c, ws[1..]);
    }
  }

  // ---------------------------------------------------------------- one step of one thread

  predicate WorkerFails?<P, O, M>(c: Config<P, O, M>, w: Worker<P, O>, g: Shared<P, O>)
    requires WorkerEnabled(w, g)
  {
    w.WorkerFailing? || WorkerNext(c, w, g).0.WorkerFailing?
  }

  /** A worker's step moves observations towards the aggregator without reordering them. */
  lemma WorkerCarries<P, O, M>(c: Config<P, O, M>, w: Worker<P, O>, g: Shared<P, O>)
    requires WorkerEnabled(w, g) && !WorkerFails?(c, w, g)
    ensures var (w', g') := WorkerNext(c, w, g);
            Flat(g'.observationQueue.items) + (HeldByWorker(c, w') + c.ParseAll(Flat(g'.packetQueue.items)))
            == Flat(g.observationQueue.items) + (HeldByWorker(c, w) + c.ParseAll(Flat(g.packetQueue.items)))
  {
    var (w', g') := WorkerNext(c, w, g);
    match w
    case AwaitingPackets =>
      if g.packetQueue.items != [] {
        TakenBatch(c, g.packetQueue.items);
      }
    case Parsing(_, _) =>
      assert HeldByWorker(c, w') == HeldByWorker(c, w);
    case Counted(todo, out) =>
      Associative(out, c.ParseOne(todo[0]), c.ParseAll(todo[1..]));
      assert HeldByWorker(c, w') == HeldByWorker(c, w);
    case PushingOut(out) =>
      FlatAppend(g.observationQueue.items, out);
      PushedOut(Flat(g.observationQueue.items), out, c.ParseAll(Flat(g.packetQueue.items)));
      assert HeldByWorker(c, w') == [] && HeldByWorker(c, w) == out;
  }

  lemma TakenBatch<P, O, M>(c: Config<P, O, M>, batches: seq<seq<P>>)
    requires batches != []
    ensures [] + c.ParseAll(batches[0]) + c.ParseAll(Flat(batches[1..])) == c.ParseAll(Flat(batches))
  {
    ParseAllConcat(c, batches[0], Flat(batches[1..]));
    assert [] + c.ParseAll(batches[0]) == c.ParseAll(batches[0]);
  }

  lemma PushedOut<O>(queued: seq<O>, out: seq<O>, rest: seq<O>)
    ensures (queued + out) + ([] + rest) == queued + (out + rest)
  {
  }

  /** A failing worker loses what it held, and nothing else. */
  lemma WorkerLoses<P, O, M>(c: Config<P, O, M>, w: Worker<P, O>, g: Shared<P, O>)
    requires WorkerEnabled(w, g) && WorkerFails?(c, w, g)
    ensures var (w', g') := WorkerNext(c, w, g);
            && HeldByWorker(c, w') == []
            && g'.observationQueue.items == g.observationQueue.items
            && g'.packetQueue.items == g.packetQueue.items
            && (g'.failed <== g.failed || !w.WorkerFailing?)
  {
  }

  lemma WorkerCounts<P, O, M>(c: Config<P, O, M>, w: Worker<P, O>, g: Shared<P, O>)
    requires WorkerEnabled(w, g) && (w.WorkerFailing? ==> g.failed)
    ensures var (w', g') := WorkerNext(c, w, g);
            && g'.counters.parsed + Uncounted(w') + |Flat(g'.packetQueue.items)|
               == g.counters.parsed + Uncounted(w) + |Flat(g.packetQueue.items)|
            && g'.counters.applied == g.counters.applied
            && var after := |Unpushed(w')| + |Flat(g'.observationQueue.items)| - g'.counters.produced;
               var before := |Unpushed(w)| + |Flat(g.observationQueue.items)| - g.counters.produced;
               after <= before && (!g'.failed ==> after == before)
  {
    if w.PushingOut? {
      FlatAppend(g.observationQueue.items, w.out);
    }
  }

  lemma AggregatorCarries<P, O, M>(c: Config<P, O, M>, a: Aggregator<O, M>, g: Shared<P, O>)
    requires AggregatorEnabled(a, g) && (a.at.Applying? ==> a.at.next <= |a.at.batch|)
    ensures var (a', g') := AggregatorNext(c, a, g);
            && a'.applied + (HeldByAggregator(a'.at) + Flat(g'.observationQueue.items))
               == a.applied + (HeldByAggregator(a.at) + Flat(g.observationQueue.items))
            && g'.packetQueue.items == g.packetQueue.items
            && (g.failed ==> g'.failed)
  {
    var (a', g') := AggregatorNext(c, a, g);
    if a.at.Applying? && a.at.next < |a.at.batch| {
      AssociativeMiddle(a.applied, [a.at.batch[a.at.next]], HeldByAggregator(a'.at), Flat(g.observationQueue.items));
      assert HeldByAggregator(a.at) == [a.at.batch[a.at.next]] + HeldByAggregator(a'.at);
    } else {
      assert HeldByAggregator(a'.at) + Flat(g'.observationQueue.items)
             == HeldByAggregator(a.at) + Flat(g.observationQueue.items);
    }
  }

  lemma AggregatorCounts<P, O, M>(c: Config<P, O, M>, a: Aggregator<O, M>, g: Shared<P, O>)
    requires AggregatorEnabled(a, g) && (a.at.Applying? ==> a.at.next <= |a.at.batch|)
    ensures var (a', g') := AggregatorNext(c, a, g);
            && g'.counters.applied + BeingApplied(a'.at) + |Flat(g'.observationQueue.items)|
               == g.counters.applied + BeingApplied(a.at) + |Flat(g.observationQueue.items)|
            && g'.counters.produced == g.counters.produced
  {
  }

  /** The producer gives the packet queue and the record of accepted packets the same batch. */
  lemma ProducerOffers<P, O>(o: LivePipelineOptions, p: Producer<P>, g: Shared<P, O>) returns (batch: seq<P>)
    ensures var (p', g') := ProducerNext(o, p, g);
            && Flat(g'.packetQueue.items) == Flat(g.packetQueue.items) + batch
            && Accepted(p'.offered) == Accepted(p.offered) + batch
            && g'.observationQueue.items == g.observationQueue.items
            && g'.failed == g.failed
  {
    batch := [];
    if p.at.Pushing? {
      OfferOne(p.offered, Offer(p.pending, g.packetQueue.PushOutcome() == Pushed));
      if g.packetQueue.PushOutcome() == Pushed {
        batch := p.pending;
        FlatAppend(g.packetQueue.items, batch);
      }
    }
  }

  // ---------------------------------------------------------------- the ledgers

  /** Packets: what the queue took was counted as parsed, is with a worker, or is queued. */
  ghost predicate PacketLedger<P, O, M>(s: State<P, O, M>) {
    var there := s.shared.counters.parsed + AllUncounted(s.workers) + |Flat(s.shared.packetQueue.items)|;
    var taken := |Accepted(s.producer.offered)|;
    there <= taken && (!s.shared.failed ==> there == taken)
  }

  function BeingApplied<O>(at: AggregatorPoint<O>): nat {
    if at.Applying? then |at.batch| else 0
  }

  /** Observations by number: every one produced was counted as applied, or is in the batch
      being applied, in the queue, or with a worker. */
  ghost predicate ObservationCount<P, O, M>(s: State<P, O, M>) {
    var there := s.shared.counters.applied + BeingApplied(s.aggregator.at)
                 + |Flat(s.shared.observationQueue.items)| + AllUnpushed(s.workers);
    there <= s.shared.counters.produced && (!s.shared.failed ==> there == s.shared.counters.produced)
  }

  ghost function InFlight<P, O, M>(c: Config<P, O, M>, s: State<P, O, M>, x: O): nat {
    Occurs(x, HeldByAggregator(s.aggregator.at)) + Occurs(x, Flat(s.shared.observationQueue.items))
    + AllHeld(c, s.workers, x) + Occurs(x, c.ParseAll(Flat(s.shared.packetQueue.items)))
  }

  /** Observations by value: those inside the accepted packets are exactly the applied ones
      and the ones in flight; a failing run may lose some but never invents or repeats one. */
  ghost predicate ObservationLedger<P, O, M>(c: Config<P, O, M>, s: State<P, O, M>, x: O) {
    var there := Occurs(x, s.aggregator.applied) + InFlight(c, s, x);
    var all := Occurs(x, c.ParseAll(Accepted(s.producer.offered)));
    there <= all && (!s.shared.failed ==> there == all)
  }

  ghost predicate MonitorFollows<P, O, M>(c: Config<P, O, M>, s: State<P, O, M>) {
    !s.shared.failed ==> s.aggregator.monitor == c.Monitor(s.aggregator.applied)
  }

  lemma StartLedgers<P, O(!new), M>(c: Config<P, O, M>)
    ensures var s := Start(c);
            && CaptureLedger(c, s.producer, s.shared.counters)
            && PacketLedger(s) && ObservationCount(s) && MonitorFollows(c, s)
            && forall x :: ObservationLedger(c, s, x)
  {
    IdleWorkersHoldNothing(c, Start(c).workers);
  }

  lemma StepKeepsCaptureLedger<P, O, M>(c: Config<P, O, M>, s: State<P, O, M>, a: Action<M>)
    requires ProducerPlace(s.producer) && CaptureLedger(c, s.producer, s.shared.counters) && Enabled(c, s, a)
    ensures var s' := Next(c, s, a); CaptureLedger(c, s'.producer, s'.shared.counters)
  {
    if a.ProducerStep? {
      ProducerKeepsCaptureLedger(c, s.producer, s.shared);
    }
  }

  lemma WorkerKeepsCounts<P, O, M>(c: Config<P, O, M>, s: State<P, O, M>, i: nat)
    requires PacketLedger(s) && ObservationCount(s) && CleanSoFar(s) && Enabled(c, s, WorkerStep(i))
    ensures var s' := Next(c, s, WorkerStep(i)); PacketLedger(s') && ObservationCount(s')
  {
    WorkerCounts(c, s.workers[i], s.shared);
    ReplaceUncounted(s.workers, i, WorkerNext(c, s.workers[i], s.shared).0);
    ReplaceUnpushed(s.workers, i, WorkerNext(c, s.workers[i], s.shared).0);
  }

  lemma ThrowKeepsCounts<P, O, M>(c: Config<P, O, M>, s: State<P, O, M>, a: Action<M>)
    requires PacketLedger(s) && ObservationCount(s) && (a.WorkerThrow? || a.AggregatorThrow?) && Enabled(c, s, a)
    ensures var s' := Next(c, s, a); PacketLedger(s') && ObservationCount(s')
  {
    if a.WorkerThrow? {
      ReplaceUncounted(s.workers, a.w, WorkerFails(WorkerThrew(a.what), true, s.shared).0);
      ReplaceUnpushed(s.workers, a.w, WorkerFails(WorkerThrew(a.what), true, s.shared).0);
    }
  }

  lemma AggregatorKeepsCounts<P, O, M>(c: Config<P, O, M>, s: State<P, O, M>)
    requires PacketLedger(s) && ObservationCount(s) && Shape(c, s) && Enabled(c, s, AggregatorStep)
    ensures var s' := Next(c, s, AggregatorStep); PacketLedger(s') && ObservationCount(s')
  {
    AggregatorCarries(c, s.aggregator, s.shared);
    AggregatorCounts(c, s.aggregator, s.shared);
  }

  lemma StepKeepsCounts<P, O, M>(c: Config<P, O, M>, s: State<P, O, M>, a: Action<M>)
    requires PacketLedger(s) && ObservationCount(s) && Shape(c, s) && CleanSoFar(s) && Enabled(c, s, a)
    ensures var s' := Next(c, s, a); PacketLedger(s') && ObservationCount(s')
  {
    match a
    case ProducerStep => var _ := ProducerOffers(c.Options(), s.producer, s.shared);
    case WorkerStep(i) => WorkerKeepsCounts(c, s, i);
    case AggregatorStep => AggregatorKeepsCounts(c, s);
    case WorkerThrow(_, _) => ThrowKeepsCounts(c, s, a);
    case AggregatorThrow(_, _) => ThrowKeepsCounts(c, s, a);
  }

  lemma ProducerKeepsObservations<P, O, M>(c: Config<P, O, M>, s: State<P, O, M>, x: O)
    requires ObservationLedger(c, s, x) && ProducerEnabled(s)
    ensures ObservationLedger(c, Next(c, s, ProducerStep), x)
  {
    var batch := ProducerOffers(c.Options(), s.producer, s.shared);
    ParseAllConcat(c, Flat(s.shared.packetQueue.items), batch);
    ParseAllConcat(c, Accepted(s.producer.offered), batch);
    OccursConcat(x, c.ParseAll(Flat(s.shared.packetQueue.items)), c.ParseAll(batch));
    OccursConcat(x, c.ParseAll(Accepted(s.producer.offered)), c.ParseAll(batch));
  }

  lemma WorkerKeepsObservations<P, O, M>(c: Config<P, O, M>, s: State<P, O, M>, i: nat, x: O)
    requires ObservationLedger(c, s, x) && CleanSoFar(s) && Enabled(c, s, WorkerStep(i))
    ensures ObservationLedger(c, Next(c, s, WorkerStep(i)), x)
  {
    var w, g := s.workers[i], s.shared;
    var (w', g') := WorkerNext(c, w, g);
    ReplaceHeld(c, s.workers, i, w', x);
    if WorkerFails?(c, w, g) {
      WorkerLoses(c, w, g);
    } else {
      WorkerCarries(c, w, g);
      Occurs3(x, Flat(g.observationQueue.items), HeldByWorker(c, w), c.ParseAll(Flat(g.packetQueue.items)));
      Occurs3(x, Flat(g'.observationQueue.items), HeldByWorker(c, w'), c.ParseAll(Flat(g'.packetQueue.items)));
      assert g'.failed == g.failed;
    }
  }

  lemma AggregatorKeepsObservations<P, O, M>(c: Config<P, O, M>, s: State<P, O, M>, x: O)
    requires ObservationLedger(c, s, x) && Shape(c, s) && Enabled(c, s, AggregatorStep)
    ensures ObservationLedger(c, Next(c, s, AggregatorStep), x)
  {
    var (a', g') := AggregatorNext(c, s.aggregator, s.shared);
    AggregatorCarries(c, s.aggregator, s.shared);
    Occurs3(x, s.aggregator.applied, HeldByAggregator(s.aggregator.at), Flat(s.shared.observationQueue.items));
    Occurs3(x, a'.applied, HeldByAggregator(a'.at), Flat(g'.observationQueue.items));
  }

  lemma Occurs3<O>(x: O, a: seq<O>, b: seq<O>, d: seq<O>)
    ensures Occurs(x, a + (b + d)) == Occurs(x, a) + Occurs(x, b) + Occurs(x, d)
  {
    OccursConcat(x, a, b + d);
    OccursConcat(x, b, d);
  }

  lemma WorkerThrowKeepsObservations<P, O, M>(c: Config<P, O, M>, s: State<P, O, M>, i: nat, what: string, x: O)
    requires ObservationLedger(c, s, x) && Enabled(c, s, WorkerThrow(i, what))
    ensures ObservationLedger(c, Next(c, s, WorkerThrow(i, what)), x)
  {
    var (w, g) := WorkerFails(WorkerThrew(what), true, s.shared);
    HoldingLess(c, s.workers, i, w, x);
    LedgerLosesHeld(c, s, s.(workers := s.workers[i := w], shared := g), x);
  }

  lemma HoldingLess<P, O, M>(c: Config<P, O, M>, ws: seq<Worker<P, O>>, i: nat, w: Worker<P, O>, x: O)
    requires i < |ws| && w.WorkerFailing?
    ensures AllHeld(c, ws[i := w], x) <= AllHeld(c, ws, x)
  {
    ReplaceHeld(c, ws, i, w, x);
    var held := HeldByWorker(c, w);
    assert held == [];
    assert Occurs(x, held) == 0;
  }

  /** Losing what a worker held breaks no ledger of a run that has failed. */
  lemma LedgerLosesHeld<P, O, M>(c: Config<P, O, M>, s: State<P, O, M>, s': State<P, O, M>, x: O)
    requires ObservationLedger(c, s, x) && s'.shared.failed && AllHeld(c, s'.workers, x) <= AllHeld(c, s.workers, x)
    requires s'.producer == s.producer && s'.aggregator == s.aggregator
    requires s'.shared.packetQueue == s.shared.packetQueue && s'.shared.observationQueue == s.shared.observationQueue
    ensures ObservationLedger(c, s', x)
  {
  }

  lemma AggregatorThrowKeepsObservations<P, O, M>(c: Config<P, O, M>, s: State<P, O, M>, what: string, left: M, x: O)
    requires ObservationLedger(c, s, x) && Enabled(c, s, AggregatorThrow(what, left))
    ensures ObservationLedger(c, Next(c, s, AggregatorThrow(what, left)), x)
  {
    assert HeldByAggregator(AggregatorThrows(s.aggregator, s.shared, what, left).0.at) == [];
  }

  lemma StepKeepsObservations<P, O, M>(c: Config<P, O, M>, s: State<P, O, M>, a: Action<M>, x: O)
    requires ObservationLedger(c, s, x) && Shape(c, s) && CleanSoFar(s) && Enabled(c, s, a)
    ensures ObservationLedger(c, Next(c, s, a), x)
  {
    match a
    case ProducerStep => ProducerKeepsObservations(c, s, x);
    case WorkerStep(i) => WorkerKeepsObservations(c, s, i, x);
    case AggregatorStep => AggregatorKeepsObservations(c, s, x);
    case WorkerThrow(i, what) => WorkerThrowKeepsObservations(c, s, i, what, x);
    case AggregatorThrow(what, left) => AggregatorThrowKeepsObservations(c, s, what, left, x);
  }

  lemma StepKeepsMonitor<P, O, M>(c: Config<P, O, M>, s: State<P, O, M>, a: Action<M>)
    requires MonitorFollows(c, s) && Enabled(c, s, a)
    ensures MonitorFollows(c, Next(c, s, a))
  {
    var g := s.aggregator;
    if a.AggregatorStep? && g.at.Applying? && g.at.next < |g.at.batch| {
      assert (g.applied + [g.at.batch[g.at.next]])[..|g.applied|] == g.applied;
    }
  }
}
