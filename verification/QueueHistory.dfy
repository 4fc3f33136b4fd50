/** Whole histories of the bounded queue: any sequence of its critical sections. */
module QueueHistories {
  import opened BoundedQueues
  import opened Sequences

  /** One critical section, as seen from outside. */
  datatype Operation<T> = TryPush(x: T) | WaitPush(x: T) | WaitPop | Close

  /** A queue together with everything it ever accepted and handed out, what `tryPush` answered
      each time, and its peak size. */
  datatype History<T> = History(
    q: Queue<T>, accepted: seq<T>, popped: seq<T>, answers: seq<PushResult>, peak: nat)

  predicate Enabled<T>(q: Queue<T>, op: Operation<T>) {
    match op
    case TryPush(_) => true
    case WaitPush(_) => q.CanWaitPush()
    case WaitPop => q.CanWaitPop()
    case Close => true
  }

  function After<T>(q: Queue<T>, op: Operation<T>): Queue<T> {
    match op
    case TryPush(x) => q.TryPush(x)
    case WaitPush(x) => q.WaitPush(x)
    case WaitPop => q.WaitPop()
    case Close => q.Close()
  }

  /** Extends the history by one operation; each operation reports its own outcome. */
  function Record<T>(h: History<T>, op: Operation<T>): History<T> {
    var q := After(h.q, op);
    var accepted := match op
      case TryPush(x) => if h.q.PushOutcome() == Pushed then h.accepted + [x] else h.accepted
      case WaitPush(x) => if h.q.closed then h.accepted else h.accepted + [x]
      case _ => h.accepted;
    var popped := if op.WaitPop? && h.q.items != [] then h.popped + [h.q.items[0]] else h.popped;
    var answers := if op.TryPush? then h.answers + [h.q.PushOutcome()] else h.answers;
    History(q, accepted, popped, answers, if |q.items| > h.peak then |q.items| else h.peak)
  }

  /** The history after performing `ops` in order on a new queue. */
  function Perform<T>(capacity: nat, ops: seq<Operation<T>>): History<T> {
    if ops == [] then History(EmptyQueue(capacity), [], [], [], 0)
    else Record(Perform(capacity, ops[..|ops| - 1]), ops[|ops| - 1])
  }

  ghost predicate Admissible<T>(capacity: nat, ops: seq<Operation<T>>) {
    forall i :: 0 <= i < |ops| ==> Enabled(Perform(capacity, ops[..i]).q, ops[i])
  }

  ghost predicate Ordered<T>(h: History<T>, capacity: nat) {
    && h.accepted == h.popped + h.q.items
    && h.q.capacity == capacity
    && |h.q.items| <= capacity
    && |h.q.items| <= h.q.highWatermark == h.peak
  }

  lemma RecordKeepsOrder<T>(h: History<T>, op: Operation<T>, capacity: nat)
    requires Ordered(h, capacity) && Enabled(h.q, op)
    ensures Ordered(Record(h, op), capacity)
  {
    match op
    case WaitPop =>
      if h.q.items != [] {
        assert h.q.items == [h.q.items[0]] + h.q.items[1..];
        Associative(h.popped, [h.q.items[0]], h.q.items[1..]);
      }
    case TryPush(x) => Associative(h.popped, h.q.items, [x]);
    case WaitPush(x) => Associative(h.popped, h.q.items, [x]);
    case Close =>
  }

  /** First in, first out over whole histories: what was accepted is what came out followed
      by what is still inside; the capacity is never exceeded and the high watermark is
      exactly the largest size the queue ever had. */
  lemma {:induction false} FifoHistory<T>(capacity: nat, ops: seq<Operation<T>>)
    requires Admissible(capacity, ops)
    ensures var h := Perform(capacity, ops);
            && h.accepted == h.popped + h.q.items
            && h.q.capacity == capacity
            && |h.q.items| <= capacity
            && h.q.highWatermark == h.peak
  {
    if ops == [] {
      assert Ordered(Perform<T>(capacity, ops), capacity);
    } else {
      var before := ops[..|ops| - 1];
      forall i | 0 <= i < |before| ensures Enabled(Perform(capacity, before[..i]).q, before[i]) {
        assert before[..i] == ops[..i];
      }
      FifoHistory(capacity, before);
      assert Enabled(Perform(capacity, ops[..|before|]).q, ops[|before|]);
      RecordKeepsOrder(Perform(capacity, before), ops[|before|], capacity);
    }
  }

  /** A queue is closed exactly when somebody closed it. */
  lemma {:induction false} ClosedByClose<T>(capacity: nat, ops: seq<Operation<T>>)
    ensures Perform(capacity, ops).q.closed <==> Close in ops
  {
    if ops != [] {
      ClosedByClose(capacity, ops[..|ops| - 1]);
      assert ops == ops[..|ops| - 1] + [ops[|ops| - 1]];
    }
  }

  lemma PerformOneMore<T>(capacity: nat, ops: seq<Operation<T>>, op: Operation<T>)
    requires Admissible(capacity, ops)
    ensures Perform(capacity, ops + [op]) == Record(Perform(capacity, ops), op)
    ensures Admissible(capacity, ops + [op]) <==> Enabled(Perform(capacity, ops).q, op)
  {
    var all := ops + [op];
    assert all[..|ops|] == ops;
    forall i | 0 <= i < |ops| ensures Enabled(Perform(capacity, all[..i]).q, all[i]) {
      assert all[..i] == ops[..i];
    }
  }

  /** Some place is free: fewer were handed out than accepted, by less than the capacity. */
  predicate Room<T>(h: History<T>, capacity: nat) {
    |h.accepted| < |h.popped| + capacity
  }

  /** `tryPush` takes a value if and only if nobody closed the queue and a place is free, and
      says which of the two was the matter when it does not. */
  lemma TryPushIsExact<T>(capacity: nat, ops: seq<Operation<T>>, x: T)
    requires Admissible(capacity, ops)
    ensures var h, h' := Perform(capacity, ops), Perform(capacity, ops + [TryPush(x)]);
            && (h'.accepted == h.accepted + [x] <==> Close !in ops && Room(h, capacity))
            && (h'.accepted != h.accepted + [x] ==> h'.q == h.q && h'.accepted == h.accepted)
            && h'.popped == h.popped
            && h'.answers == h.answers
                             + [if Close in ops then Closed else if Room(h, capacity) then Pushed else Full]
  {
    FifoHistory(capacity, ops);
    ClosedByClose(capacity, ops);
    PerformOneMore(capacity, ops, TryPush(x));
  }

  /** A blocked `waitPush` goes on if and only if the queue was closed or a place is free, and
      gives the value to the queue if and only if nobody closed it. */
  lemma WaitPushIsExact<T>(capacity: nat, ops: seq<Operation<T>>, x: T)
    requires Admissible(capacity, ops)
    ensures var h, h' := Perform(capacity, ops), Perform(capacity, ops + [WaitPush(x)]);
            && (Admissible(capacity, ops + [WaitPush(x)]) <==> Close in ops || Room(h, capacity))
            && h'.accepted == (if Close in ops then h.accepted else h.accepted + [x])
            && h'.popped == h.popped
  {
    FifoHistory(capacity, ops);
    ClosedByClose(capacity, ops);
    PerformOneMore(capacity, ops, WaitPush(x));
  }

  /** A blocked `waitPop` goes on if and only if the queue was closed or holds something, and
      hands out the oldest value that was not handed out yet. */
  lemma WaitPopIsExact<T>(capacity: nat, ops: seq<Operation<T>>)
    requires Admissible(capacity, ops)
    ensures var h, h' := Perform(capacity, ops), Perform(capacity, ops + [WaitPop]);
            && |h.popped| <= |h.accepted|
            && (Admissible(capacity, ops + [WaitPop]) <==> Close in ops || |h.popped| < |h.accepted|)
            && h'.popped == (if |h.popped| < |h.accepted| then h.popped + [h.accepted[|h.popped|]] else h.popped)
            && h'.accepted == h.accepted
  {
    FifoHistory(capacity, ops);
    ClosedByClose(capacity, ops);
    PerformOneMore(capacity, ops, WaitPop);
  }

  /** Closing is final: a queue once closed stays closed and accepts nothing more. */
  lemma {:induction false} ClosedForGood<T>(capacity: nat, ops: seq<Operation<T>>, more: seq<Operation<T>>)
    requires Perform(capacity, ops).q.closed
    ensures Perform(capacity, ops + more).q.closed
    ensures Perform(capacity, ops + more).accepted == Perform(capacity, ops).accepted
  {
    if more == [] {
      assert ops + more == ops;
    } else {
      var most := more[..|more| - 1];
      assert (ops + more)[..|ops + more| - 1] == ops + most;
      ClosedForGood(capacity, ops, most);
    }
  }
}
