/** The closable bounded queue that connects the pipeline's threads. Every method of the
    source holds the queue's mutex for its whole critical section, so each is one atomic
    step on the four guarded fields. */
module BoundedQueues {

  datatype PushResult = Pushed | Full | Closed

  /** The fields guarded by the mutex, and what each critical section does to them. */
  datatype Queue<T> = Queue(capacity: nat, items: seq<T>, closed: bool, highWatermark: nat)
  {
    /** What `notFull_.wait` waits for. */
    predicate CanWaitPush() {
      closed || |items| < capacity
    }

    /** What `notEmpty_.wait` waits for. */
    predicate CanWaitPop() {
      closed || items != []
    }

    function Append(x: T): Queue<T> {
      this.(items := items + [x],
            highWatermark := if |items| + 1 > highWatermark then |items| + 1 else highWatermark)
    }

    function PushOutcome(): PushResult {
      if closed then Closed else if |items| >= capacity then Full else Pushed
    }

    function TryPush(x: T): Queue<T> {
      if PushOutcome() == Pushed then Append(x) else this
    }

    function WaitPush(x: T): Queue<T> {
      if closed then this else Append(x)
    }

    function WaitPop(): Queue<T> {
      if items == [] then this else this.(items := items[1..])
    }

    function Close(): Queue<T> {
      this.(closed := true)
    }
  }

  function EmptyQueue<T>(capacity: nat): Queue<T> {
    Queue(capacity, [], false, 0)
  }

  class BoundedQueue<T> {
    const capacity: nat
    var queue: seq<T>
    var closed: bool
    var highWatermark: nat

    ghost function State(): Queue<T>
      reads this
    {
      Queue(capacity, queue, closed, highWatermark)
    }

    constructor (capacity: nat)
      ensures State() == EmptyQueue(capacity)
    {
      this.capacity := capacity;
      queue, closed, highWatermark := [], false, 0;
    }

    method UpdateHighWatermark()
      modifies this`highWatermark
      ensures highWatermark >= |queue| && highWatermark >= old(highWatermark)
      ensures highWatermark == |queue| || highWatermark == old(highWatermark)
    {
      if |queue| > highWatermark {
        highWatermark := |queue|;
      }
    }

    method TryPush(value: T) returns (result: PushResult)
      modifies this
      ensures result == old(State()).PushOutcome()
      ensures State() == old(State()).TryPush(value)
    {
      if closed {
        return Closed;
      }
      if |queue| >= capacity {
        return Full;
      }
      queue := queue + [value];
      UpdateHighWatermark();
      result := Pushed;
    }

    /** The critical section of `waitPush`, from the return of `notFull_.wait` on. */
    method WaitPush(value: T) returns (pushed: bool)
      requires State().CanWaitPush()
      modifies this
      ensures pushed == !old(closed)
      ensures State() == old(State()).WaitPush(value)
    {
      if closed {
        return false;
      }
      queue := queue + [value];
      UpdateHighWatermark();
      pushed := true;
    }

    /** The critical section of `waitPop`, from the return of `notEmpty_.wait` on; the
        caller's reference is left alone, so keeps `value`, when nothing is popped. */
    method WaitPop(value: T) returns (popped: bool, value': T)
      requires State().CanWaitPop()
      modifies this
      ensures popped == (old(queue) != [])
      ensures value' == if popped then old(queue)[0] else value
      ensures State() == old(State()).WaitPop()
    {
      if queue == [] {
        return false, value;
      }
      value' := queue[0];
      queue := queue[1..];
      popped := true;
    }

    method Close()
      modifies this
      ensures State() == old(State()).Close()
    {
      closed := true;
    }
  }
}
