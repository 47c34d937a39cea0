/** For how many producers the one condition variable is enough: runs that lose a wake-up
    exist exactly when there are more producers than places, and runs that put every thread
    to sleep exactly when there are at least twice as many. */
module QueueThresholds {
  import opened FiniteSets
  import opened ThreadSafeQueue

  // The consumer sleeps although there is a value to take.
  ghost predicate LostWakeUp<T>(s: State<T>)
  {
    s.consumer == Asleep && s.queue != []
  }

  // Every thread is in the wait set, so nobody is left to notify anybody.
  ghost predicate Stuck<T>(s: State<T>)
  {
    s.consumer == Asleep && forall p: nat :: p < |s.producers| ==> IsSleeping(s, p)
  }

  ghost predicate Reaches<T(!new)>(s: State<T>, t: State<T>)
  {
    exists events: seq<Event<T>> :: Run(s, events) == t
  }

  lemma StepReaches<T(!new)>(s: State<T>, e: Event<T>)
    requires Enabled(s, e)
    ensures Reaches(s, Step(s, e))
  {
    assert [e][..0] == [];
    assert Run(s, [e][..0]) == s;
    assert Run(s, [e]) == Step(s, e);
  }

  lemma ReachesItself<T(!new)>(s: State<T>)
    ensures Reaches(s, s)
  {
    assert Run(s, []) == s;
  }

  lemma ReachesOnwards<T(!new)>(s: State<T>, t: State<T>, u: State<T>)
    requires Reaches(s, t) && Reaches(t, u)
    ensures Reaches(s, u)
  {
    var a: seq<Event<T>> :| Run(s, a) == t;
    var b: seq<Event<T>> :| Run(t, b) == u;
    RunAppend(s, a, b);
  }

  // `n` producers of which the first `k` are in state `x` and the others in state `y`.
  function Split<T>(n: nat, k: nat, x: Producer<T>, y: Producer<T>): (r: seq<Producer<T>>)
    ensures |r| == n && forall i :: 0 <= i < n ==> r[i] == if i < k then x else y
  {
    seq(n, i => if i < k then x else y)
  }

  // Producer 0 fills the queue.
  lemma {:induction false} Fill<T(!new)>(s: State<T>, v: T) returns (t: State<T>)
    requires s.producers != [] && s.producers == Split(|s.producers|, 0, Idle, Idle)
    requires s.consumer == Running && |s.queue| <= s.maxSize
    ensures Reaches(s, t) && |t.queue| == t.maxSize == s.maxSize
    ensures t.producers == s.producers && t.consumer == Running
    decreases s.maxSize - |s.queue|
  {
    ReachesItself(s);
    if |s.queue| == s.maxSize {
      t := s;
    } else {
      var e := TryEnqueue(0, v, Nobody);
      assert Sleepers(s) == {};
      assert s.producers[0 := Idle] == s.producers;
      StepReaches(s, e);
      t := Fill(Step(s, e), v);
      ReachesOnwards(s, Step(s, e), t);
    }
  }

  // The queue is full, and all who are not asleep come and fall asleep.
  lemma {:induction false} AllFallAsleep<T(!new)>(s: State<T>, k: nat, v: T) returns (t: State<T>)
    requires |s.queue| == s.maxSize && k <= |s.producers|
    requires forall i :: 0 <= i < k ==> s.producers[i] == Sleeping(v)
    requires forall i :: k <= i < |s.producers| ==> s.producers[i] in {Idle, Woken(v), Sleeping(v)}
    ensures Reaches(s, t)
    ensures t == s.(producers := Split(|s.producers|, 0, Idle, Sleeping(v)))
    decreases |s.producers| - k
  {
    ReachesItself(s);
    if k == |s.producers| {
      t := s;
      assert s.producers == Split(|s.producers|, 0, Idle, Sleeping(v));
    } else if s.producers[k] == Sleeping(v) {
      t := AllFallAsleep(s, k + 1, v);
    } else {
      var e := TryEnqueue(k, v, Nobody);
      StepReaches(s, e);
      t := AllFallAsleep(Step(s, e), k + 1, v);
      ReachesOnwards(s, Step(s, e), t);
    }
  }

  // The consumer empties the full queue and wakes the first maxSize producers.
  lemma {:induction false} Drain<T(!new)>(s: State<T>, k: nat, v: T) returns (t: State<T>)
    requires s.consumer == Running && k + |s.queue| <= |s.producers|
    requires s.producers == Split(|s.producers|, k, Woken(v), Sleeping(v))
    ensures Reaches(s, t)
    ensures t.queue == [] && t.consumer == Running && t.maxSize == s.maxSize
    ensures t.producers == Split(|s.producers|, k + |s.queue|, Woken(v), Sleeping(v))
    decreases |s.queue|
  {
    ReachesItself(s);
    if s.queue == [] {
      t := s;
    } else {
      var e := TryDequeue(AProducer(k));
      StepReaches(s, e);
      assert Step(s, e).producers == Split(|s.producers|, k + 1, Woken(v), Sleeping(v));
      t := Drain(Step(s, e), k + 1, v);
      ReachesOnwards(s, Step(s, e), t);
    }
  }

  // From the start: the queue is empty, the consumer sleeps, and as many producers are
  // awake, each with a value, as there are places.
  lemma EveryoneHasComeOnce<T(!new)>(maxSize: nat, producers: nat, v: T) returns (t: State<T>)
    requires 0 < producers && maxSize <= producers
    ensures Reaches(Init(maxSize, producers), t)
    ensures t.queue == [] && t.consumer == Asleep && t.maxSize == maxSize
    ensures t.producers == Split(producers, maxSize, Woken(v), Sleeping(v))
  {
    var start := Init<T>(maxSize, producers);
    assert start.producers == Split(producers, 0, Idle, Idle);
    var full := Fill(start, v);
    var blocked := AllFallAsleep(full, 0, v);
    ReachesOnwards(start, full, blocked);
    assert blocked.producers == Split(producers, 0, Woken(v), Sleeping(v));
    var drained := Drain(blocked, 0, v);
    ReachesOnwards(start, blocked, drained);
    t := Step(drained, TryDequeue(Nobody));
    StepReaches(drained, TryDequeue(Nobody));
    ReachesOnwards(start, drained, t);
  }

  lemma MoreProducersThanPlacesLoseAWakeUp<T(!new)>(maxSize: nat, producers: nat, v: T) returns (t: State<T>)
    requires 0 < maxSize < producers
    ensures Reaches(Init(maxSize, producers), t) && LostWakeUp(t)
  {
    var s := EveryoneHasComeOnce(maxSize, producers, v);
    var e := TryEnqueue(0, v, AProducer(maxSize));
    StepReaches(s, e);
    t := Step(s, e);
    ReachesOnwards(Init(maxSize, producers), s, t);
  }

  // The woken producers fill the queue again, and each wakes a sleeping producer where it
  // could have woken the consumer.
  lemma {:induction false} Refill<T(!new)>(s: State<T>, v: T) returns (t: State<T>)
    requires s.consumer == Asleep && |s.queue| <= s.maxSize && 2 * s.maxSize <= |s.producers|
    requires forall i :: 0 <= i < |s.queue| ==> s.producers[i] == Idle
    requires forall i :: |s.queue| <= i < s.maxSize + |s.queue| ==> s.producers[i] == Woken(v)
    requires forall i :: s.maxSize + |s.queue| <= i < |s.producers| ==> s.producers[i] == Sleeping(v)
    ensures Reaches(s, t)
    ensures t.consumer == Asleep && |t.queue| == t.maxSize && |t.producers| == |s.producers|
    ensures forall i :: 0 <= i < |t.producers| ==> t.producers[i] in {Idle, Woken(v), Sleeping(v)}
    decreases s.maxSize - |s.queue|
  {
    ReachesItself(s);
    if |s.queue| == s.maxSize {
      t := s;
    } else {
      var e := TryEnqueue(|s.queue|, v, AProducer(s.maxSize + |s.queue|));
      StepReaches(s, e);
      t := Refill(Step(s, e), v);
      ReachesOnwards(s, Step(s, e), t);
    }
  }

  lemma TwiceAsManyProducersGetStuck<T(!new)>(maxSize: nat, producers: nat, v: T) returns (t: State<T>)
    requires 0 < producers && 2 * maxSize <= producers
    ensures Reaches(Init(maxSize, producers), t) && Stuck(t)
  {
    var start := Init<T>(maxSize, producers);
    var s := EveryoneHasComeOnce(maxSize, producers, v);
    var u := Refill(s, v);
    ReachesOnwards(start, s, u);
    t := AllFallAsleep(u, 0, v);
    ReachesOnwards(start, u, t);
  }

  // The exact threshold for lost wake-ups.
  lemma LostWakeUpThreshold<T(!new)>(maxSize: nat, producers: nat, v: T)
    ensures (exists t: State<T> :: Reaches(Init(maxSize, producers), t) && LostWakeUp(t))
            <==> 0 < maxSize < producers
  {
    var start := Init<T>(maxSize, producers);
    if 0 < maxSize < producers {
      var t := MoreProducersThanPlacesLoseAWakeUp(maxSize, producers, v);
    } else {
      forall t: State<T> | Reaches(start, t)
        ensures !LostWakeUp(t)
      {
        var events: seq<Event<T>> :| Run(start, events) == t;
        FirstInFirstOut(maxSize, producers, events);
        if 0 < maxSize {
          NoLostWakeUp(maxSize, producers, events);
        }
      }
    }
  }

  // The exact threshold for deadlock.
  lemma DeadlockThreshold<T(!new)>(maxSize: nat, producers: nat, v: T)
    requires 0 < producers
    ensures (exists t: State<T> :: Reaches(Init(maxSize, producers), t) && Stuck(t))
            <==> 2 * maxSize <= producers
  {
    var start := Init<T>(maxSize, producers);
    if 2 * maxSize <= producers {
      var t := TwiceAsManyProducersGetStuck(maxSize, producers, v);
    } else {
      forall t: State<T> | Reaches(start, t)
        ensures !Stuck(t)
      {
        var events: seq<Event<T>> :| Run(start, events) == t;
        EveryRunIsCovered(maxSize, producers, events);
        if Stuck(t) {
          AllBelowHasSize(Sleepers(t), producers);
          assert false;
        }
      }
    }
  }
}
