/** The bounded blocking queue: one mutex, one condition variable for both sides, and
    notify_one. Each step is what one thread does while it holds the mutex; between steps
    any thread may run. The queue has one consumer, as every queue of the program has. */
module ThreadSafeQueue {
  import opened FiniteSets
  import opened Wrappers

  // A producer is outside enqueue, or inside it with a value: in the wait set, or out of it
  // again (notified, or woken for no reason) and about to test the condition.
  datatype Producer<T> = Idle | Sleeping(value: T) | Woken(value: T)

  datatype Consumer = Running | Asleep

  // Whom notify_one takes out of the wait set.
  datatype Choice = Nobody | AProducer(i: nat) | TheConsumer

  datatype State<T> = State(
    maxSize: nat,
    queue: seq<T>,
    producers: seq<Producer<T>>,
    consumer: Consumer,
    accepted: seq<T>,   // every value pushed so far
    delivered: seq<T>)  // every value returned by dequeue so far

  function Init<T>(maxSize: nat, producers: nat): State<T>
  {
    State(maxSize, [], seq(producers, _ => Idle), Running, [], [])
  }

  datatype Event<T> =
    | TryEnqueue(p: nat, value: T, choice: Choice)
    | TryDequeue(choice: Choice)
    | SpuriousProducer(p: nat)
    | SpuriousConsumer

  predicate IsSleeping<T>(s: State<T>, p: nat)
  {
    p < |s.producers| && s.producers[p].Sleeping?
  }

  function Sleepers<T>(s: State<T>): set<nat>
  {
    set p: nat | p < |s.producers| && IsSleeping(s, p)
  }

  // notify_one wakes a waiter if there is one, any one.
  predicate MayNotify<T>(s: State<T>, choice: Choice)
  {
    match choice
    case Nobody => Sleepers(s) == {} && s.consumer == Running
    case AProducer(i) => IsSleeping(s, i)
    case TheConsumer => s.consumer == Asleep
  }

  function Notify<T>(s: State<T>, choice: Choice): State<T>
  {
    match choice
    case Nobody => s
    case AProducer(i) =>
      if IsSleeping(s, i) then s.(producers := s.producers[i := Woken(s.producers[i].value)]) else s
    case TheConsumer => s.(consumer := Running)
  }

  predicate Enabled<T(==)>(s: State<T>, e: Event<T>)
  {
    match e
    case TryEnqueue(p, value, choice) =>
      && p < |s.producers|
      && (s.producers[p] == Idle || s.producers[p] == Woken(value))
      && (|s.queue| < s.maxSize ==> MayNotify(s, choice))
    case TryDequeue(choice) =>
      s.consumer == Running && (s.queue != [] ==> MayNotify(s, choice))
    case SpuriousProducer(p) => IsSleeping(s, p)
    case SpuriousConsumer => s.consumer == Asleep
  }

  function Step<T(==)>(s: State<T>, e: Event<T>): State<T>
    requires Enabled(s, e)
  {
    match e
    case TryEnqueue(p, value, choice) =>
      if |s.queue| < s.maxSize then
        Notify(s.(queue := s.queue + [value], accepted := s.accepted + [value],
                  producers := s.producers[p := Idle]), choice)
      else s.(producers := s.producers[p := Sleeping(value)])
    case TryDequeue(choice) =>
      if s.queue != [] then
        Notify(s.(queue := s.queue[1..], delivered := s.delivered + [s.queue[0]]), choice)
      else s.(consumer := Asleep)
    case SpuriousProducer(p) => s.(producers := s.producers[p := Woken(s.producers[p].value)])
    case SpuriousConsumer => s.(consumer := Running)
  }

  // Every list of events is a run: an event that is not enabled does nothing.
  function Run<T(==)>(s: State<T>, events: seq<Event<T>>): State<T>
  {
    if events == [] then s
    else
      var before := Run(s, events[..|events| - 1]);
      var e := events[|events| - 1];
      if Enabled(before, e) then Step(before, e) else before
  }

  class ThreadSafeQueue<T(==)> {
    const maxSize: nat
    var queue: seq<T>
    var producers: seq<Producer<T>>
    var consumer: Consumer
    ghost var accepted: seq<T>
    ghost var delivered: seq<T>

    ghost function View(): State<T>
      reads this
    {
      State(maxSize, queue, producers, consumer, accepted, delivered)
    }

    constructor (maxSize: nat, producers: nat)
      ensures View() == Init(maxSize, producers)
    {
      this.maxSize := maxSize;
      this.producers := seq(producers, _ => Idle);
      queue, consumer, accepted, delivered := [], Running, [], [];
    }

    method NotifyOne() returns (choice: Choice)
      modifies this`producers, this`consumer
      ensures MayNotify(old(View()), choice)
      ensures View() == Notify(old(View()), choice)
    {
      var wakeProducer := exists p :: 0 <= p < |producers| && producers[p].Sleeping?;
      if consumer == Asleep {
        if * {
          wakeProducer := false;
        }
      }
      if wakeProducer {
        var p :| 0 <= p < |producers| && producers[p].Sleeping?;
        producers := producers[p := Woken(producers[p].value)];
        return AProducer(p);
      }
      if consumer == Asleep {
        consumer := Running;
        return TheConsumer;
      }
      return Nobody;
    }

    // Producer `p` from taking the mutex to releasing it or waiting.
    method EnqueuePass(p: nat, value: T) returns (done: bool, choice: Choice)
      requires p < |producers| && (producers[p] == Idle || producers[p] == Woken(value))
      modifies this
      ensures done <==> |old(queue)| < maxSize
      ensures Enabled(old(View()), TryEnqueue(p, value, choice))
      ensures View() == Step(old(View()), TryEnqueue(p, value, choice))
      // The value goes to the end, or the producer sleeps on it and nothing else changes.
      ensures done ==> queue == old(queue) + [value] && p < |producers| && producers[p] == Idle
      ensures !done ==> queue == old(queue) && producers == old(producers)[p := Sleeping(value)]
                        && consumer == old(consumer)
    {
      if !(|queue| < maxSize) {
        producers := producers[p := Sleeping(value)];
        return false, Nobody;
      }
      queue := queue + [value];
      accepted := accepted + [value];
      producers := producers[p := Idle];
      ghost var pushed := View();
      choice := NotifyOne();
      SameWaiters(old(View()), pushed, choice);
      return true, choice;
    }

    // The consumer from taking the mutex to releasing it or waiting.
    method DequeuePass() returns (value: Option<T>, choice: Choice)
      requires consumer == Running
      modifies this
      ensures value == if old(queue) == [] then None else Some(old(queue)[0])
      ensures Enabled(old(View()), TryDequeue(choice))
      ensures View() == Step(old(View()), TryDequeue(choice))
      ensures old(queue) != [] ==> queue == old(queue)[1..] && consumer == Running
      ensures old(queue) == [] ==> queue == [] && consumer == Asleep && producers == old(producers)
    {
      if queue == [] {
        consumer := Asleep;
        return None, Nobody;
      }
      var front := queue[0];
      queue := queue[1..];
      delivered := delivered + [front];
      ghost var popped := View();
      choice := NotifyOne();
      SameWaiters(old(View()), popped, choice);
      return Some(front), choice;
    }
  }

  lemma SameWaiters<T>(s: State<T>, t: State<T>, choice: Choice)
    requires |s.producers| == |t.producers| && s.consumer == t.consumer
    requires forall p: nat :: IsSleeping(s, p) <==> IsSleeping(t, p)
    ensures MayNotify(s, choice) <==> MayNotify(t, choice)
  {
  }

  ghost predicate InOrder<T>(s: State<T>)
  {
    s.accepted == s.delivered + s.queue && |s.queue| <= s.maxSize
  }

  lemma StepKeepsOrder<T>(s: State<T>, e: Event<T>)
    requires InOrder(s) && Enabled(s, e)
    ensures InOrder(Step(s, e)) && Step(s, e).maxSize == s.maxSize
  {
  }

  // What the producers pushed: the values of the enqueue passes that found room, in the
  // order of the passes.
  function Pushed<T(==)>(s: State<T>, events: seq<Event<T>>): seq<T>
  {
    if events == [] then []
    else
      var front, e := events[..|events| - 1], events[|events| - 1];
      var before := Run(s, front);
      Pushed(s, front) +
      (if e.TryEnqueue? && Enabled(before, e) && |before.queue| < before.maxSize then [e.value] else [])
  }

  // What the consumer got: the front of the queue at each of its passes that found any.
  function Popped<T(==)>(s: State<T>, events: seq<Event<T>>): seq<T>
  {
    if events == [] then []
    else
      var front, e := events[..|events| - 1], events[|events| - 1];
      var before := Run(s, front);
      Popped(s, front) +
      (if e.TryDequeue? && Enabled(before, e) && before.queue != [] then [before.queue[0]] else [])
  }

  lemma StepMovesValues<T>(s: State<T>, e: Event<T>)
    requires Enabled(s, e)
    ensures var t := Step(s, e);
            && t.queue == (if e.TryEnqueue? && |s.queue| < s.maxSize then s.queue + [e.value]
                           else if e.TryDequeue? && s.queue != [] then s.queue[1..] else s.queue)
            && t.accepted == s.accepted + (if e.TryEnqueue? && |s.queue| < s.maxSize then [e.value] else [])
            && t.delivered == s.delivered + (if e.TryDequeue? && s.queue != [] then [s.queue[0]] else [])
  {
  }

  // First in, first out, and never more than maxSize inside, in every run: what was pushed is
  // what was popped followed by what is in the queue.
  lemma {:induction false} FirstInFirstOut<T>(maxSize: nat, producers: nat, events: seq<Event<T>>)
    ensures var s := Run(Init(maxSize, producers), events);
            && Pushed(Init(maxSize, producers), events) == Popped(Init(maxSize, producers), events) + s.queue
            && s.accepted == Pushed(Init(maxSize, producers), events)
            && s.delivered == Popped(Init(maxSize, producers), events)
            && |s.queue| <= maxSize && s.maxSize == maxSize
  {
    hide Enabled, Step;
    if events != [] {
      var front, e := events[..|events| - 1], events[|events| - 1];
      FirstInFirstOut<T>(maxSize, producers, front);
      var before := Run(Init(maxSize, producers), front);
      if Enabled(before, e) {
        StepKeepsOrder(before, e);
        StepMovesValues(before, e);
      }
    }
  }

  // How many more producers there are than places.
  function Excess<T>(s: State<T>): nat
  {
    if |s.producers| > s.maxSize then |s.producers| - s.maxSize else 0
  }

  // Sleeping producers are covered by the values in the queue, up to the excess; and while
  // the consumer sleeps, sleepers and values together do not exceed it.
  ghost predicate Covered<T>(s: State<T>)
  {
    && |s.queue| <= s.maxSize
    && |Sleepers(s)| <= |s.queue| + Excess(s)
    && (s.consumer == Asleep ==> |Sleepers(s)| + |s.queue| <= Excess(s))
  }

  lemma AtMostAllSleep<T>(s: State<T>)
    ensures |Sleepers(s)| <= |s.producers|
  {
    BelowHasSize(Sleepers(s), |s.producers|);
  }

  lemma SameSleepers<T>(s: State<T>, t: State<T>)
    requires forall q: nat :: IsSleeping(t, q) <==> IsSleeping(s, q)
    ensures Sleepers(t) == Sleepers(s)
  {
  }

  lemma OneMoreSleeper<T>(s: State<T>, t: State<T>, p: nat)
    requires !IsSleeping(s, p) && forall q: nat :: IsSleeping(t, q) <==> IsSleeping(s, q) || q == p
    ensures |Sleepers(t)| == |Sleepers(s)| + 1
  {
    assert Sleepers(t) == Sleepers(s) + {p};
  }

  // notify_one takes one thread out of the wait set if it is not empty.
  lemma NotifyWakesOne<T>(s: State<T>, choice: Choice)
    requires MayNotify(s, choice)
    ensures var t := Notify(s, choice);
            && t.queue == s.queue && t.maxSize == s.maxSize && |t.producers| == |s.producers|
            && (choice == Nobody ==> t == s && |Sleepers(s)| == 0 && s.consumer == Running)
            && (choice.AProducer? ==> |Sleepers(t)| == |Sleepers(s)| - 1 && t.consumer == s.consumer)
            && (choice == TheConsumer ==> |Sleepers(t)| == |Sleepers(s)| && s.consumer == Asleep && t.consumer == Running)
  {
    var t := Notify(s, choice);
    match choice {
      case Nobody =>
      case AProducer(i) => OneMoreSleeper(t, s, i);
      case TheConsumer => SameSleepers(s, t);
    }
  }

  lemma CoveredIsKept<T>(s: State<T>, e: Event<T>)
    requires Covered(s) && Enabled(s, e)
    requires Excess(s) < s.maxSize
    ensures Covered(Step(s, e)) && Excess(Step(s, e)) == Excess(s) && Step(s, e).maxSize == s.maxSize
  {
    hide Sleepers;
    var t := Step(s, e);
    match e {
      case TryEnqueue(p, value, choice) =>
        if |s.queue| < s.maxSize {
          var pushed := s.(queue := s.queue + [value], accepted := s.accepted + [value],
                           producers := s.producers[p := Idle]);
          SameSleepers(s, pushed);
          SameWaiters(s, pushed, choice);
          NotifyWakesOne(pushed, choice);
        } else {
          OneMoreSleeper(s, t, p);
          AtMostAllSleep(t);
        }
      case TryDequeue(choice) =>
        if s.queue != [] {
          var popped := s.(queue := s.queue[1..], delivered := s.delivered + [s.queue[0]]);
          SameSleepers(s, popped);
          SameWaiters(s, popped, choice);
          NotifyWakesOne(popped, choice);
        } else {
          SameSleepers(s, t);
        }
      case SpuriousProducer(p) => OneMoreSleeper(t, s, p);
      case SpuriousConsumer => SameSleepers(s, t);
    }
  }

  lemma {:induction false} EveryRunIsCovered<T>(maxSize: nat, producers: nat, events: seq<Event<T>>)
    requires producers < 2 * maxSize
    ensures var s := Run(Init(maxSize, producers), events);
            && Covered(s) && s.maxSize == maxSize && |s.producers| == producers
            && Excess(s) < maxSize
  {
    if events == [] {
      assert Sleepers(Init<T>(maxSize, producers)) == {};
    } else {
      var before := Run(Init(maxSize, producers), events[..|events| - 1]);
      EveryRunIsCovered(maxSize, producers, events[..|events| - 1]);
      if Enabled(before, events[|events| - 1]) {
        CoveredIsKept(before, events[|events| - 1]);
        SameNumberOfProducers(before, events[|events| - 1]);
      }
    }
  }

  lemma SameNumberOfProducers<T>(s: State<T>, e: Event<T>)
    requires Enabled(s, e)
    ensures |Step(s, e).producers| == |s.producers|
  {
  }

  // With at most maxSize producers no wake-up is lost: a sleeping consumer has nothing to
  // take and then no producer sleeps, and there are never more sleeping producers than
  // values still to be taken, each of which will wake one.
  lemma NoLostWakeUp<T>(maxSize: nat, producers: nat, events: seq<Event<T>>)
    requires 0 < maxSize && producers <= maxSize
    ensures var s := Run(Init(maxSize, producers), events);
            && |Sleepers(s)| <= |s.queue|
            && (s.consumer == Asleep ==> s.queue == [] && Sleepers(s) == {})
  {
    EveryRunIsCovered(maxSize, producers, events);
  }

  ghost predicate OnlyDequeues<T>(s: State<T>, events: seq<Event<T>>)
  {
    events == [] ||
    var front := events[..|events| - 1];
    && OnlyDequeues(s, front)
    && events[|events| - 1].TryDequeue?
    && Enabled(Run(s, front), events[|events| - 1])
  }

  // So a consumer that empties the queue, whichever producers it wakes, leaves none asleep.
  lemma DrainingWakesEveryone<T>(maxSize: nat, producers: nat, events: seq<Event<T>>, drain: seq<Event<T>>)
    requires 0 < maxSize && producers <= maxSize
    requires var s := Run(Init(maxSize, producers), events);
             OnlyDequeues(s, drain) && |drain| == |s.queue|
    ensures var t := Run(Run(Init(maxSize, producers), events), drain);
            t.queue == [] && Sleepers(t) == {} && t.delivered == t.accepted
  {
    var start := Init<T>(maxSize, producers);
    DequeuesShorten(Run(start, events), drain);
    RunAppend(start, events, drain);
    NoLostWakeUp(maxSize, producers, events + drain);
    FirstInFirstOut(maxSize, producers, events + drain);
  }

  lemma {:induction false} DequeuesShorten<T>(s: State<T>, drain: seq<Event<T>>)
    requires OnlyDequeues(s, drain) && |drain| <= |s.queue|
    ensures |Run(s, drain).queue| == |s.queue| - |drain|
  {
    if drain != [] {
      DequeuesShorten(s, drain[..|drain| - 1]);
    }
  }

  lemma {:induction false} RunAppend<T>(s: State<T>, a: seq<Event<T>>, b: seq<Event<T>>)
    ensures Run(s, a + b) == Run(Run(s, a), b)
  {
    if b == [] {
      assert a + b == a;
    } else {
      assert (a + b)[..|a + b| - 1] == a + b[..|b| - 1];
      RunAppend(s, a, b[..|b| - 1]);
    }
  }
}
