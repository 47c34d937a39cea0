/** Runs in which a revocation taken from the master is not answered: lost by a restart,
    forgotten by an adjust while still queued, gone with a file deleted too early, and missed
    after an ill-timed rotation; and runs that a rotation ends. Each is a run of the node for
    every hash. */
module NodeExamples {
  import opened BloomFilter
  import opened Decimal
  import opened EngineAnswers
  import opened EngineHistory
  import opened EngineSpec
  import opened LogLine
  import opened Node
  import opened NodeInvariant
  import opened NodeRuns
  import opened NodeTheorems
  import opened Rebuild
  import opened Scheduler
  import opened Wrappers

  // Parameters a node can be started and, by a message, adjusted with.
  ghost predicate Startable(p: Params)
  {
    && 0 < p.maxLife < TWO_32 && 0 < p.interval < TWO_32 && 0 < p.hashNum < TWO_32
    && 0 < p.size < TWO_64 && NewFiltersAccepted(p)
  }

  // Those of the examples: with filters of 8 bits.
  ghost predicate GoodParams(p: Params)
  {
    && 0 < p.maxLife < TWO_32 && 0 < p.interval < TWO_32 && 0 < p.hashNum < TWO_32
    && p.size == 8
  }

  function Revocation(token: string, exp: int): Data
  {
    map["token" := token, "exp_time" := ToString(exp)]
  }

  ghost function Revoking(token: string, exp: int): Event
  {
    Message("revoke_jwt", Revocation(token, exp))
  }

  ghost function Adjusting(p: Params): Event
  {
    Message("adjust_bloom_filter", AdjustMessage("single_node", p))
  }

  // Steps, one at a time.

  lemma NoEvents(h: Hash, n: Node)
    ensures Run(h, n, []) == n
  {
  }

  lemma RunOneMore(h: Hash, n: Node, events: seq<Event>, e: Event)
    requires Enabled(Run(h, n, events), e)
    ensures Run(h, n, events + [e]) == Step(h, Run(h, n, events), e)
  {
    hide Enabled, Step;
    assert (events + [e])[..|events|] == events;
  }

  lemma RunIsReachable(h: Hash, start: int, events: seq<Event>)
    ensures Reachable(h, Run(h, Installed(start), events))
  {
  }

  lemma StartableIsAccepted(p: Params)
    requires Startable(p)
    ensures p.interval > 0 && NewFiltersAccepted(p) && Usable(Effective(p)) && p.size > 0
    ensures Serving(EngineState(p, Fresh(p), map[]))
  {
    hide AcceptsSize;
    AcceptedIsPositive(p.size % 0x1_0000_0000);
  }

  lemma GoodParamsAreAccepted(p: Params)
    requires GoodParams(p)
    ensures p.interval > 0 && NewFiltersAccepted(p) && Usable(p) && Effective(p) == p && AcceptsSize(p.size)
    ensures Startable(p) && Serving(EngineState(p, Fresh(p), map[]))
  {
    hide AcceptsSize;
    EightIsAccepted();
    StartableIsAccepted(p);
  }

  lemma EightIsAccepted()
    ensures AcceptsSize(8)
  {
  }

  lemma {:induction false} EmptyLogHasNoFiles(hour: int, n: nat)
    ensures FoundHours(map[], hour, n) == []
  {
    if n > 0 {
      EmptyLogHasNoFiles(hour, n - 1);
    }
  }

  lemma EmptyLog(now: int)
    ensures RetainedLines(map[], now) == [] && CleanUp(map[], now) == map[]
    ensures Replay([], now) == [] && NoneThrows([])
  {
    EmptyLogHasNoFiles(HourOf(now), KEPT_HOURS);
  }

  // A node just started on an empty log.
  ghost function Booted(now: int, p: Params): Node
    requires p.interval > 0
  {
    Node(now, NodeState("single_node", EngineState(p, Fresh(p), map[])), Free, [], None, Starting, false,
         Past([], [], [], Horizon(now), []))
  }

  lemma NothingHappened(h: Hash, p: Params)
    requires Usable(Effective(p))
    ensures RowAfter(h, Effective(p), []) == Fresh(p)
  {
  }

  lemma Boots(h: Hash, now: int, p: Params)
    requires Startable(p)
    ensures p.interval > 0 && Run(h, Installed(now), [Restart(p)]) == Booted(now, p)
  {
    hide Adjust, Fresh, RowAfter, NewFiltersAccepted, RetainedLines, CleanUp, Replay, Run, NoneThrows, AcceptsSize;
    StartableIsAccepted(p);
    EmptyLog(now);
    AdjustOutcome(h, Installed(now).state.engine, p, now);
    NothingHappened(h, p);
    NoEvents(h, Installed(now));
    RunOneMore(h, Installed(now), [], Restart(p));
    assert [] + [Restart(p)] == [Restart(p)];
  }

  // A live node that is free takes a revocation.
  lemma Takes(h: Hash, n: Node, token: string, exp: int)
    requires !n.dead && n.dispatcher == Free && n.state.role == "single_node" && Serving(n.state.engine)
    requires IsInt64(exp)
    ensures Enabled(n, Revoking(token, exp))
    ensures var e := n.state.engine;
            Step(h, n, Revoking(token, exp)) ==
            n.(state := n.state.(engine := e.(filters := Revoke(h, e.params, e.filters, token, exp, n.now))),
               dispatcher := Logging(Line(Record(token, exp))),
               past := n.past.(taken := n.past.taken + [Taken(Record(token, exp), n.now)],
                               ops := n.past.ops + [Write(token, exp, n.now)]))
  {
    hide Revoke, Line, ToString, Serving;
    StollOfToString(exp);
    assert MessageRecord(Revocation(token, exp)) == Record(token, exp);
  }

  // An adjust of a log of which nothing is retained leaves fresh filters.
  lemma AdjustsToFresh(h: Hash, n: Node, p: Params)
    requires Startable(p) && !n.dead && n.dispatcher == Free && Serving(n.state.engine)
    requires RetainedLines(n.state.engine.dir, n.now) == []
    ensures Adjusts(h, n, AdjustMessage("single_node", p))
    ensures var m := Step(h, n, Adjusting(p));
            && !m.dead && m.now == n.now && (n.worker == Starting ==> m.worker == Starting)
            && p.interval > 0 && m.state.engine.params == p && m.state.engine.filters == Fresh(p)
            && Serving(m.state.engine)
  {
    hide Adjust, Fresh, RowAfter, NewFiltersAccepted, RetainedLines, CleanUp, Replay, NoneThrows, AdjustFields, AcceptsSize, ToString;
    StartableIsAccepted(p);
    EmptyLog(n.now);
    AdjustMessageRoundTrip("single_node", p);
    AdjustOutcome(h, n.state.engine, p, n.now);
    NothingHappened(h, p);
  }

  lemma FreshContainsNothing(h: Hash, p: Params, token: string, exp: int, now: int)
    requires GoodParams(p) && InRange(p, exp, now) && Window(p, exp, now) > 0
    ensures Serving(EngineState(p, Fresh(p), map[]))
    ensures !IsRevoked(h, p, Fresh(p), token, exp, now)
  {
    hide AcceptsSize, Indices;
    GoodParamsAreAccepted(p);
    GuardsNeverFire(h, p, Fresh(p), token, exp, now);
    SomeIndex(h, p.size, p.hashNum, token);
    assert !Contains(h, Fresh(p)[0], token);
  }

  const P: Params := Params(30, 10, 8, 1)

  lemma PIsGood()
    ensures GoodParams(P) && P.interval > 0 && InRange(P, 25, 0) && Window(P, 25, 0) == 2
  {
  }

  // A restart loses a revocation that was taken and had not reached a file: it is nowhere,
  // and the token is active again.
  lemma RestartLosesARevocation(h: Hash)
    ensures var n := Run(h, Installed(0), [Restart(P), Revoking("t", 25)]);
            var m := Run(h, Installed(0), [Restart(P), Revoking("t", 25), Restart(P)]);
            var t := Taken(Record("t", 25), 0);
            && n.past.taken == [t] == m.past.taken && m.past.fates == [Lost]
            && m.past.written == [] && Outstanding(m) == []
            && !n.dead && !m.dead && Serving(n.state.engine) && Serving(m.state.engine)
            && n.state.engine.params == P == m.state.engine.params
            && IsRevoked(h, P, n.state.engine.filters, "t", 25, n.now)
            && !IsRevoked(h, P, m.state.engine.filters, "t", 25, m.now)
  {
    hide Run, Revoke, IsRevoked, Revoking, Line, Fresh, Adjust, RowAfter, NewFiltersAccepted, RetainedLines, CleanUp, Replay, NoneThrows, AcceptsSize, InRange, Window, GoodParams;
    PIsGood();
    GoodParamsAreAccepted(P);
    Boots(h, 0, P);
    var a := Booted(0, P);
    Takes(h, a, "t", 25);
    RunOneMore(h, Installed(0), [Restart(P)], Revoking("t", 25));
    assert [Restart(P)] + [Revoking("t", 25)] == [Restart(P), Revoking("t", 25)];
    var n := Step(h, a, Revoking("t", 25));
    RevokedIsFound(h, P, Fresh(P), "t", 25, 0);
    RunOneMore(h, Installed(0), [Restart(P), Revoking("t", 25)], Restart(P));
    assert [Restart(P), Revoking("t", 25)] + [Restart(P)] == [Restart(P), Revoking("t", 25), Restart(P)];
    EmptyLog(0);
    AdjustOutcome(h, n.state.engine.(filters := []), P, 0);
    NothingHappened(h, P);
    FreshContainsNothing(h, P, "t", 25, 0);
    assert seq(|InFlight(n.past)|, _ => Lost) == [Lost];
  }

  // An adjust forgets a revocation whose line is still in the log queue.
  lemma AdjustForgetsQueuedRevocations(h: Hash)
    ensures var n := Run(h, Installed(0), [Restart(P), Revoking("t", 25), HandOver]);
            var m := Run(h, Installed(0), [Restart(P), Revoking("t", 25), HandOver, Adjusting(P)]);
            && Reachable(h, n) && Adjusts(h, n, AdjustMessage("single_node", P)) && n.queue != []
            && !m.dead && Serving(n.state.engine) && Serving(m.state.engine)
            && n.state.engine.params == P == m.state.engine.params
            && IsRevoked(h, P, n.state.engine.filters, "t", 25, n.now)
            && !IsRevoked(h, P, m.state.engine.filters, "t", 25, m.now)
  {
    hide Run, Revoke, IsRevoked, Revoking, Line, Fresh, RetainedLines, AcceptsSize, InRange, Window, GoodParams, Reachable, Adjusts, AdjustMessage;
    PIsGood();
    GoodParamsAreAccepted(P);
    Boots(h, 0, P);
    var a := Booted(0, P);
    Takes(h, a, "t", 25);
    RevokedIsFound(h, P, Fresh(P), "t", 25, 0);
    var b := Step(h, a, Revoking("t", 25));
    var n := b.(dispatcher := Free, queue := [b.dispatcher.line]);
    assert b.queue + [b.dispatcher.line] == [b.dispatcher.line];
    assert Enabled(b, HandOver) && Step(h, b, HandOver) == n;
    RunOneMore(h, Installed(0), [Restart(P)], Revoking("t", 25));
    assert [Restart(P)] + [Revoking("t", 25)] == [Restart(P), Revoking("t", 25)];
    RunOneMore(h, Installed(0), [Restart(P), Revoking("t", 25)], HandOver);
    assert [Restart(P), Revoking("t", 25)] + [HandOver] == [Restart(P), Revoking("t", 25), HandOver];
    RunIsReachable(h, 0, [Restart(P), Revoking("t", 25), HandOver]);
    EmptyLog(0);
    AdjustsToFresh(h, n, P);
    EnabledByAdjust(h, n, P);
    RunOneMore(h, Installed(0), [Restart(P), Revoking("t", 25), HandOver], Adjusting(P));
    assert [Restart(P), Revoking("t", 25), HandOver] + [Adjusting(P)]
        == [Restart(P), Revoking("t", 25), HandOver, Adjusting(P)];
    FreshContainsNothing(h, P, "t", 25, 0);
  }

  lemma EnabledByAdjust(h: Hash, n: Node, p: Params)
    requires Adjusts(h, n, AdjustMessage("single_node", p))
    ensures Enabled(n, Adjusting(p))
  {
  }

  // A rotation between a revocation and a query, neither late nor early, hides a revoked
  // token: taken 9 seconds into the worker's wait with 25 seconds to live, asked for a second
  // later, right after the rotation.
  lemma RotationHidesARevocation(h: Hash)
    ensures var taking := [Restart(P), WaitBegins, Tick(9), Revoking("t", 34)];
            var n := Run(h, Installed(0), taking);
            var m := Run(h, Installed(0), taking + [Tick(1), WaitExpires, RotateNow]);
            && n.now == 9 && m.now == 10 && !n.dead && !m.dead
            && n.state.engine.params == P == m.state.engine.params
            && Serving(n.state.engine) && Serving(m.state.engine)
            && IsRevoked(h, P, n.state.engine.filters, "t", 34, n.now)
            && !IsRevoked(h, P, m.state.engine.filters, "t", 34, m.now)
  {
    hide Run, Revoke, Rotate, IsRevoked, Revoking, Line, Fresh, AcceptsSize, GoodParams, Reachable, RowAfter, Timed, Holds, Serving;
    PIsGood();
    GoodParamsAreAccepted(P);
    var taking := [Restart(P), WaitBegins, Tick(9), Revoking("t", 34)];
    var n := BeforeRotation(h);
    var w := Write("t", 34, 9);
    RunIsReachable(h, 0, taking);
    ReachableRow(h, n);
    var d := Step(h, Step(h, n, Tick(1)), WaitExpires);
    var m := Step(h, d, RotateNow);
    RunOneMore(h, Installed(0), taking, Tick(1));
    RunOneMore(h, Installed(0), taking + [Tick(1)], WaitExpires);
    assert taking + [Tick(1)] + [WaitExpires] == taking + [Tick(1), WaitExpires];
    RunOneMore(h, Installed(0), taking + [Tick(1), WaitExpires], RotateNow);
    assert taking + [Tick(1), WaitExpires] + [RotateNow] == taking + [Tick(1), WaitExpires, RotateNow];
    RunIsReachable(h, 0, taking + [Tick(1), WaitExpires, RotateNow]);
    ThreeFilters(n.state.engine.filters);
    assert !m.dead && [w] + [Rotation(10)] == [w, Rotation(10)];
    ReachableRow(h, m);
    RevokedTokenCanBeMissed(h);
  }

  lemma ThreeFilters(fs: seq<Filter>)
    requires |fs| == FiltersNum(P)
    ensures fs != []
  {
  }

  lemma BeforeRotation(h: Hash) returns (n: Node)
    ensures n == Run(h, Installed(0), [Restart(P), WaitBegins, Tick(9), Revoking("t", 34)])
    ensures n.now == 9 && !n.dead && n.worker == Waiting(0, 10)
    ensures n.state.engine.params == P && n.past.ops == [Write("t", 34, 9)]
  {
    hide Run, Revoke, Revoking, Line, Fresh, AcceptsSize, GoodParams;
    PIsGood();
    GoodParamsAreAccepted(P);
    Boots(h, 0, P);
    var a := Booted(0, P);
    var b := Step(h, a, WaitBegins);
    var c := Step(h, b, Tick(9));
    Takes(h, c, "t", 34);
    n := Step(h, c, Revoking("t", 34));
    RunOneMore(h, Installed(0), [Restart(P)], WaitBegins);
    assert [Restart(P)] + [WaitBegins] == [Restart(P), WaitBegins];
    RunOneMore(h, Installed(0), [Restart(P), WaitBegins], Tick(9));
    assert [Restart(P), WaitBegins] + [Tick(9)] == [Restart(P), WaitBegins, Tick(9)];
    RunOneMore(h, Installed(0), [Restart(P), WaitBegins, Tick(9)], Revoking("t", 34));
    assert [Restart(P), WaitBegins, Tick(9)] + [Revoking("t", 34)]
        == [Restart(P), WaitBegins, Tick(9), Revoking("t", 34)];
  }

  // A life of 82802 seconds is too long for 24 files: taken and written in the last second
  // of an hour, the revocation is unexpired and in range a day later, when an adjust deletes
  // its file and the token becomes active.

  const Q: Params := Params(90000, 1, 8, 1)

  lemma QIsGood()
    ensures GoodParams(Q) && Q.interval > 0
    ensures InRange(Q, 86401, 3599) && InRange(Q, 86401, 86400) && Window(Q, 86401, 86400) == 1
    ensures HourOf(3599) == 0 && HourOf(86400) == 86400 && Horizon(86400) == 0
  {
  }

  ghost function Logged(): seq<Event>
  {
    [Restart(Q), Revoking("t", 86401), HandOver, LogTake, LogWrite]
  }

  lemma FileIsDeletedTooEarly(h: Hash)
    ensures var n := Run(h, Installed(3599), Logged() + [Tick(82801)]);
            var m := Run(h, Installed(3599), Logged() + [Tick(82801), Adjusting(Q)]);
            && n.past.taken == [Taken(Record("t", 86401), 3599)] && n.past.fates == [InFile]
            && n.now == 86400 && Reachable(h, n) && Adjusts(h, n, AdjustMessage("single_node", Q))
            && !n.dead && !m.dead && Serving(n.state.engine) && Serving(m.state.engine)
            && n.state.engine.params == Q == m.state.engine.params && InRange(Q, 86401, n.now)
            && IsRevoked(h, Q, n.state.engine.filters, "t", 86401, n.now)
            && !IsRevoked(h, Q, m.state.engine.filters, "t", 86401, m.now)
  {
    hide Run, Revoke, Rotate, IsRevoked, Revoking, Line, Fresh, AcceptsSize, GoodParams, Reachable, RowAfter, Timed, Holds, Serving, Adjusts, AdjustMessage, HourOf, Horizon, InRange, Window, RetainedLines, AppendLine, Logged, LogInv;
    QIsGood();
    var c := AfterLogging(h);
    var n := Step(h, c, Tick(82801));
    RunOneMore(h, Installed(3599), Logged(), Tick(82801));
    RunIsReachable(h, 3599, Logged() + [Tick(82801)]);
    ReachableRow(h, n);
    StillInTheRow(h, n);
    NothingIsRetained(h, n);
    GoodParamsAreAccepted(Q);
    AdjustsToFresh(h, n, Q);
    EnabledByAdjust(h, n, Q);
    RunOneMore(h, Installed(3599), Logged() + [Tick(82801)], Adjusting(Q));
    assert Logged() + [Tick(82801)] + [Adjusting(Q)] == Logged() + [Tick(82801), Adjusting(Q)];
    FreshContainsNothing(h, Q, "t", 86401, 86400);
  }

  lemma AfterLogging(h: Hash) returns (c: Node)
    ensures c == Run(h, Installed(3599), Logged())
    ensures c.now == 3599 && !c.dead && c.dispatcher == Free && c.state.engine.params == Q
    ensures c.past.taken == [Taken(Record("t", 86401), 3599)] && c.past.fates == [InFile]
    ensures c.past.written == [Entry(Line(Record("t", 86401)), 0)]
    ensures c.past.ops == [Write("t", 86401, 3599)]
  {
    hide Run, Revoke, Revoking, Line, Fresh, AcceptsSize, GoodParams, HourOf, Horizon, AppendLine, InRange, Window;
    QIsGood();
    GoodParamsAreAccepted(Q);
    Boots(h, 3599, Q);
    var revoking := Revoking("t", 86401);
    var a := Booted(3599, Q);
    Takes(h, a, "t", 86401);
    var b := Step(h, a, revoking);
    var d := Step(h, b, HandOver);
    var e := Step(h, d, LogTake);
    c := Step(h, e, LogWrite);
    RunOneMore(h, Installed(3599), [Restart(Q)], revoking);
    assert [Restart(Q)] + [revoking] == [Restart(Q), revoking];
    RunOneMore(h, Installed(3599), [Restart(Q), revoking], HandOver);
    assert [Restart(Q), revoking] + [HandOver] == [Restart(Q), revoking, HandOver];
    RunOneMore(h, Installed(3599), [Restart(Q), revoking, HandOver], LogTake);
    assert [Restart(Q), revoking, HandOver] + [LogTake] == [Restart(Q), revoking, HandOver, LogTake];
    RunOneMore(h, Installed(3599), [Restart(Q), revoking, HandOver, LogTake], LogWrite);
    assert [Restart(Q), revoking, HandOver, LogTake] + [LogWrite] == Logged();
  }

  lemma StillInTheRow(h: Hash, n: Node)
    requires Usable(Q) && n.state.engine.filters == RowAfter(h, Effective(Q), n.past.ops)
    requires n.past.ops == [Write("t", 86401, 3599)] && n.now == 86400
    ensures Serving(EngineState(Q, n.state.engine.filters, map[]))
    ensures IsRevoked(h, Q, n.state.engine.filters, "t", 86401, 86400)
  {
    hide RowAfter, IsRevoked, HourOf, Horizon;
    QIsGood();
    var w := Write("t", 86401, 3599);
    assert [] + [w] + [] == [w] && Effective(Q) == Q;
    ExactAnswer(Q, [], w, [], 86400);
    BloomRefinesIdeal(h, Q, [w], "t", 86401, 86400);
  }

  lemma NothingIsRetained(h: Hash, n: Node)
    requires Reachable(h, n) && n.now == 86400
    requires n.past.written == [Entry(Line(Record("t", 86401)), 0)]
    ensures RetainedLines(n.state.engine.dir, n.now) == []
  {
    hide LogInv, RetainedLines, Reachable, Line, HourOf;
    ReachableKeepsInv(h, n);
    LineIsOneLine(Record("t", 86401));
    QIsGood();
    var lines := RetainedLines(n.state.engine.dir, n.now);
    if lines != [] {
      var line := SomeMember(lines);
      RetainedExactly(n, line);
      assert false;
    }
  }

  lemma SomeMember(lines: seq<string>) returns (line: string)
    requires lines != []
    ensures line in lines
  {
    line := lines[0];
  }

  // The first rotation after an adjust that goes through and is acknowledged.

  function RotationComesDue(p: Params): seq<Event>
  {
    [WaitBegins, Tick(p.interval), WaitExpires]
  }

  lemma RotationIsDue(h: Hash, n: Node)
    requires !n.dead && n.worker == Starting
    ensures var p := n.state.engine.params;
            Run(h, n, RotationComesDue(p)) == n.(now := n.now + p.interval, worker := Expired)
  {
    hide Run;
    var p := n.state.engine.params;
    var c := n.(worker := Waiting(n.now, p.interval));
    NoEvents(h, n);
    RunOneMore(h, n, [], WaitBegins);
    RunOneMore(h, n, [] + [WaitBegins], Tick(p.interval));
    RunOneMore(h, n, [] + [WaitBegins] + [Tick(p.interval)], WaitExpires);
    assert [] + [WaitBegins] + [Tick(p.interval)] + [WaitExpires] == RotationComesDue(p);
  }

  lemma AdjustedAtOnce(h: Hash, p: Params)
    requires Startable(p)
    ensures var n := Run(h, Installed(0), [Restart(P), Adjusting(p)]);
            !n.dead && n.state.engine.params == p && n.worker == Starting
  {
    hide Run, Startable, Adjusting, GoodParams, Received, Step, AdjustMessage, Adjusts, Fresh;
    PIsGood();
    GoodParamsAreAccepted(P);
    Boots(h, 0, P);
    EmptyLog(0);
    AdjustsToFresh(h, Booted(0, P), p);
    EnabledByAdjust(h, Booted(0, P), p);
    RunOneMore(h, Installed(0), [Restart(P)], Adjusting(p));
    assert [Restart(P)] + [Adjusting(p)] == [Restart(P), Adjusting(p)];
  }

  lemma FirstRotation(h: Hash, p: Params)
    requires Startable(p)
    ensures var events := [Restart(P), Adjusting(p)] + RotationComesDue(p);
            var n := Run(h, Installed(0), events);
            && !n.dead && n.state.engine.params == p && Enabled(n, RotateNow)
            && (Run(h, Installed(0), events + [RotateNow]).dead <==> p.maxLife < p.interval || p.size >= TWO_32)
  {
    hide Run, Startable, Reachable, Adjusting, Rotated, RotationComesDue;
    var events := [Restart(P), Adjusting(p)] + RotationComesDue(p);
    AdjustedAtOnce(h, p);
    RotationIsDue(h, Run(h, Installed(0), [Restart(P), Adjusting(p)]));
    RunInTwo(h, Installed(0), [Restart(P), Adjusting(p)], RotationComesDue(p));
    RunIsReachable(h, 0, events);
    RotationDiesExactly(h, Run(h, Installed(0), events));
    RunOneMore(h, Installed(0), events, RotateNow);
  }

  // So with an interval above the maximum life, or with a size of 2^32 + 8, the node lives on
  // after the adjust and ends one interval later.
  lemma RotationEndsTheNode(h: Hash, p: Params)
    requires p == Params(5, 10, 8, 1) || p == Params(30, 10, 0x1_0000_0008, 1)
    ensures var events := [Restart(P), Adjusting(p)] + RotationComesDue(p);
            !Run(h, Installed(0), events).dead && Run(h, Installed(0), events + [RotateNow]).dead
  {
    hide Run, Adjusting, RotationComesDue, AcceptsSize;
    EightIsAccepted();
    FirstRotation(h, p);
  }
}
