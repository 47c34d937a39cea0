/** The node's promises, over every run: what becomes of a revocation taken from the master,
    and what a query is answered. */
module NodeTheorems {
  import opened Arithmetic
  import opened BloomFilter
  import opened Decimal
  import opened EngineAnswers
  import opened EngineHistory
  import opened EngineSpec
  import opened LogLine
  import opened Node
  import opened NodeInvariant
  import opened NodeRuns
  import opened Rebuild
  import opened Scheduler

  // The states of a node between its installation and any moment after it.
  ghost predicate Reachable(h: Hash, n: Node)
  {
    exists start, events :: n == Run(h, Installed(start), events)
  }

  lemma ReachableKeepsInv(h: Hash, n: Node)
    requires Reachable(h, n)
    ensures Inv(h, n)
  {
    hide Run, Inv;
    var start, events :| n == Run(h, Installed(start), events);
    EveryRunKeepsInv(h, start, events);
  }

  // The log.

  // Every revocation ever taken from the master is in exactly one place: those that reached
  // a file are the lines written, in order of arrival; those without a fate are with the log
  // worker, in the queue or with the dispatcher, in order of arrival; the others were lost.
  // The file of every hour in retention reads as the text of the lines written in it.
  lemma RevocationsAreConserved(h: Hash, n: Node)
    requires Reachable(h, n)
    ensures |n.past.fates| <= |n.past.taken|
    ensures |WithFate(n.past.taken, n.past.fates, InFile)| + |WithFate(n.past.taken, n.past.fates, Lost)|
            + |n.past.taken[|n.past.fates|..]| == |n.past.taken|
    ensures TakenLines(WithFate(n.past.taken, n.past.fates, InFile)) == EntryLines(n.past.written)
    ensures TakenLines(n.past.taken[|n.past.fates|..]) == Outstanding(n)
    ensures forall hour :: n.past.cutoff < hour ==>
              LinesAt(n.state.engine.dir, hour) == Lines(FileText(WrittenIn(n.past.written, hour)))
  {
    hide DirectoryOk, WithFate, Lines, FileText;
    ReachableKeepsInv(h, n);
    EachHasOneFate(n.past.taken, n.past.fates);
    forall hour | n.past.cutoff < hour
      ensures LinesAt(n.state.engine.dir, hour) == Lines(FileText(WrittenIn(n.past.written, hour)))
    {
      FileHoldsWrittenLines(n, hour);
    }
  }

  lemma {:induction false} EachHasOneFate(taken: seq<Taken>, fates: seq<Fate>)
    requires |fates| <= |taken|
    ensures |WithFate(taken, fates, InFile)| + |WithFate(taken, fates, Lost)| == |fates|
  {
    if fates != [] {
      EachHasOneFate(taken, fates[..|fates| - 1]);
    }
  }

  lemma MessageTakesAtMostOne(h: Hash, n: Node, event: string, data: Data)
    requires Enabled(n, Message(event, data))
    ensures var m, t := Received(h, n, event, data), Taken(MessageRecord(data), n.now);
            && m.past.fates == n.past.fates
            && (m.past.taken == n.past.taken || m.past.taken == n.past.taken + [t])
  {
    hide Adjust, Revoke, RetainedLines, Replay, Line, AdjustFields, MessageRecord;
  }

  // What is taken stays taken and a fate never changes. Only a restart loses anything, and
  // it loses exactly what was outstanding at that moment.
  lemma OnlyRestartsLose(h: Hash, n: Node, e: Event)
    requires Inv(h, n) && Enabled(n, e)
    ensures var m := Step(h, n, e);
            && n.past.taken <= m.past.taken && n.past.fates <= m.past.fates
            && |m.past.fates| <= |m.past.taken|
            && WithFate(m.past.taken, m.past.fates, Lost) ==
                 if e.Restart? then WithFate(n.past.taken, n.past.fates, Lost) + InFlight(n.past)
                 else WithFate(n.past.taken, n.past.fates, Lost)
    ensures TakenLines(InFlight(n.past)) == Outstanding(n)
  {
    hide Started, Received, WithFate, AcceptsSize, Rotate, RowInv, WorkerInv, DirectoryOk, TakenOk, EntriesOk, TakenLines, Outstanding;
    match e {
      case Restart(p) => RestartLoses(h, n, p);
      case LogWrite =>
        var t := OldestInFlight(n);
        OneMoreFate(n.past.taken, n.past.fates, InFile, Lost);
      case Message(event, data) =>
        MessageTakesAtMostOne(h, n, event, data);
        MoreTakenSameFates(n.past.taken, Taken(MessageRecord(data), n.now), n.past.fates, Lost);
      case _ =>
    }
  }

  ghost predicate NoRestart(events: seq<Event>)
  {
    forall e :: e in events ==> !e.Restart?
  }

  // So between two restarts nothing is lost.
  lemma {:induction false} NothingIsLostWithoutRestart(h: Hash, n: Node, events: seq<Event>)
    requires Inv(h, n) && NoRestart(events)
    ensures var m := Run(h, n, events);
            && Inv(h, m) && |m.past.fates| <= |m.past.taken| && |n.past.fates| <= |n.past.taken|
            && WithFate(m.past.taken, m.past.fates, Lost) == WithFate(n.past.taken, n.past.fates, Lost)
  {
    hide Step, Enabled, WithFate, LogInv, RowInv, WorkerInv;
    assert |n.past.fates| <= |n.past.taken| by { FatesAreOfTaken(h, n); }
    if events != [] {
      var front, e := events[..|events| - 1], events[|events| - 1];
      var before := Run(h, n, front);
      assert events == front + [e] && e in events;
      NothingIsLostWithoutRestart(h, n, front);
      if Enabled(before, e) {
        OnlyRestartsLose(h, before, e);
        StepKeeps(h, before, e);
      }
    }
  }

  lemma FatesAreOfTaken(h: Hash, n: Node)
    requires Inv(h, n)
    ensures |n.past.fates| <= |n.past.taken|
  {
  }

  // In particular a node that was started once and never restarted has lost nothing.
  lemma FirstStartLosesNothing(h: Hash, start: int, p: Params, events: seq<Event>)
    requires NoRestart(events)
    ensures var m := Run(h, Installed(start), [Restart(p)] + events);
            |m.past.fates| <= |m.past.taken| && WithFate(m.past.taken, m.past.fates, Lost) == []
  {
    hide Step, Enabled, WithFate, Inv, Run;
    var first := Run(h, Installed(start), [Restart(p)]);
    StartedOnce(h, start, p);
    EveryRunKeepsInv(h, start, [Restart(p)]);
    RunInTwo(h, Installed(start), [Restart(p)], events);
    NothingIsLostWithoutRestart(h, first, events);
  }

  lemma StartedOnce(h: Hash, start: int, p: Params)
    ensures var m := Run(h, Installed(start), [Restart(p)]);
            m.past.taken == [] && m.past.fates == [] && WithFate([], [], Lost) == []
  {
    hide Adjust;
    assert [Restart(p)][..0] == [];
    assert Run(h, Installed(start), [Restart(p)][..0]) == Installed(start);
  }

  lemma {:induction false} RunInTwo(h: Hash, n: Node, a: seq<Event>, b: seq<Event>)
    ensures Run(h, n, a + b) == Run(h, Run(h, n, a), b)
  {
    hide Enabled, Step;
    if b == [] {
      assert a + b == a;
    } else {
      assert (a + b)[..|a + b| - 1] == a + b[..|b| - 1];
      RunInTwo(h, n, a, b[..|b| - 1]);
    }
  }

  // Retention.

  // A clean-up deletes the file of the hour of `at` while something with expiry `exp` and a
  // life of at most `life` seconds, taken at `at`, is unexpired.
  ghost predicate DeletedTooEarly(life: nat, dir: Directory, at: int, exp: int, now: int)
  {
    && at <= now < exp && exp - at <= life
    && HourOf(at) in dir && HourOf(at) !in CleanUp(dir, now)
  }

  // Keeping 24 files is enough exactly for lives of up to 82801 seconds, a second more than
  // 23 hours.
  lemma RetentionThreshold(life: nat)
    ensures (exists dir, at, exp, now :: DeletedTooEarly(life, dir, at, exp, now)) <==> life > 82801
  {
    if life > 82801 {
      assert HourOf(3599) == 0 && HourOf(86400) == 86400;
      assert DeletedTooEarly(life, map[0 := ""], 3599, 86401, 86400);
    } else {
      forall dir, at, exp, now | at <= now < exp && exp - at <= life
        ensures !DeletedTooEarly(life, dir, at, exp, now)
      {
        LessThanADayLater(at, now);
      }
    }
  }

  lemma LessThanADayLater(at: int, now: int)
    requires at <= now <= at + 82800
    ensures Horizon(now) < HourOf(at)
    ensures IsWithin(HourOf(at), HourOf(now), KEPT_HOURS)
  {
  }

  // So clean-up deletes only files whose records, if their lives were within that bound,
  // have all expired.
  lemma UnexpiredRecordsAreRetained(h: Hash, n: Node, i: nat)
    requires Reachable(h, n) && i < |n.past.written|
    ensures i < |Filed(n.past)|
    ensures var t := Filed(n.past)[i];
            t.record.exp - t.at <= 82801 && n.now < t.record.exp ==> Horizon(n.now) < n.past.written[i].hour
  {
    hide HourOf, Horizon, Filed, LogInv;
    ReachableKeepsInv(h, n);
    EntryHour(n, i);
    var t := Filed(n.past)[i];
    if t.record.exp - t.at <= 82801 && n.now < t.record.exp {
      TakenBeforeNow(n, i);
      LessThanADayLater(t.at, n.now);
    }
  }

  lemma TakenBeforeNow(n: Node, i: nat)
    requires LogInv(n) && i < |Filed(n.past)|
    ensures Filed(n.past)[i].at <= n.now
  {
    hide Filed;
    var t := Filed(n.past)[i];
    assert t in n.past.taken;
  }

  // The master's adjust message.

  // What the message asks for is what the engine gets.
  function AdjustMessage(role: string, p: Params): Data
  {
    map["node_role" := role, "uuid" := "",
        "max_jwt_life_time" := ToString(p.maxLife), "rotation_interval" := ToString(p.interval),
        "bloom_filter_size" := ToString(p.size), "hash_function_num" := ToString(p.hashNum)]
  }

  lemma AdjustMessageRoundTrip(role: string, p: Params)
    requires p.maxLife < TWO_64 && p.interval < TWO_64 && p.size < TWO_64 && p.hashNum < TWO_64
    ensures HasAdjustFields(AdjustMessage(role, p))
    ensures AdjustFields(AdjustMessage(role, p)) == p <==>
              p.maxLife < TWO_32 && p.interval < TWO_32 && p.hashNum < TWO_32
  {
    hide ToString, StringToUInt, StringToSizeT;
    StringToUIntOfToString(p.maxLife);
    StringToUIntOfToString(p.interval);
    StringToUIntOfToString(p.size);
    StringToUIntOfToString(p.hashNum);
  }

  // The message is an adjust that goes through.
  ghost predicate Adjusts(h: Hash, n: Node, data: Data)
  {
    && Enabled(n, Message("adjust_bloom_filter", data))
    && Dispatch(h, n.state, "adjust_bloom_filter", data, n.now).1.Adjusted?
  }

  // When it does: for a local role, with all fields, with parameters the engine can use, and
  // with a log every retained line of which can be read.
  lemma AdjustsExactly(h: Hash, n: Node, data: Data)
    ensures Adjusts(h, n, data) <==>
              && Enabled(n, Message("adjust_bloom_filter", data))
              && IsLocal(Lookup(data, "node_role")) && HasAdjustFields(data)
              && AdjustFields(data).interval > 0 && NewFiltersAccepted(AdjustFields(data))
              && NoneThrows(RetainedLines(n.state.engine.dir, n.now))
  {
    hide Adjust, NewFiltersAccepted, RetainedLines, NoneThrows, AdjustFields, Serving;
    if HasAdjustFields(data) {
      AdjustOutcome(h, n.state.engine, AdjustFields(data), n.now);
    }
  }

  // And the log can be read exactly when no revocation written in one of the last 24 hours
  // has an unreadable token.
  lemma LogIsReadableExactly(h: Hash, n: Node)
    requires Reachable(h, n)
    ensures |n.past.written| == |Filed(n.past)|
    ensures NoneThrows(RetainedLines(n.state.engine.dir, n.now)) <==>
              forall i :: 0 <= i < |n.past.written| && Horizon(n.now) < n.past.written[i].hour ==>
                !IsUnreadable(Filed(n.past)[i].record.token)
  {
    hide RetainedLines, LogInv, Horizon, IsUnreadable, Filed, Lines, Parse;
    ReachableKeepsInv(h, n);
    AsManyFiledAsWritten(n);
    var lines := RetainedLines(n.state.engine.dir, n.now);
    if !NoneThrows(lines) {
      var line :| line in lines && Parse(line).Thrown?;
      RetainedExactly(n, line);
      var i: nat :| IsLeftBy(n, i, line);
      EntryThrowsExactly(n, i);
    }
    forall i | 0 <= i < |n.past.written| && Horizon(n.now) < n.past.written[i].hour
               && IsUnreadable(Filed(n.past)[i].record.token)
      ensures !NoneThrows(lines)
    {
      EntryThrowsExactly(n, i);
      var line :| line in Lines(n.past.written[i].line + "\n") && Parse(line).Thrown?;
      assert IsLeftBy(n, i, line);
      RetainedExactly(n, line);
    }
  }

  lemma AsManyFiledAsWritten(n: Node)
    requires LogInv(n)
    ensures |n.past.written| == |Filed(n.past)|
  {
  }

  lemma EntryThrowsExactly(n: Node, i: nat)
    requires LogInv(n) && i < |n.past.written|
    ensures i < |Filed(n.past)|
    ensures (exists line :: line in Lines(n.past.written[i].line + "\n") && Parse(line).Thrown?)
            <==> IsUnreadable(Filed(n.past)[i].record.token)
  {
    hide LogInv, IsUnreadable, Filed, Lines, Parse, Line;
    LineOfEntry(n, i);
    RecordThrowsExactly(Filed(n.past)[i].record);
  }

  // So one unreadable revocation that reached a file ends every adjust and every start of the
  // node until its file is deleted.
  lemma UnreadableRecordStopsTheNode(h: Hash, n: Node, i: nat, p: Params, data: Data)
    requires Reachable(h, n) && i < |n.past.written| && Horizon(n.now) < n.past.written[i].hour
    ensures i < |Filed(n.past)|
    ensures IsUnreadable(Filed(n.past)[i].record.token) ==> !Adjusts(h, n, data) && Started(h, n, p).dead
  {
    hide RetainedLines, NoneThrows, Adjusts, Horizon, IsUnreadable, Filed, Adjust, Replay, Reachable;
    LogIsReadableExactly(h, n);
    if IsUnreadable(Filed(n.past)[i].record.token) {
      AdjustsExactly(h, n, data);
      AdjustOutcome(h, n.state.engine.(filters := []), p, n.now);
    }
  }

  // A due rotation ends the node exactly when the row has no filter to erase, or when the
  // size, which is cut to 32 bits for the filters made by an adjust, does not fit in 32 bits.
  lemma RotationDiesExactly(h: Hash, n: Node)
    requires Reachable(h, n) && Enabled(n, RotateNow)
    ensures var p := n.state.engine.params;
            Step(h, n, RotateNow).dead <==> p.maxLife < p.interval || p.size >= TWO_32
  {
    hide LogInv, AcceptsSize, RowAfter, Reachable;
    ReachableKeepsInv(h, n);
    var p := n.state.engine.params;
    NoFilterExactly(p.maxLife, p.interval);
    if p.maxLife >= p.interval && AcceptsSize(p.size) {
      AcceptedWholeAndCut(p.size);
    }
  }

  // The parameters can be used and the retained log can be read.
  ghost predicate CanRebuild(n: Node, p: Params)
  {
    p.interval > 0 && NewFiltersAccepted(p) && NoneThrows(RetainedLines(n.state.engine.dir, n.now))
  }

  // All that ends a live node, or keeps it from starting.
  lemma WhatEndsTheNode(h: Hash, n: Node, e: Event)
    requires Reachable(h, n) && Enabled(n, e) && (e.Restart? || !n.dead)
    ensures Step(h, n, e).dead <==>
            match e
            case Restart(p) => p.maxLife == 0 || p.size == 0 || p.hashNum == 0 || !CanRebuild(n, p)
            case RotateNow =>
              var p := n.state.engine.params;
              p.maxLife < p.interval || p.size >= TWO_32
            case Message("adjust_bloom_filter", data) =>
              var role := Lookup(data, "node_role");
              || "node_role" !in data
              || (IsLocal(role) && !(HasAdjustFields(data) && CanRebuild(n, AdjustFields(data)) && "uuid" in data))
              || (role == "slave_node" && !("proxy_node_host" in data && "proxy_node_port" in data))
            case _ => false
  {
    hide Adjust, NewFiltersAccepted, RetainedLines, NoneThrows, AdjustFields, Reachable, Revoke, RowAfter, Rotated, Replay;
    match e {
      case Restart(p) =>
        AdjustOutcome(h, n.state.engine.(filters := []), p, n.now);
      case RotateNow =>
        RotationDiesExactly(h, n);
      case Message(_, data) =>
        if HasAdjustFields(data) {
          AdjustOutcome(h, n.state.engine, AdjustFields(data), n.now);
        }
      case _ =>
    }
  }

  lemma NoFilterExactly(maxLife: nat, interval: nat)
    requires interval > 0
    ensures maxLife / interval == 0 <==> maxLife < interval
  {
    if maxLife >= interval {
      QuotientMonotone(interval, maxLife, interval);
    }
  }

  // The role of a node: that of a node just started, and then the one named by the last adjust
  // that named one.
  lemma RoleFollows(h: Hash, n: Node, e: Event)
    requires Enabled(n, e)
    ensures Step(h, n, e).state.role ==
              match e
              case Restart(_) => "single_node"
              case Message("adjust_bloom_filter", data) =>
                if "node_role" in data
                   && (data["node_role"] == "single_node" || data["node_role"] == "proxy_node"
                       || data["node_role"] == "slave_node")
                then data["node_role"] else n.state.role
              case _ => n.state.role
  {
    hide Adjust, Revoke, RetainedLines, Replay, AdjustFields, HasAdjustFields, Line, AcceptsSize;
  }

  // After an adjust that goes through the role is the one it names, one of the two that
  // answer for their own filters.
  lemma AdjustSetsTheRole(h: Hash, n: Node, data: Data)
    requires Adjusts(h, n, data)
    ensures "node_role" in data && (data["node_role"] == "single_node" || data["node_role"] == "proxy_node")
    ensures Step(h, n, Message("adjust_bloom_filter", data)).state.role == data["node_role"]
  {
    hide Adjust, RetainedLines, Replay, AdjustFields, HasAdjustFields;
  }

  // Queries after an adjust.

  lemma AfterAdjust(h: Hash, n: Node, data: Data)
    requires Adjusts(h, n, data)
    ensures var m := Step(h, n, Message("adjust_bloom_filter", data));
            var p := m.state.engine.params;
            && m.now == n.now && p == AdjustFields(data)
            && p.interval > 0 && NewFiltersAccepted(p) && Usable(Effective(p))
            && m.past.ops == Replay(RetainedLines(n.state.engine.dir, n.now), n.now)
            && m.state.engine.filters == RowAfter(h, Effective(p), m.past.ops)
            && Recover(h, p, Recovered(Fresh(p)), RetainedLines(n.state.engine.dir, n.now), n.now)
               == Recovered(m.state.engine.filters)
  {
    hide RowAfter, NewFiltersAccepted, Recover, Replay, RetainedLines, AdjustFields, NoneThrows;
    var p := AdjustFields(data);
    AdjustOutcome(h, n.state.engine, p, n.now);
    RebuildIsReplay(h, p, RetainedLines(n.state.engine.dir, n.now), n.now);
  }

  // End to end: after each adjust that goes through, every revocation taken from the master
  // that is in a retained file, unexpired, and in range for the new parameters is answered
  // revoked, if its token has neither comma nor newline.
  lemma AdjustAnswersRetainedRecords(h: Hash, n: Node, data: Data, i: nat)
    requires Reachable(h, n) && Adjusts(h, n, data) && i < |n.past.written|
    ensures var e := Step(h, n, Message("adjust_bloom_filter", data)).state.engine;
            && i < |Filed(n.past)| && Serving(e)
            && (var r := Filed(n.past)[i].record;
                && IsClean(r.token) && Horizon(n.now) < n.past.written[i].hour && InRange(e.params, r.exp, n.now) ==>
                  IsRevoked(h, e.params, e.filters, r.token, r.exp, n.now))
  {
    hide RowAfter, NewFiltersAccepted, Recover, Replay, RetainedLines, AdjustFields, Parse, Line, IsRevoked, InRange, Horizon, LogInv, Filed;
    ReachableKeepsInv(h, n);
    AfterAdjust(h, n, data);
    LineOfEntry(n, i);
    var e := Step(h, n, Message("adjust_bloom_filter", data)).state.engine;
    var r := Filed(n.past)[i].record;
    if IsClean(r.token) && Horizon(n.now) < n.past.written[i].hour && InRange(e.params, r.exp, n.now) {
      LineRoundTrip(r);
      LineIsOneLine(r);
      assert IsLeftBy(n, i, Line(r));
      RetainedExactly(n, Line(r));
      FreshIsRow(e.params);
      RebuiltRecordsAreRevoked(h, e.params, Recovered(Fresh(e.params)), RetainedLines(n.state.engine.dir, n.now),
                               n.past.written[i].line, n.now);
    }
  }

  lemma FreshIsRow(p: Params)
    requires p.interval > 0 && NewFiltersAccepted(p)
    ensures RowOf(p, Recovered(Fresh(p)))
  {
  }

  // And so is every such revocation that reached a file and has a life of at most 82801
  // seconds, however long ago it was taken and however often the node was restarted since.
  lemma AdjustKeepsLoggedRevocations(h: Hash, n: Node, data: Data, i: nat)
    requires Reachable(h, n) && Adjusts(h, n, data) && i < |n.past.written|
    ensures var e := Step(h, n, Message("adjust_bloom_filter", data)).state.engine;
            && i < |Filed(n.past)| && Serving(e)
            && (var t := Filed(n.past)[i];
                && IsClean(t.record.token) && t.record.exp - t.at <= 82801 && InRange(e.params, t.record.exp, n.now) ==>
                  IsRevoked(h, e.params, e.filters, t.record.token, t.record.exp, n.now))
  {
    hide IsRevoked, Adjusts, Reachable, Serving, Step, HourOf, Filed, Horizon;
    UnexpiredRecordsAreRetained(h, n, i);
    AdjustAnswersRetainedRecords(h, n, data, i);
  }

  // The exact answer after an adjust, over exact sets: a token is reported revoked if and
  // only if its window is empty or some line, in the text written in one of the last 24
  // hours, is a record of it that reaches the last filter of its window. Records not yet
  // written do not count.
  lemma AnswerAfterAdjust(h: Hash, n: Node, data: Data, token: string, exp: int)
    requires Reachable(h, n) && Adjusts(h, n, data)
    requires InRange(AdjustFields(data), exp, n.now)
    ensures var m := Step(h, n, Message("adjust_bloom_filter", data));
            var p := AdjustFields(data);
            && p.interval > 0
            && (IdealIsRevoked(p, IdealRow(p, m.past.ops), token, exp, n.now) <==>
                  || Window(p, exp, n.now) == 0
                  || exists hour, line :: IsRetained(n, hour, line)
                                          && RecordReaches(p, line, token, Window(p, exp, n.now) - 1, n.now))
  {
    hide LogInv, RowAfter, Recover, Replay, RetainedLines, AdjustFields, InRange, Window, IdealRow, IdealIsRevoked, RecordReaches, IsRetained;
    ReachableKeepsInv(h, n);
    AfterAdjust(h, n, data);
    var p := AdjustFields(data);
    var lines := RetainedLines(n.state.engine.dir, n.now);
    AnswerAfterRebuild(p, lines, token, exp, n.now);
    if Window(p, exp, n.now) > 0 {
      var j := Window(p, exp, n.now) - 1;
      if line :| line in lines && RecordReaches(p, line, token, j, n.now) {
        RetainedText(n, line);
      }
      if hour, line :| IsRetained(n, hour, line) && RecordReaches(p, line, token, j, n.now) {
        RetainedText(n, line);
      }
    }
  }

  // That is: some entry written in one of the last 24 hours leaves a record of it in its file
  // that reaches the last filter of its window.
  lemma AnswerAfterAdjustByRecords(h: Hash, n: Node, data: Data, token: string, exp: int)
    requires Reachable(h, n) && Adjusts(h, n, data)
    requires InRange(AdjustFields(data), exp, n.now)
    ensures var m := Step(h, n, Message("adjust_bloom_filter", data));
            var p := AdjustFields(data);
            && p.interval > 0
            && (IdealIsRevoked(p, IdealRow(p, m.past.ops), token, exp, n.now) <==>
                  || Window(p, exp, n.now) == 0
                  || exists i: nat, line :: IsLeftBy(n, i, line)
                                            && RecordReaches(p, line, token, Window(p, exp, n.now) - 1, n.now))
  {
    hide Inv, Step, AdjustFields, InRange, Window, IdealRow, IdealIsRevoked, RecordReaches, IsRetained, IsLeftBy, Reachable, LogInv;
    AnswerAfterAdjust(h, n, data, token, exp);
    ReachableKeepsLog(h, n);
    var p := AdjustFields(data);
    if Window(p, exp, n.now) > 0 {
      TextIsMadeOfEntries(n, p, token, Window(p, exp, n.now) - 1);
    }
  }

  lemma TextIsMadeOfEntries(n: Node, p: Params, token: string, j: nat)
    requires LogInv(n) && p.interval > 0
    ensures (exists hour, line :: IsRetained(n, hour, line) && RecordReaches(p, line, token, j, n.now)) <==>
            (exists i: nat, line :: IsLeftBy(n, i, line) && RecordReaches(p, line, token, j, n.now))
  {
    hide RecordReaches, IsRetained, IsLeftBy, LogInv, RetainedLines;
    if hour, line :| IsRetained(n, hour, line) && RecordReaches(p, line, token, j, n.now) {
      RetainedText(n, line);
      RetainedExactly(n, line);
    }
    if i: nat, line :| IsLeftBy(n, i, line) && RecordReaches(p, line, token, j, n.now) {
      RetainedText(n, line);
      RetainedExactly(n, line);
    }
  }

  lemma ReachableKeepsLog(h: Hash, n: Node)
    requires Reachable(h, n)
    ensures LogInv(n)
  {
    hide Reachable, LogInv;
    ReachableKeepsInv(h, n);
  }

  // Queries at any time.

  // In every run the row of a live node has the closed form of its history since the last
  // rebuild, and with it everything that follows from the closed form.
  lemma ReachableRow(h: Hash, n: Node)
    requires Reachable(h, n) && !n.dead
    ensures var e := n.state.engine;
            && Serving(e) && Usable(Effective(e.params)) && |e.filters| == FiltersNum(e.params)
            && e.filters == RowAfter(h, Effective(e.params), n.past.ops)
            && Timed(n.past.ops, e.params.interval, n.now)
            && forall j :: 0 <= j < |e.filters| ==> Holds(h, Effective(e.params), e.filters[j], n.past.ops, j)
  {
    hide Holds, RowAfter, NewFiltersAccepted, LogInv;
    ReachableKeepsInv(h, n);
    forall j | 0 <= j < |n.state.engine.filters|
      ensures Holds(h, Effective(n.state.engine.params), n.state.engine.filters[j], n.past.ops, j)
    {
      ClosedForm(h, Effective(n.state.engine.params), n.past.ops, j);
    }
  }

  // The answer of a live node at any time: over exact sets, revoked if and only if in range
  // and the window is empty or some live write is in its last filter; and what the exact
  // engine calls revoked, the node calls revoked.
  lemma AnswerAtAnyTime(h: Hash, n: Node, token: string, exp: int)
    requires Reachable(h, n) && !n.dead
    ensures var e := n.state.engine;
            var p := Effective(e.params);
            && Serving(e) && p.interval > 0
            && var num := Window(p, exp, n.now);
               var revoked := InRange(p, exp, n.now) && (num == 0 || HasLiveWrite(p, n.past.ops, token, num - 1));
               && (IdealIsRevoked(p, IdealRow(p, n.past.ops), token, exp, n.now) <==> revoked)
               && (revoked ==> IsRevoked(h, e.params, e.filters, token, exp, n.now))
  {
    hide Holds, RowAfter, Reachable, IdealRow, IdealIsRevoked, HasLiveWrite, IsRevoked, InRange, Window, Timed;
    ReachableRow(h, n);
    var e := n.state.engine;
    var p := Effective(e.params);
    AnswerOverExactSets(p, n.past.ops, token, exp, n.now);
    if IdealIsRevoked(p, IdealRow(p, n.past.ops), token, exp, n.now) {
      BloomRefinesIdeal(h, p, n.past.ops, token, exp, n.now);
      RevokeIgnoresSize(h, e.params, e.filters, token, exp, n.now);
    }
  }

  lemma {:induction false} TimedSuffix(ops: seq<Op>, k: nat, interval: nat, now: int)
    requires Timed(ops, interval, now) && k < |ops|
    ensures Timed(ops[k + 1..], interval, now) && ops[k].at <= now
    ensures forall i :: k < i < |ops| ==> ops[k].at <= ops[i].at
  {
    if k + 1 < |ops| {
      var front, last := ops[..|ops| - 1], ops[|ops| - 1];
      TimedSuffix(front, k, interval, last.at);
      var tail := ops[k + 1..];
      assert tail[..|tail| - 1] == front[k + 1..] && tail[|tail| - 1] == last;
      assert forall i :: k < i < |front| ==> front[i] == ops[i];
    }
  }

  lemma TimedAround(pre: seq<Op>, w: Op, post: seq<Op>, interval: nat, now: int)
    requires Timed(pre + [w] + post, interval, now)
    ensures Timed(post, interval, now) && w.at <= now
    ensures forall i :: 0 <= i < |post| ==> w.at <= post[i].at
  {
    hide Timed;
    var ops := pre + [w] + post;
    TimedSuffix(ops, |pre|, interval, now);
    assert ops[|pre|] == w && ops[|pre| + 1..] == post;
    assert forall i :: 0 <= i < |post| ==> post[i] == ops[|pre| + 1 + i];
  }

  lemma EffectiveIsAlike(p: Params, exp: int, now: int)
    requires p.interval > 0
    ensures InRange(Effective(p), exp, now) <==> InRange(p, exp, now)
    ensures Window(Effective(p), exp, now) == Window(p, exp, now)
    ensures FiltersNum(Effective(p)) == FiltersNum(p)
  {
  }

  lemma SizedAt(e: EngineState, j: nat)
    requires Serving(e)
    ensures j < |e.filters| ==> e.filters[j].size > 0
  {
  }

  // In every run, whatever the rotation worker's delays and wake-ups: a revocation taken
  // since the last rebuild and in range when taken is, as long as it is unexpired, in every
  // filter that a query scans but possibly the last.
  lemma RevocationIsMissedByAtMostOneFilter(h: Hash, n: Node, pre: seq<Op>, w: Op, post: seq<Op>, j: nat)
    requires Reachable(h, n)
    requires !n.dead && n.past.ops == pre + [w] + post && w.Write?
    requires n.state.engine.params.interval > 0
    requires InRange(n.state.engine.params, w.exp, w.at) && n.now < w.exp
    requires j + 1 < Window(n.state.engine.params, w.exp, n.now)
    ensures var e := n.state.engine;
            j < |e.filters| && e.filters[j].size > 0 && Contains(h, e.filters[j], w.token)
  {
    hide RowAfter, Contains, Holds, Reachable, InRange, Window, Timed, Usable, FiltersNum, Serving, Rotations;
    ReachableRow(h, n);
    var p := Effective(n.state.engine.params);
    EffectiveIsAlike(n.state.engine.params, w.exp, w.at);
    EffectiveIsAlike(n.state.engine.params, w.exp, n.now);
    SizedAt(n.state.engine, j);
    TimedAround(pre, w, post, p.interval, n.now);
    AllButTheLastFilter(h, p, pre, w, post, n.now, j);
  }
}
