/** What a revocation taken from the master is worth to later queries, over every run: how
    long it is found, what else can be answered revoked, and how full the filters get. */
module NodeAnswers {
  import opened BloomFilter
  import opened Decimal
  import opened EngineAnswers
  import opened EngineHistory
  import opened EngineSpec
  import opened LogLine
  import opened Node
  import opened NodeCounts
  import opened NodeInvariant
  import opened NodeRuns
  import opened NodeTheorems
  import opened Rebuild
  import opened Scheduler

  // Completeness: how long a revocation is found.

  predicate Rebuilds(e: Event)
  {
    e.Restart? || (e.Message? && e.event == "adjust_bloom_filter")
  }

  ghost predicate NoRebuild(events: seq<Event>)
  {
    forall e :: e in events ==> !Rebuilds(e)
  }

  lemma StepAddsToHistory(h: Hash, n: Node, e: Event)
    requires Enabled(n, e) && !Rebuilds(e)
    ensures var m := Step(h, n, e);
            && n.past.ops <= m.past.ops && m.state.engine.params == n.state.engine.params && n.now <= m.now
            && m.state.role == n.state.role
            && (n.dead ==> m.dead)
  {
    hide Revoke, Rotate, AcceptsSize, Adjust, Line, Written, Serving;
    if e.LogWrite? {
      WrittenLeavesTheRow(n);
      WrittenChangesNoMore(n);
    }
  }

  lemma WrittenChangesNoMore(n: Node)
    requires n.held.Some?
    ensures Written(n).now == n.now && Written(n).dead == n.dead
  {
  }

  // Between two rebuilds the history of the row is only added to, role and parameters stay, and
  // nothing revives a node.
  lemma {:induction false} HistoryGrows(h: Hash, n: Node, events: seq<Event>)
    requires NoRebuild(events)
    ensures var m := Run(h, n, events);
            && n.past.ops <= m.past.ops && m.state.engine.params == n.state.engine.params && n.now <= m.now
            && m.state.role == n.state.role
            && (n.dead ==> m.dead)
  {
    hide Step, Enabled, Rebuilds;
    if events != [] {
      var front, e := events[..|events| - 1], events[|events| - 1];
      assert events == front + [e] && e in events;
      HistoryGrows(h, n, front);
      var before := Run(h, n, front);
      if Enabled(before, e) {
        StepAddsToHistory(h, before, e);
      }
    }
  }

  lemma RunStaysReachable(h: Hash, n: Node, events: seq<Event>)
    requires Reachable(h, n)
    ensures Reachable(h, Run(h, n, events))
  {
    hide Run;
    var start, before :| n == Run(h, Installed(start), before);
    RunInTwo(h, Installed(start), before, events);
  }

  lemma StepStaysReachable(h: Hash, n: Node, e: Event)
    requires Reachable(h, n) && Enabled(n, e)
    ensures Reachable(h, Step(h, n, e))
  {
    hide Step, Enabled, Reachable;
    assert [e][..0] == [];
    assert Run(h, n, [e][..0]) == n;
    RunStaysReachable(h, n, [e]);
  }

  // Right after a revocation message a live node answers the token revoked, if it has at least
  // a second and at most the maximum life left, both bounds included; with any other expiry
  // the message changes no filter and the answer is no.
  lemma AnswerRightAfterRevocation(h: Hash, n: Node, data: Data)
    requires Reachable(h, n) && Enabled(n, Message("revoke_jwt", data))
    ensures var r := MessageRecord(data);
            var e, e' := n.state.engine, Step(h, n, Message("revoke_jwt", data)).state.engine;
            && Serving(e') && e'.params == e.params
            && (IsRevoked(h, e'.params, e'.filters, r.token, r.exp, n.now) <==> 0 < r.exp - n.now <= e.params.maxLife)
            && (!(0 < r.exp - n.now <= e.params.maxLife) ==> e'.filters == e.filters)
            && forall j :: 0 <= j < |e.filters| && e'.filters[j] != e.filters[j] ==>
                 (j + 1) * e.params.interval <= r.exp - n.now
  {
    hide Reachable, Revoke, IsRevoked, MessageRecord, AddToPrefix, FiltersNum, LogInv, WorkerInv, Inv;
    var r, e := MessageRecord(data), n.state.engine;
    RoleIsLocal(h, n);
    RevocationIsDispatched(h, n, data);
    GuardsNeverFire(h, e.params, e.filters, r.token, r.exp, n.now);
    GuardsNeverFire(h, e.params, Revoke(h, e.params, e.filters, r.token, r.exp, n.now), r.token, r.exp, n.now);
    if InRange(e.params, r.exp, n.now) {
      RevokedIsFound(h, e.params, e.filters, r.token, r.exp, n.now);
      var e' := Step(h, n, Message("revoke_jwt", data)).state.engine;
      forall j | 0 <= j < |e.filters| && e'.filters[j] != e.filters[j]
        ensures (j + 1) * e.params.interval <= r.exp - n.now
      {
        WindowPasses(e.params, r.exp, j, n.now);
      }
    }
  }

  lemma RoleIsLocal(h: Hash, n: Node)
    requires Reachable(h, n) && !n.dead && n.dispatcher == Free
    ensures IsLocal(n.state.role)
  {
    hide Reachable;
    ReachableKeepsInv(h, n);
  }

  lemma RevocationIsDispatched(h: Hash, n: Node, data: Data)
    requires Enabled(n, Message("revoke_jwt", data)) && IsLocal(n.state.role)
    ensures var r, e := MessageRecord(data), n.state.engine;
            Step(h, n, Message("revoke_jwt", data)).state.engine
            == e.(filters := Revoke(h, e.params, e.filters, r.token, r.exp, n.now))
  {
    hide Revoke, MessageRecord;
  }

  // A write of the history that was in range is found, as long as it is unexpired and the
  // row is not rebuilt, in every filter that a query scans but possibly the last.
  lemma WriteIsMissedByAtMostOneFilter(h: Hash, n: Node, k: nat, events: seq<Event>, j: nat)
    requires Reachable(h, n) && !n.dead && NoRebuild(events)
    requires k < |n.past.ops| && n.past.ops[k].Write?
    requires InRange(n.state.engine.params, n.past.ops[k].exp, n.past.ops[k].at)
    ensures var w, m := n.past.ops[k], Run(h, n, events);
            var e := m.state.engine;
            && e.params == n.state.engine.params && e.params.interval > 0
            && (!m.dead && m.now < w.exp && j + 1 < Window(e.params, w.exp, m.now) ==>
                  j < |e.filters| && e.filters[j].size > 0 && Contains(h, e.filters[j], w.token))
  {
    hide Reachable, Run, InRange, Window, Contains, RowAfter, Timed, Holds, NewFiltersAccepted, Usable;
    HistoryGrows(h, n, events);
    RunStaysReachable(h, n, events);
    ReachableRow(h, n);
    var w, m := n.past.ops[k], Run(h, n, events);
    if !m.dead && m.now < w.exp && j + 1 < Window(m.state.engine.params, w.exp, m.now) {
      assert m.past.ops == m.past.ops[..k] + [w] + m.past.ops[k + 1..];
      RevocationIsMissedByAtMostOneFilter(h, m, m.past.ops[..k], w, m.past.ops[k + 1..], j);
    }
  }

  // A revocation taken from the master, in range at that moment: through any events but a
  // rebuild it is found, as long as it is unexpired, in every filter that a query scans but
  // possibly the last.
  lemma TakenIsMissedByAtMostOneFilter(h: Hash, n: Node, data: Data, events: seq<Event>, j: nat)
    requires Reachable(h, n) && Enabled(n, Message("revoke_jwt", data)) && NoRebuild(events)
    requires InRange(n.state.engine.params, MessageRecord(data).exp, n.now)
    ensures var r := MessageRecord(data);
            var m := Run(h, Step(h, n, Message("revoke_jwt", data)), events);
            var e := m.state.engine;
            && e.params == n.state.engine.params && e.params.interval > 0
            && (!m.dead && m.now < r.exp && j + 1 < Window(e.params, r.exp, m.now) ==>
                  j < |e.filters| && e.filters[j].size > 0 && Contains(h, e.filters[j], r.token))
  {
    hide Reachable, Run, InRange, Window, Contains, MessageRecord, Step, Enabled, Revoke;
    var taking := Message("revoke_jwt", data);
    RevocationIsWritten(h, n, data);
    StepStaysReachable(h, n, taking);
    WriteIsMissedByAtMostOneFilter(h, Step(h, n, taking), |n.past.ops|, events, j);
  }

  lemma RevocationIsWritten(h: Hash, n: Node, data: Data)
    requires Enabled(n, Message("revoke_jwt", data))
    ensures var r, m := MessageRecord(data), Step(h, n, Message("revoke_jwt", data));
            && !m.dead && m.state.engine.params == n.state.engine.params
            && m.past.ops == n.past.ops + [Write(r.token, r.exp, n.now)]
  {
    hide Revoke, MessageRecord;
  }

  // The same after a rebuild, for every record that was read from the log and was then in
  // range.
  lemma RetainedIsMissedByAtMostOneFilter(h: Hash, n: Node, data: Data, line: string, events: seq<Event>, j: nat)
    requires Reachable(h, n) && Adjusts(h, n, data) && NoRebuild(events)
    requires line in RetainedLines(n.state.engine.dir, n.now) && Parse(line).Parsed?
    requires InRange(AdjustFields(data), Parse(line).record.exp, n.now)
    ensures var r := Parse(line).record;
            var m := Run(h, Step(h, n, Message("adjust_bloom_filter", data)), events);
            var e := m.state.engine;
            && e.params == AdjustFields(data) && e.params.interval > 0
            && (!m.dead && m.now < r.exp && j + 1 < Window(e.params, r.exp, m.now) ==>
                  j < |e.filters| && e.filters[j].size > 0 && Contains(h, e.filters[j], r.token))
  {
    hide Reachable, Run, InRange, Window, Contains, AdjustFields, Parse, RetainedLines, Replay, NoneThrows, NewFiltersAccepted, Adjust, RowAfter, Usable, Recover;
    var adjusting := Message("adjust_bloom_filter", data);
    NodeTheorems.AfterAdjust(h, n, data);
    AdjustsExactly(h, n, data);
    var m := Step(h, n, adjusting);
    if m.dead {
      HistoryGrows(h, m, events);
    } else {
      StepStaysReachable(h, n, adjusting);
      var k := LineIsReplayed(RetainedLines(n.state.engine.dir, n.now), line, n.now);
      WriteIsMissedByAtMostOneFilter(h, m, k, events, j);
    }
  }

  lemma {:induction false} LineIsReplayed(lines: seq<string>, line: string, now: int) returns (k: nat)
    requires line in lines && Parse(line).Parsed?
    ensures k < |Replay(lines, now)|
    ensures Replay(lines, now)[k] == Write(Parse(line).record.token, Parse(line).record.exp, now)
  {
    hide Parse;
    var front, last := lines[..|lines| - 1], lines[|lines| - 1];
    if line == last {
      k := |Replay(front, now)|;
    } else {
      assert lines == front + [last];
      k := LineIsReplayed(front, line, now);
    }
  }

  // Soundness: what can be answered revoked.

  // The record itself, or another one that the log makes of it.
  ghost predicate ComesFrom(r: Record, taken: Record)
  {
    r == taken || exists line :: line in Lines(Line(taken) + "\n") && Parse(line) == Parsed(r)
  }

  ghost predicate WasTaken(r: Record, taken: seq<Taken>)
  {
    exists i :: 0 <= i < |taken| && ComesFrom(r, taken[i].record)
  }

  ghost predicate WritesWereTaken(ops: seq<Op>, taken: seq<Taken>)
  {
    forall k :: 0 <= k < |ops| && ops[k].Write? ==> WasTaken(Record(ops[k].token, ops[k].exp), taken)
  }

  lemma OneMoreTaken(ops: seq<Op>, taken: seq<Taken>, t: Taken, now: int)
    requires WritesWereTaken(ops, taken)
    ensures WritesWereTaken(ops + [Write(t.record.token, t.record.exp, now)], taken + [t])
  {
    hide ComesFrom;
    var more, all := ops + [Write(t.record.token, t.record.exp, now)], taken + [t];
    forall k | 0 <= k < |more| && more[k].Write?
      ensures WasTaken(Record(more[k].token, more[k].exp), all)
    {
      if k < |ops| {
        var i :| 0 <= i < |taken| && ComesFrom(Record(ops[k].token, ops[k].exp), taken[i].record);
        assert all[i] == taken[i];
      } else {
        assert all[|taken|] == t && ComesFrom(t.record, t.record) by { ComesFromItself(t.record); }
      }
    }
  }

  lemma ComesFromItself(r: Record)
    ensures ComesFrom(r, r)
  {
  }

  lemma OneMoreRotation(ops: seq<Op>, taken: seq<Taken>, now: int)
    requires WritesWereTaken(ops, taken)
    ensures WritesWereTaken(ops + [Rotation(now)], taken)
  {
    hide WasTaken;
  }

  lemma RetainedWasTaken(n: Node, line: string)
    requires LogInv(n) && line in RetainedLines(n.state.engine.dir, n.now) && Parse(line).Parsed?
    ensures WasTaken(Parse(line).record, n.past.taken)
  {
    hide RetainedLines, LogInv, Lines, Line, Parse, Filed;
    RetainedExactly(n, line);
    var i: nat :| IsLeftBy(n, i, line);
    LineOfEntry(n, i);
    FiledWasTaken(n, i);
    var t := Filed(n.past)[i];
    var k :| 0 <= k < |n.past.taken| && n.past.taken[k] == t;
    assert ComesFrom(Parse(line).record, n.past.taken[k].record);
  }

  lemma FiledWasTaken(n: Node, i: nat)
    requires LogInv(n) && i < |n.past.written|
    ensures i < |Filed(n.past)| && Filed(n.past)[i] in n.past.taken
  {
  }

  lemma {:induction false} ReplayWasTaken(lines: seq<string>, now: int, taken: seq<Taken>)
    requires forall line :: line in lines && Parse(line).Parsed? ==> WasTaken(Parse(line).record, taken)
    ensures WritesWereTaken(Replay(lines, now), taken)
  {
    hide Parse, WasTaken;
    if lines != [] {
      var front, last := lines[..|lines| - 1], lines[|lines| - 1];
      assert lines == front + [last] && last in lines;
      ReplayWasTaken(front, now, taken);
    }
  }

  lemma RebuildWasTaken(n: Node)
    requires LogInv(n)
    ensures WritesWereTaken(Replay(RetainedLines(n.state.engine.dir, n.now), n.now), n.past.taken)
  {
    hide LogInv, RetainedLines, Parse, WasTaken, WritesWereTaken;
    var lines := RetainedLines(n.state.engine.dir, n.now);
    forall line | line in lines && Parse(line).Parsed?
      ensures WasTaken(Parse(line).record, n.past.taken)
    {
      RetainedWasTaken(n, line);
    }
    ReplayWasTaken(lines, n.now, n.past.taken);
  }

  lemma StepKeepsWritesTaken(h: Hash, n: Node, e: Event)
    requires Inv(h, n) && Enabled(n, e) && WritesWereTaken(n.past.ops, n.past.taken)
    ensures var m := Step(h, n, e); WritesWereTaken(m.past.ops, m.past.taken)
  {
    hide LogInv, RowInv, WorkerInv, WritesWereTaken, Adjust, Revoke, Rotate, AcceptsSize, Replay, RetainedLines, Line, AdjustFields;
    match e {
      case Restart(_) => RebuildWasTaken(n);
      case Message(_, data) =>
        RebuildWasTaken(n);
        var r := MessageRecord(data);
        OneMoreTaken(n.past.ops, n.past.taken, Taken(r, n.now), n.now);
      case RotateNow => OneMoreRotation(n.past.ops, n.past.taken, n.now);
      case _ =>
    }
  }

  lemma {:induction false} EveryRunKeepsWritesTaken(h: Hash, start: int, events: seq<Event>)
    ensures var n := Run(h, Installed(start), events); WritesWereTaken(n.past.ops, n.past.taken)
  {
    hide Enabled, Step, Inv;
    if events != [] {
      var front, e := events[..|events| - 1], events[|events| - 1];
      EveryRunKeepsWritesTaken(h, start, front);
      EveryRunKeepsInv(h, start, front);
      var before := Run(h, Installed(start), front);
      if Enabled(before, e) {
        StepKeepsWritesTaken(h, before, e);
      }
    }
  }

  // Over exact sets, only what was taken from the master at some time is ever answered
  // revoked, except by an empty window: a query for a token that no revocation taken had, and
  // that the log makes of none, is answered active.
  lemma OnlyTakenTokensAreRevoked(h: Hash, n: Node, token: string, exp: int)
    requires Reachable(h, n) && !n.dead
    ensures var p := Effective(n.state.engine.params);
            && p.interval > 0
            && (Window(p, exp, n.now) > 0 && IdealIsRevoked(p, IdealRow(p, n.past.ops), token, exp, n.now) ==>
                  exists e :: WasTaken(Record(token, e), n.past.taken))
  {
    hide Reachable, Run, WasTaken, InRange, Window, IdealRow, IdealIsRevoked, Live, IsRevoked;
    AnswerAtAnyTime(h, n, token, exp);
    var p := Effective(n.state.engine.params);
    if Window(p, exp, n.now) > 0 && IdealIsRevoked(p, IdealRow(p, n.past.ops), token, exp, n.now) {
      var j := Window(p, exp, n.now) - 1;
      WritesOfReachable(h, n);
      var k := SomeLiveWrite(p, n.past.ops, token, j);
      assert WasTaken(Record(token, n.past.ops[k].exp), n.past.taken);
    }
  }

  lemma WritesOfReachable(h: Hash, n: Node)
    requires Reachable(h, n)
    ensures WritesWereTaken(n.past.ops, n.past.taken)
  {
    hide Run, WritesWereTaken;
    var start, events :| n == Run(h, Installed(start), events);
    EveryRunKeepsWritesTaken(h, start, events);
  }

  lemma SomeLiveWrite(p: Params, ops: seq<Op>, token: string, j: nat) returns (k: nat)
    requires p.interval > 0 && HasLiveWrite(p, ops, token, j)
    ensures k < |ops| && ops[k].Write? && ops[k].token == token
  {
    k :| k < |ops| && Live(p, ops, k, j) && ops[k].token == token;
  }

  // When all tokens taken are clean, the token itself was taken.
  lemma OnlyTakenCleanTokensAreRevoked(h: Hash, n: Node, token: string, exp: int)
    requires Reachable(h, n) && !n.dead
    requires forall i :: 0 <= i < |n.past.taken| ==> IsClean(n.past.taken[i].record.token)
    ensures var p := Effective(n.state.engine.params);
            && p.interval > 0
            && (Window(p, exp, n.now) > 0 && IdealIsRevoked(p, IdealRow(p, n.past.ops), token, exp, n.now) ==>
                  exists i :: 0 <= i < |n.past.taken| && n.past.taken[i].record.token == token)
  {
    hide Reachable, ComesFrom, IsClean, InRange, Window, IdealRow, IdealIsRevoked, LogInv, RowInv, WorkerInv;
    OnlyTakenTokensAreRevoked(h, n, token, exp);
    assert LogInv(n) by { ReachableKeepsLog(h, n); }
    if e :| WasTaken(Record(token, e), n.past.taken) {
      var i :| 0 <= i < |n.past.taken| && ComesFrom(Record(token, e), n.past.taken[i].record);
      TakenHasExpiry(n, i);
      CleanComesBack(Record(token, e), n.past.taken[i].record);
    }
  }

  lemma TakenHasExpiry(n: Node, i: nat)
    requires LogInv(n) && i < |n.past.taken|
    ensures IsInt64(n.past.taken[i].record.exp)
  {
  }

  lemma CleanComesBack(r: Record, taken: Record)
    requires ComesFrom(r, taken) && IsClean(taken.token) && IsInt64(taken.exp)
    ensures r == taken
  {
    hide Parse, Lines, Line;
    LineIsOneLine(taken);
    LineRoundTrip(taken);
  }

  // The Bloom filters themselves.

  // The node's own answer at any time, false positives included.
  lemma BloomAnswerAtAnyTime(h: Hash, n: Node, token: string, exp: int)
    requires Reachable(h, n) && !n.dead
    ensures var e := n.state.engine;
            var p := Effective(e.params);
            && Serving(e) && p.interval > 0
            && (IsRevoked(h, e.params, e.filters, token, exp, n.now) <==>
                  InRange(p, exp, n.now) && AllBitsWereSet(h, p, n.past.ops, token, Window(p, exp, n.now)))
  {
    hide Reachable, RowAfter, Holds, IsRevoked, InRange, Window, AllBitsWereSet, Timed;
    ReachableRow(h, n);
    var e := n.state.engine;
    BloomAnswer(h, Effective(e.params), n.past.ops, token, exp, n.now);
    RevokeIgnoresSize(h, e.params, e.filters, token, exp, n.now);
  }

  // How many filters there are: as many whole intervals as the maximum life has.
  lemma RowLengthAtAnyTime(h: Hash, n: Node)
    requires Reachable(h, n) && !n.dead
    ensures var p, k := n.state.engine.params, |n.state.engine.filters|;
            k * p.interval <= p.maxLife < (k + 1) * p.interval
  {
    hide Reachable, RowAfter, Holds, Timed;
    ReachableRow(h, n);
    var p := n.state.engine.params;
    var k := p.maxLife / p.interval;
    assert p.maxLife == p.interval * k + p.maxLife % p.interval;
    assert (k + 1) * p.interval == p.interval * k + p.interval;
  }

  // And how full its filters are: no more bits are set than a filter has, or than the writes
  // it counts can have set.
  lemma FillAtAnyTime(h: Hash, n: Node, j: nat)
    requires Reachable(h, n) && !n.dead && j < |n.state.engine.filters|
    ensures var e := n.state.engine;
            && e.filters[j].size == e.params.size % 0x1_0000_0000 && e.filters[j].hashNum == e.params.hashNum
            && IsFilled(e.filters[j])
  {
    hide Reachable, RowAfter, IsFilled, Timed;
    ReachableRow(h, n);
    RowIsFilled(h, Effective(n.state.engine.params), n.past.ops, j);
  }
}
