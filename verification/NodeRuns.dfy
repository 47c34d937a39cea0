/** What every run of the node keeps, and what that means for its answers. */
module NodeRuns {
  import opened BloomFilter
  import opened EngineAnswers
  import opened EngineHistory
  import opened EngineSpec
  import opened LogLine
  import opened Node
  import opened NodeInvariant
  import opened Rebuild
  import opened Scheduler
  import opened Wrappers

  // The row and the rotation worker, step by step.

  // One more operation on the row.
  lemma RowAfterOneMore(h: Hash, p: Params, ops: seq<Op>, op: Op)
    requires Usable(p)
    ensures RowAfter(h, p, ops + [op]) == ApplyOp(h, p, RowAfter(h, p, ops), op)
  {
  }

  lemma TimedOneMore(ops: seq<Op>, interval: nat, now: int, op: Op)
    requires Timed(ops, interval, now) && op.at == now
    requires op.Rotation? ==> forall i :: 0 <= i < |ops| && ops[i].Rotation? ==> ops[i].at + interval <= now
    ensures Timed(ops + [op], interval, now)
  {
  }

  lemma {:induction false} ReplayIsTimed(lines: seq<string>, interval: nat, now: int)
    ensures Timed(Replay(lines, now), interval, now)
    ensures forall i :: 0 <= i < |Replay(lines, now)| ==> Replay(lines, now)[i].Write?
  {
    hide Parse;
    if lines != [] {
      var front, last := lines[..|lines| - 1], lines[|lines| - 1];
      ReplayIsTimed(front, interval, now);
      if Parse(last).Parsed? {
        var r := Parse(last).record;
        TimedOneMore(Replay(front, now), interval, now, Write(r.token, r.exp, now));
      } else {
        assert Replay(lines, now) == Replay(front, now);
      }
    }
  }

  // Right after a rebuild with parameters `p`.
  lemma RebuiltIsFine(h: Hash, m: Node, lines: seq<string>, p: Params)
    requires p.interval > 0 && NewFiltersAccepted(p) && Usable(Effective(p))
    requires m.state.engine.params == p && m.past.ops == Replay(lines, m.now)
    requires m.state.engine.filters == RowAfter(h, Effective(p), m.past.ops)
    requires !m.worker.Waiting?
    ensures RowInv(h, m) && WorkerInv(m)
  {
    hide RowAfter, NewFiltersAccepted;
    ReplayIsTimed(lines, p.interval, m.now);
  }

  lemma RestartKeepsRow(h: Hash, n: Node, p: Params)
    requires LogInv(n) && !Started(h, n, p).dead
    ensures RowInv(h, Started(h, n, p)) && WorkerInv(Started(h, n, p)) && RoleInv(Started(h, n, p))
  {
    hide LogInv, RowAfter, NewFiltersAccepted, Adjust, RowInv, WorkerInv, Replay, RetainedLines, NoneThrows;
    AdjustOutcome(h, n.state.engine.(filters := []), p, n.now);
    var m := Started(h, n, p);
    RebuiltIsFine(h, m, RetainedLines(n.state.engine.dir, n.now), p);
  }

  lemma MessageKeeps(h: Hash, n: Node, event: string, data: Data)
    requires Inv(h, n) && Enabled(n, Message(event, data))
    ensures Inv(h, Received(h, n, event, data))
  {
    hide LogInv, RowAfter, NewFiltersAccepted, Adjust, Revoke, RowInv, WorkerInv, Replay, Line, RetainedLines, AdjustFields, NoneThrows;
    var m := Received(h, n, event, data);
    var (state, reaction) := Dispatch(h, n.state, event, data, n.now);
    match reaction {
      case Continues =>
        SameLogKeeps(n, m);
        SameRowKeeps(h, n, m);
      case Logs(r) =>
        TakenKeepsLog(n, m, r);
        RevocationKeepsRow(h, n, m, r);
      case Adjusted(_) =>
        var p := AdjustFields(data);
        AdjustOutcome(h, n.state.engine, p, n.now);
        AdjustKeepsLog(n, m);
        RebuiltIsFine(h, m, RetainedLines(n.state.engine.dir, n.now), p);
      case Hangs =>
        SameLogKeeps(n, m);
        SameRowKeeps(h, n, m);
      case Dies =>
        if HasAdjustFields(data) {
          AdjustOutcome(h, n.state.engine, AdjustFields(data), n.now);
        }
        SameLogKeeps(n, m);
      case DiesReading =>
        AdjustOutcome(h, n.state.engine, AdjustFields(data), n.now);
        AdjustKeepsLog(n, m);
    }
  }

  lemma SameRowKeeps(h: Hash, n: Node, m: Node)
    requires RowInv(h, n) && WorkerInv(n)
    requires m.state.engine.params == n.state.engine.params && m.state.engine.filters == n.state.engine.filters
    requires m.past.ops == n.past.ops && n.now <= m.now
    requires m.worker == n.worker || m.worker == Starting
    ensures RowInv(h, m) && WorkerInv(m)
  {
  }

  lemma RevocationKeepsRow(h: Hash, n: Node, m: Node, r: Record)
    requires RowInv(h, n) && WorkerInv(n) && Serving(n.state.engine)
    requires m.now == n.now && m.worker == n.worker
    requires m.state.engine == n.state.engine.(filters :=
               Revoke(h, n.state.engine.params, n.state.engine.filters, r.token, r.exp, n.now))
    requires m.past.ops == n.past.ops + [Write(r.token, r.exp, n.now)]
    ensures RowInv(h, m) && WorkerInv(m)
  {
    hide RowAfter, NewFiltersAccepted, Revoke;
    var e, op := n.state.engine, Write(r.token, r.exp, n.now);
    RowAfterOneMore(h, Effective(e.params), n.past.ops, op);
    RevokeIgnoresSize(h, e.params, e.filters, r.token, r.exp, n.now);
    TimedOneMore(n.past.ops, e.params.interval, n.now, op);
  }

  lemma RotatedRowFitsIn32Bits(h: Hash, n: Node)
    requires RowInv(h, n) && !n.dead && !Rotated(n).dead
    ensures n.state.engine.filters != [] && Effective(n.state.engine.params) == n.state.engine.params
  {
    hide RowAfter, AcceptsSize;
    AcceptedWholeAndCut(n.state.engine.params.size);
  }

  lemma RotationKeepsRow(h: Hash, n: Node)
    requires RowInv(h, n) && !n.dead && !Rotated(n).dead
    ensures RowInv(h, Rotated(n))
  {
    hide RowAfter, AcceptsSize, NewFiltersAccepted, Usable;
    RotatedRowFitsIn32Bits(h, n);
    RowAfterOneMore(h, n.state.engine.params, n.past.ops, Rotation(n.now));
  }

  lemma RotationKeepsDistance(n: Node)
    requires WorkerInv(n) && n.worker == Expired && !n.dead && !Rotated(n).dead
    ensures WorkerInv(Rotated(n))
  {
    hide Timed, AcceptsSize;
    TimedOneMore(n.past.ops, n.state.engine.params.interval, n.now, Rotation(n.now));
  }

  lemma StepKeeps(h: Hash, n: Node, e: Event)
    requires Inv(h, n) && Enabled(n, e)
    ensures Inv(h, Step(h, n, e))
  {
    hide LogInv, RowInv, WorkerInv, Started, Received, Written, AcceptsSize;
    var m := Step(h, n, e);
    match e {
      case Restart(p) =>
        RestartKeepsLog(h, n, p);
        if !m.dead {
          RestartKeepsRow(h, n, p);
        }
      case Message(event, data) =>
        MessageKeeps(h, n, event, data);
      case LogWrite =>
        WrittenKeepsLog(n);
        WrittenLeavesTheRow(n);
        SameRowKeeps(h, n, m);
      case RotateNow =>
        SameLogKeeps(n, m);
        if !m.dead {
          RotationKeepsRow(h, n);
          RotationKeepsDistance(n);
        }
      case WaitBegins =>
        SameLogKeeps(n, m);
        WaitBeginsKeeps(h, n);
      case WaitExpires =>
        SameLogKeeps(n, m);
        WaitExpiresKeeps(h, n);
      case HandOver =>
        assert Outstanding(m) == Outstanding(n);
        SameLogKeeps(n, m);
        SameRowKeeps(h, n, m);
      case LogTake =>
        assert Outstanding(m) == Outstanding(n);
        SameLogKeeps(n, m);
        SameRowKeeps(h, n, m);
      case Tick(_) =>
        SameLogKeeps(n, m);
        if !n.dead {
          SameRowKeeps(h, n, m);
        }
      case WaitEndsEarly =>
        SameLogKeeps(n, m);
        SameRowKeeps(h, n, m);
    }
  }

  lemma WrittenLeavesTheRow(n: Node)
    requires n.held.Some?
    ensures var m := Written(n);
            m == n.(held := None, state := m.state, past := m.past)
            && m.state == n.state.(engine := n.state.engine.(dir := m.state.engine.dir))
            && m.past.ops == n.past.ops
  {
  }

  lemma WaitBeginsKeeps(h: Hash, n: Node)
    requires RowInv(h, n) && WorkerInv(n) && n.worker == Starting
    ensures var m := n.(worker := Waiting(n.now, n.state.engine.params.interval)); RowInv(h, m) && WorkerInv(m)
  {
    hide RowAfter, NewFiltersAccepted;
    forall i | 0 <= i < |n.past.ops|
      ensures n.past.ops[i].at <= n.now
    {
      TimedIsPast(n.past.ops, n.state.engine.params.interval, n.now, i);
    }
  }

  lemma {:induction false} TimedIsPast(ops: seq<Op>, interval: nat, now: int, i: nat)
    requires Timed(ops, interval, now) && i < |ops|
    ensures ops[i].at <= now
  {
    if i < |ops| - 1 {
      TimedIsPast(ops[..|ops| - 1], interval, ops[|ops| - 1].at, i);
    }
  }

  lemma WaitExpiresKeeps(h: Hash, n: Node)
    requires RowInv(h, n) && WorkerInv(n) && n.worker.Waiting? && n.worker.since + n.worker.length <= n.now
    ensures var m := n.(worker := Expired); RowInv(h, m) && WorkerInv(m)
  {
  }

  // The invariant holds in every run, from the installation of the node on.
  lemma {:induction false} EveryRunKeepsInv(h: Hash, start: int, events: seq<Event>)
    ensures Inv(h, Run(h, Installed(start), events))
  {
    hide Enabled, Step, Inv;
    if events == [] {
      InstalledIsFine(h, start);
    } else {
      var front, e := events[..|events| - 1], events[|events| - 1];
      EveryRunKeepsInv(h, start, front);
      var before := Run(h, Installed(start), front);
      if Enabled(before, e) {
        StepKeeps(h, before, e);
      }
    }
  }

  lemma InstalledIsFine(h: Hash, start: int)
    ensures Inv(h, Installed(start))
  {
  }
}
