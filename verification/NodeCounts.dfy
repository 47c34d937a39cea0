/** How many records each filter counts after an adjust: one for every line that an entry of
    the last 24 hours leaves in its file and that reaches the filter, no more and no fewer. */
module NodeCounts {
  import opened Arithmetic
  import opened BloomFilter
  import opened EngineHistory
  import opened EngineSpec
  import opened LogLine
  import opened Node
  import opened NodeInvariant
  import opened NodeTheorems
  import opened Rebuild
  import opened Scheduler

  // The line is a record that is unexpired, has no longer to live than the maximum, and has
  // at least j + 1 intervals left.
  predicate Reaches(p: Params, line: string, j: nat, now: int)
  {
    var parsed := Parse(line);
    parsed.Parsed? && 0 < parsed.record.exp - now <= p.maxLife && (j + 1) * p.interval <= parsed.record.exp - now
  }

  function CountReaching(p: Params, lines: seq<string>, j: nat, now: int): nat
  {
    if lines == [] then 0
    else CountReaching(p, lines[..|lines| - 1], j, now) + (if Reaches(p, lines[|lines| - 1], j, now) then 1 else 0)
  }

  lemma {:induction false} CountAppend(p: Params, a: seq<string>, b: seq<string>, j: nat, now: int)
    ensures CountReaching(p, a + b, j, now) == CountReaching(p, a, j, now) + CountReaching(p, b, j, now)
  {
    hide Reaches;
    if b == [] {
      assert a + b == a;
    } else {
      assert (a + b)[..|a + b| - 1] == a + b[..|b| - 1];
      CountAppend(p, a, b[..|b| - 1], j, now);
    }
  }

  // The window in plain arithmetic.
  lemma WindowPasses(p: Params, exp: int, j: nat, now: int)
    requires p.interval > 0 && now < exp
    ensures j < Window(p, exp, now) <==> (j + 1) * p.interval <= exp - now
  {
    var left: nat := exp - now;
    assert (j + 1) * p.interval == 0 + p.interval * (j + 1);
    QuotientOfSum(0, j + 1, p.interval);
    if (j + 1) * p.interval <= left {
      QuotientMonotone((j + 1) * p.interval, left, p.interval);
    } else if j < left / p.interval {
      assert p.interval * (left / p.interval) <= left;
      MulGrows(p.interval, j, left / p.interval);
      assert false;
    }
  }

  lemma CountsOneMore(h: Hash, p: Params, r: Recovery, line: string, j: nat, now: int)
    requires RowOf(p, r) && RecoverOne(h, p, r, line, now).Recovered? && j < FiltersNum(p)
    ensures r.Recovered?
    ensures RecoverOne(h, p, r, line, now).filters[j].msgNum ==
            r.filters[j].msgNum + (if Reaches(p, line, j, now) then 1 else 0)
  {
    hide Parse, Revoke, FiltersNum, Indices, Window;
    if Parse(line).Parsed? {
      var x := Parse(line).record;
      GuardsNeverFire(h, p, r.filters, x.token, x.exp, now);
      if now < x.exp {
        WindowPasses(p, x.exp, j, now);
      }
    }
  }

  lemma {:induction false} RecoveryCounts(h: Hash, p: Params, lines: seq<string>, j: nat, now: int)
    requires p.interval > 0 && NewFiltersAccepted(p) && j < FiltersNum(p) && RowOf(p, Recovered(Fresh(p)))
    requires Recover(h, p, Recovered(Fresh(p)), lines, now).Recovered?
    ensures Recover(h, p, Recovered(Fresh(p)), lines, now).filters[j].msgNum == CountReaching(p, lines, j, now)
  {
    hide RecoverOne, Reaches, NewFiltersAccepted;
    if lines != [] {
      var front, last := lines[..|lines| - 1], lines[|lines| - 1];
      CountsOneMore(h, p, Recover(h, p, Recovered(Fresh(p)), front, now), last, j, now);
      RecoveryCounts(h, p, front, j, now);
    }
  }

  // The same count by entries: those written after the hour `low` and up to the hour `high`,
  // each with the lines it leaves in its file.
  function CountEntries(p: Params, written: seq<Entry>, low: int, high: int, j: nat, now: int): nat
  {
    if written == [] then 0
    else
      var last := written[|written| - 1];
      CountEntries(p, written[..|written| - 1], low, high, j, now)
      + (if low < last.hour <= high then CountReaching(p, Lines(last.line + "\n"), j, now) else 0)
  }

  lemma {:induction false} CountInTwo(p: Params, written: seq<Entry>, low: int, mid: int, high: int, j: nat, now: int)
    requires low <= mid <= high
    ensures CountEntries(p, written, low, high, j, now) ==
            CountEntries(p, written, low, mid, j, now) + CountEntries(p, written, mid, high, j, now)
  {
    hide CountReaching, Lines;
    if written != [] {
      CountInTwo(p, written[..|written| - 1], low, mid, high, j, now);
    }
  }

  // The file of one hour.
  lemma {:induction false} CountOfOneHour(p: Params, written: seq<Entry>, hour: int, j: nat, now: int)
    requires hour % 3600 == 0 && forall i :: 0 <= i < |written| ==> written[i].hour % 3600 == 0
    ensures CountReaching(p, Lines(FileText(WrittenIn(written, hour))), j, now) ==
            CountEntries(p, written, hour - 3600, hour, j, now)
  {
    hide CountReaching, Lines, FileText;
    if written == [] {
      NothingToCount(p, j, now);
    } else {
      var front, last := written[..|written| - 1], written[|written| - 1];
      CountOfOneHour(p, front, hour, j, now);
      if last.hour == hour {
        var lines := WrittenIn(front, hour);
        AppendedFile(lines, last.line);
        assert FileText(lines) + last.line + "\n" == FileText(lines) + (last.line + "\n");
        LinesAppend(FileText(lines), last.line + "\n");
        CountAppend(p, Lines(FileText(lines)), Lines(last.line + "\n"), j, now);
      } else {
        assert WrittenIn(written, hour) == WrittenIn(front, hour);
        NotInBetween(hour, last.hour);
      }
    }
  }

  lemma NothingToCount(p: Params, j: nat, now: int)
    ensures CountReaching(p, Lines(FileText([])), j, now) == 0 && CountReaching(p, [], j, now) == 0
  {
  }

  lemma NotInBetween(hour: int, other: int)
    requires hour % 3600 == 0 && other % 3600 == 0 && other != hour
    ensures !(hour - 3600 < other <= hour)
  {
  }

  lemma CountOfFile(n: Node, p: Params, hour: int, j: nat, now: int)
    requires LogInv(n) && hour % 3600 == 0 && n.past.cutoff < hour
    ensures CountReaching(p, LinesAt(n.state.engine.dir, hour), j, now) ==
            CountEntries(p, n.past.written, hour - 3600, hour, j, now)
  {
    hide CountReaching, CountEntries, Lines, FileText, LogInv, LinesAt;
    FileHoldsWrittenLines(n, hour);
    assert forall i :: 0 <= i < |n.past.written| ==> n.past.written[i].hour % 3600 == 0 by { WholeHours(n); }
    CountOfOneHour(p, n.past.written, hour, j, now);
  }

  lemma WholeHours(n: Node)
    requires LogInv(n)
    ensures forall i :: 0 <= i < |n.past.written| ==> n.past.written[i].hour % 3600 == 0
  {
  }

  lemma {:induction false} CountOfFiles(n: Node, p: Params, newest: int, k: nat, j: nat, now: int)
    requires LogInv(n) && newest % 3600 == 0 && n.past.cutoff <= newest - 3600 * k
    ensures CountReaching(p, LinesOfFiles(n.state.engine.dir, FoundHours(n.state.engine.dir, newest, k)), j, now) ==
            CountEntries(p, n.past.written, newest - 3600 * k, newest, j, now)
  {
    hide CountReaching, CountEntries, LinesAt, LogInv;
    var dir, written := n.state.engine.dir, n.past.written;
    if k == 0 {
      NothingToCount(p, j, now);
      NothingInBetween(p, written, newest, j, now);
    } else {
      var oldest := newest - 3600 * (k - 1);
      var newer := FoundHours(dir, newest, k - 1);
      CountOfFiles(n, p, newest, k - 1, j, now);
      CountInTwo(p, written, oldest - 3600, oldest, newest, j, now);
      CountOfFile(n, p, oldest, j, now);
      if oldest in dir {
        assert (newer + [oldest])[..|newer|] == newer;
        CountAppend(p, LinesOfFiles(dir, newer), LinesAt(dir, oldest), j, now);
      } else {
        assert FoundHours(dir, newest, k) == newer;
        NothingToCount(p, j, now);
        NoFile(dir, oldest);
      }
    }
  }

  lemma NoFile(dir: Directory, hour: int)
    requires hour !in dir
    ensures LinesAt(dir, hour) == []
  {
  }

  lemma {:induction false} NothingInBetween(p: Params, written: seq<Entry>, hour: int, j: nat, now: int)
    ensures CountEntries(p, written, hour, hour, j, now) == 0
  {
    hide CountReaching, Lines;
    if written != [] {
      NothingInBetween(p, written[..|written| - 1], hour, j, now);
    }
  }

  lemma CountOfRetained(n: Node, p: Params, j: nat)
    requires LogInv(n)
    ensures CountReaching(p, RetainedLines(n.state.engine.dir, n.now), j, n.now) ==
            CountEntries(p, n.past.written, Horizon(n.now), HourOf(n.now), j, n.now)
  {
    hide CountReaching, CountEntries, LogInv, HourOf, LinesOfFiles, FoundHours;
    CutoffIsPast(n);
    HourIsWhole(n.now);
    CountOfFiles(n, p, HourOf(n.now), KEPT_HOURS, j, n.now);
  }

  lemma CountOfRebuilt(h: Hash, n: Node, p: Params, filters: seq<Filter>, j: nat)
    requires LogInv(n) && p.interval > 0 && NewFiltersAccepted(p) && RowOf(p, Recovered(Fresh(p)))
    requires Recover(h, p, Recovered(Fresh(p)), RetainedLines(n.state.engine.dir, n.now), n.now) == Recovered(filters)
    ensures j < |filters| ==>
              filters[j].msgNum == CountEntries(p, n.past.written, HourOf(n.now) - 86400, HourOf(n.now), j, n.now)
  {
    hide LogInv, Recover, CountReaching, CountEntries, NewFiltersAccepted, RetainedLines, HourOf;
    if j < |filters| {
      RecoveryCounts(h, p, RetainedLines(n.state.engine.dir, n.now), j, n.now);
      CountOfRetained(n, p, j);
    }
  }

  // After each adjust that goes through, the count of filter j is the number of lines that the
  // entries written in the last 24 hours leave in their files, entry by entry, and that are
  // records in range with more than j intervals left.
  lemma CountsAfterAdjust(h: Hash, n: Node, data: Data, j: nat)
    requires Reachable(h, n) && Adjusts(h, n, data)
    ensures var e := Step(h, n, Message("adjust_bloom_filter", data)).state.engine;
            var newest := HourOf(n.now);
            j < |e.filters| ==>
              e.filters[j].msgNum == CountEntries(e.params, n.past.written, newest - 86400, newest, j, n.now)
  {
    hide Adjusts, CountEntries, LogInv, NewFiltersAccepted, Recover, RowAfter, Replay, HourOf, RetainedLines, Step, RowOf, Fresh, Usable;
    AdjustsExactly(h, n, data);
    NodeTheorems.AfterAdjust(h, n, data);
    ReachableKeepsLog(h, n);
    var e := Step(h, n, Message("adjust_bloom_filter", data)).state.engine;
    FreshIsRow(e.params);
    CountOfRebuilt(h, n, e.params, e.filters, j);
  }
}
