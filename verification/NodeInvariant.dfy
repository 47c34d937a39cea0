/** Every step of the node keeps its log in order: revocations are conserved on their way to
    the files, and the files of the hours in retention hold what was written. */
module NodeInvariant {
  import opened BloomFilter
  import opened Decimal
  import opened EngineHistory
  import opened EngineSpec
  import opened LogLine
  import opened Node
  import opened Rebuild

  // Fates.

  lemma {:induction false} MoreTakenSameFates(taken: seq<Taken>, t: Taken, fates: seq<Fate>, fate: Fate)
    requires |fates| <= |taken|
    ensures WithFate(taken + [t], fates, fate) == WithFate(taken, fates, fate)
  {
    if fates != [] {
      MoreTakenSameFates(taken, t, fates[..|fates| - 1], fate);
    }
  }

  lemma OneMoreFate(taken: seq<Taken>, fates: seq<Fate>, next: Fate, fate: Fate)
    requires |fates| < |taken|
    ensures WithFate(taken, fates + [next], fate) ==
            if next == fate then WithFate(taken, fates, fate) + [taken[|fates|]] else WithFate(taken, fates, fate)
  {
    assert (fates + [next])[..|fates|] == fates;
  }

  lemma {:induction false} ManyMoreFates(taken: seq<Taken>, fates: seq<Fate>, next: Fate, k: nat, fate: Fate)
    requires |fates| + k <= |taken|
    ensures WithFate(taken, fates + seq(k, _ => next), fate) ==
            WithFate(taken, fates, fate) + (if next == fate then taken[|fates|..|fates| + k] else [])
  {
    hide WithFate;
    if k == 0 {
      assert fates + seq(0, _ => next) == fates;
    } else {
      var fewer := fates + seq(k - 1, _ => next);
      assert fates + seq(k, _ => next) == fewer + [next];
      ManyMoreFates(taken, fates, next, k - 1, fate);
      OneMoreFate(taken, fewer, next, fate);
      assert taken[|fates|..|fates| + k] == taken[|fates|..|fates| + k - 1] + [taken[|fewer|]];
    }
  }

  // The written lines, hour by hour.

  lemma {:induction false} WrittenInAt(written: seq<Entry>, line: string, hour: int)
    ensures line in WrittenIn(written, hour) <==> Entry(line, hour) in written
  {
    if written != [] {
      var front, last := written[..|written| - 1], written[|written| - 1];
      WrittenInAt(front, line, hour);
      assert written == front + [last];
    }
  }

  lemma LineOfEntry(n: Node, i: nat)
    requires LogInv(n) && i < |n.past.written|
    ensures i < |Filed(n.past)| && IsInt64(Filed(n.past)[i].record.exp)
    ensures n.past.written[i].line == Line(Filed(n.past)[i].record)
  {
    hide DirectoryOk, Line;
    assert TakenLines(Filed(n.past))[i] == EntryLines(n.past.written)[i];
    var t := Filed(n.past)[i];
    assert t in n.past.taken;
  }

  // A rebuild reads, from the file of an hour in retention, the text of the lines written.
  lemma FileHoldsWrittenLines(n: Node, hour: int)
    requires LogInv(n)
    ensures LinesAt(n.state.engine.dir, hour) ==
            if n.past.cutoff < hour then Lines(FileText(WrittenIn(n.past.written, hour))) else []
  {
    hide Lines, Conserved, TakenOk, EntriesOk;
    NoLines();
    assert DirectoryOk(n);
  }

  lemma {:induction false} InLinesOfFiles(dir: Directory, hours: seq<int>, line: string)
    ensures line in LinesOfFiles(dir, hours) <==> exists hour :: hour in hours && line in LinesAt(dir, hour)
  {
    hide LinesAt;
    if hours != [] {
      var front, last := hours[..|hours| - 1], hours[|hours| - 1];
      InLinesOfFiles(dir, front, line);
      assert hours == front + [last];
    }
  }

  // A line of the text written in one of the last 24 hours.
  ghost predicate IsRetained(n: Node, hour: int, line: string)
  {
    Horizon(n.now) < hour && line in Lines(FileText(WrittenIn(n.past.written, hour)))
  }

  // What a rebuild reads, exactly.
  lemma RetainedText(n: Node, line: string)
    requires LogInv(n)
    ensures line in RetainedLines(n.state.engine.dir, n.now) <==> exists hour :: IsRetained(n, hour, line)
  {
    hide LogInv, LinesAt, LinesOfFiles, Lines, FileText, WrittenIn;
    var dir := n.state.engine.dir;
    var hours := FoundHours(dir, HourOf(n.now), KEPT_HOURS);
    InLinesOfFiles(dir, hours, line);
    CutoffIsPast(n);
    if line in RetainedLines(dir, n.now) {
      var hour :| hour in hours && line in LinesAt(dir, hour);
      FileHoldsWrittenLines(n, hour);
      assert IsRetained(n, hour, line);
    }
    if hour :| IsRetained(n, hour, line) {
      FileHoldsWrittenLines(n, hour);
      NothingWrittenIsEmpty(n, hour);
      WrittenHourIsFound(n, hour);
    }
  }

  lemma CutoffIsPast(n: Node)
    requires LogInv(n)
    ensures n.past.cutoff <= Horizon(n.now)
  {
  }

  lemma NothingWrittenIsEmpty(n: Node, hour: int)
    ensures WrittenIn(n.past.written, hour) == [] ==> Lines(FileText(WrittenIn(n.past.written, hour))) == []
  {
    NoLines();
  }

  lemma EntryHour(n: Node, i: nat)
    requires LogInv(n) && i < |n.past.written|
    ensures n.past.written[i].hour % 3600 == 0 && n.past.written[i].hour <= HourOf(n.now)
    ensures i < |Filed(n.past)| && HourOf(Filed(n.past)[i].at) <= n.past.written[i].hour
    ensures n.past.cutoff <= Horizon(n.now)
  {
  }

  lemma HoursApart(now: int, hour: int)
    requires hour % 3600 == 0
    ensures (HourOf(now) - hour) % 3600 == 0
  {
  }

  lemma WrittenHourIsFound(n: Node, hour: int)
    requires LogInv(n) && WrittenIn(n.past.written, hour) != []
    requires Horizon(n.now) < hour
    ensures hour in FoundHours(n.state.engine.dir, HourOf(n.now), KEPT_HOURS)
  {
    hide WrittenIn, FileText, HourOf, Conserved, TakenOk, EntriesOk;
    var line := WrittenIn(n.past.written, hour)[0];
    WrittenInAt(n.past.written, line, hour);
    var i :| 0 <= i < |n.past.written| && n.past.written[i] == Entry(line, hour);
    EntryHour(n, i);
    HoursApart(n.now, hour);
    assert hour in n.state.engine.dir;
    assert IsWithin(hour, HourOf(n.now), KEPT_HOURS);
  }

  // A line that some entry, written in one of the last 24 hours, leaves in its file.
  ghost predicate IsLeftBy(n: Node, i: nat, line: string)
  {
    && i < |n.past.written| && Horizon(n.now) < n.past.written[i].hour
    && line in Lines(n.past.written[i].line + "\n")
  }

  // So a rebuild reads exactly what each entry of the last 24 hours leaves in its file: the
  // entry itself, if it holds no newline.
  lemma RetainedExactly(n: Node, line: string)
    requires LogInv(n)
    ensures line in RetainedLines(n.state.engine.dir, n.now) <==> exists i: nat :: IsLeftBy(n, i, line)
  {
    hide LogInv, RetainedLines, WrittenIn, Lines, FileText, Horizon;
    var written := n.past.written;
    RetainedText(n, line);
    if hour :| IsRetained(n, hour, line) {
      var lines := WrittenIn(written, hour);
      InFileText(lines, line);
      var k :| 0 <= k < |lines| && line in Lines(lines[k] + "\n");
      WrittenInAt(written, lines[k], hour);
      var i: nat :| i < |written| && written[i] == Entry(lines[k], hour);
      assert IsLeftBy(n, i, line);
    }
    if i: nat :| IsLeftBy(n, i, line) {
      var e := written[i];
      assert e == Entry(e.line, e.hour);
      WrittenInAt(written, e.line, e.hour);
      InFileText(WrittenIn(written, e.hour), line);
      assert IsRetained(n, e.hour, line);
    }
  }

  // Adjust in full: it goes through exactly for parameters it can use and a log it can read.
  lemma AdjustOutcome(h: Hash, e: EngineState, p: Params, now: int)
    ensures var good := p.interval > 0 && NewFiltersAccepted(p);
            var lines := RetainedLines(e.dir, now);
            && (good ==> Usable(Effective(p)))
            && Adjust(h, e, p, now) ==
                 if !good then (e.(params := p), Died)
                 else if NoneThrows(lines) then
                   (EngineState(p, RowAfter(h, Effective(p), Replay(lines, now)), CleanUp(e.dir, now)), Done)
                 else (EngineState(p, e.filters, CleanUp(e.dir, now)), DiedReading)
  {
    hide NewFiltersAccepted, Recover, RetainedLines, CleanUp, RowAfter, Replay, NoneThrows;
    if p.interval > 0 && NewFiltersAccepted(p) {
      RebuildIsReplay(h, p, RetainedLines(e.dir, now), now);
    }
  }

  // The log part of the invariant, step by step.

  ghost predicate SameLog(n: Node, m: Node)
  {
    && n.now <= m.now
    && m.past == n.past.(ops := m.past.ops)
    && n.state.engine.dir == m.state.engine.dir
    && Outstanding(n) == Outstanding(m)
  }

  lemma HourIsMonotone(s: int, t: int)
    requires s <= t
    ensures HourOf(s) <= HourOf(t)
  {
  }

  lemma SameLogKeeps(n: Node, m: Node)
    requires LogInv(n) && SameLog(n, m)
    ensures LogInv(m)
  {
    hide Outstanding, HourOf, WithFate, DirectoryOk;
    HourIsMonotone(n.now, m.now);
    assert Filed(m.past) == Filed(n.past) && InFlight(m.past) == InFlight(n.past);
    assert DirectoryOk(m) by {
      SameDirectory(n, m);
    }
  }

  lemma SameDirectory(n: Node, m: Node)
    requires DirectoryOk(n)
    requires m.past.written == n.past.written && m.past.cutoff == n.past.cutoff
    requires m.state.engine.dir == n.state.engine.dir
    ensures DirectoryOk(m)
  {
  }

  lemma CleanedDirectory(n: Node, m: Node)
    requires LogInv(n)
    requires m.past.written == n.past.written && m.now == n.now && m.past.cutoff == Horizon(n.now)
    requires m.state.engine.dir == CleanUp(n.state.engine.dir, n.now)
    ensures DirectoryOk(m)
  {
    hide Conserved, TakenOk, FileText;
    forall hour
      ensures hour in m.state.engine.dir <==> m.past.cutoff < hour && WrittenIn(n.past.written, hour) != []
      ensures hour in m.state.engine.dir ==> m.state.engine.dir[hour] == FileText(WrittenIn(n.past.written, hour))
    {
      if WrittenIn(n.past.written, hour) != [] && Horizon(n.now) < hour {
        WrittenHourIsFound(n, hour);
      }
    }
  }

  lemma HourIsWhole(now: int)
    ensures HourOf(now) % 3600 == 0
  {
  }

  lemma TakenLinesOneMore(taken: seq<Taken>, t: Taken)
    ensures TakenLines(taken + [t]) == TakenLines(taken) + [Line(t.record)]
  {
  }

  lemma TakenLinesTail(taken: seq<Taken>)
    ensures |TakenLines(taken)| == |taken|
    ensures taken != [] ==> TakenLines(taken)[0] == Line(taken[0].record)
    ensures taken != [] ==> TakenLines(taken)[1..] == TakenLines(taken[1..])
  {
  }

  lemma EntryLinesOneMore(written: seq<Entry>, e: Entry)
    ensures EntryLines(written + [e]) == EntryLines(written) + [e.line]
  {
  }

  lemma HeldIsOldest(n: Node, m: Node)
    requires n.held.Some? && !m.held.Some? && m.queue == n.queue && m.dispatcher == n.dispatcher
    ensures Outstanding(n) != [] && Outstanding(n)[0] == n.held.value && Outstanding(n)[1..] == Outstanding(m)
  {
  }

  lemma InFlightTail(past: Past)
    requires InFlight(past) != []
    ensures |past.fates| < |past.taken| && InFlight(past)[0] == past.taken[|past.fates|]
    ensures InFlight(past.(fates := past.fates + [InFile])) == InFlight(past)[1..]
  {
  }

  // The oldest revocation in flight is the one the log worker holds.
  lemma OldestInFlight(n: Node) returns (t: Taken)
    requires Conserved(n) && n.held.Some?
    ensures InFlight(n.past) != [] && t == InFlight(n.past)[0] && t in n.past.taken
    ensures Line(t.record) == n.held.value
    ensures Conserved(Written(n)) && Filed(Written(n).past) == Filed(n.past) + [t]
  {
    hide WithFate, Line, HourOf, TakenLines, EntryLines, Outstanding;
    var m, past, flying := Written(n), n.past, InFlight(n.past);
    HeldIsOldest(n, m);
    TakenLinesTail(flying);
    InFlightTail(past);
    t := flying[0];
    OneMoreFate(past.taken, past.fates, InFile, InFile);
    TakenLinesOneMore(Filed(past), t);
    EntryLinesOneMore(past.written, Entry(n.held.value, HourOf(n.now)));
  }

  lemma WrittenKeepsEntries(n: Node)
    requires LogInv(n) && n.held.Some?
    ensures Conserved(Written(n)) && TakenOk(Written(n)) && EntriesOk(Written(n))
  {
    hide DirectoryOk, HourOf, Filed, Conserved, Outstanding;
    var t := OldestInFlight(n);
    HourIsMonotone(t.at, n.now);
    HourIsWhole(n.now);
  }

  lemma WrittenInOneMore(written: seq<Entry>, entry: Entry, hour: int)
    ensures WrittenIn(written + [entry], hour) ==
            if hour == entry.hour then WrittenIn(written, hour) + [entry.line] else WrittenIn(written, hour)
  {
  }

  lemma WrittenKeepsLog(n: Node)
    requires LogInv(n) && n.held.Some?
    ensures LogInv(Written(n))
  {
    hide HourOf, WrittenIn, Conserved, TakenOk, FileText;
    WrittenKeepsEntries(n);
    var m := Written(n);
    var written, entry := n.past.written, Entry(n.held.value, HourOf(n.now));
    assert n.past.cutoff < entry.hour && DirectoryOk(n);
    forall hour
      ensures hour in m.state.engine.dir <==> m.past.cutoff < hour && WrittenIn(m.past.written, hour) != []
      ensures hour in m.state.engine.dir ==> m.state.engine.dir[hour] == FileText(WrittenIn(m.past.written, hour))
    {
      WrittenInOneMore(written, entry, hour);
      AppendedFile(WrittenIn(written, hour), entry.line);
    }
  }

  lemma TakenKeepsLog(n: Node, m: Node, r: Record)
    requires LogInv(n) && n.dispatcher == Free && IsInt64(r.exp)
    requires m == n.(state := m.state, dispatcher := Logging(Line(r)), past := m.past)
    requires m.past == n.past.(taken := n.past.taken + [Taken(r, n.now)], ops := m.past.ops)
    requires m.state.engine.dir == n.state.engine.dir
    ensures LogInv(m)
  {
    hide Line, FileText, WrittenIn, WithFate, DirectoryOk, HourOf, TakenLines;
    var t := Taken(r, n.now);
    MoreTakenSameFates(n.past.taken, t, n.past.fates, InFile);
    assert Filed(m.past) == Filed(n.past) && InFlight(m.past) == InFlight(n.past) + [t];
    assert Outstanding(m) == Outstanding(n) + [Line(r)];
    TakenLinesOneMore(InFlight(n.past), t);
    SameDirectory(n, m);
  }

  lemma AdjustKeepsLog(n: Node, m: Node)
    requires LogInv(n) && m.now == n.now && Outstanding(m) == Outstanding(n)
    requires m.past == n.past.(cutoff := Horizon(n.now), ops := m.past.ops)
    requires m.state.engine.dir == CleanUp(n.state.engine.dir, n.now)
    ensures LogInv(m)
  {
    hide Outstanding, CleanUp, WithFate;
    CleanedDirectory(n, m);
    hide DirectoryOk;
    assert Filed(m.past) == Filed(n.past) && InFlight(m.past) == InFlight(n.past);
  }

  // What a restart makes of the fates: all that were in flight are lost, and no others.
  lemma RestartLoses(h: Hash, n: Node, p: Params)
    requires |n.past.fates| <= |n.past.taken|
    ensures var m := Started(h, n, p);
            && m.past.taken == n.past.taken && |m.past.fates| == |m.past.taken| && n.past.fates <= m.past.fates
            && Filed(m.past) == Filed(n.past) && InFlight(m.past) == []
            && WithFate(m.past.taken, m.past.fates, Lost)
               == WithFate(n.past.taken, n.past.fates, Lost) + InFlight(n.past)
  {
    hide Adjust, WithFate;
    ManyMoreFates(n.past.taken, n.past.fates, Lost, |InFlight(n.past)|, InFile);
    ManyMoreFates(n.past.taken, n.past.fates, Lost, |InFlight(n.past)|, Lost);
  }

  lemma RestartKeepsLog(h: Hash, n: Node, p: Params)
    requires LogInv(n)
    ensures LogInv(Started(h, n, p))
  {
    hide WithFate, HourOf, Adjust, RetainedLines, Replay;
    var m := Started(h, n, p);
    AdjustOutcome(h, n.state.engine.(filters := []), p, n.now);
    RestartLoses(h, n, p);
    assert Outstanding(m) == [] == TakenLines(InFlight(m.past));
    if m.past.cutoff == n.past.cutoff && m.state.engine.dir == n.state.engine.dir {
      SameDirectory(n, m);
    } else {
      CleanedDirectory(n, m);
    }
    hide DirectoryOk;
  }
}
