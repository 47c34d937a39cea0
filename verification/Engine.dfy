/** The engine object: a row of Bloom filter objects updated in place, proved against the
    operations of EngineSpec. The clock is a parameter and the log directory a field. */
module Engine {
  import opened BloomFilter
  import opened EngineSpec
  import opened LogLine

  function Views(fs: seq<BaseBloomFilter>): (r: seq<Filter>)
    reads fs
    ensures |r| == |fs| && forall i :: 0 <= i < |fs| ==> r[i] == fs[i].View()
  {
    if fs == [] then [] else Views(fs[..|fs| - 1]) + [fs[|fs| - 1].View()]
  }

  // Distinct, well-formed filters, as a std::vector of filters holds them.
  ghost predicate AreFilters(fs: seq<BaseBloomFilter>)
    reads fs
  {
    && (forall i :: 0 <= i < |fs| ==> fs[i].Valid())
    && (forall i, j :: 0 <= i < j < |fs| ==> fs[i] != fs[j])
  }

  lemma FiltersAreSized(fs: seq<BaseBloomFilter>)
    requires AreFilters(fs)
    ensures AllSized(Views(fs))
  {
  }

  method GetNewFilters(filtersNum: nat, bloomFilterSize: nat, hashFunctionNum: nat)
      returns (accepted: bool, newFilters: seq<BaseBloomFilter>)
    ensures accepted <==> filtersNum == 0 || (AcceptsSize(bloomFilterSize) && hashFunctionNum > 0)
    ensures accepted ==>
      && AreFilters(newFilters) && fresh(newFilters)
      && Views(newFilters) == EmptyRow(filtersNum, bloomFilterSize, hashFunctionNum)
  {
    hide AcceptsSize, Views;
    newFilters := [];
    for i := 0 to filtersNum
      invariant i > 0 ==> AcceptsSize(bloomFilterSize) && hashFunctionNum > 0
      invariant AreFilters(newFilters) && fresh(newFilters)
      invariant |newFilters| == i
      invariant forall j :: 0 <= j < i ==> newFilters[j].View() == Empty(bloomFilterSize, hashFunctionNum)
    {
      if !AcceptsSize(bloomFilterSize) || hashFunctionNum == 0 {
        return false, [];
      }
      var filter := new BaseBloomFilter(bloomFilterSize, hashFunctionNum);
      newFilters := newFilters + [filter];
    }
    return true, newFilters;
  }

  // The loop `for i < num: filters[i].add(token)`.
  method AddToFilters(h: Hash, fs: seq<BaseBloomFilter>, num: nat, token: string)
    requires AreFilters(fs) && num <= |fs|
    requires AllSized(Views(fs))
    modifies fs
    ensures AreFilters(fs)
    ensures Views(fs) == AddToPrefix(h, old(Views(fs)), num, token)
  {
    hide Add, AddToPrefix, Views, AcceptsSize;
    for i := 0 to num
      invariant AreFilters(fs)
      invariant forall j :: 0 <= j < i ==> fs[j].View() == Add(h, old(fs[j].View()), token)
      invariant forall j :: i <= j < |fs| ==> fs[j].View() == old(fs[j].View())
    {
      fs[i].Insert(h, token);
    }
  }

  class Engine {
    const hash: Hash
    var filters: seq<BaseBloomFilter>
    var maxJwtLifeTime: nat
    var rotationInterval: nat
    var bloomFilterSize: nat
    var hashFunctionNum: nat
    var filtersNum: nat
    var logDir: Directory

    function ParamsView(): Params
      reads this
    {
      Params(maxJwtLifeTime, rotationInterval, bloomFilterSize, hashFunctionNum)
    }

    function View(): EngineState
      reads this, filters
    {
      EngineState(ParamsView(), Views(filters), logDir)
    }

    ghost predicate Valid()
      reads this, filters
    {
      && rotationInterval > 0
      && |filters| == filtersNum == FiltersNum(ParamsView())
      && AreFilters(filters)
      && AllSized(Views(filters))
    }

    constructor (hash: Hash, logDir: Directory)
      ensures this.hash == hash && this.logDir == logDir && filters == []
    {
      this.hash := hash;
      this.logDir := logDir;
      filters, filtersNum := [], 0;
      maxJwtLifeTime, rotationInterval, bloomFilterSize, hashFunctionNum := 0, 0, 0, 0;
    }

    method RevokeJwt(token: string, expTime: int, now: int)
      requires Valid()
      modifies filters
      ensures Valid()
      ensures Views(filters) == Revoke(hash, ParamsView(), old(Views(filters)), token, expTime, now)
    {
      hide AddToPrefix, AllSized, Views, AreFilters, FiltersNum;
      var remainingTime := expTime - now;
      if remainingTime <= 0 { return; }
      if remainingTime > maxJwtLifeTime { return; }
      var num := remainingTime / rotationInterval;
      if num > filtersNum { return; }
      AddToFilters(hash, filters, num, token);
    }

    method IsJwtRevoked(token: string, expTime: int, now: int) returns (revoked: bool)
      requires Valid()
      ensures revoked <==> IsRevoked(hash, ParamsView(), Views(filters), token, expTime, now)
    {
      hide Contains, AcceptsSize;
      var remainingTime := expTime - now;
      if remainingTime <= 0 { return false; }
      if remainingTime > maxJwtLifeTime { return false; }
      var num := remainingTime / rotationInterval;
      if num > filtersNum { return false; }
      for i := 0 to num
        invariant forall j :: 0 <= j < i ==> Contains(hash, Views(filters)[j], token)
      {
        var found := filters[i].Lookup(hash, token);
        if !found { return false; }
      }
      return true;
    }

    // The timeout branch of the rotation worker. An empty row or a refused size would make
    // the source's erase or emplace_back fail.
    method RotateBloomFilters()
      requires Valid() && filters != []
      requires AcceptsSize(bloomFilterSize) && hashFunctionNum > 0
      modifies this`filters
      ensures Valid() && ParamsView() == old(ParamsView())
      ensures Views(filters) == Rotate(ParamsView(), old(Views(filters)))
    {
      hide AcceptsSize, Views, AllSized;
      var filter := new BaseBloomFilter(bloomFilterSize, hashFunctionNum);
      filters := filters[1..] + [filter];
      FiltersAreSized(filters);
    }

    method GetBloomFilterFillingRate() returns (rate: seq<nat>)
      requires Valid()
      ensures |rate| == filtersNum
      ensures forall i :: 0 <= i < |rate| ==> rate[i] == Views(filters)[i].msgNum
    {
      rate := [];
      for i := 0 to |filters|
        invariant |rate| == i
        invariant forall j :: 0 <= j < i ==> rate[j] == filters[j].msgNum
      {
        rate := rate + [filters[i].msgNum];
      }
    }

    // One turn of logWorker, with the message it took from the queue: the file of the hour
    // has one line more, provided its last line was complete and the message is one line;
    // every other file is as it was.
    method WriteLog(msg: string, now: int)
      modifies this`logDir
      ensures logDir == AppendLine(old(logDir), HourOf(now), msg)
      ensures var hour := HourOf(now);
              && hour in logDir
              && ('\n' !in msg && (hour in old(logDir) ==> IsTerminated(old(logDir)[hour])) ==>
                    LinesAt(logDir, hour) == LinesAt(old(logDir), hour) + [msg] && IsTerminated(logDir[hour]))
      ensures forall hour :: hour != HourOf(now) ==>
                && (hour in logDir <==> hour in old(logDir))
                && (hour in logDir ==> logDir[hour] == old(logDir)[hour])
    {
      hide Lines;
      var hourlyTimestamp := now - now % 3600;
      var content := if hourlyTimestamp in logDir then logDir[hourlyTimestamp] else "";
      if '\n' !in msg && IsTerminated(content) {
        NoLines();
        LinesOfAppended(content, msg);
      }
      logDir := logDir[hourlyTimestamp := content + msg + "\n"];
    }

    // The loop that looks for the files of the last 24 hours.
    method FindFiles(now: int) returns (foundFiles: seq<int>)
      ensures foundFiles == FoundHours(logDir, HourOf(now), KEPT_HOURS)
      ensures forall x :: x in foundFiles <==>
                x in logDir && HourOf(now) - 86400 < x <= HourOf(now) && (HourOf(now) - x) % 3600 == 0
      ensures forall i, j :: 0 <= i < j < |foundFiles| ==> foundFiles[i] > foundFiles[j]
    {
      hide HourOf;
      var hourlyTimestamp := HourOf(now);
      foundFiles := [];
      for i := 0 to KEPT_HOURS
        invariant hourlyTimestamp == HourOf(now) - 3600 * i
        invariant foundFiles == FoundHours(logDir, HourOf(now), i)
      {
        if hourlyTimestamp in logDir {
          foundFiles := foundFiles + [hourlyTimestamp];
        }
        hourlyTimestamp := hourlyTimestamp - 3600;
      }
      FoundHoursDecrease(logDir, HourOf(now), KEPT_HOURS);
    }

    // The body of the loop over the lines of a file.
    method RecoverLine(fs: seq<BaseBloomFilter>, line: string, now: int) returns (ok: bool)
      requires rotationInterval > 0 && |fs| == filtersNum == FiltersNum(ParamsView())
      requires AreFilters(fs) && AllSized(Views(fs))
      modifies fs
      ensures ok <==> !Parse(line).Thrown?
      ensures AreFilters(fs) && AllSized(Views(fs))
      ensures Views(fs) == match Parse(line)
                           case Parsed(r) => Revoke(hash, ParamsView(), old(Views(fs)), r.token, r.exp, now)
                           case _ => old(Views(fs))
    {
      hide AddToPrefix, AllSized, Views, AreFilters, Parse;
      match Parse(line) {
        case Skipped => return true;
        case Thrown => return false;
        case Parsed(record) =>
          var expTime := record.exp;
          if expTime < now { return true; }
          var remainingTime := expTime - now;
          if remainingTime <= 0 { return true; }
          if remainingTime > maxJwtLifeTime { return true; }
          var num := remainingTime / rotationInterval;
          if num > filtersNum { return true; }
          AddToFilters(hash, fs, num, record.token);
          return true;
      }
    }

    // The loop over the lines of one file.
    method RecoverLines(fs: seq<BaseBloomFilter>, lines: seq<string>, now: int) returns (ok: bool)
      requires rotationInterval > 0 && |fs| == filtersNum == FiltersNum(ParamsView())
      requires AreFilters(fs) && AllSized(Views(fs))
      modifies fs
      ensures AreFilters(fs) && AllSized(Views(fs))
      ensures var r := Recover(hash, ParamsView(), Recovered(old(Views(fs))), lines, now);
              ok == r.Recovered? && (ok ==> Views(fs) == r.filters)
    {
      hide Revoke, Parse, AllSized, Views, AreFilters;
      ghost var p, start := ParamsView(), Recovered(Views(fs));
      for j := 0 to |lines|
        invariant AreFilters(fs) && AllSized(Views(fs))
        invariant Recover(hash, p, start, lines[..j], now) == Recovered(Views(fs))
      {
        var parsed := RecoverLine(fs, lines[j], now);
        assert lines[..j + 1][..j] == lines[..j];
        if !parsed {
          RecoverAppend(hash, p, start, lines[..j + 1], lines[j + 1..], now);
          ThrownStaysThrown(hash, p, lines[j + 1..], now);
          assert lines == lines[..j + 1] + lines[j + 1..];
          return false;
        }
      }
      assert lines[..|lines|] == lines;
      return true;
    }

    // The loop over the files that were found.
    method RecoverFiles(fs: seq<BaseBloomFilter>, dir: Directory, found: seq<int>, now: int) returns (ok: bool)
      requires rotationInterval > 0 && |fs| == filtersNum == FiltersNum(ParamsView())
      requires AreFilters(fs) && AllSized(Views(fs))
      requires forall x :: x in found ==> x in dir
      modifies fs
      ensures AreFilters(fs) && AllSized(Views(fs))
      ensures var r := Recover(hash, ParamsView(), Recovered(old(Views(fs))), LinesOfFiles(dir, found), now);
              ok == r.Recovered? && (ok ==> Views(fs) == r.filters)
    {
      hide Recover, Revoke, Lines, AllSized, Views, AreFilters;
      ghost var p, start := ParamsView(), Recovered(Views(fs));
      NothingToRecover(hash, p, start, now);
      for k := 0 to |found|
        invariant AreFilters(fs) && AllSized(Views(fs))
        invariant p == ParamsView()
        invariant Recover(hash, p, start, LinesOfFiles(dir, found[..k]), now) == Recovered(Views(fs))
      {
        var hour := found[k];
        assert hour in found;
        var lines := Lines(dir[hour]);
        assert lines == LinesAt(dir, hour);
        assert found[..k + 1][..k] == found[..k];
        RecoverAppend(hash, p, start, LinesOfFiles(dir, found[..k]), lines, now);
        var parsed := RecoverLines(fs, lines, now);
        if !parsed {
          ThrowingFilesThrow(hash, p, start, dir, found, k + 1, now);
          return false;
        }
      }
      assert found[..|found|] == found;
      return true;
    }

    method RecoverFromLog(fs: seq<BaseBloomFilter>, now: int) returns (ok: bool)
      requires rotationInterval > 0 && |fs| == filtersNum == FiltersNum(ParamsView())
      requires AreFilters(fs) && AllSized(Views(fs))
      modifies fs, this`logDir
      ensures logDir == CleanUp(old(logDir), now)
      ensures AreFilters(fs) && AllSized(Views(fs))
      ensures var r := Recover(hash, ParamsView(), Recovered(old(Views(fs))), RetainedLines(old(logDir), now), now);
              ok == r.Recovered? && (ok ==> Views(fs) == r.filters)
    {
      hide Recover, LinesOfFiles, AllSized, Views, AreFilters;
      var foundFiles := FindFiles(now);
      ghost var dir := logDir;
      assert forall x :: x in foundFiles ==> x in dir;
      FoundFilesAreKept(logDir, now, foundFiles);
      logDir := map hour | hour in logDir && hour in foundFiles :: logDir[hour];
      assert logDir == CleanUp(dir, now);
      assert forall x :: x in foundFiles ==> x in logDir;
      ok := RecoverFiles(fs, logDir, foundFiles, now);
    }

    // New filters, filled from the log, in place of the old ones; the source dies of an
    // exception where this does not return Done.
    method RebuildFilters(now: int) returns (outcome: Outcome)
      requires rotationInterval > 0 && filtersNum == FiltersNum(ParamsView())
      modifies this`filters, this`logDir
      ensures (View(), outcome) == Adjust(hash, old(View()), ParamsView(), now)
      ensures ParamsView() == old(ParamsView())
      ensures outcome == Done ==> Valid() && fresh(filters)
    {
      hide Recover, RetainedLines, CleanUp, AllSized, AreFilters, Views, AcceptsSize, EmptyRow;
      var accepted, newFilters := GetNewFilters(filtersNum, bloomFilterSize % 0x1_0000_0000, hashFunctionNum);
      if !accepted {
        return Died;
      }
      FiltersAreSized(newFilters);
      var recovered := RecoverFromLog(newFilters, now);
      if !recovered {
        return DiedReading;
      }
      filters := newFilters;
      return Done;
    }

    // The source dies of a division by zero or of an exception where this does not return
    // Done; the row of filters is then as it was.
    method AdjustFiltersParam(maxLife: nat, interval: nat, size: nat, hashNum: nat, now: int)
        returns (outcome: Outcome)
      modifies this
      ensures (View(), outcome) == Adjust(hash, old(View()), Params(maxLife, interval, size, hashNum), now)
      ensures outcome == Done ==> Valid() && fresh(filters)
    {
      hide Recover, RetainedLines, CleanUp, AllSized, AreFilters, Views, NewFiltersAccepted, Fresh;
      maxJwtLifeTime := maxLife;
      rotationInterval := interval;
      bloomFilterSize := size;
      hashFunctionNum := hashNum;
      if interval == 0 {
        return Died;
      }
      filtersNum := maxLife / interval;
      outcome := RebuildFilters(now);
    }

    // init refuses zero parameters before anything else; the rest is as in adjustFiltersParam.
    method Init(maxLife: nat, interval: nat, size: nat, hashNum: nat, now: int) returns (outcome: Outcome)
      modifies this
      ensures maxLife == 0 || interval == 0 || size == 0 || hashNum == 0 ==>
                outcome == Died && View() == old(View())
      ensures maxLife > 0 && interval > 0 && size > 0 && hashNum > 0 ==>
                (View(), outcome) == Adjust(hash, old(View()), Params(maxLife, interval, size, hashNum), now)
      ensures outcome == Done ==> Valid() && fresh(filters)
    {
      if maxLife == 0 || interval == 0 || size == 0 || hashNum == 0 {
        return Died;
      }
      outcome := AdjustFiltersParam(maxLife, interval, size, hashNum, now);
    }
  }

  lemma NothingToRecover(h: Hash, p: Params, r: Recovery, now: int)
    requires RowOf(p, r)
    ensures Recover(h, p, r, [], now) == r
  {
  }
}
