/** The engine's operations on values: the row of filters, its parameters, and what a
    revocation, a query, a rotation and a rebuild do to them at a given instant. */
module EngineSpec {
  import opened Arithmetic
  import opened BloomFilter
  import opened LogLine

  datatype Params = Params(maxLife: nat, interval: nat, size: nat, hashNum: nat)

  // std::ceil is applied to an integer quotient, so it rounds down.
  function FiltersNum(p: Params): nat
    requires p.interval > 0
  {
    p.maxLife / p.interval
  }

  // n(t): how many filters a token that expires at `exp` spans at instant `now`.
  function Window(p: Params, exp: int, now: int): (n: nat)
    requires p.interval > 0
  {
    if exp <= now then 0 else (exp - now) / p.interval
  }

  // The token is unexpired and its remaining life does not exceed the configured maximum.
  predicate InRange(p: Params, exp: int, now: int)
  {
    now < exp && exp - now <= p.maxLife
  }

  // `size` is cut to the 32 bits of getNewFilters' parameter; a refused filter throws.
  predicate NewFiltersAccepted(p: Params)
    requires p.interval > 0
  {
    FiltersNum(p) == 0 || (AcceptsSize(p.size % 0x1_0000_0000) && p.hashNum > 0)
  }

  function EmptyRow(n: nat, size: nat, hashNum: nat): (fs: seq<Filter>)
    ensures |fs| == n && forall i :: 0 <= i < n ==> fs[i] == Empty(size, hashNum)
  {
    seq(n, _ => Empty(size, hashNum))
  }

  function Fresh(p: Params): (fs: seq<Filter>)
    requires p.interval > 0
    ensures |fs| == FiltersNum(p)
  {
    EmptyRow(FiltersNum(p), p.size % 0x1_0000_0000, p.hashNum)
  }

  ghost predicate AllSized(fs: seq<Filter>)
  {
    forall i :: 0 <= i < |fs| ==> fs[i].size > 0
  }

  function AddToPrefix(h: Hash, fs: seq<Filter>, num: nat, token: string): (r: seq<Filter>)
    requires AllSized(fs) && num <= |fs|
    ensures |r| == |fs| && AllSized(r)
    ensures forall i :: 0 <= i < |fs| ==> r[i] == if i < num then Add(h, fs[i], token) else fs[i]
  {
    seq(|fs|, i requires 0 <= i < |fs| => if i < num then Add(h, fs[i], token) else fs[i])
  }

  // revokeJwt, with its four early returns.
  function Revoke(h: Hash, p: Params, fs: seq<Filter>, token: string, exp: int, now: int): (r: seq<Filter>)
    requires p.interval > 0 && |fs| == FiltersNum(p) && AllSized(fs)
    ensures |r| == |fs| && AllSized(r)
  {
    var remaining := exp - now;
    if remaining <= 0 then fs
    else if remaining > p.maxLife then fs
    else
      var num := remaining / p.interval;
      if num > |fs| then fs else AddToPrefix(h, fs, num, token)
  }

  // isRevoked: all filters of the token's window must contain it.
  predicate IsRevoked(h: Hash, p: Params, fs: seq<Filter>, token: string, exp: int, now: int)
    requires p.interval > 0 && |fs| == FiltersNum(p) && AllSized(fs)
  {
    var remaining := exp - now;
    if remaining <= 0 then false
    else if remaining > p.maxLife then false
    else
      var num := remaining / p.interval;
      num <= |fs| && forall i :: 0 <= i < num ==> Contains(h, fs[i], token)
  }

  // The timeout branch of the rotation worker.
  function Rotate(p: Params, fs: seq<Filter>): (r: seq<Filter>)
    requires fs != []
    ensures |r| == |fs|
  {
    fs[1..] + [Empty(p.size, p.hashNum)]
  }

  lemma WindowFits(p: Params, exp: int, now: int)
    requires p.interval > 0 && InRange(p, exp, now)
    ensures Window(p, exp, now) <= FiltersNum(p)
  {
    QuotientMonotone(exp - now, p.maxLife, p.interval);
  }

  // The guards `num > filtersNum` never decide: an in-range token has its whole window in
  // the row. So a revocation is a write to a prefix and a query is a scan of a prefix.
  lemma GuardsNeverFire(h: Hash, p: Params, fs: seq<Filter>, token: string, exp: int, now: int)
    requires p.interval > 0 && |fs| == FiltersNum(p) && AllSized(fs)
    ensures InRange(p, exp, now) ==> Window(p, exp, now) <= |fs|
    ensures Revoke(h, p, fs, token, exp, now) ==
            if InRange(p, exp, now) then AddToPrefix(h, fs, Window(p, exp, now), token) else fs
    ensures IsRevoked(h, p, fs, token, exp, now) <==>
            && InRange(p, exp, now)
            && forall i :: 0 <= i < Window(p, exp, now) ==> Contains(h, fs[i], token)
  {
    if InRange(p, exp, now) {
      WindowFits(p, exp, now);
    }
  }

  // recoverFromLog on the lines it reads, in order; an exception from stol escapes.
  datatype Recovery = Recovered(filters: seq<Filter>) | RecoveryThrew

  ghost predicate RowOf(p: Params, r: Recovery)
  {
    p.interval > 0 && (r.Recovered? ==> |r.filters| == FiltersNum(p) && AllSized(r.filters))
  }

  function RecoverOne(h: Hash, p: Params, r: Recovery, line: string, now: int): (r': Recovery)
    requires RowOf(p, r)
    ensures RowOf(p, r')
  {
    match (r, Parse(line))
    case (RecoveryThrew, _) => RecoveryThrew
    case (Recovered(_), Thrown) => RecoveryThrew
    case (Recovered(_), Skipped) => r
    case (Recovered(fs), Parsed(record)) => Recovered(Revoke(h, p, fs, record.token, record.exp, now))
  }

  function Recover(h: Hash, p: Params, r: Recovery, lines: seq<string>, now: int): (r': Recovery)
    requires RowOf(p, r)
    ensures RowOf(p, r')
  {
    if lines == [] then r
    else RecoverOne(h, p, Recover(h, p, r, lines[..|lines| - 1], now), lines[|lines| - 1], now)
  }

  // Reading two runs of lines is reading the first and then the second.
  lemma {:induction false} RecoverAppend(h: Hash, p: Params, r: Recovery, a: seq<string>, b: seq<string>, now: int)
    requires RowOf(p, r)
    ensures Recover(h, p, r, a + b, now) == Recover(h, p, Recover(h, p, r, a, now), b, now)
  {
    hide RecoverOne, RowOf;
    if b == [] {
      assert a + b == a;
    } else {
      assert (a + b)[..|a + b| - 1] == a + b[..|b| - 1];
      RecoverAppend(h, p, r, a, b[..|b| - 1], now);
    }
  }

  lemma {:induction false} ThrownStaysThrown(h: Hash, p: Params, lines: seq<string>, now: int)
    requires p.interval > 0
    ensures Recover(h, p, RecoveryThrew, lines, now) == RecoveryThrew
  {
    if lines != [] {
      ThrownStaysThrown(h, p, lines[..|lines| - 1], now);
    }
  }

  // The log directory: the text of the file of each hour, named by its first second.
  type Directory = map<int, string>

  const KEPT_HOURS: nat := 24

  function HourOf(now: int): (h: int)
    ensures h <= now < h + 3600
  {
    now - now % 3600
  }

  // The newest hour whose file is not kept by a clean-up at `now`.
  function Horizon(now: int): int
  {
    HourOf(now) - 3600 * KEPT_HOURS
  }

  // The files found when counting back `n` hours from `hour`, newest first.
  function FoundHours(dir: Directory, hour: int, n: nat): (hours: seq<int>)
    ensures forall x :: x in hours <==> x in dir && IsWithin(x, hour, n)
  {
    if n == 0 then []
    else
      var oldest := hour - 3600 * (n - 1);
      assert forall x :: IsWithin(x, hour, n) <==> IsWithin(x, hour, n - 1) || x == oldest;
      FoundHours(dir, hour, n - 1) + (if oldest in dir then [oldest] else [])
  }

  predicate IsWithin(x: int, hour: int, n: nat)
  {
    hour - 3600 * n < x <= hour && (hour - x) % 3600 == 0
  }

  function LinesAt(dir: Directory, hour: int): seq<string>
  {
    if hour in dir then Lines(dir[hour]) else []
  }

  function LinesOfFiles(dir: Directory, hours: seq<int>): seq<string>
  {
    if hours == [] then []
    else LinesOfFiles(dir, hours[..|hours| - 1]) + LinesAt(dir, hours[|hours| - 1])
  }

  lemma {:induction false} ThrowingFilesThrow(h: Hash, p: Params, r: Recovery, dir: Directory,
                                              hours: seq<int>, k: nat, now: int)
    requires RowOf(p, r) && k <= |hours|
    requires Recover(h, p, r, LinesOfFiles(dir, hours[..k]), now).RecoveryThrew?
    ensures Recover(h, p, r, LinesOfFiles(dir, hours), now).RecoveryThrew?
  {
    hide Recover, LinesAt, RowOf;
    if k == |hours| {
      assert hours[..k] == hours;
    } else {
      var front := hours[..|hours| - 1];
      var last := LinesAt(dir, hours[|hours| - 1]);
      assert front[..k] == hours[..k];
      ThrowingFilesThrow(h, p, r, dir, front, k, now);
      RecoverAppend(h, p, r, LinesOfFiles(dir, front), last, now);
      assert RowOf(p, r) && p.interval > 0 by { PositiveInterval(p, r); }
      ThrownStaysThrown(h, p, last, now);
    }
  }

  lemma PositiveInterval(p: Params, r: Recovery)
    requires RowOf(p, r)
    ensures p.interval > 0
  {
  }

  function RetainedLines(dir: Directory, now: int): seq<string>
  {
    LinesOfFiles(dir, FoundHours(dir, HourOf(now), KEPT_HOURS))
  }

  ghost predicate IsDecreasing(hours: seq<int>)
  {
    forall i, j :: 0 <= i < j < |hours| ==> hours[i] > hours[j]
  }

  lemma OneMoreIsDecreasing(hours: seq<int>, x: int)
    requires IsDecreasing(hours) && forall y :: y in hours ==> y > x
    ensures IsDecreasing(hours + [x])
  {
    var all := hours + [x];
    forall i, j | 0 <= i < j < |all|
      ensures all[i] > all[j]
    {
      if j == |hours| {
        var y := hours[i];
        assert y in hours;
      }
    }
  }

  // No file is found twice.
  lemma {:induction false} FoundHoursDecrease(dir: Directory, hour: int, n: nat)
    ensures IsDecreasing(FoundHours(dir, hour, n))
  {
    hide IsDecreasing;
    if n == 0 {
      assert IsDecreasing([]) by { NoHoursDecrease(); }
    } else {
      FoundHoursDecrease(dir, hour, n - 1);
      var oldest := hour - 3600 * (n - 1);
      if oldest in dir {
        OneMoreIsDecreasing(FoundHours(dir, hour, n - 1), oldest);
      } else {
        assert FoundHours(dir, hour, n) == FoundHours(dir, hour, n - 1);
      }
    }
  }

  lemma NoHoursDecrease()
    ensures IsDecreasing([])
  {
  }

  // The lines of some files together, each file once.
  ghost function LinesTogether(dir: Directory, hours: set<int>): multiset<string>
  {
    if exists hour :: hour in hours then
      var hour :| hour in hours;
      multiset(LinesAt(dir, hour)) + LinesTogether(dir, hours - {hour})
    else multiset{}
  }

  lemma SomeFile(dir: Directory, hours: set<int>) returns (hour: int)
    requires exists x :: x in hours
    ensures hour in hours
    ensures LinesTogether(dir, hours) == multiset(LinesAt(dir, hour)) + LinesTogether(dir, hours - {hour})
  {
    hide LinesAt;
    hour :| hour in hours && LinesTogether(dir, hours) == multiset(LinesAt(dir, hour)) + LinesTogether(dir, hours - {hour});
  }

  lemma {:induction false} OneMoreFile(dir: Directory, hours: set<int>, x: int)
    requires x !in hours
    ensures LinesTogether(dir, hours + {x}) == multiset(LinesAt(dir, x)) + LinesTogether(dir, hours)
    decreases |hours|
  {
    hide LinesAt, LinesTogether;
    var all := hours + {x};
    assert x in all;
    var hour := SomeFile(dir, all);
    OneMoreTakenOut(hours, x, hour);
    if hour != x {
      var rest := hours - {hour};
      OneMoreFile(dir, rest, x);
      OneMoreFile(dir, rest, hour);
    }
  }

  lemma OneMoreTakenOut(hours: set<int>, x: int, hour: int)
    requires x !in hours && hour in hours + {x}
    ensures hour == x ==> hours + {x} - {hour} == hours
    ensures hour != x ==> hours + {x} - {hour} == hours - {hour} + {x} && hours == hours - {hour} + {hour}
  {
  }

  function Members(hours: seq<int>): set<int>
  {
    set x | x in hours
  }

  lemma OneMoreMember(hours: seq<int>, x: int)
    ensures Members([]) == {} && Members(hours + [x]) == Members(hours) + {x}
  {
  }

  lemma {:induction false} DistinctFiles(dir: Directory, hours: seq<int>)
    requires IsDecreasing(hours)
    ensures multiset(LinesOfFiles(dir, hours)) == LinesTogether(dir, Members(hours))
  {
    hide LinesAt, Members;
    if hours == [] {
      OneMoreMember([], 0);
    } else {
      var front, last := hours[..|hours| - 1], hours[|hours| - 1];
      DistinctFiles(dir, front);
      assert hours == front + [last];
      OneMoreMember(front, last);
      assert last !in Members(front) by { LastIsNew(front, last); }
      OneMoreFile(dir, Members(front), last);
    }
  }

  lemma LastIsNew(front: seq<int>, last: int)
    requires IsDecreasing(front + [last])
    ensures last !in Members(front)
  {
    forall i | 0 <= i < |front|
      ensures front[i] != last
    {
      assert (front + [last])[i] > (front + [last])[|front|];
    }
  }

  // A rebuild reads each line of the files of the last 24 hours as often as it stands there.
  lemma EachFileIsReadOnce(dir: Directory, now: int)
    ensures var newest := HourOf(now);
            multiset(RetainedLines(dir, now)) ==
            LinesTogether(dir, set x | x in dir && newest - 86400 < x <= newest && (newest - x) % 3600 == 0)
  {
    hide LinesOfFiles, LinesTogether, FoundHours, HourOf, IsDecreasing;
    var newest := HourOf(now);
    var hours := FoundHours(dir, newest, KEPT_HOURS);
    FoundHoursDecrease(dir, newest, KEPT_HOURS);
    DistinctFiles(dir, hours);
    assert forall x :: x in hours <==> x in dir && newest - 86400 < x <= newest && (newest - x) % 3600 == 0;
    assert Members(hours) == set x | x in dir && newest - 86400 < x <= newest && (newest - x) % 3600 == 0;
  }

  // What is left after the files that were not found are deleted.
  function CleanUp(dir: Directory, now: int): Directory
  {
    map hour | hour in dir && IsWithin(hour, HourOf(now), KEPT_HOURS) :: dir[hour]
  }

  lemma {:induction false} FoundFilesAreKept(dir: Directory, now: int, hours: seq<int>)
    requires forall x :: x in hours ==> x in dir && IsWithin(x, HourOf(now), KEPT_HOURS)
    ensures LinesOfFiles(CleanUp(dir, now), hours) == LinesOfFiles(dir, hours)
  {
    if hours != [] {
      FoundFilesAreKept(dir, now, hours[..|hours| - 1]);
    }
  }

  // One turn of logWorker.
  function AppendLine(dir: Directory, hour: int, line: string): Directory
  {
    dir[hour := (if hour in dir then dir[hour] else "") + line + "\n"]
  }

  // The part of the state that the master's messages change.
  datatype EngineState = EngineState(params: Params, filters: seq<Filter>, dir: Directory)

  // How a call ends: normally; or the process dies of an exception or a division by zero,
  // before the log is touched or while it is read.
  datatype Outcome = Done | Died | DiedReading

  // adjustFiltersParam: the new parameters are stored first, then new filters are made and
  // filled from the log; the row is replaced only when nothing was thrown.
  function Adjust(h: Hash, e: EngineState, p: Params, now: int): (EngineState, Outcome)
  {
    if p.interval == 0 then (e.(params := p), Died)
    else if !NewFiltersAccepted(p) then (e.(params := p), Died)
    else
      var dir := CleanUp(e.dir, now);
      match Recover(h, p, Recovered(Fresh(p)), RetainedLines(e.dir, now), now)
      case RecoveryThrew => (EngineState(p, e.filters, dir), DiedReading)
      case Recovered(filters) => (EngineState(p, filters, dir), Done)
  }
}
