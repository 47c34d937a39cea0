/** What a rebuild from the log gives: the same filters as revoking every retained record
    now, in whatever order files and lines are read. */
module Rebuild {
  import opened BloomFilter
  import opened EngineAnswers
  import opened EngineHistory
  import opened EngineSpec
  import opened LogLine

  // Two revocations at the same instant commute.
  lemma RevocationsCommute(h: Hash, p: Params, fs: seq<Filter>, t1: string, e1: int, t2: string, e2: int, now: int)
    requires p.interval > 0 && |fs| == FiltersNum(p) && AllSized(fs)
    ensures Revoke(h, p, Revoke(h, p, fs, t1, e1, now), t2, e2, now)
         == Revoke(h, p, Revoke(h, p, fs, t2, e2, now), t1, e1, now)
  {
    hide Indices, InRange, Window, Revoke;
    GuardsNeverFire(h, p, fs, t1, e1, now);
    GuardsNeverFire(h, p, fs, t2, e2, now);
    GuardsNeverFire(h, p, Revoke(h, p, fs, t1, e1, now), t2, e2, now);
    GuardsNeverFire(h, p, Revoke(h, p, fs, t2, e2, now), t1, e1, now);
    if InRange(p, e1, now) && InRange(p, e2, now) {
      PrefixesCommute(h, fs, Window(p, e1, now), t1, Window(p, e2, now), t2);
    }
  }

  lemma PrefixesCommute(h: Hash, fs: seq<Filter>, n1: nat, t1: string, n2: nat, t2: string)
    requires AllSized(fs) && n1 <= |fs| && n2 <= |fs|
    ensures AddToPrefix(h, AddToPrefix(h, fs, n1, t1), n2, t2) == AddToPrefix(h, AddToPrefix(h, fs, n2, t2), n1, t1)
  {
    hide Indices, AddToPrefix;
    var x := AddToPrefix(h, AddToPrefix(h, fs, n1, t1), n2, t2);
    var y := AddToPrefix(h, AddToPrefix(h, fs, n2, t2), n1, t1);
    forall i | 0 <= i < |fs|
      ensures x[i] == y[i]
    {
      assert fs[i].size > 0;
    }
  }

  lemma LinesCommute(h: Hash, p: Params, r: Recovery, a: string, b: string, now: int)
    requires RowOf(p, r)
    ensures RecoverOne(h, p, RecoverOne(h, p, r, a, now), b, now) == RecoverOne(h, p, RecoverOne(h, p, r, b, now), a, now)
  {
    hide Revoke, Parse;
    if r.Recovered? && Parse(a).Parsed? && Parse(b).Parsed? {
      var x, y := Parse(a).record, Parse(b).record;
      RevocationsCommute(h, p, r.filters, x.token, x.exp, y.token, y.exp, now);
    }
  }

  // A line can be read last.
  lemma {:induction false} LineMovesToTheEnd(h: Hash, p: Params, r: Recovery, line: string, rest: seq<string>, now: int)
    requires RowOf(p, r)
    ensures Recover(h, p, RecoverOne(h, p, r, line, now), rest, now)
         == RecoverOne(h, p, Recover(h, p, r, rest, now), line, now)
  {
    hide RecoverOne, RowOf;
    if rest != [] {
      var front := rest[..|rest| - 1];
      LineMovesToTheEnd(h, p, r, line, front, now);
      LinesCommute(h, p, Recover(h, p, r, front, now), line, rest[|rest| - 1], now);
    }
  }

  lemma TakeOut(s: seq<string>, i: nat)
    requires i < |s|
    ensures multiset(s) == multiset(s[..i] + s[i + 1..]) + multiset{s[i]}
  {
    assert s == s[..i] + ([s[i]] + s[i + 1..]);
  }

  lemma TakeOutLast(s: seq<string>)
    requires s != []
    ensures multiset(s) == multiset(s[..|s| - 1]) + multiset{s[|s| - 1]}
  {
    TakeOut(s, |s| - 1);
    assert s[..|s| - 1] + s[|s|..] == s[..|s| - 1];
  }

  lemma SameWithoutOne(a: multiset<string>, b: multiset<string>, x: string)
    requires a + multiset{x} == b + multiset{x}
    ensures a == b
  {
    assert a == a + multiset{x} - multiset{x};
    assert b == b + multiset{x} - multiset{x};
  }

  // The last line of `a` taken out of a rearrangement `b` of `a`.
  lemma WithoutLast(a: seq<string>, b: seq<string>) returns (before: seq<string>, after: seq<string>)
    requires a != [] && multiset(a) == multiset(b)
    ensures b == before + [a[|a| - 1]] + after
    ensures multiset(a[..|a| - 1]) == multiset(before + after)
  {
    var line := a[|a| - 1];
    TakeOutLast(a);
    assert line in multiset(b);
    var i :| 0 <= i < |b| && b[i] == line;
    before, after := b[..i], b[i + 1..];
    TakeOut(b, i);
    SameWithoutOne(multiset(a[..|a| - 1]), multiset(before + after), line);
  }

  // The result does not depend on the order in which the lines are read.
  lemma {:induction false} OrderDoesNotMatter(h: Hash, p: Params, r: Recovery, a: seq<string>, b: seq<string>, now: int)
    requires RowOf(p, r) && multiset(a) == multiset(b)
    ensures Recover(h, p, r, a, now) == Recover(h, p, r, b, now)
  {
    hide RecoverOne, RowOf;
    if a == [] {
      assert |multiset(b)| == 0;
    } else {
      var front, line := a[..|a| - 1], a[|a| - 1];
      var before, after := WithoutLast(a, b);
      OrderDoesNotMatter(h, p, r, front, before + after, now);
      RecoverAppend(h, p, r, before, after, now);
      RecoverAppend(h, p, r, before + [line], after, now);
      assert (before + [line])[..|before|] == before;
      LineMovesToTheEnd(h, p, Recover(h, p, r, before, now), line, after, now);
    }
  }

  // The records of the lines, as writes at the instant of the rebuild.
  function Replay(lines: seq<string>, now: int): seq<Op>
  {
    if lines == [] then []
    else
      Replay(lines[..|lines| - 1], now) +
      match Parse(lines[|lines| - 1])
      case Parsed(r) => [Write(r.token, r.exp, now)]
      case _ => []
  }

  ghost predicate NoneThrows(lines: seq<string>)
  {
    forall line :: line in lines ==> !Parse(line).Thrown?
  }

  // The rebuild throws exactly when some retained line makes stol throw; otherwise it is
  // fresh filters on which every record was revoked at that instant.
  lemma {:induction false} RebuildIsReplay(h: Hash, p: Params, lines: seq<string>, now: int)
    requires p.interval > 0 && NewFiltersAccepted(p)
    ensures Usable(Effective(p)) && RowOf(p, Recovered(Fresh(p)))
    ensures Recover(h, p, Recovered(Fresh(p)), lines, now) ==
            if NoneThrows(lines) then Recovered(RowAfter(h, Effective(p), Replay(lines, now))) else RecoveryThrew
  {
    hide Parse, Revoke, AcceptsSize;
    AcceptedIsPositive(p.size % 0x1_0000_0000);
    if lines != [] {
      var front, last := lines[..|lines| - 1], lines[|lines| - 1];
      assert lines == front + [last];
      RebuildIsReplay(h, p, front, now);
      var ops := Replay(front, now);
      if NoneThrows(lines) {
        assert last in lines;
        if Parse(last).Parsed? {
          var r := Parse(last).record;
          var op := Write(r.token, r.exp, now);
          assert Replay(lines, now) == ops + [op] && (ops + [op])[..|ops|] == ops;
          RevokeIgnoresSize(h, p, RowAfter(h, Effective(p), ops), r.token, r.exp, now);
        } else {
          assert Replay(lines, now) == ops;
        }
      }
    }
  }

  lemma AcceptedIsPositive(size: nat)
    ensures AcceptsSize(size) ==> size > 0
  {
  }

  lemma RevokeIgnoresSize(h: Hash, p: Params, fs: seq<Filter>, token: string, exp: int, now: int)
    requires p.interval > 0 && |fs| == FiltersNum(p) && AllSized(fs)
    ensures Revoke(h, Effective(p), fs, token, exp, now) == Revoke(h, p, fs, token, exp, now)
    ensures IsRevoked(h, Effective(p), fs, token, exp, now) <==> IsRevoked(h, p, fs, token, exp, now)
  {
  }

  // No revocation at the instant of the query makes a token that is found missed.
  lemma RevokeKeepsAnswers(h: Hash, p: Params, fs: seq<Filter>, t: string, e: int, token: string, exp: int, now: int)
    requires p.interval > 0 && |fs| == FiltersNum(p) && AllSized(fs)
    requires IsRevoked(h, p, fs, token, exp, now)
    ensures IsRevoked(h, p, Revoke(h, p, fs, t, e, now), token, exp, now)
  {
  }

  lemma RevokedIsFound(h: Hash, p: Params, fs: seq<Filter>, token: string, exp: int, now: int)
    requires p.interval > 0 && |fs| == FiltersNum(p) && AllSized(fs)
    requires InRange(p, exp, now)
    ensures IsRevoked(h, p, Revoke(h, p, fs, token, exp, now), token, exp, now)
  {
    hide Indices, InRange, Window;
    GuardsNeverFire(h, p, fs, token, exp, now);
    var gs := Revoke(h, p, fs, token, exp, now);
    GuardsNeverFire(h, p, gs, token, exp, now);
    forall i | 0 <= i < Window(p, exp, now)
      ensures Contains(h, gs[i], token)
    {
      AddedIsContained(h, fs[i], token, token);
    }
  }

  // Right after a rebuild every unexpired in-range record of the lines is answered revoked.
  lemma {:induction false} RebuiltRecordsAreRevoked(h: Hash, p: Params, r: Recovery, lines: seq<string>,
                                                    line: string, now: int)
    requires RowOf(p, r) && Recover(h, p, r, lines, now).Recovered?
    requires line in lines && Parse(line).Parsed? && InRange(p, Parse(line).record.exp, now)
    ensures var x := Parse(line).record;
            IsRevoked(h, p, Recover(h, p, r, lines, now).filters, x.token, x.exp, now)
  {
    hide Parse, Revoke, IsRevoked, InRange;
    var front, last := lines[..|lines| - 1], lines[|lines| - 1];
    var before := Recover(h, p, r, front, now);
    var x := Parse(line).record;
    if line == last {
      RevokedIsFound(h, p, before.filters, x.token, x.exp, now);
    } else {
      assert line in front;
      RebuiltRecordsAreRevoked(h, p, r, front, line, now);
      if Parse(last).Parsed? {
        var y := Parse(last).record;
        RevokeKeepsAnswers(h, p, before.filters, y.token, y.exp, x.token, x.exp, now);
      }
    }
  }

  // The line holds an unexpired in-range record of `token` whose window passes filter `j`.
  ghost predicate RecordReaches(p: Params, line: string, token: string, j: nat, now: int)
    requires p.interval > 0
  {
    && Parse(line).Parsed?
    && Parse(line).record.token == token
    && InRange(p, Parse(line).record.exp, now)
    && j < Window(p, Parse(line).record.exp, now)
  }

  ghost predicate SomeRecordReaches(p: Params, lines: seq<string>, token: string, j: nat, now: int)
    requires p.interval > 0
  {
    exists line :: line in lines && RecordReaches(p, line, token, j, now)
  }

  // Over exact sets, right after a rebuild, the answer is exact: a token is reported revoked
  // if and only if its window is empty or some retained record of it, itself unexpired and
  // in range, reaches the last filter of that window.
  lemma AnswerAfterRebuild(p: Params, lines: seq<string>, token: string, exp: int, now: int)
    requires p.interval > 0 && InRange(p, exp, now)
    ensures IdealIsRevoked(p, IdealRow(p, Replay(lines, now)), token, exp, now) <==>
              Window(p, exp, now) == 0 || SomeRecordReaches(p, lines, token, Window(p, exp, now) - 1, now)
  {
    hide IdealRow, Window, InRange, HasLiveWrite;
    var ops, num := Replay(lines, now), Window(p, exp, now);
    WindowFits(p, exp, now);
    forall j | 0 <= j < num
      ensures token in IdealRow(p, ops)[j] <==> SomeRecordReaches(p, lines, token, j, now)
    {
      IdealClosedForm(p, ops, token, j);
      LiveInReplay(p, lines, token, j, now);
    }
  }

  lemma {:induction false} LiveInReplay(p: Params, lines: seq<string>, token: string, j: nat, now: int)
    requires p.interval > 0
    ensures HasLiveWrite(p, Replay(lines, now), token, j) <==>
            SomeRecordReaches(p, lines, token, j, now)
  {
    hide Parse, Window, InRange, Live, HasLiveWrite;
    NoWritesNoLife(p, token, j);
    if lines != [] {
      var front, last := lines[..|lines| - 1], lines[|lines| - 1];
      var ops := Replay(front, now);
      assert lines == front + [last];
      LiveInReplay(p, front, token, j, now);
      if Parse(last).Parsed? {
        var r := Parse(last).record;
        var op := Write(r.token, r.exp, now);
        assert Replay(lines, now) == ops + [op] && (ops + [op])[..|ops|] == ops;
        assert last in lines;
        LiveAfterWrite(p, ops, op, j);
        SameLiveWrites(p, ops, ops + [op], j, j, token,
                       if InRange(p, r.exp, now) && Window(p, r.exp, now) > j then {|ops|} else {});
      } else {
        assert Replay(lines, now) == ops;
      }
    }
  }

  lemma NoWritesNoLife(p: Params, token: string, j: nat)
    requires p.interval > 0
    ensures !HasLiveWrite(p, [], token, j)
  {
  }
}
