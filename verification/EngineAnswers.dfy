/** The engine over exact sets in place of Bloom filters, the answers it gives, and how the
    Bloom engine's answers relate to them. */
module EngineAnswers {
  import opened Arithmetic
  import opened BloomFilter
  import opened Decimal
  import opened EngineSpec
  import opened EngineHistory

  // The same operations on a row of sets of tokens.
  function IdealOp(p: Params, row: seq<set<string>>, op: Op): (r: seq<set<string>>)
    requires p.interval > 0 && |row| == FiltersNum(p)
    ensures |r| == |row|
  {
    match op
    case Write(token, exp, at) =>
      if !InRange(p, exp, at) then row
      else seq(|row|, j requires 0 <= j < |row| => if j < Window(p, exp, at) then row[j] + {token} else row[j])
    case Rotation(_) => if row == [] then row else row[1..] + [{}]
  }

  function IdealRow(p: Params, ops: seq<Op>): (r: seq<set<string>>)
    requires p.interval > 0
    ensures |r| == FiltersNum(p)
  {
    if ops == [] then seq(FiltersNum(p), _ => {})
    else IdealOp(p, IdealRow(p, ops[..|ops| - 1]), ops[|ops| - 1])
  }

  predicate IdealIsRevoked(p: Params, row: seq<set<string>>, token: string, exp: int, now: int)
    requires p.interval > 0 && |row| == FiltersNum(p)
  {
    && InRange(p, exp, now)
    && Window(p, exp, now) <= |row|
    && forall j :: 0 <= j < Window(p, exp, now) ==> token in row[j]
  }

  ghost predicate HasLiveWrite(p: Params, ops: seq<Op>, token: string, j: nat)
    requires p.interval > 0
  {
    exists i: nat :: i < |ops| && Live(p, ops, i, j) && ops[i].token == token
  }

  lemma {:induction false} IdealClosedForm(p: Params, ops: seq<Op>, token: string, j: nat)
    requires p.interval > 0 && j < FiltersNum(p)
    ensures token in IdealRow(p, ops)[j] <==> HasLiveWrite(p, ops, token, j)
  {
    hide Live, InRange, Window;
    if ops != [] {
      var front, op := ops[..|ops| - 1], ops[|ops| - 1];
      assert front + [op] == ops;
      match op {
        case Write(t, exp, at) =>
          IdealClosedForm(p, front, token, j);
          LiveAfterWrite(p, front, op, j);
          SameLiveWrites(p, front, ops, j, j, token, if InRange(p, exp, at) && Window(p, exp, at) > j then {|front|} else {});
        case Rotation(_) =>
          LiveAfterRotation(p, front, op, j);
          SameLiveWrites(p, front, ops, j + 1, j, token, {});
          if j + 1 < FiltersNum(p) {
            IdealClosedForm(p, front, token, j + 1);
          } else {
            NothingLiveBeyond(p, front);
            SetFormOfLive(p, front, token, j + 1);
          }
      }
    }
  }

  lemma SetFormOfLive(p: Params, ops: seq<Op>, token: string, j: nat)
    requires p.interval > 0
    ensures HasLiveWrite(p, ops, token, j) <==>
            exists i :: i in LiveSet(p, ops, j) && i < |ops| && ops[i].Write? && ops[i].token == token
  {
  }

  lemma SameLiveWrites(p: Params, front: seq<Op>, ops: seq<Op>, k: nat, j: nat, token: string, more: set<nat>)
    requires p.interval > 0 && |ops| == |front| + 1 && ops[..|front|] == front
    requires LiveSet(p, ops, j) == LiveSet(p, front, k) + more && more <= {|front|}
    ensures HasLiveWrite(p, ops, token, j) <==>
            HasLiveWrite(p, front, token, k)
            || (|front| in more && ops[|front|].Write? && ops[|front|].token == token)
  {
    hide Live;
    SetFormOfLive(p, front, token, k);
    SetFormOfLive(p, ops, token, j);
    assert forall i :: 0 <= i < |front| ==> ops[i] == front[i];
  }

  // One-sided refinement over whole histories: whatever the exact engine calls revoked,
  // the Bloom engine calls revoked, whatever the hash.
  lemma BloomRefinesIdeal(h: Hash, p: Params, ops: seq<Op>, token: string, exp: int, now: int)
    requires Usable(p)
    requires IdealIsRevoked(p, IdealRow(p, ops), token, exp, now)
    ensures IsRevoked(h, p, RowAfter(h, p, ops), token, exp, now)
  {
    var row := RowAfter(h, p, ops);
    GuardsNeverFire(h, p, row, token, exp, now);
    forall j | 0 <= j < Window(p, exp, now)
      ensures Contains(h, row[j], token)
    {
      IdealClosedForm(p, ops, token, j);
      LiveWriteIsContained(h, p, ops, token, j);
    }
  }

  lemma LiveWriteIsContained(h: Hash, p: Params, ops: seq<Op>, token: string, j: nat)
    requires Usable(p) && j < FiltersNum(p) && HasLiveWrite(p, ops, token, j)
    ensures Contains(h, RowAfter(h, p, ops)[j], token)
  {
    hide RowAfter, Indices;
    ClosedForm(h, p, ops, j);
    var i: nat :| i < |ops| && Live(p, ops, i, j) && ops[i].token == token;
    assert i in LiveSet(p, ops, j);
  }

  // Some hash of the token of some live write of filter `j` falls on bit `b`.
  ghost predicate IsSetByLiveWrite(h: Hash, p: Params, ops: seq<Op>, j: nat, b: nat)
    requires p.interval > 0 && p.size > 0
  {
    exists i: nat, l: nat :: i < |ops| && Live(p, ops, i, j) && l < p.hashNum
                             && h(ops[i].token + "_" + ToString(l)) % p.size == b
  }

  lemma BitsAreSetByLiveWrites(h: Hash, p: Params, ops: seq<Op>, j: nat, b: nat)
    requires Usable(p) && j < FiltersNum(p)
    ensures b in RowAfter(h, p, ops)[j].bits <==> IsSetByLiveWrite(h, p, ops, j, b)
  {
    hide RowAfter, Indices, ToString;
    ClosedForm(h, p, ops, j);
    var live := LiveSet(p, ops, j);
    if IsSetByLiveWrite(h, p, ops, j, b) {
      var i: nat, l: nat :| i < |ops| && Live(p, ops, i, j) && l < p.hashNum
                            && h(ops[i].token + "_" + ToString(l)) % p.size == b;
      IndicesAreHashes(h, p.size, p.hashNum, ops[i].token, b);
      assert i in live;
    }
    if b in RowAfter(h, p, ops)[j].bits {
      var i :| i in live && b in Indices(h, p.size, p.hashNum, ops[i].token);
      IndicesAreHashes(h, p.size, p.hashNum, ops[i].token, b);
    }
  }

  // Every hash of the token falls on a bit that some live write of filter `j` has set.
  ghost predicate IsCovered(h: Hash, p: Params, ops: seq<Op>, token: string, j: nat)
    requires p.interval > 0 && p.size > 0
  {
    forall i :: 0 <= i < p.hashNum ==> IsSetByLiveWrite(h, p, ops, j, h(token + "_" + ToString(i)) % p.size)
  }

  // That holds of each of the first `num` filters.
  ghost predicate AllBitsWereSet(h: Hash, p: Params, ops: seq<Op>, token: string, num: nat)
    requires p.interval > 0
  {
    num > 0 ==>
      && p.size > 0
      && forall j :: 0 <= j < num ==> IsCovered(h, p, ops, token, j)
  }

  // And exactly when it errs: the Bloom engine calls a token revoked if and only if it is in
  // range and, in each filter of its window, every bit of it was set by some live write.
  lemma BloomAnswer(h: Hash, p: Params, ops: seq<Op>, token: string, exp: int, now: int)
    requires Usable(p)
    ensures IsRevoked(h, p, RowAfter(h, p, ops), token, exp, now) <==>
              InRange(p, exp, now) && AllBitsWereSet(h, p, ops, token, Window(p, exp, now))
  {
    hide RowAfter, Contains, IsCovered, IsRevoked, InRange, Window;
    var row := RowAfter(h, p, ops);
    GuardsNeverFire(h, p, row, token, exp, now);
    if InRange(p, exp, now) && Window(p, exp, now) > 0 {
      WindowFits(p, exp, now);
      forall j | 0 <= j < Window(p, exp, now)
        ensures Contains(h, row[j], token) <==> IsCovered(h, p, ops, token, j)
      {
        FilterAnswer(h, p, ops, token, j);
      }
    }
  }

  lemma FilterAnswer(h: Hash, p: Params, ops: seq<Op>, token: string, j: nat)
    requires Usable(p) && j < FiltersNum(p)
    ensures Contains(h, RowAfter(h, p, ops)[j], token) <==> IsCovered(h, p, ops, token, j)
  {
    hide RowAfter, Contains, IsSetByLiveWrite, ToString;
    ClosedForm(h, p, ops, j);
    ContainsByHashes(h, RowAfter(h, p, ops)[j], token);
    forall i | 0 <= i < p.hashNum
      ensures h(token + "_" + ToString(i)) % p.size in RowAfter(h, p, ops)[j].bits <==>
              IsSetByLiveWrite(h, p, ops, j, h(token + "_" + ToString(i)) % p.size)
    {
      BitsAreSetByLiveWrites(h, p, ops, j, h(token + "_" + ToString(i)) % p.size);
    }
  }

  // A token revoked once, at t0, is found in filter j exactly while its window then is
  // longer than j and the rotations since.
  lemma SingleWriteIsLive(p: Params, pre: seq<Op>, w: Op, post: seq<Op>, j: nat)
    requires p.interval > 0 && w.Write? && InRange(p, w.exp, w.at)
    requires forall op :: op in pre + post && op.Write? ==> op.token != w.token
    ensures HasLiveWrite(p, pre + [w] + post, w.token, j) <==> Window(p, w.exp, w.at) > j + Rotations(post)
  {
    hide Window, InRange;
    var ops := pre + [w] + post;
    assert ops[|pre|] == w && ops[|pre| + 1..] == post;
    forall i: nat | i < |ops| && i != |pre| && ops[i].Write?
      ensures ops[i].token != w.token
    {
      var op := if i < |pre| then pre[i] else post[i - |pre| - 1];
      assert op in pre + post && op == ops[i];
    }
    if Window(p, w.exp, w.at) > j + Rotations(post) {
      assert Live(p, ops, |pre|, j);
    }
  }

  // The exact answer over exact sets, for any history: a token is reported revoked if and
  // only if it is in range and its window is empty or some live write of it is in the last
  // filter of the window.
  lemma AnswerOverExactSets(p: Params, ops: seq<Op>, token: string, exp: int, now: int)
    requires p.interval > 0
    ensures IdealIsRevoked(p, IdealRow(p, ops), token, exp, now) <==>
              && InRange(p, exp, now)
              && (Window(p, exp, now) == 0 || HasLiveWrite(p, ops, token, Window(p, exp, now) - 1))
  {
    hide IdealRow, Window, HasLiveWrite;
    if InRange(p, exp, now) {
      WindowFits(p, exp, now);
      forall j | 0 <= j < Window(p, exp, now)
        ensures token in IdealRow(p, ops)[j] <==> HasLiveWrite(p, ops, token, j)
        ensures HasLiveWrite(p, ops, token, Window(p, exp, now) - 1) ==> HasLiveWrite(p, ops, token, j)
      {
        IdealClosedForm(p, ops, token, j);
        LiveWriteIsNested(p, ops, token, j, Window(p, exp, now) - 1);
      }
    }
  }

  lemma LiveWriteIsNested(p: Params, ops: seq<Op>, token: string, i: nat, j: nat)
    requires p.interval > 0 && i <= j
    ensures HasLiveWrite(p, ops, token, j) ==> HasLiveWrite(p, ops, token, i)
  {
    if HasLiveWrite(p, ops, token, j) {
      var k: nat :| k < |ops| && Live(p, ops, k, j) && ops[k].token == token;
      assert Live(p, ops, k, i);
    }
  }

  // Over exact sets, a token revoked once with window n(t0) and asked for at t with window
  // n(t), k rotations later, is reported revoked if and only if n(t) = 0 or
  // n(t) + k <= n(t0).
  lemma ExactAnswer(p: Params, pre: seq<Op>, w: Op, post: seq<Op>, now: int)
    requires p.interval > 0 && w.Write? && InRange(p, w.exp, w.at)
    requires forall op :: op in pre + post && op.Write? ==> op.token != w.token
    requires w.at <= now < w.exp
    ensures var n := Window(p, w.exp, now);
            IdealIsRevoked(p, IdealRow(p, pre + [w] + post), w.token, w.exp, now) <==>
              n == 0 || n + Rotations(post) <= Window(p, w.exp, w.at)
  {
    hide IdealRow, Window, HasLiveWrite;
    AnswerOverExactSets(p, pre + [w] + post, w.token, w.exp, now);
    if Window(p, w.exp, now) > 0 {
      SingleWriteIsLive(p, pre, w, post, Window(p, w.exp, now) - 1);
    }
  }

  // Hence a false negative is possible, and the Bloom filters do not hide it whatever the
  // hash: a rotation can come between the revocation and the query without the window
  // having shrunk.
  lemma RevokedTokenCanBeMissed(h: Hash)
    ensures var p, w := Params(30, 10, 8, 1), Write("t", 34, 9);
            && Usable(p) && InRange(p, 34, 9) && InRange(p, 34, 10)
            && IsRevoked(h, p, RowAfter(h, p, [w]), "t", 34, 9)
            && !IsRevoked(h, p, RowAfter(h, p, [w, Rotation(10)]), "t", 34, 10)
  {
    hide RowAfter, Indices;
    var p, w := Params(30, 10, 8, 1), Write("t", 34, 9);
    var ops := [w, Rotation(10)];
    assert [] + [w] + [] == [w];
    ExactAnswer(p, [], w, [], 9);
    BloomRefinesIdeal(h, p, [w], "t", 34, 9);
    assert ops[1..] == [Rotation(10)];
    assert !Live(p, ops, 0, 1) && !Live(p, ops, 1, 1);
    assert !IsSetByLiveWrite(h, p, ops, 1, h("t" + "_" + ToString(0)) % p.size);
    assert !IsCovered(h, p, ops, "t", 1);
    BloomAnswer(h, p, ops, "t", 34, 10);
  }

  lemma SomeIndex(h: Hash, size: nat, hashNum: nat, key: string)
    requires size > 0 && hashNum > 0
    ensures Indices(h, size, hashNum, key) != {}
  {
    assert h(DerivedKey(key, 0)) % size in Indices(h, size, hashNum, key);
  }

  // Rotations are at least an interval apart, and nothing happens before it is time.
  ghost predicate Timed(ops: seq<Op>, interval: nat, now: int)
  {
    ops == [] ||
    var front, op := ops[..|ops| - 1], ops[|ops| - 1];
    && op.at <= now
    && Timed(front, interval, op.at)
    && (op.Rotation? ==> forall i :: 0 <= i < |front| && front[i].Rotation? ==> front[i].at + interval <= op.at)
  }

  // k rotations since t0 take at least k - 1 intervals.
  lemma {:induction false} RotationsTakeTime(ops: seq<Op>, interval: nat, t0: int, now: int) returns (last: nat)
    requires Timed(ops, interval, now) && Rotations(ops) > 0
    requires forall i :: 0 <= i < |ops| ==> t0 <= ops[i].at
    ensures last < |ops| && ops[last].Rotation?
    ensures t0 + interval * (Rotations(ops) - 1) <= ops[last].at <= now
  {
    var front, op := ops[..|ops| - 1], ops[|ops| - 1];
    if op.Write? {
      last := RotationsTakeTime(front, interval, t0, op.at);
    } else {
      last := |front|;
      if Rotations(front) > 0 {
        var before := RotationsTakeTime(front, interval, t0, op.at);
        assert interval * Rotations(front) == interval * (Rotations(front) - 1) + interval;
      }
    }
  }

  // The one-filter bound: however late rotations run, between a revocation at t0 and a
  // query at t, n(t) + k <= n(t0) + 1.
  lemma OneFilterBound(p: Params, post: seq<Op>, exp: int, t0: int, now: int)
    requires p.interval > 0 && t0 <= now < exp
    requires Timed(post, p.interval, now) && forall i :: 0 <= i < |post| ==> t0 <= post[i].at
    ensures Window(p, exp, now) + Rotations(post) <= Window(p, exp, t0) + 1
  {
    var k := Rotations(post);
    if k == 0 {
      QuotientMonotone(exp - now, exp - t0, p.interval);
    } else {
      var last := RotationsTakeTime(post, p.interval, t0, now);
      QuotientOfSum(exp - now, k - 1, p.interval);
      QuotientMonotone(exp - now + p.interval * (k - 1), exp - t0, p.interval);
    }
  }

  // So a revoked, unexpired token is in every filter a query scans but possibly the last.
  lemma AllButTheLastFilter(h: Hash, p: Params, pre: seq<Op>, w: Op, post: seq<Op>, now: int, j: nat)
    requires Usable(p) && w.Write? && InRange(p, w.exp, w.at)
    requires w.at <= now < w.exp
    requires Timed(post, p.interval, now) && forall i :: 0 <= i < |post| ==> w.at <= post[i].at
    requires j + 1 < Window(p, w.exp, now)
    ensures j < FiltersNum(p)
    ensures w.token in IdealRow(p, pre + [w] + post)[j]
    ensures Contains(h, RowAfter(h, p, pre + [w] + post)[j], w.token)
  {
    hide IdealRow, RowAfter;
    var ops := pre + [w] + post;
    OneFilterBound(p, post, w.exp, w.at, now);
    WindowFits(p, w.exp, now);
    assert ops[|pre|] == w && ops[|pre| + 1..] == post;
    assert Live(p, ops, |pre|, j);
    IdealClosedForm(p, ops, w.token, j);
    LiveWriteIsContained(h, p, ops, w.token, j);
  }

  // Revocations never clear a bit and never lower a count; only rotations do.
  lemma {:induction false} BitsOnlyGrowBetweenRotations(h: Hash, p: Params, fs: seq<Filter>, ops: seq<Op>, j: nat)
    requires IsRow(p, fs) && j < |fs| && Rotations(ops) == 0
    ensures fs[j].bits <= ApplyOps(h, p, fs, ops)[j].bits
    ensures fs[j].msgNum <= ApplyOps(h, p, fs, ops)[j].msgNum
  {
    if ops != [] {
      BitsOnlyGrowBetweenRotations(h, p, fs, ops[..|ops| - 1], j);
    }
  }
}
