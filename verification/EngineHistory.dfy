/** What the row of filters is after any sequence of revocations and rotations since the
    last rebuild, and what that makes a query answer. */
module EngineHistory {
  import opened BloomFilter
  import opened EngineSpec
  import opened FiniteSets

  // What happened to the row, and when.
  datatype Op =
    | Write(token: string, exp: int, at: int)
    | Rotation(at: int)

  // The filters have the size that the 32-bit parameter of getNewFilters leaves.
  function Effective(p: Params): Params
  {
    p.(size := p.size % 0x1_0000_0000)
  }

  ghost predicate Usable(p: Params)
  {
    p.interval > 0 && (FiltersNum(p) > 0 ==> p.size > 0)
  }

  ghost predicate IsRow(p: Params, fs: seq<Filter>)
  {
    Usable(p) && |fs| == FiltersNum(p) && AllSized(fs)
  }

  function ApplyOp(h: Hash, p: Params, fs: seq<Filter>, op: Op): (r: seq<Filter>)
    requires IsRow(p, fs)
    ensures IsRow(p, r)
  {
    match op
    case Write(token, exp, at) => Revoke(h, p, fs, token, exp, at)
    case Rotation(_) => if fs == [] then fs else Rotate(p, fs)
  }

  function ApplyOps(h: Hash, p: Params, fs: seq<Filter>, ops: seq<Op>): (r: seq<Filter>)
    requires IsRow(p, fs)
    ensures IsRow(p, r)
  {
    if ops == [] then fs
    else ApplyOp(h, p, ApplyOps(h, p, fs, ops[..|ops| - 1]), ops[|ops| - 1])
  }

  // The row after `ops` on fresh filters.
  function RowAfter(h: Hash, p: Params, ops: seq<Op>): (r: seq<Filter>)
    requires Usable(p)
    ensures IsRow(p, r)
  {
    ApplyOps(h, p, EmptyRow(FiltersNum(p), p.size, p.hashNum), ops)
  }

  function Rotations(ops: seq<Op>): nat
  {
    if ops == [] then 0
    else Rotations(ops[..|ops| - 1]) + (if ops[|ops| - 1].Rotation? then 1 else 0)
  }

  // The write at `i` reached filter `j` and has not been rotated out of it.
  ghost predicate Live(p: Params, ops: seq<Op>, i: nat, j: nat)
    requires p.interval > 0 && i < |ops|
  {
    && ops[i].Write?
    && InRange(p, ops[i].exp, ops[i].at)
    && Window(p, ops[i].exp, ops[i].at) > j + Rotations(ops[i + 1..])
  }

  ghost function LiveSet(p: Params, ops: seq<Op>, j: nat): set<nat>
    requires p.interval > 0
  {
    set i: nat | i < |ops| && Live(p, ops, i, j)
  }

  ghost function BitsOf(h: Hash, p: Params, ops: seq<Op>, live: set<nat>): set<nat>
    requires p.size > 0 && forall i :: i in live ==> i < |ops| && ops[i].Write?
  {
    set i, b | i in live && b in Indices(h, p.size, p.hashNum, ops[i].token) :: b
  }

  // Filter `j` holds exactly the live writes: their bits, and their number.
  ghost predicate Holds(h: Hash, p: Params, f: Filter, ops: seq<Op>, j: nat)
    requires p.interval > 0 && p.size > 0
  {
    f == Filter(p.size, p.hashNum, BitsOf(h, p, ops, LiveSet(p, ops, j)), |LiveSet(p, ops, j)|)
  }

  lemma LiveAfterWrite(p: Params, ops: seq<Op>, op: Op, j: nat)
    requires p.interval > 0 && op.Write?
    ensures LiveSet(p, ops + [op], j) ==
            LiveSet(p, ops, j) + (if InRange(p, op.exp, op.at) && Window(p, op.exp, op.at) > j then {|ops|} else {})
  {
    forall i: nat | i < |ops|
      ensures Live(p, ops + [op], i, j) <==> Live(p, ops, i, j)
    {
      RotationsAppend(ops, i, op);
    }
    assert (ops + [op])[|ops| + 1..] == [];
  }

  lemma RotationsAppend(ops: seq<Op>, i: nat, op: Op)
    requires i < |ops|
    ensures Rotations((ops + [op])[i + 1..]) == Rotations(ops[i + 1..]) + (if op.Rotation? then 1 else 0)
  {
    var tail := (ops + [op])[i + 1..];
    assert tail == ops[i + 1..] + [op];
    assert tail[..|tail| - 1] == ops[i + 1..];
  }

  lemma LiveAfterRotation(p: Params, ops: seq<Op>, op: Op, j: nat)
    requires p.interval > 0 && op.Rotation?
    ensures LiveSet(p, ops + [op], j) == LiveSet(p, ops, j + 1)
  {
    forall i: nat | i < |ops|
      ensures Live(p, ops + [op], i, j) <==> Live(p, ops, i, j + 1)
    {
      RotationsAppend(ops, i, op);
    }
  }

  // Nothing lives past the end of the row.
  lemma NothingLiveBeyond(p: Params, ops: seq<Op>)
    requires p.interval > 0
    ensures LiveSet(p, ops, FiltersNum(p)) == {}
  {
    forall i: nat | i < |ops| && ops[i].Write? && InRange(p, ops[i].exp, ops[i].at)
      ensures !Live(p, ops, i, FiltersNum(p))
    {
      WindowFits(p, ops[i].exp, ops[i].at);
    }
  }

  lemma BitsAfterWrite(h: Hash, p: Params, ops: seq<Op>, op: Op, live: set<nat>)
    requires p.size > 0 && op.Write? && forall i :: i in live ==> i < |ops| && ops[i].Write?
    ensures BitsOf(h, p, ops + [op], live) == BitsOf(h, p, ops, live)
    ensures BitsOf(h, p, ops + [op], live + {|ops|}) ==
            BitsOf(h, p, ops, live) + Indices(h, p.size, p.hashNum, op.token)
  {
    hide Indices;
    var all := ops + [op];
    assert forall i :: i in live ==> all[i] == ops[i];
    assert all[|ops|] == op;
  }

  lemma HoldsAfterWrite(h: Hash, p: Params, f: Filter, ops: seq<Op>, op: Op, j: nat)
    requires p.interval > 0 && p.size > 0 && op.Write?
    requires Holds(h, p, f, ops, j)
    ensures Holds(h, p, if InRange(p, op.exp, op.at) && Window(p, op.exp, op.at) > j then Add(h, f, op.token) else f,
                  ops + [op], j)
  {
    hide Live, Indices;
    LiveAfterWrite(p, ops, op, j);
    LiveAreWrites(p, ops, j);
    BitsAfterWrite(h, p, ops, op, LiveSet(p, ops, j));
    assert |ops| !in LiveSet(p, ops, j);
  }

  lemma LiveAreWrites(p: Params, ops: seq<Op>, j: nat)
    requires p.interval > 0
    ensures forall i :: i in LiveSet(p, ops, j) ==> i < |ops| && ops[i].Write?
  {
  }

  // The closed form of the row, for every history.
  lemma {:induction false} ClosedForm(h: Hash, p: Params, ops: seq<Op>, j: nat)
    requires Usable(p) && j < FiltersNum(p)
    ensures Holds(h, p, RowAfter(h, p, ops)[j], ops, j)
  {
    hide Holds, InRange, Window, Revoke;
    if ops == [] {
      NoHistory(h, p, j);
    } else {
      var front, op := ops[..|ops| - 1], ops[|ops| - 1];
      var row := RowAfter(h, p, front);
      assert front + [op] == ops;
      match op {
        case Write(token, exp, at) =>
          ClosedForm(h, p, front, j);
          HoldsAfterWrite(h, p, row[j], front, op, j);
          GuardsNeverFire(h, p, row, token, exp, at);
        case Rotation(_) =>
          if j + 1 < FiltersNum(p) {
            ClosedForm(h, p, front, j + 1);
            assert RowAfter(h, p, ops)[j] == row[j + 1];
          } else {
            NothingLiveBeyond(p, front);
          }
          HoldsAfterRotation(h, p, RowAfter(h, p, ops)[j], front, op, j);
      }
    }
  }

  lemma NoHistory(h: Hash, p: Params, j: nat)
    requires p.interval > 0 && p.size > 0
    ensures Holds(h, p, Empty(p.size, p.hashNum), [], j)
  {
  }

  lemma HoldsAfterRotation(h: Hash, p: Params, f: Filter, ops: seq<Op>, op: Op, j: nat)
    requires p.interval > 0 && p.size > 0 && op.Rotation?
    requires Holds(h, p, f, ops, j + 1) || (f == Empty(p.size, p.hashNum) && LiveSet(p, ops, j + 1) == {})
    ensures Holds(h, p, f, ops + [op], j)
  {
    hide Live, Indices;
    LiveAfterRotation(p, ops, op, j);
    var live := LiveSet(p, ops, j + 1);
    LiveAreWrites(p, ops, j + 1);
    assert forall i :: i in live ==> (ops + [op])[i] == ops[i];
    assert BitsOf(h, p, ops + [op], live) == BitsOf(h, p, ops, live);
  }

  // No filter is fuller than the writes it counts can have made it.
  lemma {:induction false} RowIsFilled(h: Hash, p: Params, ops: seq<Op>, j: nat)
    requires Usable(p) && j < FiltersNum(p)
    ensures IsFilled(RowAfter(h, p, ops)[j])
  {
    hide InRange, Window, Revoke, Add, IsFilled;
    if ops == [] {
      EmptyIsFilled(p.size, p.hashNum);
    } else {
      var front, op := ops[..|ops| - 1], ops[|ops| - 1];
      var row := RowAfter(h, p, front);
      match op {
        case Write(token, exp, at) =>
          RowIsFilled(h, p, front, j);
          AddKeepsFill(h, row[j], token);
          GuardsNeverFire(h, p, row, token, exp, at);
        case Rotation(_) =>
          EmptyIsFilled(p.size, p.hashNum);
          if j + 1 < FiltersNum(p) {
            RowIsFilled(h, p, front, j + 1);
          }
      }
    }
  }

  lemma EmptyIsFilled(size: nat, hashNum: nat)
    ensures IsFilled(Empty(size, hashNum))
  {
  }

  // Consequences of the closed form.

  // What is live in a filter is live in every filter before it.
  lemma LiveIsNested(p: Params, ops: seq<Op>, i: nat, j: nat)
    requires p.interval > 0 && i <= j
    ensures LiveSet(p, ops, j) <= LiveSet(p, ops, i)
  {
  }

  // In every reachable row the bits of each filter include those of the next, and the fill
  // counts do not increase along the row.
  lemma NestedChain(h: Hash, p: Params, ops: seq<Op>, i: nat, j: nat)
    requires Usable(p) && i <= j < FiltersNum(p)
    ensures var row := RowAfter(h, p, ops);
            row[j].bits <= row[i].bits && row[j].msgNum <= row[i].msgNum
            && row[i].size == row[j].size && row[i].hashNum == row[j].hashNum
  {
    hide Live, Indices, RowAfter;
    ClosedForm(h, p, ops, i);
    ClosedForm(h, p, ops, j);
    LiveIsNested(p, ops, i, j);
    SubsetSize(LiveSet(p, ops, j), LiveSet(p, ops, i));
  }

  // So the scanning loop of isRevoked is one lookup, in the last filter it visits.
  lemma ScanIsOneLookup(h: Hash, p: Params, ops: seq<Op>, token: string, exp: int, now: int)
    requires Usable(p)
    ensures var row := RowAfter(h, p, ops);
            var num := Window(p, exp, now);
            IsRevoked(h, p, row, token, exp, now) <==>
              && InRange(p, exp, now)
              && (num == 0 || (num <= |row| && Contains(h, row[num - 1], token)))
  {
    hide RowAfter, Indices;
    var row := RowAfter(h, p, ops);
    var num := Window(p, exp, now);
    GuardsNeverFire(h, p, row, token, exp, now);
    if InRange(p, exp, now) && num > 0 && Contains(h, row[num - 1], token) {
      forall i | 0 <= i < num
        ensures Contains(h, row[i], token)
      {
        NestedChain(h, p, ops, i, num - 1);
      }
    }
  }

  // Nothing older than a full turn of the row leaves a trace: two rows that started from
  // any contents at all are equal once the same operations include enough rotations.
  lemma {:induction false} Forgetting(h: Hash, p: Params, fs: seq<Filter>, gs: seq<Filter>, ops: seq<Op>, j: nat)
    requires IsRow(p, fs) && IsRow(p, gs)
    requires j < FiltersNum(p) && FiltersNum(p) <= j + Rotations(ops)
    ensures ApplyOps(h, p, fs, ops)[j] == ApplyOps(h, p, gs, ops)[j]
  {
    hide Add, InRange, Window;
    var front, op := ops[..|ops| - 1], ops[|ops| - 1];
    match op {
      case Write(token, exp, at) =>
        Forgetting(h, p, fs, gs, front, j);
        GuardsNeverFire(h, p, ApplyOps(h, p, fs, front), token, exp, at);
        GuardsNeverFire(h, p, ApplyOps(h, p, gs, front), token, exp, at);
      case Rotation(_) =>
        if j + 1 < FiltersNum(p) {
          Forgetting(h, p, fs, gs, front, j + 1);
        }
    }
  }

  lemma FullTurnForgets(h: Hash, p: Params, fs: seq<Filter>, gs: seq<Filter>, ops: seq<Op>)
    requires IsRow(p, fs) && IsRow(p, gs) && Rotations(ops) >= FiltersNum(p)
    ensures ApplyOps(h, p, fs, ops) == ApplyOps(h, p, gs, ops)
  {
    forall j | 0 <= j < FiltersNum(p)
      ensures ApplyOps(h, p, fs, ops)[j] == ApplyOps(h, p, gs, ops)[j]
    {
      Forgetting(h, p, fs, gs, ops, j);
    }
  }
}
