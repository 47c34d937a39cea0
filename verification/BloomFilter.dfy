/** A single Bloom filter: a bit vector, its update in place, and what it answers.
    The hash is a parameter: any function of the derived key. */
module BloomFilter {
  import opened Decimal
  import opened FiniteSets

  type Hash = string -> nat

  // The constructor's test on its size argument, `size & (size - 1)`.

  function BitAnd(m: nat, n: nat): nat
  {
    if m == 0 || n == 0 then 0
    else 2 * BitAnd(m / 2, n / 2) + (if m % 2 == 1 && n % 2 == 1 then 1 else 0)
  }

  predicate AcceptsSize(size: nat)
  {
    size != 0 && BitAnd(size, size - 1) == 0
  }

  function PowerOf2(e: nat): (p: nat)
    ensures p > 0
  {
    if e == 0 then 1 else 2 * PowerOf2(e - 1)
  }

  lemma {:induction false} BitAndSelf(n: nat)
    ensures BitAnd(n, n) == n
  {
    if n > 0 {
      BitAndSelf(n / 2);
    }
  }

  lemma {:induction false} AcceptedSizeHasExponent(size: nat) returns (e: nat)
    requires AcceptsSize(size)
    ensures size == PowerOf2(e)
  {
    if size == 1 {
      e := 0;
    } else if size % 2 == 1 {
      assert (size - 1) / 2 == size / 2;
      BitAndSelf(size / 2);
      assert false;
    } else {
      assert (size - 1) / 2 == size / 2 - 1;
      e := AcceptedSizeHasExponent(size / 2);
      e := e + 1;
    }
  }

  lemma {:induction false} PowersAreAccepted(e: nat)
    ensures AcceptsSize(PowerOf2(e))
  {
    if e > 0 {
      PowersAreAccepted(e - 1);
      assert (PowerOf2(e) - 1) / 2 == PowerOf2(e - 1) - 1;
    }
  }

  // The bit trick accepts the powers of two and nothing else.
  lemma AcceptsExactlyThePowersOfTwo(size: nat)
    ensures AcceptsSize(size) <==> exists e: nat :: size == PowerOf2(e)
  {
    if AcceptsSize(size) {
      var e := AcceptedSizeHasExponent(size);
    }
    forall e: nat | size == PowerOf2(e)
      ensures AcceptsSize(size)
    {
      PowersAreAccepted(e);
    }
  }

  lemma {:induction false} PowersGrow(d: nat, e: nat)
    requires d <= e
    ensures PowerOf2(d) <= PowerOf2(e)
  {
    if d < e {
      PowersGrow(d, e - 1);
    }
  }

  lemma SomePowers()
    ensures PowerOf2(31) == 0x8000_0000 && PowerOf2(32) == 0x1_0000_0000
  {
    assert PowerOf2(8) == 0x100;
    assert PowerOf2(16) == 0x1_0000;
    assert PowerOf2(24) == 0x100_0000;
    assert PowerOf2(31) == 0x8000_0000;
  }

  lemma {:induction false} PowersFrom32(e: nat)
    requires e >= 32
    ensures PowerOf2(e) % 0x1_0000_0000 == 0
  {
    if e == 32 {
      SomePowers();
    } else {
      PowersFrom32(e - 1);
    }
  }

  // A size that is accepted both whole and cut to 32 bits fits in 32 bits.
  lemma AcceptedWholeAndCut(size: nat)
    requires AcceptsSize(size) && AcceptsSize(size % 0x1_0000_0000)
    ensures size < 0x1_0000_0000
  {
    var e := AcceptedSizeHasExponent(size);
    if e >= 32 {
      PowersFrom32(e);
      assert false;
    } else {
      PowersGrow(e, 31);
      SomePowers();
    }
  }

  function DerivedKey(key: string, i: nat): string
  {
    key + "_" + ToString(i)
  }

  // The abstract value of a filter.
  datatype Filter = Filter(size: nat, hashNum: nat, bits: set<nat>, msgNum: nat)

  function Empty(size: nat, hashNum: nat): Filter
  {
    Filter(size, hashNum, {}, 0)
  }

  function Indices(h: Hash, size: nat, hashNum: nat, key: string): set<nat>
    requires size > 0
  {
    set i | 0 <= i < hashNum :: h(DerivedKey(key, i)) % size
  }

  // Some hash of the key falls on bit `b`.
  ghost predicate HashesTo(h: Hash, size: nat, hashNum: nat, key: string, b: nat)
    requires size > 0
  {
    exists i :: 0 <= i < hashNum && h(key + "_" + ToString(i)) % size == b
  }

  lemma IndicesAreHashes(h: Hash, size: nat, hashNum: nat, key: string, b: nat)
    requires size > 0
    ensures b in Indices(h, size, hashNum, key) <==> HashesTo(h, size, hashNum, key, b)
  {
    if b in Indices(h, size, hashNum, key) {
      var i :| 0 <= i < hashNum && h(DerivedKey(key, i)) % size == b;
      assert DerivedKey(key, i) == key + "_" + ToString(i);
    }
    if i :| 0 <= i < hashNum && h(key + "_" + ToString(i)) % size == b {
      assert DerivedKey(key, i) == key + "_" + ToString(i);
    }
  }

  function Add(h: Hash, f: Filter, key: string): Filter
    requires f.size > 0
  {
    f.(bits := f.bits + Indices(h, f.size, f.hashNum, key), msgNum := f.msgNum + 1)
  }

  predicate Contains(h: Hash, f: Filter, key: string)
    requires f.size > 0
  {
    Indices(h, f.size, f.hashNum, key) <= f.bits
  }

  function Places(indices: seq<nat>, size: nat): set<nat>
    requires size > 0
  {
    set i | 0 <= i < |indices| :: indices[i] % size
  }

  lemma PlacesOfOneMore(indices: seq<nat>, n: nat, size: nat)
    requires size > 0 && n < |indices|
    ensures Places(indices[..n + 1], size) == Places(indices[..n], size) + {indices[n] % size}
  {
  }

  function SetBits(v: seq<bool>): set<nat>
  {
    set i | 0 <= i < |v| && v[i]
  }

  lemma SetBitsAfterUpdate(v: seq<bool>, i: nat)
    requires i < |v|
    ensures SetBits(v[i := true]) == SetBits(v) + {i}
  {
  }

  class BaseBloomFilter {
    var bloomFilter: seq<bool>
    var bloomFilterSize: nat
    var hashFunctionNum: nat
    var msgNum: nat

    ghost predicate Valid()
      reads this
    {
      && AcceptsSize(bloomFilterSize)
      && hashFunctionNum > 0
      && |bloomFilter| == bloomFilterSize
    }

    function View(): Filter
      reads this
    {
      Filter(bloomFilterSize, hashFunctionNum, SetBits(bloomFilter), msgNum)
    }

    // The source throws when these requirements fail.
    constructor (size: nat, hashNum: nat)
      requires AcceptsSize(size) && hashNum > 0
      ensures Valid() && View() == Empty(size, hashNum)
    {
      bloomFilterSize := size;
      bloomFilter := seq(size, _ => false);
      hashFunctionNum := hashNum;
      msgNum := 0;
    }

    method CalcHashIndices(h: Hash, key: string) returns (indices: seq<nat>)
      ensures |indices| == hashFunctionNum
      ensures forall i :: 0 <= i < |indices| ==> indices[i] == h(key + "_" + ToString(i))
    {
      hide ToString;
      indices := seq(hashFunctionNum, _ => 0);
      for i := 0 to hashFunctionNum
        invariant |indices| == hashFunctionNum
        invariant forall j :: 0 <= j < i ==> indices[j] == h(key + "_" + ToString(j))
      {
        var hashResult := h(key + "_" + ToString(i));
        indices := indices[i := hashResult];
      }
    }

    method Insert(h: Hash, key: string)
      requires Valid()
      modifies this
      ensures Valid()
      ensures View() == Add(h, old(View()), key)
      // In terms of the bits: those that the hashes of the key fall on are set, others stay.
      ensures bloomFilterSize == old(bloomFilterSize) && hashFunctionNum == old(hashFunctionNum)
      ensures msgNum == old(msgNum) + 1
      ensures forall b :: 0 <= b < |bloomFilter| ==>
                (bloomFilter[b] <==> old(bloomFilter)[b] || HashesTo(h, bloomFilterSize, hashFunctionNum, key, b))
    {
      var indices := CalcHashIndices(h, key);
      ghost var before := SetBits(bloomFilter);
      for n := 0 to |indices|
        invariant Valid() && hashFunctionNum == old(hashFunctionNum)
        invariant bloomFilterSize == old(bloomFilterSize) && msgNum == old(msgNum)
        invariant SetBits(bloomFilter) == before + Places(indices[..n], bloomFilterSize)
      {
        hide SetBits, AcceptsSize;
        var place := indices[n] % bloomFilterSize;
        SetBitsAfterUpdate(bloomFilter, place);
        bloomFilter := bloomFilter[place := true];
        PlacesOfOneMore(indices, n, bloomFilterSize);
      }
      assert indices[..|indices|] == indices;
      assert forall i :: 0 <= i < |indices| ==> indices[i] == h(DerivedKey(key, i));
      assert Places(indices, bloomFilterSize) == Indices(h, bloomFilterSize, hashFunctionNum, key);
      msgNum := msgNum + 1;
      forall b | 0 <= b < |bloomFilter|
        ensures bloomFilter[b] <==> old(bloomFilter)[b] || HashesTo(h, bloomFilterSize, hashFunctionNum, key, b)
      {
        assert bloomFilter[b] <==> b in SetBits(bloomFilter);
        IndicesAreHashes(h, bloomFilterSize, hashFunctionNum, key, b);
      }
    }

    method Lookup(h: Hash, key: string) returns (found: bool)
      requires Valid()
      ensures found <==> Contains(h, View(), key)
      ensures found <==> forall i :: 0 <= i < hashFunctionNum ==>
                           bloomFilter[h(key + "_" + ToString(i)) % bloomFilterSize]
    {
      hide ToString, Contains;
      ContainsByHashes(h, View(), key);
      var indices := CalcHashIndices(h, key);
      for n := 0 to |indices|
        invariant forall i :: 0 <= i < n ==> bloomFilter[indices[i] % bloomFilterSize]
      {
        if !bloomFilter[indices[n] % bloomFilterSize] {
          assert !bloomFilter[h(key + "_" + ToString(n)) % bloomFilterSize];
          return false;
        }
      }
      return true;
    }
  }

  // Every key that was added is found, and no addition unsets a bit.
  lemma AddedIsContained(h: Hash, f: Filter, key: string, other: string)
    requires f.size > 0
    ensures Contains(h, Add(h, f, key), key)
    ensures Contains(h, f, other) ==> Contains(h, Add(h, f, key), other)
    ensures f.bits <= Add(h, f, key).bits
  {
  }

  function AddAll(h: Hash, f: Filter, keys: seq<string>): (g: Filter)
    requires f.size > 0
    ensures g.size == f.size && g.hashNum == f.hashNum
  {
    if keys == [] then f else Add(h, AddAll(h, f, keys[..|keys| - 1]), keys[|keys| - 1])
  }

  lemma {:induction false} BitsOfAll(h: Hash, size: nat, hashNum: nat, keys: seq<string>, b: nat)
    requires size > 0
    ensures b in AddAll(h, Empty(size, hashNum), keys).bits <==>
            exists k :: 0 <= k < |keys| && HashesTo(h, size, hashNum, keys[k], b)
  {
    hide Indices, HashesTo;
    if keys != [] {
      var front, last := keys[..|keys| - 1], keys[|keys| - 1];
      BitsOfAll(h, size, hashNum, front, b);
      IndicesAreHashes(h, size, hashNum, last, b);
      assert forall k :: 0 <= k < |front| ==> front[k] == keys[k];
    }
  }

  // Some hash of some key falls on bit `b`.
  ghost predicate IsHit(h: Hash, size: nat, hashNum: nat, keys: seq<string>, b: nat)
    requires size > 0
  {
    exists k, j :: 0 <= k < |keys| && 0 <= j < hashNum && h(keys[k] + "_" + ToString(j)) % size == b
  }

  // Which keys a filter finds, false positives included: those each of whose hashes falls
  // where some hash of some key that was added fell.
  lemma MembershipLaw(h: Hash, size: nat, hashNum: nat, keys: seq<string>, key: string)
    requires size > 0
    ensures Contains(h, AddAll(h, Empty(size, hashNum), keys), key) <==>
            forall i :: 0 <= i < hashNum ==> IsHit(h, size, hashNum, keys, h(key + "_" + ToString(i)) % size)
  {
    hide Indices, Contains, ToString, IsHit;
    var f := AddAll(h, Empty(size, hashNum), keys);
    forall i | 0 <= i < hashNum
      ensures h(key + "_" + ToString(i)) % size in f.bits <==>
              IsHit(h, size, hashNum, keys, h(key + "_" + ToString(i)) % size)
    {
      BitsOfAll(h, size, hashNum, keys, h(key + "_" + ToString(i)) % size);
      HashedBySome(h, size, hashNum, keys, h(key + "_" + ToString(i)) % size);
    }
    ContainsByHashes(h, f, key);
  }

  lemma HashedBySome(h: Hash, size: nat, hashNum: nat, keys: seq<string>, b: nat)
    requires size > 0
    ensures (exists k :: 0 <= k < |keys| && HashesTo(h, size, hashNum, keys[k], b)) <==>
            IsHit(h, size, hashNum, keys, b)
  {
    if k :| 0 <= k < |keys| && HashesTo(h, size, hashNum, keys[k], b) {
      var j :| 0 <= j < hashNum && h(keys[k] + "_" + ToString(j)) % size == b;
    }
    if k, j :| 0 <= k < |keys| && 0 <= j < hashNum && h(keys[k] + "_" + ToString(j)) % size == b {
      assert HashesTo(h, size, hashNum, keys[k], b);
    }
  }

  lemma ContainsByHashes(h: Hash, f: Filter, key: string)
    requires f.size > 0
    ensures Contains(h, f, key) <==>
            forall i :: 0 <= i < f.hashNum ==> h(key + "_" + ToString(i)) % f.size in f.bits
  {
    hide Indices;
    if Contains(h, f, key) {
      forall i | 0 <= i < f.hashNum
        ensures h(key + "_" + ToString(i)) % f.size in f.bits
      {
        IndicesAreHashes(h, f.size, f.hashNum, key, h(key + "_" + ToString(i)) % f.size);
      }
    } else {
      var b :| b in Indices(h, f.size, f.hashNum, key) && b !in f.bits;
      IndicesAreHashes(h, f.size, f.hashNum, key, b);
    }
  }

  lemma {:induction false} AtMostHashNumIndices(h: Hash, size: nat, k: nat, key: string)
    requires size > 0
    ensures |Indices(h, size, k, key)| <= k
  {
    if k > 0 {
      AtMostHashNumIndices(h, size, k - 1, key);
      assert Indices(h, size, k, key) == Indices(h, size, k - 1, key) + {h(DerivedKey(key, k - 1)) % size};
    }
  }

  // The bits are places in the filter, and no more than the keys added can have set.
  ghost predicate IsFilled(f: Filter)
  {
    && (forall x :: x in f.bits ==> x < f.size)
    && |f.bits| <= f.size && |f.bits| <= f.hashNum * f.msgNum
  }

  lemma AddKeepsFill(h: Hash, f: Filter, key: string)
    requires f.size > 0 && IsFilled(f)
    ensures IsFilled(Add(h, f, key))
  {
    hide Indices;
    var added := Indices(h, f.size, f.hashNum, key);
    AtMostHashNumIndices(h, f.size, f.hashNum, key);
    IndicesArePlaces(h, f.size, f.hashNum, key);
    UnionSize(f.bits, added);
    OneMoreTime(f.hashNum, f.msgNum);
    BelowHasSize(f.bits + added, f.size);
  }

  lemma IndicesArePlaces(h: Hash, size: nat, hashNum: nat, key: string)
    requires size > 0
    ensures forall x :: x in Indices(h, size, hashNum, key) ==> x < size
  {
  }

  lemma OneMoreTime(k: nat, n: nat)
    ensures k * (n + 1) == k * n + k
  {
  }

  // A filter filled from empty has at most min(size, hashNum * msgNum) bits set.
  lemma {:induction false} FillIsBounded(h: Hash, size: nat, k: nat, keys: seq<string>)
    requires size > 0
    ensures var f := AddAll(h, Empty(size, k), keys);
            && f.msgNum == |keys| && |f.bits| <= size && |f.bits| <= k * f.msgNum
            && forall x :: x in f.bits ==> x < size
  {
    hide Add, Indices;
    if keys != [] {
      var front, last := keys[..|keys| - 1], keys[|keys| - 1];
      FillIsBounded(h, size, k, front);
      AddKeepsFill(h, AddAll(h, Empty(size, k), front), last);
      AddCounts(h, AddAll(h, Empty(size, k), front), last);
    }
  }

  lemma AddCounts(h: Hash, f: Filter, key: string)
    requires f.size > 0
    ensures Add(h, f, key).msgNum == f.msgNum + 1
  {
  }

  // No two (key, i) pairs are hashed from the same string.
  lemma DerivedKeysDiffer(key: string, i: nat, key': string, i': nat)
    requires DerivedKey(key, i) == DerivedKey(key', i')
    ensures key == key' && i == i'
  {
    var s := DerivedKey(key, i);
    assert s == DerivedKey(key', i');
    assert s[|key|] == '_' && s[|key'|] == '_';
    assert forall k :: |key| < k < |s| ==> s[k] == ToString(i)[k - |key| - 1];
    assert forall k :: |key'| < k < |s| ==> s[k] == ToString(i')[k - |key'| - 1];
    assert |key| == |key'|;
    assert key == s[..|key|] == key';
    assert ToString(i) == s[|key| + 1..] == ToString(i');
    ToStringIsInjective(i, i');
  }
}
