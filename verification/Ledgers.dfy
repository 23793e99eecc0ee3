// Per-account storage: accounts, amounts held under them, and totals over all of them.
module Ledgers {

  // Addresses are compared and ordered, nothing else. Contract maps iterate in key order.
  type Address = nat

  datatype Option<+T> = None | Some(value: T)

  // A key that was never written reads as zero.
  function Get(m: map<Address, int>, k: Address): int {
    if k in m then m[k] else 0
  }

  function Largest(s: set<Address>): (k: Address)
    requires s != {}
    ensures k in s && forall j :: j in s ==> j <= k
  {
    LargestExists(s);
    var k :| k in s && forall j :: j in s ==> j <= k;
    k
  }

  lemma LargestExists(s: set<Address>)
    requires s != {}
    ensures exists k :: k in s && forall j :: j in s ==> j <= k
  {
    var k :| k in s;
    var rest := s - {k};
    assert forall j :: j in s ==> j == k || j in rest;
    if rest == {} {
      assert forall j :: j in s ==> j <= k;
    } else {
      LargestExists(rest);
      var k' :| k' in rest && forall j :: j in rest ==> j <= k';
      var top := if k < k' then k' else k;
      assert forall j :: j in s ==> j <= top;
    }
  }

  // The keys in the order a contract map yields them.
  function SortedKeys(s: set<Address>): seq<Address>
    decreases |s|
  {
    if s == {} then [] else
      var k := Largest(s);
      SortedKeys(s - {k}) + [k]
  }

  lemma {:induction false} SortedKeysListed(s: set<Address>)
    ensures |SortedKeys(s)| == |s|
    ensures forall k :: k in SortedKeys(s) <==> k in s
    decreases |s|
  {
    if s != {} {
      SortedKeysListed(s - {Largest(s)});
    }
  }

  lemma {:induction false} SortedKeysAscend(s: set<Address>, i: nat, j: nat)
    requires i < j < |SortedKeys(s)|
    ensures SortedKeys(s)[i] < SortedKeys(s)[j]
    decreases |s|
  {
    var rest := s - {Largest(s)};
    SortedKeysListed(rest);
    if j < |SortedKeys(s)| - 1 {
      SortedKeysAscend(rest, i, j);
    } else {
      assert SortedKeys(rest)[i] in rest;
    }
  }

  // The sum of the amounts under the listed keys.
  function SumAlong(m: map<Address, int>, ks: seq<Address>): int {
    if ks == [] then 0 else SumAlong(m, ks[..|ks| - 1]) + Get(m, ks[|ks| - 1])
  }

  function Sum(m: map<Address, int>): int {
    SumAlong(m, SortedKeys(m.Keys))
  }

  lemma {:induction false} SumAlongAgrees(m: map<Address, int>, m': map<Address, int>, ks: seq<Address>)
    requires forall k :: k in ks ==> Get(m, k) == Get(m', k)
    ensures SumAlong(m, ks) == SumAlong(m', ks)
  {
    if ks != [] {
      SumAlongAgrees(m, m', ks[..|ks| - 1]);
    }
  }

  function SumOver(m: map<Address, int>, s: set<Address>): int {
    SumAlong(m, SortedKeys(s))
  }

  lemma SumOverLargest(m: map<Address, int>, s: set<Address>)
    requires s != {}
    ensures SumOver(m, s) == SumOver(m, s - {Largest(s)}) + Get(m, Largest(s))
  {
  }

  // Order of insertion does not matter: one key more adds exactly its amount.
  lemma {:induction false} SumOverInsert(m: map<Address, int>, s: set<Address>, k: Address)
    requires k !in s
    ensures SumOver(m, s + {k}) == SumOver(m, s) + Get(m, k)
    decreases |s|
  {
    var all := s + {k};
    var top := Largest(all);
    SumOverLargest(m, all);
    if top == k {
      assert all - {top} == s;
    } else {
      var t := s - {top};
      assert Largest(s) == top;
      SumOverLargest(m, s);
      SumOverInsert(m, t, k);
      assert all - {top} == t + {k};
    }
  }

  lemma SumOverAgrees(m: map<Address, int>, m': map<Address, int>, s: set<Address>)
    requires forall k :: k in s ==> Get(m, k) == Get(m', k)
    ensures SumOver(m, s) == SumOver(m', s)
  {
    SortedKeysListed(s);
    SumAlongAgrees(m, m', SortedKeys(s));
  }

  lemma SumUpdate(m: map<Address, int>, k: Address, v: int)
    ensures Sum(m[k := v]) == Sum(m) - Get(m, k) + v
  {
    var m' := m[k := v];
    var others := m.Keys - {k};
    SumOverAgrees(m, m', others);
    SumOverInsert(m', others, k);
    assert m'.Keys == others + {k};
    if k in m {
      SumOverInsert(m, others, k);
      assert m.Keys == others + {k};
    } else {
      assert m.Keys == others;
    }
  }

  lemma {:induction false} SumAlongNonNegative(m: map<Address, int>, ks: seq<Address>)
    requires forall k :: k in m ==> m[k] >= 0
    ensures SumAlong(m, ks) >= 0
  {
    if ks != [] {
      SumAlongNonNegative(m, ks[..|ks| - 1]);
    }
  }

  lemma SumNonNegative(m: map<Address, int>)
    requires forall k :: k in m ==> m[k] >= 0
    ensures Sum(m) >= 0
  {
    SumAlongNonNegative(m, SortedKeys(m.Keys));
  }

  // No entry exceeds the total when none is negative.
  lemma SumAtLeastEntry(m: map<Address, int>, k: Address)
    requires forall j :: j in m ==> m[j] >= 0
    ensures Get(m, k) <= Sum(m)
  {
    SumUpdate(m, k, 0);
    SumNonNegative(m[k := 0]);
  }
}
