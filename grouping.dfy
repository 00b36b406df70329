/** Grouping with an insertion-ordered dictionary: each element adds its value
    to the entry of its key, and a key's entry is created, at the end, the
    first time the key is met. Both `clicksByAge` (a `Record` accumulator) and
    `categoryData` (a `Map` filled by `forEach`) work this way; JavaScript
    keeps such keys in insertion order. */
module Grouping {
  import opened Seqs

  /** The distinct keys of `s`, in order of first appearance. */
  function Keys<T, K(==)>(s: seq<T>, key: T -> K): seq<K>
    decreases |s|
  {
    if s == [] then []
    else
      var ks := Keys(s[..|s| - 1], key);
      if key(s[|s| - 1]) in ks then ks else ks + [key(s[|s| - 1])]
  }

  /** The sum of `value` over the elements of `s` whose key is `k`. */
  function SumWhere<T, K(==)>(s: seq<T>, key: T -> K, value: T -> int, k: K): int
    decreases |s|
  {
    if s == [] then 0
    else SumWhere(s[..|s| - 1], key, value, k) + (if key(s[|s| - 1]) == k then value(s[|s| - 1]) else 0)
  }

  function WithTotal<T, K(==)>(s: seq<T>, key: T -> K, value: T -> int): K -> (K, int) {
    k => (k, SumWhere(s, key, value, k))
  }

  /** The grouped entries: one per distinct key, in first-appearance order,
      each with the sum of its elements' values. */
  function Groups<T, K(==)>(s: seq<T>, key: T -> K, value: T -> int): seq<(K, int)> {
    Map(Keys(s, key), WithTotal(s, key, value))
  }

  function Amount<K>(entry: (K, int)): int {
    entry.1
  }

  predicate Distinct<K(==)>(ks: seq<K>) {
    forall i, j :: 0 <= i < j < |ks| ==> ks[i] != ks[j]
  }

  /** Each key appears once, and a key is listed exactly when some element has it. */
  lemma {:induction false} KeysAreTheDistinctKeys<T, K(!new)>(s: seq<T>, key: T -> K)
    ensures Distinct(Keys(s, key))
    ensures forall k :: k in Keys(s, key) <==> exists i :: 0 <= i < |s| && key(s[i]) == k
    decreases |s|
  {
    if s != [] {
      var init := s[..|s| - 1];
      KeysAreTheDistinctKeys(init, key);
      assert forall i :: 0 <= i < |init| ==> init[i] == s[i];
      forall k | exists i :: 0 <= i < |s| && key(s[i]) == k
        ensures k in Keys(s, key)
      {
        var i :| 0 <= i < |s| && key(s[i]) == k;
        if i < |init| {
          assert key(init[i]) == k;
        }
      }
    }
  }

  /** A key no element has totals 0. */
  lemma {:induction false} AbsentKeySumsToZero<T, K(!new)>(s: seq<T>, key: T -> K, value: T -> int, k: K)
    requires k !in Keys(s, key)
    ensures SumWhere(s, key, value, k) == 0
    decreases |s|
  {
    if s != [] {
      var init := s[..|s| - 1];
      AbsentKeySumsToZero(init, key, value, k);
    }
  }

  /** The sum of the per-key totals over a list of distinct keys. */
  function TotalOver<T, K(==)>(ks: seq<K>, s: seq<T>, key: T -> K, value: T -> int): int {
    SumOf(Map(ks, WithTotal(s, key, value)), Amount)
  }

  /** Appending one element to `s` raises the sum over distinct keys `ks` by
      its value when its key is among them, and leaves it otherwise. */
  lemma {:induction false} TotalOverSnoc<T, K(!new)>(ks: seq<K>, s: seq<T>, x: T, key: T -> K, value: T -> int)
    requires Distinct(ks)
    ensures TotalOver(ks, s + [x], key, value) ==
            TotalOver(ks, s, key, value) + (if key(x) in ks then value(x) else 0)
    decreases |ks|
  {
    if ks != [] {
      var t := s + [x];
      assert t[..|t| - 1] == s;
      var m := Map(ks, WithTotal(t, key, value));
      var m0 := Map(ks, WithTotal(s, key, value));
      assert m[1..] == Map(ks[1..], WithTotal(t, key, value));
      assert m0[1..] == Map(ks[1..], WithTotal(s, key, value));
      assert Distinct(ks[1..]) by {
        forall i, j | 0 <= i < j < |ks[1..]| ensures ks[1..][i] != ks[1..][j] {
          assert ks[1..][i] == ks[i + 1] && ks[1..][j] == ks[j + 1];
        }
      }
      TotalOverSnoc(ks[1..], s, x, key, value);
      if key(x) == ks[0] {
        assert key(x) !in ks[1..] by {
          forall j | 0 <= j < |ks[1..]| ensures ks[1..][j] != key(x) {
            assert ks[1..][j] == ks[j + 1];
          }
        }
      }
      assert key(x) in ks <==> key(x) == ks[0] || key(x) in ks[1..] by {
        assert ks == [ks[0]] + ks[1..];
      }
    }
  }

  /** The sum over a list of keys with one key appended. */
  lemma TotalOverAppend<T, K(!new)>(ks: seq<K>, k: K, s: seq<T>, key: T -> K, value: T -> int)
    ensures TotalOver(ks + [k], s, key, value) == TotalOver(ks, s, key, value) + SumWhere(s, key, value, k)
  {
    var f := WithTotal(s, key, value);
    assert Map(ks + [k], f) == Map(ks, f) + [f(k)];
    SumOfAppend(Map(ks, f), [f(k)], Amount);
    assert SumOf([f(k)], Amount) == SumWhere(s, key, value, k);
  }

  /** The grouped totals add up to the overall sum: nothing is lost or
      counted twice. */
  lemma {:induction false} GroupsSumToTotal<T, K(!new)>(s: seq<T>, key: T -> K, value: T -> int)
    ensures SumOf(Groups(s, key, value), Amount) == SumOf(s, value)
    decreases |s|
  {
    if s != [] {
      var init := s[..|s| - 1];
      var x := s[|s| - 1];
      assert s == init + [x];
      var ks := Keys(init, key);
      GroupsSumToTotal(init, key, value);
      KeysAreTheDistinctKeys(init, key);
      TotalOverSnoc(ks, init, x, key, value);
      SumOfAppend(init, [x], value);
      assert SumOf([x], value) == value(x);
      if key(x) !in ks {
        TotalOverAppend(ks, key(x), s, key, value);
        AbsentKeySumsToZero(init, key, value, key(x));
      }
    }
  }

  /** `acc[k] = (acc[k] || 0) + value(x)` for every `x` in `s`, with the keys
      kept in insertion order, then the entries listed in that order. */
  method GroupSum<T, K(==,!new)>(s: seq<T>, key: T -> K, value: T -> int) returns (r: seq<(K, int)>)
    ensures r == Groups(s, key, value)
  {
    var keys: seq<K> := [];
    var totals: map<K, int> := map[];
    for i := 0 to |s|
      invariant keys == Keys(s[..i], key)
      invariant forall k :: k in totals <==> k in keys
      invariant forall k :: k in keys ==> totals[k] == SumWhere(s[..i], key, value, k)
    {
      assert s[..i + 1][..i] == s[..i];
      var k := key(s[i]);
      if k !in totals {
        AbsentKeySumsToZero(s[..i], key, value, k);
        keys := keys + [k];
        totals := totals[k := 0];
      }
      totals := totals[k := totals[k] + value(s[i])];
    }
    assert s[..|s|] == s;
    r := seq(|keys|, j requires 0 <= j < |keys| => (keys[j], totals[keys[j]]));
  }
}
