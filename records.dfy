/**
 * A JavaScript object used as a string-keyed dictionary of running totals,
 * as in `m[k] = (m[k] || 0) + amount`.  Such an object enumerates its keys
 * in insertion order, so it is modelled as the sequence of keys in the order
 * they were first written together with the map from key to total.
 */
module Records {
  import opened Seqs

  /** The sum of amount(x) over the elements x of xs whose key is k. */
  function KeySum<T>(xs: seq<T>, key: T -> string, amount: T -> int, k: string): int
  {
    if xs == [] then 0
    else KeySum(DropLast(xs), key, amount, k) + (if key(Last(xs)) == k then amount(Last(xs)) else 0)
  }

  /** The sum of amount(x) over all elements x of xs. */
  function Total<T>(xs: seq<T>, amount: T -> int): int
  {
    if xs == [] then 0 else Total(DropLast(xs), amount) + amount(Last(xs))
  }

  /** The keys of xs in the order of their first occurrence. */
  function KeyOrder<T>(xs: seq<T>, key: T -> string): (ks: seq<string>)
    ensures Distinct(ks)
  {
    if xs == [] then []
    else
      var front := KeyOrder(DropLast(xs), key);
      if key(Last(xs)) in front then front else front + [key(Last(xs))]
  }

  /** A key is listed exactly when some element of xs carries it. */
  lemma {:induction false} KeyOrderMembers<T>(xs: seq<T>, key: T -> string, k: string)
    ensures k in KeyOrder(xs, key) <==> exists i :: 0 <= i < |xs| && key(xs[i]) == k
  {
    if xs != [] {
      var front := DropLast(xs);
      KeyOrderMembers(front, key, k);
      assert forall i :: 0 <= i < |front| ==> front[i] == xs[i];
      if k in KeyOrder(xs, key) && k !in KeyOrder(front, key) {
        assert key(xs[|xs| - 1]) == k;
      }
    }
  }

  lemma {:induction false} KeySumAbsent<T>(xs: seq<T>, key: T -> string, amount: T -> int, k: string)
    requires k !in KeyOrder(xs, key)
    ensures KeySum(xs, key, amount, k) == 0
  {
    if xs != [] {
      assert key(xs[|xs| - 1]) != k;
      assert forall i :: 0 <= i < |xs| - 1 ==> DropLast(xs)[i] == xs[i];
      KeySumAbsent(DropLast(xs), key, amount, k);
    }
  }

  lemma KeySumStep<T>(xs: seq<T>, x: T, key: T -> string, amount: T -> int, k: string)
    ensures KeySum(xs + [x], key, amount, k) == KeySum(xs, key, amount, k) + (if key(x) == k then amount(x) else 0)
  {
    assert DropLast(xs + [x]) == xs;
  }

  lemma TotalStep<T>(xs: seq<T>, x: T, amount: T -> int)
    ensures Total(xs + [x], amount) == Total(xs, amount) + amount(x)
  {
    assert DropLast(xs + [x]) == xs;
  }

  lemma KeyOrderStep<T>(xs: seq<T>, x: T, key: T -> string)
    ensures KeyOrder(xs + [x], key)
         == if key(x) in KeyOrder(xs, key) then KeyOrder(xs, key) else KeyOrder(xs, key) + [key(x)]
  {
    assert DropLast(xs + [x]) == xs;
  }

  lemma {:induction false} TotalAppend<T>(a: seq<T>, b: seq<T>, amount: T -> int)
    ensures Total(a + b, amount) == Total(a, amount) + Total(b, amount)
    decreases |b|
  {
    if b != [] {
      assert DropLast(a + b) == a + DropLast(b);
      TotalAppend(a, DropLast(b), amount);
    } else {
      assert a + b == a;
    }
  }

  /** Taking out the element at i takes its amount out of the total. */
  lemma {:induction false} TotalRemove<T>(s: seq<T>, i: int, amount: T -> int)
    requires 0 <= i < |s|
    ensures Total(s, amount) == Total(s[..i] + s[i + 1..], amount) + amount(s[i])
  {
    var u, x, v := s[..i], s[i], s[i + 1..];
    assert s == (u + [x]) + v;
    TotalAppend(u + [x], v, amount);
    TotalAppend(u, [x], amount);
    TotalAppend(u, v, amount);
    assert Total([x], amount) == amount(x) by {
      assert DropLast([x]) == [];
    }
  }

  /** The total does not depend on the order of the elements. */
  lemma {:induction false} TotalPermutation<T>(a: seq<T>, b: seq<T>, amount: T -> int)
    requires multiset(a) == multiset(b)
    ensures Total(a, amount) == Total(b, amount)
    decreases |a|
  {
    if a == [] {
      assert |b| == |multiset(b)| == 0;
    } else {
      var x := Last(a);
      assert a == DropLast(a) + [x];
      assert x in multiset(b);
      var i :| 0 <= i < |b| && b[i] == x;
      var rest := b[..i] + b[i + 1..];
      assert b == b[..i] + [x] + b[i + 1..];
      assert multiset(b) == multiset(b[..i]) + multiset{x} + multiset(b[i + 1..]);
      assert multiset(rest) == multiset(b[..i]) + multiset(b[i + 1..]);
      assert multiset(a) == multiset(DropLast(a)) + multiset{x};
      assert multiset(rest) == multiset(b) - multiset{x};
      assert multiset(DropLast(a)) == multiset(a) - multiset{x};
      TotalPermutation(DropLast(a), rest, amount);
      TotalRemove(b, i, amount);
    }
  }

  /** With no negative amounts, one key's sum lies between 0 and the total. */
  lemma {:induction false} KeySumBounds<T>(xs: seq<T>, key: T -> string, amount: T -> int, k: string)
    requires forall i :: 0 <= i < |xs| ==> amount(xs[i]) >= 0
    ensures 0 <= KeySum(xs, key, amount, k) <= Total(xs, amount)
  {
    if xs != [] {
      var front := DropLast(xs);
      assert forall i :: 0 <= i < |front| ==> front[i] == xs[i];
      KeySumBounds(front, key, amount, k);
      assert amount(Last(xs)) >= 0;
    }
  }

  function Id(v: int): int
  {
    v
  }

  /** The sum of w(m[k]) over the keys k listed in keys. */
  function SumOver<V>(keys: seq<string>, m: map<string, V>, w: V -> int): int
    requires forall k :: k in keys ==> k in m
  {
    if keys == [] then 0 else SumOver(DropLast(keys), m, w) + w(m[Last(keys)])
  }

  lemma {:induction false} SumOverFresh<V>(keys: seq<string>, m: map<string, V>, w: V -> int, k: string, v: V)
    requires forall j :: j in keys ==> j in m
    requires k !in keys
    ensures SumOver(keys, m[k := v], w) == SumOver(keys, m, w)
  {
    if keys != [] {
      SumOverFresh(DropLast(keys), m, w, k, v);
    }
  }

  lemma SumOverAppend<V>(keys: seq<string>, m: map<string, V>, w: V -> int, k: string)
    requires forall j :: j in keys ==> j in m
    requires k in m
    ensures SumOver(keys + [k], m, w) == SumOver(keys, m, w) + w(m[k])
  {
    assert DropLast(keys + [k]) == keys;
  }

  lemma {:induction false} SumOverUpdate<V>(keys: seq<string>, m: map<string, V>, w: V -> int, k: string, v: V)
    requires forall j :: j in keys ==> j in m
    requires Distinct(keys) && k in keys
    ensures SumOver(keys, m[k := v], w) == SumOver(keys, m, w) - w(m[k]) + w(v)
  {
    var front := DropLast(keys);
    assert Distinct(front);
    if Last(keys) == k {
      assert k !in front by {
        forall i | 0 <= i < |front| ensures front[i] != k {
          assert keys[i] != keys[|keys| - 1];
        }
      }
      SumOverFresh(front, m, w, k, v);
    } else {
      assert k in front by {
        var i :| 0 <= i < |keys| && keys[i] == k;
        assert i < |keys| - 1;
        assert front[i] == k;
      }
      SumOverUpdate(front, m, w, k, v);
    }
  }

  /** keys and totals are what the accumulation leaves after visiting xs. */
  ghost predicate Accumulated<T>(xs: seq<T>, key: T -> string, amount: T -> int,
                                 keys: seq<string>, totals: map<string, int>)
  {
    && keys == KeyOrder(xs, key)
    && (forall k :: k in totals <==> k in keys)
    && (forall k :: k in totals ==> totals[k] == KeySum(xs, key, amount, k))
    && SumOver(keys, totals, Id) == Total(xs, amount)
  }

  /** One `m[k] = (m[k] || 0) + amount(x)` step keeps the accumulation exact. */
  lemma AccumulateStep<T>(done: seq<T>, x: T, key: T -> string, amount: T -> int,
                          keys: seq<string>, totals: map<string, int>)
    requires Accumulated(done, key, amount, keys, totals)
    ensures var k := key(x);
            var previous := if k in totals then totals[k] else 0;
            Accumulated(done + [x], key, amount,
                        if k in totals then keys else keys + [k],
                        totals[k := previous + amount(x)])
  {
    var k := key(x);
    var previous := if k in totals then totals[k] else 0;
    var keys' := if k in totals then keys else keys + [k];
    var totals' := totals[k := previous + amount(x)];
    KeyOrderStep(done, x, key);
    assert keys' == KeyOrder(done + [x], key);
    StepSums(done, x, key, amount, keys, totals);
    assert forall j :: j in totals' <==> j in keys';
    StepTotal(done, x, key, amount, keys, totals);
  }

  lemma StepSums<T>(done: seq<T>, x: T, key: T -> string, amount: T -> int,
                    keys: seq<string>, totals: map<string, int>)
    requires keys == KeyOrder(done, key)
    requires forall k :: k in totals <==> k in keys
    requires forall k :: k in totals ==> totals[k] == KeySum(done, key, amount, k)
    ensures var k := key(x);
            var totals' := totals[k := (if k in totals then totals[k] else 0) + amount(x)];
            forall j :: j in totals' ==> totals'[j] == KeySum(done + [x], key, amount, j)
  {
    var k := key(x);
    var totals' := totals[k := (if k in totals then totals[k] else 0) + amount(x)];
    if k !in totals {
      KeySumAbsent(done, key, amount, k);
    }
    forall j | j in totals'
      ensures totals'[j] == KeySum(done + [x], key, amount, j)
    {
      KeySumStep(done, x, key, amount, j);
    }
  }

  lemma StepTotal<T>(done: seq<T>, x: T, key: T -> string, amount: T -> int,
                     keys: seq<string>, totals: map<string, int>)
    requires Distinct(keys)
    requires forall k :: k in totals <==> k in keys
    requires SumOver(keys, totals, Id) == Total(done, amount)
    ensures var k := key(x);
            var keys' := if k in totals then keys else keys + [k];
            var totals' := totals[k := (if k in totals then totals[k] else 0) + amount(x)];
            (forall j :: j in keys' ==> j in totals')
            && SumOver(keys', totals', Id) == Total(done + [x], amount)
  {
    var k := key(x);
    var v := (if k in totals then totals[k] else 0) + amount(x);
    TotalStep(done, x, amount);
    if k in totals {
      SumOverUpdate(keys, totals, Id, k, v);
    } else {
      SumOverFresh(keys, totals, Id, k, v);
      SumOverAppend(keys, totals[k := v], Id, k);
    }
  }

  /**
   * The `forEach` that fills a dictionary of totals: for every element, in
   * order, add its amount to the entry of its key, creating the entry at 0
   * the first time the key is seen.
   */
  method Accumulate<T>(xs: seq<T>, key: T -> string, amount: T -> int)
    returns (keys: seq<string>, totals: map<string, int>)
    ensures keys == KeyOrder(xs, key)
    ensures forall k :: k in totals <==> k in keys
    ensures forall k :: k in totals ==> totals[k] == KeySum(xs, key, amount, k)
    ensures SumOver(keys, totals, Id) == Total(xs, amount)
  {
    keys, totals := [], map[];
    var i := 0;
    while i < |xs|
      invariant 0 <= i <= |xs|
      invariant Accumulated(xs[..i], key, amount, keys, totals)
    {
      var x := xs[i];
      var k := key(x);
      ghost var done := xs[..i];
      ghost var keys0, totals0 := keys, totals;
      var previous := if k in totals then totals[k] else 0;
      if k !in totals {
        keys := keys + [k];
      }
      totals := totals[k := previous + amount(x)];
      AccumulateStep(done, x, key, amount, keys0, totals0);
      assert xs[..i + 1] == done + [x];
      i := i + 1;
    }
    assert xs[..i] == xs;
  }

  // ------------------------------------------------------------ grouping

  /** The elements of xs whose key is k, in their order in xs. */
  function KeyGroup<T>(xs: seq<T>, key: T -> string, k: string): seq<T>
  {
    if xs == [] then []
    else KeyGroup(DropLast(xs), key, k) + (if key(Last(xs)) == k then [Last(xs)] else [])
  }

  /** A key's group is xs filtered by that key. */
  lemma {:induction false} KeyGroupIsFilter<T(!new)>(xs: seq<T>, key: T -> string, k: string)
    ensures KeyGroup(xs, key, k) == Filter(xs, (x: T) => key(x) == k)
  {
    if xs != [] {
      KeyGroupIsFilter(DropLast(xs), key, k);
    }
  }

  /** x is in the group of k exactly when it is in xs and its key is k. */
  lemma KeyGroupMembers<T(!new)>(xs: seq<T>, key: T -> string, k: string, x: T)
    ensures x in KeyGroup(xs, key, k) <==> x in xs && key(x) == k
  {
    KeyGroupIsFilter(xs, key, k);
  }

  lemma KeyGroupStep<T>(xs: seq<T>, x: T, key: T -> string, k: string)
    ensures KeyGroup(xs + [x], key, k) == KeyGroup(xs, key, k) + (if key(x) == k then [x] else [])
  {
    assert DropLast(xs + [x]) == xs;
  }

  lemma {:induction false} KeyGroupAbsent<T>(xs: seq<T>, key: T -> string, k: string)
    requires k !in KeyOrder(xs, key)
    ensures KeyGroup(xs, key, k) == []
  {
    if xs != [] {
      assert key(xs[|xs| - 1]) != k;
      assert forall i :: 0 <= i < |xs| - 1 ==> DropLast(xs)[i] == xs[i];
      KeyGroupAbsent(DropLast(xs), key, k);
    }
  }

  function Length<T>(g: seq<T>): int
  {
    |g|
  }

  /** keys and groups are what the grouping leaves after visiting done. */
  ghost predicate GroupedSoFar<T>(done: seq<T>, key: T -> string, keys: seq<string>, groups: map<string, seq<T>>)
  {
    && keys == KeyOrder(done, key)
    && (forall k :: k in groups <==> k in keys)
    && (forall k :: k in groups ==> groups[k] == KeyGroup(done, key, k))
  }

  /** One `groups[k].push(x)` step, after creating the group of a new key, keeps the grouping exact. */
  lemma GroupStep<T>(done: seq<T>, x: T, key: T -> string, keys: seq<string>, groups: map<string, seq<T>>)
    requires GroupedSoFar(done, key, keys, groups)
    ensures var k := key(x);
            var g := if k in groups then groups[k] else [];
            GroupedSoFar(done + [x], key, if k in groups then keys else keys + [k], groups[k := g + [x]])
  {
    var k := key(x);
    var groups' := groups[k := (if k in groups then groups[k] else []) + [x]];
    KeyOrderStep(done, x, key);
    if k !in groups {
      KeyGroupAbsent(done, key, k);
    }
    forall j | j in groups'
      ensures groups'[j] == KeyGroup(done + [x], key, j)
    {
      KeyGroupStep(done, x, key, j);
    }
  }

  /**
   * The `reduce` that fills a dictionary of arrays: for every element, in
   * order, create the array of its key the first time the key is seen and
   * push the element onto it.
   */
  method GroupBy<T>(xs: seq<T>, key: T -> string) returns (keys: seq<string>, groups: map<string, seq<T>>)
    ensures keys == KeyOrder(xs, key)
    ensures forall k :: k in groups <==> k in keys
    ensures forall k :: k in groups ==> groups[k] == KeyGroup(xs, key, k)
  {
    keys, groups := [], map[];
    var i := 0;
    while i < |xs|
      invariant 0 <= i <= |xs|
      invariant GroupedSoFar(xs[..i], key, keys, groups)
    {
      var x := xs[i];
      var k := key(x);
      GroupStep(xs[..i], x, key, keys, groups);
      assert xs[..i + 1] == xs[..i] + [x];
      // a key seen for the first time starts from an empty group
      var group := if k in groups then groups[k] else [];
      if k !in groups {
        keys := keys + [k];
      }
      groups := groups[k := group + [x]];
      i := i + 1;
    }
    assert xs[..i] == xs;
  }

  /** Sums over maps that agree on the keys are equal. */
  lemma {:induction false} SumOverAgree<V>(keys: seq<string>, m1: map<string, V>, m2: map<string, V>, w: V -> int)
    requires forall k :: k in keys ==> k in m1 && k in m2 && m1[k] == m2[k]
    ensures SumOver(keys, m1, w) == SumOver(keys, m2, w)
  {
    if keys != [] {
      SumOverAgree(DropLast(keys), m1, m2, w);
    }
  }

  /** The groups of all keys together hold every element once: their sizes add up to |xs|. */
  lemma {:induction false} GroupSizes<T>(xs: seq<T>, key: T -> string, groups: map<string, seq<T>>)
    requires forall k :: k in KeyOrder(xs, key) ==> k in groups && groups[k] == KeyGroup(xs, key, k)
    ensures SumOver(KeyOrder(xs, key), groups, Length<T>) == |xs|
  {
    if xs != [] {
      var ys, x := DropLast(xs), Last(xs);
      var kx := key(x);
      assert xs == ys + [x];
      var ko := KeyOrder(ys, key);
      var before := map j | j in ko :: KeyGroup(ys, key, j);
      GroupSizes(ys, key, before);
      KeyOrderStep(ys, x, key);
      assert forall j :: j in ko ==> j in KeyOrder(xs, key);
      forall j | j in ko
        ensures j in groups && groups[j] == before[j] + (if kx == j then [x] else [])
      {
        KeyGroupStep(ys, x, key, j);
      }
      if kx in ko {
        SumOverGrow(ko, before, groups, kx, x);
      } else {
        GroupSizesNewKey(ys, x, key, groups, before);
      }
    }
  }

  lemma GroupSizesNewKey<T>(ys: seq<T>, x: T, key: T -> string, groups: map<string, seq<T>>, before: map<string, seq<T>>)
    requires key(x) !in KeyOrder(ys, key)
    requires forall j :: j in KeyOrder(ys, key) ==> j in groups && j in before && groups[j] == before[j]
    requires key(x) in groups && groups[key(x)] == KeyGroup(ys + [x], key, key(x))
    ensures SumOver(KeyOrder(ys, key) + [key(x)], groups, Length<T>)
         == SumOver(KeyOrder(ys, key), before, Length<T>) + 1
  {
    KeyGroupAbsent(ys, key, key(x));
    KeyGroupStep(ys, x, key, key(x));
    SumOverAppend(KeyOrder(ys, key), groups, Length<T>, key(x));
    SumOverAgree(KeyOrder(ys, key), groups, before, Length<T>);
  }

  /** Appending x to the group of one listed key adds one to the total size. */
  lemma SumOverGrow<T>(ko: seq<string>, before: map<string, seq<T>>, groups: map<string, seq<T>>, kx: string, x: T)
    requires Distinct(ko) && kx in ko
    requires forall j :: j in ko ==> j in before && j in groups
    requires forall j :: j in ko ==> groups[j] == before[j] + (if kx == j then [x] else [])
    ensures SumOver(ko, groups, Length<T>) == SumOver(ko, before, Length<T>) + 1
  {
    var after := before[kx := before[kx] + [x]];
    SumOverUpdate(ko, before, Length<T>, kx, before[kx] + [x]);
    forall j | j in ko
      ensures groups[j] == after[j]
    {
      if j != kx {
        assert before[j] + [] == before[j];
      }
    }
    SumOverAgree(ko, groups, after, Length<T>);
  }
}
