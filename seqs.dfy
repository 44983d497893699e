/** The three loop shapes the lineage code repeats over record lists: apply
    a step that may raise to every element, store every element under a key
    (a later element replacing an earlier one), and keep the elements a step
    does not drop. */
module Seqs {
  import opened Wrappers

  /** A non-empty list is its prefix and its last element. */
  lemma SplitLast<T>(s: seq<T>)
    requires |s| > 0
    ensures s == s[..|s| - 1] + [s[|s| - 1]]
  {
  }

  lemma ConcatAssoc<T>(a: seq<T>, b: seq<T>, c: seq<T>)
    ensures a + (b + c) == a + b + c
  {
  }

  /** Every step in order; the first error is the result. */
  function MapAll<X, T>(xs: seq<X>, f: X -> Result<T, string>): (r: Result<seq<T>, string>)
  {
    if |xs| == 0 then Ok([])
    else
      var pre := xs[..|xs| - 1];
      match MapAll(pre, f)
      case Err(e) => Err(e)
      case Ok(ys) =>
        match f(xs[|xs| - 1])
        case Err(e) => Err(e)
        case Ok(y) => Ok(ys + [y])
  }

  /** The steps all succeed exactly when `MapAll` does, and then it holds
      their results in order; otherwise it holds the error of the first
      step that fails. */
  lemma {:induction false} MapAllSpec<X, T>(xs: seq<X>, f: X -> Result<T, string>)
    ensures MapAll(xs, f).Ok? <==> forall i | 0 <= i < |xs| :: f(xs[i]).Ok?
    ensures MapAll(xs, f).Ok? ==>
              |MapAll(xs, f).value| == |xs| && forall i | 0 <= i < |xs| :: MapAll(xs, f).value[i] == f(xs[i]).value
    ensures MapAll(xs, f).Err? ==> exists i | 0 <= i < |xs| ::
              f(xs[i]) == Err(MapAll(xs, f).error) && forall j | 0 <= j < i :: f(xs[j]).Ok?
  {
    if |xs| > 0 {
      var pre := xs[..|xs| - 1];
      assert forall i | 0 <= i < |pre| :: pre[i] == xs[i];
      MapAllSpec(pre, f);
    }
  }

  /** One more element. */
  lemma MapAllStep<X, T>(xs: seq<X>, x: X, f: X -> Result<T, string>)
    ensures MapAll(xs + [x], f) ==
      match MapAll(xs, f)
      case Err(e) => Err(e)
      case Ok(ys) => (match f(x) case Err(e) => Err(e) case Ok(y) => Ok(ys + [y]))
  {
    assert (xs + [x])[..|xs|] == xs;
  }

  /** Once a prefix fails, the whole run fails the same. */
  lemma {:induction false} MapAllErr<X, T>(xs: seq<X>, i: nat, f: X -> Result<T, string>)
    requires i <= |xs| && MapAll(xs[..i], f).Err?
    ensures MapAll(xs, f) == MapAll(xs[..i], f)
    decreases |xs| - i
  {
    if i < |xs| {
      var pre := xs[..|xs| - 1];
      assert pre[..i] == xs[..i];
      MapAllErr(pre, i, f);
    } else {
      assert xs[..i] == xs;
    }
  }

  /** One more element of a prefix. */
  lemma MapAllPrefix<X, T>(xs: seq<X>, i: nat, f: X -> Result<T, string>)
    requires i < |xs|
    ensures MapAll(xs[..i + 1], f) ==
      match MapAll(xs[..i], f)
      case Err(e) => Err(e)
      case Ok(ys) => (match f(xs[i]) case Err(e) => Err(e) case Ok(y) => Ok(ys + [y]))
  {
    assert xs[..i + 1] == xs[..i] + [xs[i]];
    MapAllStep(xs[..i], xs[i], f);
  }

  /** `d[key(x)] = step(x)` for every element in order. */
  function KeyedAll<X, V>(xs: seq<X>, key: X -> string, f: X -> Result<V, string>): (r: Result<map<string, V>, string>)
    ensures r.Ok? <==> forall i | 0 <= i < |xs| :: f(xs[i]).Ok?
  {
    if |xs| == 0 then Ok(map[])
    else
      var pre := xs[..|xs| - 1];
      assert forall i | 0 <= i < |pre| :: pre[i] == xs[i];
      match KeyedAll(pre, key, f)
      case Err(e) => Err(e)
      case Ok(m) =>
        match f(xs[|xs| - 1])
        case Err(e) => Err(e)
        case Ok(v) => Ok(m[key(xs[|xs| - 1]) := v])
  }

  /** The keys are those of the elements. */
  lemma {:induction false} KeyedAllDomain<X, V>(xs: seq<X>, key: X -> string, f: X -> Result<V, string>)
    requires KeyedAll(xs, key, f).Ok?
    ensures forall k :: k in KeyedAll(xs, key, f).value <==> exists i | 0 <= i < |xs| :: key(xs[i]) == k
  {
    if |xs| > 0 {
      var pre := xs[..|xs| - 1];
      assert forall i | 0 <= i < |pre| :: pre[i] == xs[i];
      KeyedAllDomain(pre, key, f);
    }
  }

  /** Each key holds the step of the last element with that key. */
  lemma {:induction false} KeyedAllValues<X, V>(xs: seq<X>, key: X -> string, f: X -> Result<V, string>)
    requires KeyedAll(xs, key, f).Ok?
    ensures forall k | k in KeyedAll(xs, key, f).value :: exists i | 0 <= i < |xs| ::
              key(xs[i]) == k && KeyedAll(xs, key, f).value[k] == f(xs[i]).value && forall j | i < j < |xs| :: key(xs[j]) != k
  {
    if |xs| > 0 {
      var pre := xs[..|xs| - 1];
      assert forall i | 0 <= i < |pre| :: pre[i] == xs[i];
      KeyedAllValues(pre, key, f);
      var m := KeyedAll(xs, key, f).value;
      var x := xs[|xs| - 1];
      forall k | k in m
        ensures exists i | 0 <= i < |xs| :: key(xs[i]) == k && m[k] == f(xs[i]).value && forall j | i < j < |xs| :: key(xs[j]) != k
      {
        if k == key(x) {
          assert key(xs[|xs| - 1]) == k && m[k] == f(xs[|xs| - 1]).value;
        } else {
          var i :| 0 <= i < |pre| && key(pre[i]) == k && KeyedAll(pre, key, f).value[k] == f(pre[i]).value
                   && forall j | i < j < |pre| :: key(pre[j]) != k;
          assert key(xs[i]) == k && m[k] == f(xs[i]).value;
        }
      }
    }
  }

  /** One more element. */
  lemma KeyedAllStep<X, V>(xs: seq<X>, x: X, key: X -> string, f: X -> Result<V, string>)
    ensures KeyedAll(xs + [x], key, f) ==
      match KeyedAll(xs, key, f)
      case Err(e) => Err(e)
      case Ok(m) => (match f(x) case Err(e) => Err(e) case Ok(v) => Ok(m[key(x) := v]))
  {
    assert (xs + [x])[..|xs|] == xs;
  }

  /** The value stored under a key is the step of the last element with that
      key. */
  lemma KeyedAllLast<X, V>(xs: seq<X>, key: X -> string, f: X -> Result<V, string>, i: nat)
    requires KeyedAll(xs, key, f).Ok? && i < |xs|
    requires forall j | i < j < |xs| :: key(xs[j]) != key(xs[i])
    ensures key(xs[i]) in KeyedAll(xs, key, f).value
    ensures KeyedAll(xs, key, f).value[key(xs[i])] == f(xs[i]).value
  {
    KeyedAllDomain(xs, key, f);
    KeyedAllValues(xs, key, f);
    var m := KeyedAll(xs, key, f).value;
    var j :| 0 <= j < |xs| && key(xs[j]) == key(xs[i]) && m[key(xs[i])] == f(xs[j]).value
             && forall k | j < k < |xs| :: key(xs[k]) != key(xs[i]);
    assert j == i;
  }

  /** The results of the steps that keep their element, in order. */
  function FilterSome<X, T>(xs: seq<X>, f: X -> Option<T>): (r: seq<T>)
    ensures |r| <= |xs|
  {
    if |xs| == 0 then []
    else
      var pre := xs[..|xs| - 1];
      assert forall i | 0 <= i < |pre| :: pre[i] == xs[i];
      var rest := FilterSome(pre, f);
      match f(xs[|xs| - 1])
      case None => rest
      case Some(y) => rest + [y]
  }

  /** Every element whose step gives a result contributes it. */
  lemma {:induction false} FilterSomeTo<X, T>(xs: seq<X>, f: X -> Option<T>, i: nat, y: T)
    requires i < |xs| && f(xs[i]) == Some(y)
    ensures y in FilterSome(xs, f)
  {
    var pre := xs[..|xs| - 1];
    assert forall j | 0 <= j < |pre| :: pre[j] == xs[j];
    if i < |pre| {
      FilterSomeTo(pre, f, i, y);
    }
  }

  /** Every result comes from the step of some element. */
  lemma {:induction false} FilterSomeFrom<X, T>(xs: seq<X>, f: X -> Option<T>, y: T)
    requires y in FilterSome(xs, f)
    ensures exists i | 0 <= i < |xs| :: f(xs[i]) == Some(y)
  {
    var pre := xs[..|xs| - 1];
    assert forall i | 0 <= i < |pre| :: pre[i] == xs[i];
    if y in FilterSome(pre, f) {
      FilterSomeFrom(pre, f, y);
      var i :| 0 <= i < |pre| && f(pre[i]) == Some(y);
      assert f(xs[i]) == Some(y);
    } else {
      assert f(xs[|xs| - 1]) == Some(y);
    }
  }

  /** One more element. */
  lemma FilterSomeStep<X, T>(xs: seq<X>, x: X, f: X -> Option<T>)
    ensures FilterSome(xs + [x], f) == match f(x) case None => FilterSome(xs, f) case Some(y) => FilterSome(xs, f) + [y]
  {
    assert (xs + [x])[..|xs|] == xs;
  }

  /** When no step drops its element, there is one result per element. */
  lemma {:induction false} FilterSomeKeepsAll<X, T>(xs: seq<X>, f: X -> Option<T>)
    requires forall i | 0 <= i < |xs| :: f(xs[i]).Some?
    ensures |FilterSome(xs, f)| == |xs|
    ensures forall i | 0 <= i < |xs| :: FilterSome(xs, f)[i] == f(xs[i]).value
  {
    if |xs| > 0 {
      var pre := xs[..|xs| - 1];
      assert forall i | 0 <= i < |pre| :: pre[i] == xs[i];
      FilterSomeKeepsAll(pre, f);
    }
  }

  /** A step that drops every element leaves nothing. */
  lemma {:induction false} FilterSomeNone<X, T>(xs: seq<X>, f: X -> Option<T>)
    requires forall i | 0 <= i < |xs| :: f(xs[i]).None?
    ensures FilterSome(xs, f) == []
  {
    if |xs| > 0 {
      var pre := xs[..|xs| - 1];
      assert forall i | 0 <= i < |pre| :: pre[i] == xs[i];
      FilterSomeNone(pre, f);
    }
  }

  /** Nothing is kept exactly when every step drops its element. */
  lemma FilterSomeEmpty<X, T>(xs: seq<X>, f: X -> Option<T>)
    ensures FilterSome(xs, f) == [] <==> forall x | x in xs :: f(x).None?
  {
    if forall x | x in xs :: f(x).None? {
      FilterSomeNone(xs, f);
    } else {
      var x :| x in xs && f(x).Some?;
      FilterSomeKept(xs, f, x);
    }
  }

  /** A kept element's result is among the results. */
  lemma {:induction false} FilterSomeKept<X, T>(xs: seq<X>, f: X -> Option<T>, x: X)
    requires x in xs && f(x).Some?
    ensures f(x).value in FilterSome(xs, f)
  {
    var pre := xs[..|xs| - 1];
    assert xs == pre + [xs[|xs| - 1]];
    if x != xs[|xs| - 1] {
      FilterSomeKept(pre, f, x);
    }
  }

  /** The loop `for x in xs: y = step(x); if y: out.append(y)`. */
  method AppendKept<X, T>(xs: seq<X>, step: X -> Option<T>, out: seq<T>) returns (r: seq<T>)
    ensures r == out + FilterSome(xs, step)
  {
    r := out;
    for i := 0 to |xs|
      invariant r == out + FilterSome(xs[..i], step)
    {
      var y := step(xs[i]);
      FilterSomeStep(xs[..i], xs[i], step);
      assert xs[..i + 1] == xs[..i] + [xs[i]];
      if y.Some? {
        r := r + [y.value];
      }
    }
    assert xs[..|xs|] == xs;
  }

  /** The loop `for x in xs: y = step(x); d[key(x)] = y`, where a step that
      raises ends the loop with its error. */
  method KeyInto<X, V>(xs: seq<X>, key: X -> string, step: X -> Result<V, string>) returns (r: Result<map<string, V>, string>)
    ensures r.Ok? <==> KeyedAll(xs, key, step).Ok?
    ensures r.Ok? ==> r.value == KeyedAll(xs, key, step).value
  {
    var m := map[];
    for i := 0 to |xs|
      invariant KeyedAll(xs[..i], key, step) == Ok(m)
    {
      KeyedAllStep(xs[..i], xs[i], key, step);
      assert xs[..i + 1] == xs[..i] + [xs[i]];
      var y := step(xs[i]);
      if y.Err? {
        return Err(y.error);
      }
      m := m[key(xs[i]) := y.value];
    }
    assert xs[..|xs|] == xs;
    return Ok(m);
  }

  /** `[x for x in xs if keep(x)]`. */
  function Where<T>(xs: seq<T>, keep: T -> bool): (r: seq<T>)
    ensures |r| <= |xs|
    ensures forall y | y in r :: y in xs && keep(y)
    ensures forall i | 0 <= i < |xs| && keep(xs[i]) :: xs[i] in r
  {
    if |xs| == 0 then []
    else
      var pre := xs[..|xs| - 1];
      var x := xs[|xs| - 1];
      assert xs == pre + [x];
      var rest := Where(pre, keep);
      if keep(x) then rest + [x] else rest
  }

  /** The positions of the elements `Where` keeps. */
  function KeptAt<T>(xs: seq<T>, keep: T -> bool): (idx: seq<nat>)
    ensures forall k | 0 <= k < |idx| :: idx[k] < |xs|
  {
    if |xs| == 0 then []
    else
      var rest := KeptAt(xs[..|xs| - 1], keep);
      if keep(xs[|xs| - 1]) then rest + [|xs| - 1] else rest
  }

  /** `Where` keeps exactly the elements that pass, in their order: its
      result is `xs` at the increasing positions `KeptAt`, and a position is
      among them exactly when its element passes. */
  lemma {:induction false} WhereSpec<T>(xs: seq<T>, keep: T -> bool)
    ensures var r := Where(xs, keep);
      var idx := KeptAt(xs, keep);
      |idx| == |r|
      && (forall k | 0 <= k < |idx| :: r[k] == xs[idx[k]])
      && (forall k, l | 0 <= k < l < |idx| :: idx[k] < idx[l])
      && (forall i | 0 <= i < |xs| :: i in idx <==> keep(xs[i]))
  {
    WhereAt(xs, keep);
    KeptAtIncreasing(xs, keep);
    KeptAtExactly(xs, keep);
  }

  lemma {:induction false} WhereAt<T>(xs: seq<T>, keep: T -> bool)
    ensures |KeptAt(xs, keep)| == |Where(xs, keep)|
    ensures forall k | 0 <= k < |KeptAt(xs, keep)| :: Where(xs, keep)[k] == xs[KeptAt(xs, keep)[k]]
  {
    if |xs| > 0 {
      var pre := xs[..|xs| - 1];
      assert forall i | 0 <= i < |pre| :: pre[i] == xs[i];
      WhereAt(pre, keep);
    }
  }

  lemma {:induction false} KeptAtIncreasing<T>(xs: seq<T>, keep: T -> bool)
    ensures forall k, l | 0 <= k < l < |KeptAt(xs, keep)| :: KeptAt(xs, keep)[k] < KeptAt(xs, keep)[l]
  {
    if |xs| > 0 {
      KeptAtIncreasing(xs[..|xs| - 1], keep);
    }
  }

  lemma {:induction false} KeptAtExactly<T>(xs: seq<T>, keep: T -> bool)
    ensures forall i | 0 <= i < |xs| :: i in KeptAt(xs, keep) <==> keep(xs[i])
  {
    if |xs| > 0 {
      var pre := xs[..|xs| - 1];
      assert forall i | 0 <= i < |pre| :: pre[i] == xs[i];
      KeptAtExactly(pre, keep);
      forall i | 0 <= i < |xs| ensures i in KeptAt(xs, keep) <==> keep(xs[i]) {
        if i < |pre| {
          assert keep(xs[i]) == keep(pre[i]);
        }
      }
    }
  }

  /** `for x in xs: y = step(x); if y: out.append(y)`, where a step may
      raise; the first error is the result. */
  function CollectSome<X, T>(xs: seq<X>, f: X -> Result<Option<T>, string>): (r: Result<seq<T>, string>) {
    if |xs| == 0 then Ok([])
    else
      match CollectSome(xs[..|xs| - 1], f)
      case Err(e) => Err(e)
      case Ok(ys) =>
        match f(xs[|xs| - 1])
        case Err(e) => Err(e)
        case Ok(None) => Ok(ys)
        case Ok(Some(y)) => Ok(ys + [y])
  }

  /** One more element of a prefix. */
  lemma CollectSomePrefix<X, T>(xs: seq<X>, i: nat, f: X -> Result<Option<T>, string>)
    requires i < |xs|
    ensures CollectSome(xs[..i + 1], f) ==
      match CollectSome(xs[..i], f)
      case Err(e) => Err(e)
      case Ok(ys) => (match f(xs[i]) case Err(e) => Err(e) case Ok(None) => Ok(ys) case Ok(Some(y)) => Ok(ys + [y]))
  {
    assert xs[..i + 1][..i] == xs[..i];
  }

  /** The loop succeeds exactly when no step raises, and then it holds
      exactly the values the steps keep. */
  lemma {:induction false} CollectSomeSpec<X, T>(xs: seq<X>, f: X -> Result<Option<T>, string>)
    ensures CollectSome(xs, f).Ok? <==> forall i | 0 <= i < |xs| :: f(xs[i]).Ok?
    ensures CollectSome(xs, f).Ok? ==>
      (forall i | 0 <= i < |xs| && f(xs[i]).value.Some? :: f(xs[i]).value.value in CollectSome(xs, f).value)
      && forall y | y in CollectSome(xs, f).value :: exists i | 0 <= i < |xs| :: f(xs[i]) == Ok(Some(y))
  {
    if |xs| > 0 {
      var pre := xs[..|xs| - 1];
      assert forall i | 0 <= i < |pre| :: pre[i] == xs[i];
      CollectSomeSpec(pre, f);
      if CollectSome(xs, f).Ok? {
        var ys := CollectSome(xs, f).value;
        forall y | y in ys
          ensures exists i | 0 <= i < |xs| :: f(xs[i]) == Ok(Some(y))
        {
          if y in CollectSome(pre, f).value {
            var i :| 0 <= i < |pre| && f(pre[i]) == Ok(Some(y));
            assert f(xs[i]) == Ok(Some(y));
          }
        }
      }
    }
  }

  /** Once a prefix raises, the whole loop raises the same. */
  lemma {:induction false} CollectSomeErr<X, T>(xs: seq<X>, i: nat, f: X -> Result<Option<T>, string>)
    requires i <= |xs| && CollectSome(xs[..i], f).Err?
    ensures CollectSome(xs, f) == CollectSome(xs[..i], f)
    decreases |xs| - i
  {
    if i < |xs| {
      var pre := xs[..|xs| - 1];
      assert pre[..i] == xs[..i];
      CollectSomeErr(pre, i, f);
    } else {
      assert xs[..i] == xs;
    }
  }

  /** Whether the step keeps a pair with key `k` for `x`. */
  predicate Gives<X, K(==), V>(f: X -> Result<Option<(K, V)>, string>, x: X, k: K) {
    f(x).Ok? && f(x).value.Some? && f(x).value.value.0 == k
  }

  /** Storing the kept pairs: a key is stored exactly when some step kept
      a pair with it. */
  lemma CollectStoreKeys<X, K, V>(xs: seq<X>, f: X -> Result<Option<(K, V)>, string>)
    requires CollectSome(xs, f).Ok?
    ensures forall k :: k in Store(map[], CollectSome(xs, f).value) <==> exists i | 0 <= i < |xs| :: Gives(f, xs[i], k)
  {
    var ps := CollectSome(xs, f).value;
    CollectSomeSpec(xs, f);
    StoreSpec(map[], ps);
    forall k ensures k in Store(map[], ps) <==> exists i | 0 <= i < |xs| :: Gives(f, xs[i], k) {
      if k in Store(map[], ps) {
        var j :| 0 <= j < |ps| && ps[j].0 == k;
        assert ps[j] in ps;
        var i :| 0 <= i < |xs| && f(xs[i]) == Ok(Some(ps[j]));
        assert Gives(f, xs[i], k);
      }
      if exists i | 0 <= i < |xs| :: Gives(f, xs[i], k) {
        var i :| 0 <= i < |xs| && Gives(f, xs[i], k);
        var j :| 0 <= j < |ps| && ps[j] == f(xs[i]).value.value;
        assert ps[j].0 == k;
      }
    }
  }

  /** A stored key holds the value of the last step that kept a pair with
      it. */
  lemma {:induction false} CollectStoreLast<X, K, V>(xs: seq<X>, f: X -> Result<Option<(K, V)>, string>, i: nat)
    requires CollectSome(xs, f).Ok? && i < |xs| && f(xs[i]).Ok? && f(xs[i]).value.Some?
    requires forall j | i < j < |xs| :: !Gives(f, xs[j], f(xs[i]).value.value.0)
    ensures var p := f(xs[i]).value.value;
      p.0 in Store(map[], CollectSome(xs, f).value) && Store(map[], CollectSome(xs, f).value)[p.0] == p.1
  {
    var pre := xs[..|xs| - 1];
    var last := xs[|xs| - 1];
    var ps := CollectSome(pre, f).value;
    if i == |xs| - 1 {
      StoreStep(map[], ps, f(xs[i]).value.value);
    } else {
      assert forall j | i < j < |pre| :: pre[j] == xs[j];
      CollectStoreLast(pre, f, i);
      assert !Gives(f, last, f(xs[i]).value.value.0);
      if f(last).value.Some? {
        StoreStep(map[], ps, f(last).value.value);
      }
    }
  }

  /** What every kept step value satisfies, every collected value does. */
  lemma CollectSomeKeeps<X, T>(xs: seq<X>, f: X -> Result<Option<T>, string>, p: T -> bool)
    requires forall x | x in xs && f(x).Ok? && f(x).value.Some? :: p(f(x).value.value)
    requires CollectSome(xs, f).Ok?
    ensures forall y | y in CollectSome(xs, f).value :: p(y)
  {
    CollectSomeSpec(xs, f);
    forall y | y in CollectSome(xs, f).value ensures p(y) {
      var i :| 0 <= i < |xs| && f(xs[i]) == Ok(Some(y));
      assert xs[i] in xs;
    }
  }

  /** When a step keeps exactly the elements that pass `keep`, the loop
      yields one result per passing element, in their order. */
  lemma {:induction false} FilterSomeAsWhere<X, T>(xs: seq<X>, f: X -> Option<T>, keep: X -> bool)
    requires forall x | x in xs :: f(x).Some? <==> keep(x)
    ensures |FilterSome(xs, f)| == |Where(xs, keep)|
    ensures forall i | 0 <= i < |Where(xs, keep)| :: f(Where(xs, keep)[i]) == Some(FilterSome(xs, f)[i])
  {
    if |xs| > 0 {
      var pre := xs[..|xs| - 1];
      var x := xs[|xs| - 1];
      assert xs == pre + [x];
      assert forall y | y in pre :: y in xs;
      FilterSomeAsWhere(pre, f, keep);
    }
  }

  /** `d[k] = v` for every pair in order, on top of the entries of `m`. */
  function Store<K, V>(m: map<K, V>, ps: seq<(K, V)>): (r: map<K, V>)
  {
    if |ps| == 0 then m
    else Store(m, ps[..|ps| - 1])[ps[|ps| - 1].0 := ps[|ps| - 1].1]
  }

  /** The keys are those of `m` and of the pairs; a paired key holds the
      value of its last pair, any other key its value in `m`. */
  lemma {:induction false} StoreSpec<K, V>(m: map<K, V>, ps: seq<(K, V)>)
    ensures forall k :: k in Store(m, ps) <==> k in m || exists i | 0 <= i < |ps| :: ps[i].0 == k
    ensures forall i | 0 <= i < |ps| && (forall j | i < j < |ps| :: ps[j].0 != ps[i].0) ::
              Store(m, ps)[ps[i].0] == ps[i].1
    ensures forall k | k in m && (forall i | 0 <= i < |ps| :: ps[i].0 != k) :: Store(m, ps)[k] == m[k]
  {
    if |ps| > 0 {
      var pre := ps[..|ps| - 1];
      assert forall i | 0 <= i < |pre| :: pre[i] == ps[i];
      StoreSpec(m, pre);
    }
  }

  /** One more pair. */
  lemma StoreStep<K, V>(m: map<K, V>, ps: seq<(K, V)>, p: (K, V))
    ensures Store(m, ps + [p]) == Store(m, ps)[p.0 := p.1]
  {
    assert (ps + [p])[..|ps|] == ps;
  }

  /** `list(reversed(s))`. */
  function Reversed<T>(s: seq<T>): (r: seq<T>)
    ensures |r| == |s| && forall i | 0 <= i < |s| :: r[i] == s[|s| - 1 - i]
  {
    seq(|s|, i requires 0 <= i < |s| => s[|s| - 1 - i])
  }

  /** The results of the steps before the first one that fails. */
  function Leading<X, T>(xs: seq<X>, f: X -> Option<T>): (r: seq<T>)
    ensures |r| <= |xs|
    ensures forall i | 0 <= i < |r| :: f(xs[i]) == Some(r[i])
    ensures |r| < |xs| ==> f(xs[|r|]).None?
    decreases |xs|
  {
    if |xs| == 0 then []
    else match f(xs[0])
      case None => []
      case Some(y) => [y] + Leading(xs[1..], f)
  }

  /** Storing the pairs that every step produced: a key is stored exactly
      when some step produced it, with the value of the last step that
      did. */
  lemma MapAllStoreSpec<X, K, V>(xs: seq<X>, f: X -> Result<(K, V), string>)
    requires MapAll(xs, f).Ok?
    ensures forall i | 0 <= i < |xs| :: f(xs[i]).Ok?
    ensures var m := Store(map[], MapAll(xs, f).value);
      (forall k :: k in m <==> exists i | 0 <= i < |xs| :: f(xs[i]).value.0 == k)
      && (forall i | 0 <= i < |xs| :: f(xs[i]).value.0 in m)
      && (forall i | 0 <= i < |xs| && (forall j | i < j < |xs| :: f(xs[j]).value.0 != f(xs[i]).value.0) ::
            m[f(xs[i]).value.0] == f(xs[i]).value.1)
  {
    var ps := MapAll(xs, f).value;
    MapAllSpec(xs, f);
    StoreSpec(map[], ps);
    var m := Store(map[], ps);
    forall k ensures k in m <==> exists i | 0 <= i < |xs| :: f(xs[i]).value.0 == k {
      if k in m {
        var i :| 0 <= i < |ps| && ps[i].0 == k;
        assert f(xs[i]).value.0 == k;
      }
      if exists i | 0 <= i < |xs| :: f(xs[i]).value.0 == k {
        var i :| 0 <= i < |xs| && f(xs[i]).value.0 == k;
        assert ps[i].0 == k;
      }
    }
  }

  /** Step results run in order, their messages concatenated; the first
      step that raises ends the run with its error. */
  function Gather<M>(rs: seq<Result<seq<M>, string>>): (r: Result<seq<M>, string>) {
    if |rs| == 0 then Ok([])
    else
      match Gather(rs[..|rs| - 1])
      case Err(e) => Err(e)
      case Ok(ms) =>
        match rs[|rs| - 1]
        case Err(e) => Err(e)
        case Ok(more) => Ok(ms + more)
  }

  /** One more step of a prefix. */
  lemma GatherPrefix<M>(rs: seq<Result<seq<M>, string>>, i: nat)
    requires i < |rs|
    ensures Gather(rs[..i]).Err? ==> Gather(rs[..i + 1]) == Gather(rs[..i])
    ensures Gather(rs[..i]).Ok? && rs[i].Err? ==> Gather(rs[..i + 1]) == Err(rs[i].error)
    ensures Gather(rs[..i]).Ok? && rs[i].Ok? ==> Gather(rs[..i + 1]) == Ok(Gather(rs[..i]).value + rs[i].value)
  {
    assert rs[..i + 1][..i] == rs[..i];
  }

  /** Once a prefix raises, the whole run raises the same. */
  lemma {:induction false} GatherErr<M>(rs: seq<Result<seq<M>, string>>, i: nat)
    requires i <= |rs| && Gather(rs[..i]).Err?
    ensures Gather(rs) == Gather(rs[..i])
    decreases |rs| - i
  {
    if i < |rs| {
      var pre := rs[..|rs| - 1];
      assert pre[..i] == rs[..i];
      GatherErr(pre, i);
    } else {
      assert rs[..i] == rs;
    }
  }

  /** The run succeeds exactly when no step raises; it then holds every
      step's messages and nothing else; when it raises, it raises the
      error of the first step that does. */
  lemma {:induction false} GatherSpec<M>(rs: seq<Result<seq<M>, string>>)
    ensures Gather(rs).Ok? <==> forall i | 0 <= i < |rs| :: rs[i].Ok?
    ensures Gather(rs).Ok? ==>
      (forall i, m | 0 <= i < |rs| && rs[i].Ok? && m in rs[i].value :: m in Gather(rs).value)
      && forall m | m in Gather(rs).value :: exists i | 0 <= i < |rs| :: rs[i].Ok? && m in rs[i].value
    ensures Gather(rs).Err? ==>
      exists i | 0 <= i < |rs| :: rs[i].Err? && Gather(rs) == rs[i] && forall j | 0 <= j < i :: rs[j].Ok?
  {
    if |rs| > 0 {
      var n := |rs| - 1;
      var pre := rs[..n];
      assert forall i | 0 <= i < |pre| :: pre[i] == rs[i];
      GatherSpec(pre);
      if Gather(rs).Ok? {
        var ms := Gather(rs).value;
        assert ms == Gather(pre).value + rs[n].value;
        forall m | m in ms
          ensures exists i | 0 <= i < |rs| :: rs[i].Ok? && m in rs[i].value
        {
          if m in Gather(pre).value {
            var i :| 0 <= i < |pre| && pre[i].Ok? && m in pre[i].value;
            assert rs[i].Ok? && m in rs[i].value;
          } else {
            assert m in rs[n].value;
          }
        }
      } else if Gather(pre).Err? {
        var i :| 0 <= i < |pre| && pre[i].Err? && Gather(pre) == pre[i] && forall j | 0 <= j < i :: pre[j].Ok?;
        assert rs[i].Err? && Gather(rs) == rs[i] && forall j | 0 <= j < i :: rs[j].Ok?;
      } else {
        assert rs[n].Err? && Gather(rs) == rs[n];
      }
    }
  }

  /** Checks run in order until one does not pass: the first outcome that
      is not `Ok(true)` (a failure or a raise), or `Ok(true)` when all pass. */
  function Every(rs: seq<Result<bool, string>>): (r: Result<bool, string>) {
    if |rs| == 0 then Ok(true)
    else if rs[0] == Ok(true) then Every(rs[1..])
    else rs[0]
  }

  /** All checks pass exactly when the run does; otherwise the run ends
      with the first check that does not pass. */
  lemma {:induction false} EverySpec(rs: seq<Result<bool, string>>)
    ensures Every(rs) == Ok(true) <==> forall i | 0 <= i < |rs| :: rs[i] == Ok(true)
    ensures Every(rs) != Ok(true) ==>
      exists i | 0 <= i < |rs| :: Every(rs) == rs[i] && forall j | 0 <= j < i :: rs[j] == Ok(true)
  {
    if |rs| > 0 && rs[0] == Ok(true) {
      var tail := rs[1..];
      EverySpec(tail);
      assert forall i | 1 <= i < |rs| :: rs[i] == tail[i - 1];
      if Every(rs) != Ok(true) {
        var i :| 0 <= i < |tail| && Every(tail) == tail[i] && forall j | 0 <= j < i :: tail[j] == Ok(true);
        assert Every(rs) == rs[i + 1];
        assert forall j | 0 <= j < i + 1 :: rs[j] == Ok(true) by {
          forall j | 0 <= j < i + 1 ensures rs[j] == Ok(true) {
            if j > 0 {
              assert rs[j] == tail[j - 1];
            }
          }
        }
      }
    }
  }

  /** A failing check, with every check before it passing, is the run's
      outcome. */
  lemma EveryFirst(rs: seq<Result<bool, string>>, i: nat)
    requires i < |rs| && rs[i] != Ok(true) && forall j | 0 <= j < i :: rs[j] == Ok(true)
    ensures Every(rs) == rs[i]
  {
    EverySpec(rs);
  }

  /** A check that fails without raising, with no raise before it, makes
      the run fail without raising. */
  lemma EveryFalse(rs: seq<Result<bool, string>>, i: nat)
    requires i < |rs| && rs[i] == Ok(false) && forall j | 0 <= j < i :: rs[j].Ok?
    ensures Every(rs) == Ok(false)
  {
    EverySpec(rs);
    var k :| 0 <= k < |rs| && Every(rs) == rs[k] && forall j | 0 <= j < k :: rs[j] == Ok(true);
    if k < i {
      assert rs[k].Ok? && !rs[k].value;
    }
  }
}
