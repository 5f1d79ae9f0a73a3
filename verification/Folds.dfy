/**
 Sums over sequences and over maps. A Go map is visited in an unspecified order, so every
 loop over one picks its next key nondeterministically; `SumOver` is the sum such a loop
 accumulates, and `SumAlong` says that every visiting order gives that same sum.
 */
module Folds {
  import opened Arithmetic

  function Total<T>(s: seq<T>, f: T -> int): int {
    if s == [] then 0 else f(s[0]) + Total(s[1..], f)
  }

  lemma {:induction false} TotalAppend<T>(s: seq<T>, x: T, f: T -> int)
    ensures Total(s + [x], f) == Total(s, f) + f(x)
  {
    if s == [] {
      assert [x][1..] == [];
    } else {
      assert (s + [x])[1..] == s[1..] + [x];
      TotalAppend(s[1..], x, f);
    }
  }

  ghost function SumOver<K, V>(m: map<K, V>, f: V -> int): int
    decreases m.Keys
  {
    if m.Keys == {} then 0 else
      var k :| k in m;
      f(m[k]) + SumOver(m - {k}, f)
  }

  /** Any key may be taken first. */
  lemma {:induction false} SumOverRemove<K, V>(m: map<K, V>, f: V -> int, k: K)
    requires k in m
    ensures SumOver(m, f) == f(m[k]) + SumOver(m - {k}, f)
    decreases m.Keys
  {
    var p :| p in m && SumOver(m, f) == f(m[p]) + SumOver(m - {p}, f);
    if p != k {
      SumOverRemove(m - {p}, f, k);
      SumOverRemove(m - {k}, f, p);
      assert m - {p} - {k} == m - {k} - {p};
    }
  }

  /** Storing under a key changes the sum by the new term minus the one it replaces. */
  lemma SumOverUpdate<K, V>(m: map<K, V>, f: V -> int, k: K, v: V)
    ensures SumOver(m[k := v], f) == SumOver(m, f) + f(v) - (if k in m then f(m[k]) else 0)
  {
    SumOverRemove(m[k := v], f, k);
    assert m[k := v] - {k} == m - {k};
    if k in m {
      SumOverRemove(m, f, k);
    } else {
      assert m - {k} == m;
    }
  }

  /** Sums compare, and are equal, as their terms are. */
  lemma {:induction false} SumOverMonotone<K, V>(m: map<K, V>, f: V -> int, g: V -> int)
    requires forall k :: k in m ==> f(m[k]) <= g(m[k])
    ensures SumOver(m, f) <= SumOver(m, g)
    ensures (exists k :: k in m && f(m[k]) < g(m[k])) ==> SumOver(m, f) < SumOver(m, g)
    decreases m.Keys
  {
    if m.Keys != {} {
      var k := if exists k :: k in m && f(m[k]) < g(m[k])
               then var k :| k in m && f(m[k]) < g(m[k]); k
               else var k :| k in m; k;
      SumOverRemove(m, f, k);
      SumOverRemove(m, g, k);
      SumOverMonotone(m - {k}, f, g);
    }
  }

  /** Sums add term by term. */
  lemma {:induction false} SumOverAdd<K, V>(m: map<K, V>, h: V -> int, f: V -> int, g: V -> int)
    requires forall k :: k in m ==> h(m[k]) == f(m[k]) + g(m[k])
    ensures SumOver(m, h) == SumOver(m, f) + SumOver(m, g)
    decreases m.Keys
  {
    if m.Keys != {} {
      var k :| k in m;
      SumOverRemove(m, f, k);
      SumOverRemove(m, g, k);
      SumOverRemove(m, h, k);
      SumOverAdd(m - {k}, h, f, g);
    }
  }

  /** A sum whose terms are all `c`. */
  lemma {:induction false} SumOverConstant<K, V>(m: map<K, V>, f: V -> int, c: int)
    requires forall k :: k in m ==> f(m[k]) == c
    ensures SumOver(m, f) == c * |m|
    decreases m.Keys
  {
    if m.Keys != {} {
      var k :| k in m;
      SumOverRemove(m, f, k);
      SumOverConstant(m - {k}, f, c);
      CountRemove(m, k);
      Distribute(c, |m - {k}|, 1);
    }
  }

  /** A common factor comes out of a sum. */
  lemma {:induction false} SumOverScale<K, V>(m: map<K, V>, h: V -> int, a: int, f: V -> int)
    requires forall k :: k in m ==> h(m[k]) == a * f(m[k])
    ensures SumOver(m, h) == a * SumOver(m, f)
    decreases m.Keys
  {
    if m.Keys != {} {
      var k :| k in m;
      var rest := m - {k};
      SumOverRemove(m, f, k);
      SumOverRemove(m, h, k);
      SumOverScale(rest, h, a, f);
      Distribute(a, f(m[k]), SumOver(rest, f));
    }
  }

  /** A sum of ones and zeros counts the keys that have a one. */
  lemma {:induction false} CountIsCardinality<K, V>(m: map<K, V>, bit: V -> int, keys: set<K>)
    requires keys <= m.Keys
    requires forall k :: k in m ==> bit(m[k]) == if k in keys then 1 else 0
    ensures SumOver(m, bit) == |keys|
    decreases m.Keys
  {
    if m.Keys == {} {
      assert keys == {};
    } else {
      var k :| k in m;
      SumOverRemove(m, bit, k);
      CountIsCardinality(m - {k}, bit, keys - {k});
      assert k in keys ==> |keys| == |keys - {k}| + 1;
      assert k !in keys ==> keys - {k} == keys;
    }
  }

  lemma CountRemove<K, V>(m: map<K, V>, k: K)
    requires k in m
    ensures |m| == |m - {k}| + 1
  {
    assert (m - {k}).Keys == m.Keys - {k};
  }

  lemma SumOfTwo<K, V>(m: map<K, V>, f: V -> int, k: K, l: K)
    requires k != l && m.Keys == {k, l}
    ensures |m| == 2
    ensures SumOver(m, f) == f(m[k]) + f(m[l])
  {
    SumOverRemove(m, f, k);
    SumOverRemove(m - {k}, f, l);
    CountRemove(m, k);
    CountRemove(m - {k}, l);
  }

  /** `order` visits every key of `m` exactly once. */
  ghost predicate Visits<K(!new), V>(order: seq<K>, m: map<K, V>) {
    && (forall i, j :: 0 <= i < j < |order| ==> order[i] != order[j])
    && (forall k :: k in order <==> k in m)
  }

  /** The keys of a map can always be visited in some order. */
  lemma {:induction false} SomeOrder<K(!new), V>(m: map<K, V>) returns (order: seq<K>)
    ensures Visits(order, m)
    decreases m.Keys
  {
    if m.Keys == {} {
      order := [];
    } else {
      var k :| k in m;
      var rest := SomeOrder(m - {k});
      assert forall x :: x in rest <==> x in m - {k};
      order := [k] + rest;
      assert forall x :: x in order <==> x == k || x in rest;
      assert forall i :: 0 <= i < |rest| ==> rest[i] in rest;
    }
  }

  /** Whatever order the keys are visited in, the terms add up to `SumOver`. */
  lemma {:induction false} SumAlong<K(!new), V, T>(order: seq<K>, m: map<K, V>, terms: seq<T>, g: T -> int, f: V -> int)
    requires Visits(order, m)
    requires |terms| == |order|
    requires forall i :: 0 <= i < |order| ==> g(terms[i]) == f(m[order[i]])
    ensures |terms| == |m|
    ensures Total(terms, g) == SumOver(m, f)
    decreases |order|
  {
    if order == [] {
      assert m.Keys == {};
    } else {
      var k := order[0];
      assert k in order && k in m;
      SumOverRemove(m, f, k);
      var rest := m - {k};
      assert rest.Keys == m.Keys - {k};
      forall x ensures x in order[1..] <==> x in rest {
        if x in rest { assert x in order; }
        if x in order[1..] { assert x in order; }
      }
      SumAlong(order[1..], rest, terms[1..], g, f);
    }
  }
}
