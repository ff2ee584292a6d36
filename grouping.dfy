/** What a `defaultdict(list)` holds after a sequence of `d[k].append(v)`
    calls, converted with `dict(...)`: the keys appended to, each with its
    values in the order they were appended. The matcher's three joins
    all build their maps this way. */
module Grouping {

  /** The values appended under `k`, in order. */
  function ValuesAt<K(==), V>(ps: seq<(K, V)>, k: K): seq<V> {
    if ps == [] then []
    else ValuesAt(ps[..|ps| - 1], k) + (if ps[|ps| - 1].0 == k then [ps[|ps| - 1].1] else [])
  }

  function KeysOf<K, V>(ps: seq<(K, V)>): set<K> {
    set i | 0 <= i < |ps| :: ps[i].0
  }

  /** The map built by appending every pair of `ps`, in order. */
  function GroupPairs<K(==), V>(ps: seq<(K, V)>): (m: map<K, seq<V>>)
    ensures m.Keys == KeysOf(ps)
  {
    map k | k in KeysOf(ps) :: ValuesAt(ps, k)
  }

  /** `d[k].append(v)` on a `defaultdict(list)`. */
  function Append<K, V>(m: map<K, seq<V>>, k: K, v: V): (m': map<K, seq<V>>)
    ensures m'.Keys == m.Keys + {k}
    ensures m'[k] == (if k in m then m[k] else []) + [v]
    ensures forall k' :: k' in m && k' != k ==> m'[k'] == m[k']
  {
    m[k := (if k in m then m[k] else []) + [v]]
  }

  /** Every pair `(k, v)` tagged with the same key `k`. */
  function Tagged<K, V>(k: K, vs: seq<V>): (ps: seq<(K, V)>)
    ensures |ps| == |vs|
    ensures forall i :: 0 <= i < |vs| ==> ps[i] == (k, vs[i])
  {
    seq(|vs|, i requires 0 <= i < |vs| => (k, vs[i]))
  }

  /** The elements `r` of `rs` related to `l`, in order: what an inner loop
      that appends each `r` passing its test collects for one `l`. */
  function Matching<L, R>(l: L, rs: seq<R>, rel: (L, R) -> bool): (r: seq<R>)
    ensures |r| <= |rs|
  {
    if rs == [] then []
    else Matching(l, rs[..|rs| - 1], rel) + (if rel(l, rs[|rs| - 1]) then [rs[|rs| - 1]] else [])
  }

  /** The pairs a nested loop appends: for each `l` in order, every related
      `r` in order, under the key `key(l)`. */
  function JoinPairs<L, R, K>(ls: seq<L>, rs: seq<R>, key: L -> K, rel: (L, R) -> bool): (ps: seq<(K, R)>)
  {
    if ls == [] then []
    else
      var l := ls[|ls| - 1];
      JoinPairs(ls[..|ls| - 1], rs, key, rel) + Tagged(key(l), Matching(l, rs, rel))
  }

  /** Taking one more element of `s` appends it. */
  lemma TakeOneMore<T>(s: seq<T>, j: nat)
    requires j < |s|
    ensures s[..j + 1] == s[..j] + [s[j]]
  {
  }

  predicate NoDuplicates<T(==)>(s: seq<T>) {
    forall i, j :: 0 <= i < j < |s| ==> s[i] != s[j]
  }

  // ---------------------------------------------------------------------
  // Building the map one append at a time
  // ---------------------------------------------------------------------

  lemma ValuesAtSnoc<K, V>(ps: seq<(K, V)>, p: (K, V), k: K)
    ensures ValuesAt(ps + [p], k) == ValuesAt(ps, k) + (if p.0 == k then [p.1] else [])
  {
    assert (ps + [p])[..|ps + [p]| - 1] == ps;
  }

  lemma {:induction false} ValuesAtOfOtherKey<K, V>(ps: seq<(K, V)>, k: K)
    requires k !in KeysOf(ps)
    ensures ValuesAt(ps, k) == []
  {
    if ps != [] {
      var init := ps[..|ps| - 1];
      assert KeysOf(init) <= KeysOf(ps) by {
        forall k' | k' in KeysOf(init) ensures k' in KeysOf(ps) {
          var i :| 0 <= i < |init| && init[i].0 == k';
          assert ps[i].0 == k';
        }
      }
      ValuesAtOfOtherKey(init, k);
      assert ps[|ps| - 1].0 in KeysOf(ps);
    }
  }

  /** One `append` extends the map exactly as one more pair extends `ps`:
      this is the step every grouping loop takes. */
  lemma GroupPairsSnoc<K, V>(ps: seq<(K, V)>, k: K, v: V)
    ensures GroupPairs(ps + [(k, v)]) == Append(GroupPairs(ps), k, v)
  {
    var ps' := ps + [(k, v)];
    assert KeysOf(ps') == KeysOf(ps) + {k} by {
      forall k' | k' in KeysOf(ps') ensures k' in KeysOf(ps) + {k} {
        var i :| 0 <= i < |ps'| && ps'[i].0 == k';
        if i < |ps| {
          assert ps[i].0 == k';
        }
      }
      forall k' | k' in KeysOf(ps) ensures k' in KeysOf(ps') {
        var i :| 0 <= i < |ps| && ps[i].0 == k';
        assert ps'[i].0 == k';
      }
      assert ps'[|ps|].0 == k;
    }
    forall k' | k' in KeysOf(ps')
      ensures GroupPairs(ps')[k'] == Append(GroupPairs(ps), k, v)[k']
    {
      ValuesAtSnoc(ps, (k, v), k');
      if k' == k && k !in KeysOf(ps) {
        ValuesAtOfOtherKey(ps, k);
      }
    }
  }

  lemma MatchingSnoc<L, R>(l: L, rs: seq<R>, r: R, rel: (L, R) -> bool)
    ensures Matching(l, rs + [r], rel) == Matching(l, rs, rel) + (if rel(l, r) then [r] else [])
  {
    assert (rs + [r])[..|rs + [r]| - 1] == rs;
  }

  /** The inner-loop step of a nested-loop join: one more candidate `r`
      for the current `l` is appended under `key(l)` exactly when related. */
  lemma {:induction false} JoinInnerStep<L, R, K>(done: seq<(K, R)>, key: K, l: L, rs: seq<R>, r: R, rel: (L, R) -> bool)
    ensures rel(l, r) ==>
      GroupPairs(done + Tagged(key, Matching(l, rs + [r], rel)))
        == Append(GroupPairs(done + Tagged(key, Matching(l, rs, rel))), key, r)
    ensures !rel(l, r) ==>
      GroupPairs(done + Tagged(key, Matching(l, rs + [r], rel)))
        == GroupPairs(done + Tagged(key, Matching(l, rs, rel)))
  {
    MatchingSnoc(l, rs, r, rel);
    var before := done + Tagged(key, Matching(l, rs, rel));
    var after := done + Tagged(key, Matching(l, rs + [r], rel));
    if rel(l, r) {
      assert after == before + [(key, r)];
      GroupPairsSnoc(before, key, r);
    } else {
      assert after == before;
    }
  }

  /** Before the inner loop runs, nothing has been added for `l`. */
  lemma JoinInnerStart<L, R, K>(done: seq<(K, R)>, key: K, l: L, rs: seq<R>, rel: (L, R) -> bool)
    ensures done + Tagged(key, Matching(l, rs[..0], rel)) == done
  {
    assert rs[..0] == [];
  }

  /** An `l` related to no candidate adds nothing. */
  lemma JoinNothing<L, R, K>(done: seq<(K, R)>, key: K, l: L, rs: seq<R>, rel: (L, R) -> bool)
    requires forall i :: 0 <= i < |rs| ==> !rel(l, rs[i])
    ensures done + Tagged(key, Matching(l, rs, rel)) == done
  {
    MatchingNone(l, rs, rel);
  }

  /** The outer-loop step: the pairs of one more `l` follow the earlier ones. */
  lemma JoinPairsSnoc<L, R, K>(ls: seq<L>, l: L, rs: seq<R>, key: L -> K, rel: (L, R) -> bool)
    ensures JoinPairs(ls + [l], rs, key, rel) == JoinPairs(ls, rs, key, rel) + Tagged(key(l), Matching(l, rs, rel))
  {
    assert (ls + [l])[..|ls + [l]| - 1] == ls;
  }

  /** An `l` related to nothing adds no pair, wherever it sits among the others. */
  lemma {:induction false} JoinPairsSkip<L, R, K>(ls1: seq<L>, l: L, ls2: seq<L>, rs: seq<R>, key: L -> K, rel: (L, R) -> bool)
    requires Matching(l, rs, rel) == []
    ensures JoinPairs(ls1 + [l] + ls2, rs, key, rel) == JoinPairs(ls1 + ls2, rs, key, rel)
  {
    if ls2 == [] {
      JoinPairsSnoc(ls1, l, rs, key, rel);
      assert ls1 + [l] + ls2 == ls1 + [l];
      assert ls1 + ls2 == ls1;
      assert Tagged(key(l), Matching(l, rs, rel)) == [];
    } else {
      var init2, last := ls2[..|ls2| - 1], ls2[|ls2| - 1];
      var with, without := ls1 + [l] + init2, ls1 + init2;
      assert ls1 + [l] + ls2 == with + [last];
      assert ls1 + ls2 == without + [last];
      var tail := Tagged(key(last), Matching(last, rs, rel));
      calc {
        JoinPairs(with + [last], rs, key, rel);
        { JoinPairsSnoc(with, last, rs, key, rel); }
        JoinPairs(with, rs, key, rel) + tail;
        { JoinPairsSkip(ls1, l, init2, rs, key, rel); }
        JoinPairs(without, rs, key, rel) + tail;
        { JoinPairsSnoc(without, last, rs, key, rel); }
        JoinPairs(without + [last], rs, key, rel);
      }
    }
  }

  lemma {:induction false} MatchingNone<L, R>(l: L, rs: seq<R>, rel: (L, R) -> bool)
    requires forall i :: 0 <= i < |rs| ==> !rel(l, rs[i])
    ensures Matching(l, rs, rel) == []
  {
    if rs != [] {
      MatchingNone(l, rs[..|rs| - 1], rel);
    }
  }

  // ---------------------------------------------------------------------
  // What the map holds
  // ---------------------------------------------------------------------

  /** An element is kept exactly when it is in `rs` and related to `l`. */
  lemma {:induction false} MatchingMember<L, R>(l: L, rs: seq<R>, rel: (L, R) -> bool, r: R)
    ensures r in Matching(l, rs, rel) <==> r in rs && rel(l, r)
  {
    if rs != [] {
      var init := rs[..|rs| - 1];
      MatchingMember(l, init, rel, r);
      assert rs == init + [rs[|rs| - 1]];
    }
  }

  /** A pair is emitted exactly when some `l` with that key is related to a
      candidate `r`. */
  lemma {:induction false} JoinPairsMember<L, R, K>(ls: seq<L>, rs: seq<R>, key: L -> K, rel: (L, R) -> bool, k: K, r: R)
    ensures (k, r) in JoinPairs(ls, rs, key, rel)
        <==> r in rs && exists i :: 0 <= i < |ls| && key(ls[i]) == k && rel(ls[i], r)
  {
    if ls != [] {
      var init, l := ls[..|ls| - 1], ls[|ls| - 1];
      JoinPairsMember(init, rs, key, rel, k, r);
      MatchingMember(l, rs, rel, r);
      var tail := Tagged(key(l), Matching(l, rs, rel));
      assert (k, r) in tail <==> key(l) == k && r in Matching(l, rs, rel) by {
        if (k, r) in tail {
          var j :| 0 <= j < |tail| && tail[j] == (k, r);
        }
        if key(l) == k && r in Matching(l, rs, rel) {
          var j :| 0 <= j < |Matching(l, rs, rel)| && Matching(l, rs, rel)[j] == r;
          assert tail[j] == (k, r);
        }
      }
      if (exists i :: 0 <= i < |ls| && key(ls[i]) == k && rel(ls[i], r)) {
        var i :| 0 <= i < |ls| && key(ls[i]) == k && rel(ls[i], r);
        if i < |init| {
          assert init[i] == ls[i];
        }
      }
      if (exists i :: 0 <= i < |init| && key(init[i]) == k && rel(init[i], r)) {
        var i :| 0 <= i < |init| && key(init[i]) == k && rel(init[i], r);
        assert ls[i] == init[i];
      }
    }
  }

  /** A value sits in the group of `k` exactly when the pair `(k, v)` was
      appended. */
  lemma {:induction false} ValuesAtMember<K, V>(ps: seq<(K, V)>, k: K, v: V)
    ensures v in ValuesAt(ps, k) <==> (k, v) in ps
  {
    if ps != [] {
      var init := ps[..|ps| - 1];
      ValuesAtMember(init, k, v);
      assert ps == init + [ps[|ps| - 1]];
    }
  }

  /** No group is empty: a key is present only because something was
      appended under it. */
  lemma GroupsNonEmpty<K, V>(ps: seq<(K, V)>, k: K)
    requires k in GroupPairs(ps)
    ensures GroupPairs(ps)[k] != []
  {
    var i :| 0 <= i < |ps| && ps[i].0 == k;
    var v := ps[i].1;
    assert ps[i] == (k, v);
    ValuesAtOfPresentKey(ps, k, i);
  }

  lemma {:induction false} ValuesAtOfPresentKey<K, V>(ps: seq<(K, V)>, k: K, i: nat)
    requires i < |ps| && ps[i].0 == k
    ensures ValuesAt(ps, k) != []
  {
    var init := ps[..|ps| - 1];
    if i < |ps| - 1 {
      assert init[i] == ps[i];
      ValuesAtOfPresentKey(init, k, i);
    }
  }

  /** Number of times `k` occurs in `keys`. */
  function Count<K(==)>(keys: seq<K>, k: K): nat {
    if keys == [] then 0 else (if keys[0] == k then 1 else 0) + Count(keys[1..], k)
  }

  /** The sizes of the groups of `ps` listed by `keys`. */
  function SumAt<K(==), V>(ps: seq<(K, V)>, keys: seq<K>): nat {
    if keys == [] then 0 else |ValuesAt(ps, keys[0])| + SumAt(ps, keys[1..])
  }

  /** The sizes of the groups of `m` listed by `keys`. */
  function TotalSize<K, V>(m: map<K, seq<V>>, keys: seq<K>): nat
    requires forall i :: 0 <= i < |keys| ==> keys[i] in m
  {
    if keys == [] then 0 else |m[keys[0]]| + TotalSize(m, keys[1..])
  }

  lemma {:induction false} CountDistinct<K>(keys: seq<K>, k: K)
    requires NoDuplicates(keys)
    ensures Count(keys, k) == if k in keys then 1 else 0
  {
    if keys != [] {
      CountDistinct(keys[1..], k);
      if keys[0] == k {
        assert k !in keys[1..] by {
          forall j | 0 <= j < |keys[1..]| ensures keys[1..][j] != k {
            assert keys[1..][j] == keys[j + 1];
          }
        }
      }
    }
  }

  lemma {:induction false} SumAtSnoc<K, V>(ps: seq<(K, V)>, p: (K, V), keys: seq<K>)
    ensures SumAt(ps + [p], keys) == SumAt(ps, keys) + Count(keys, p.0)
  {
    if keys != [] {
      ValuesAtSnoc(ps, p, keys[0]);
      SumAtSnoc(ps, p, keys[1..]);
    }
  }

  lemma {:induction false} SumAtCovers<K, V>(ps: seq<(K, V)>, keys: seq<K>)
    requires NoDuplicates(keys)
    requires forall i :: 0 <= i < |ps| ==> ps[i].0 in keys
    ensures SumAt(ps, keys) == |ps|
  {
    if ps == [] {
      SumAtEmpty(ps, keys);
    } else {
      var init := ps[..|ps| - 1];
      SumAtCovers(init, keys);
      SumAtSnoc(init, ps[|ps| - 1], keys);
      CountDistinct(keys, ps[|ps| - 1].0);
      assert init + [ps[|ps| - 1]] == ps;
    }
  }

  lemma {:induction false} SumAtEmpty<K, V>(ps: seq<(K, V)>, keys: seq<K>)
    requires ps == []
    ensures SumAt(ps, keys) == 0
  {
    if keys != [] {
      SumAtEmpty(ps, keys[1..]);
    }
  }

  lemma {:induction false} TotalSizeIsSumAt<K, V>(ps: seq<(K, V)>, keys: seq<K>)
    requires forall i :: 0 <= i < |keys| ==> keys[i] in GroupPairs(ps)
    ensures TotalSize(GroupPairs(ps), keys) == SumAt(ps, keys)
  {
    if keys != [] {
      TotalSizeIsSumAt(ps, keys[1..]);
    }
  }

  /** The group sizes add up to the number of appends, whatever order the
      keys are listed in. */
  lemma GroupSizesSum<K, V>(ps: seq<(K, V)>, keys: seq<K>)
    requires NoDuplicates(keys)
    requires forall k :: k in keys <==> k in GroupPairs(ps)
    ensures TotalSize(GroupPairs(ps), keys) == |ps|
  {
    TotalSizeIsSumAt(ps, keys);
    forall i | 0 <= i < |ps| ensures ps[i].0 in keys {
      assert ps[i].0 in KeysOf(ps);
    }
    SumAtCovers(ps, keys);
  }
}
