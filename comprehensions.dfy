/** The two Python comprehensions the diff engine is built from:
    `[x for x in s if p(x)]` and `{key(x): x for x in s}`. */
module Comprehensions {
  import opened Values

  /** `[x for x in s if p(x)]`: keeps the elements that satisfy `p`, in their order. */
  function Filter<T(==)>(s: seq<T>, p: T -> bool): (r: seq<T>)
    ensures |r| <= |s|
    ensures forall i :: 0 <= i < |r| ==> r[i] in s && p(r[i])
    ensures forall i :: 0 <= i < |s| && p(s[i]) ==> s[i] in r
  {
    if |s| == 0 then []
    else if p(s[0]) then [s[0]] + Filter(s[1..], p)
    else Filter(s[1..], p)
  }

  /** `i` is the last position of `s` whose key is `k`. */
  ghost predicate LastWithKey<T>(s: seq<T>, key: T -> Option<string>, k: Option<string>, i: int) {
    0 <= i < |s| && key(s[i]) == k && forall j :: i < j < |s| ==> key(s[j]) != k
  }

  /** `{key(x): x for x in s}`: a later element overwrites an earlier one with the same key. */
  function IndexBy<T(==)>(s: seq<T>, key: T -> Option<string>): (m: map<Option<string>, T>)
    ensures m.Keys == set i | 0 <= i < |s| :: key(s[i])
    ensures forall k :: k in m ==> key(m[k]) == k && m[k] in s
    ensures forall i :: 0 <= i < |s| && LastWithKey(s, key, key(s[i]), i) ==> m[key(s[i])] == s[i]
  {
    if |s| == 0 then map[]
    else
      var last := s[|s| - 1];
      var front := s[..|s| - 1];
      var m0 := IndexBy(front, key);
      KeysStep(front, last, key);
      EntriesStep(front, last, key, m0, m0[key(last) := last]);
      LastStep(front, last, key, m0);
      assert s == front + [last];
      m0[key(last) := last]
  }

  lemma KeysStep<T>(front: seq<T>, last: T, key: T -> Option<string>)
    ensures (set i | 0 <= i < |front + [last]| :: key((front + [last])[i])) ==
            (set i | 0 <= i < |front| :: key(front[i])) + {key(last)}
  {
    var s := front + [last];
    assert forall i :: 0 <= i < |front| ==> s[i] == front[i];
    assert s[|front|] == last;
  }

  lemma EntriesStep<T>(front: seq<T>, last: T, key: T -> Option<string>, m0: map<Option<string>, T>,
                       m: map<Option<string>, T>)
    requires forall k :: k in m0 ==> key(m0[k]) == k && m0[k] in front
    requires m == m0[key(last) := last]
    ensures forall k :: k in m ==> key(m[k]) == k && m[k] in front + [last]
  {
  }

  lemma LastStep<T>(front: seq<T>, last: T, key: T -> Option<string>, m0: map<Option<string>, T>)
    requires forall i :: 0 <= i < |front| ==> key(front[i]) in m0
    requires forall i :: 0 <= i < |front| && LastWithKey(front, key, key(front[i]), i) ==> m0[key(front[i])] == front[i]
    ensures var s := front + [last];
            forall i :: 0 <= i < |s| && LastWithKey(s, key, key(s[i]), i) ==> m0[key(last) := last][key(s[i])] == s[i]
  {
    var s := front + [last];
    forall i | 0 <= i < |s| && LastWithKey(s, key, key(s[i]), i)
      ensures m0[key(last) := last][key(s[i])] == s[i]
    {
      if i < |front| {
        assert s[|front|] == last;
        assert s[i] == front[i];
        assert forall j :: i < j < |front| ==> s[j] == front[j];
        assert LastWithKey(front, key, key(front[i]), i);
      }
    }
  }

  /** The present results of `f` over `ks`: a loop that appends `f(k)` whenever it is not `None`. */
  function Collect<K, V>(ks: set<K>, f: K -> Option<V>): set<V> {
    set k | k in ks && f(k).Some? :: f(k).value
  }

  /** One more key adds its result, if it has one. */
  lemma CollectStep<K, V>(ks: set<K>, id: K, f: K -> Option<V>)
    ensures Collect(ks + {id}, f) == Collect(ks, f) + (if f(id).Some? then {f(id).value} else {})
  {
  }

  /** Filtering distributes over concatenation, so it keeps the order of the input. */
  lemma {:induction false} FilterConcat<T>(a: seq<T>, b: seq<T>, p: T -> bool)
    ensures Filter(a + b, p) == Filter(a, p) + Filter(b, p)
  {
    if |a| == 0 {
      assert a + b == b;
    } else {
      assert (a + b)[0] == a[0] && (a + b)[1..] == a[1..] + b;
      FilterConcat(a[1..], b, p);
    }
  }

  /** Filtering keeps everything exactly when every element passes the test. */
  lemma {:induction false} FilterAll<T>(s: seq<T>, p: T -> bool)
    ensures Filter(s, p) == s <==> forall i :: 0 <= i < |s| ==> p(s[i])
  {
    if |s| > 0 {
      FilterAll(s[1..], p);
      if !p(s[0]) {
        assert |Filter(s, p)| < |s|;
      }
    }
  }

  /** Filtering drops everything when no element passes the test. */
  lemma {:induction false} FilterNone<T>(s: seq<T>, p: T -> bool)
    requires forall i :: 0 <= i < |s| ==> !p(s[i])
    ensures Filter(s, p) == []
  {
    if |s| > 0 {
      FilterNone(s[1..], p);
    }
  }

  /** Two filters in a row are one filter by the conjunction of their tests. */
  lemma {:induction false} FilterFilter<T>(s: seq<T>, p: T -> bool, q: T -> bool, both: T -> bool)
    requires forall i :: 0 <= i < |s| ==> both(s[i]) == (p(s[i]) && q(s[i]))
    ensures Filter(Filter(s, p), q) == Filter(s, both)
  {
    if |s| > 0 {
      FilterFilter(s[1..], p, q, both);
    }
  }
}
