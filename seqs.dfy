/** The array operations the services and pages are built from:
    `findIndex`, `find`, `filter`, `filter(..).length`, `reverse`, `reduce`
    (as a sum) and `slice`, stated over Dafny sequences. */
module Seqs {
  import opened Wrappers

  /** `Array.prototype.findIndex`: the first index whose element satisfies `p`
      (`None` stands for the source's -1). */
  function FindIndex<T(!new)>(s: seq<T>, p: T -> bool): (r: Option<nat>)
    ensures r.Some? ==> r.value < |s| && p(s[r.value])
    ensures r.Some? ==> forall k :: 0 <= k < r.value ==> !p(s[k])
    ensures r.None? <==> forall k :: 0 <= k < |s| ==> !p(s[k])
    decreases |s|
  {
    if |s| == 0 then None
    else if p(s[0]) then Some(0)
    else match FindIndex(s[1..], p)
      case None => None
      case Some(i) => Some(i + 1)
  }

  /** `Array.prototype.find`: the first element satisfying `p`. */
  function Find<T(!new)>(s: seq<T>, p: T -> bool): (r: Option<T>)
    ensures r.None? <==> forall x :: x in s ==> !p(x)
    ensures r.Some? ==> exists i :: 0 <= i < |s| && s[i] == r.value && p(s[i]) &&
                                   forall k :: 0 <= k < i ==> !p(s[k])
  {
    match FindIndex(s, p)
    case None => None
    case Some(i) => Some(s[i])
  }

  /** Appending an element never changes an existing first match, and the new
      element is found only when nothing earlier matched. */
  lemma {:induction false} FindIndexAppend<T(!new)>(s: seq<T>, x: T, p: T -> bool)
    ensures FindIndex(s + [x], p) ==
            if FindIndex(s, p).Some? then FindIndex(s, p)
            else if p(x) then Some(|s|) else None
    decreases |s|
  {
    if |s| == 0 {
      assert s + [x] == [x];
      assert [x][1..] == [];
    } else {
      assert (s + [x])[1..] == s[1..] + [x];
      FindIndexAppend(s[1..], x, p);
    }
  }

  /** Replacing an element by one that `p` judges the same way leaves the
      first match where it was. */
  lemma FindIndexReplace<T(!new)>(s: seq<T>, i: nat, x: T, p: T -> bool)
    requires i < |s| && p(x) == p(s[i])
    ensures FindIndex(s[i := x], p) == FindIndex(s, p)
  {
    var t := s[i := x];
    assert forall k :: 0 <= k < |s| ==> p(t[k]) == p(s[k]);
    match FindIndex(s, p)
    case None =>
    case Some(m) =>
      assert p(t[m]);
      assert forall k :: 0 <= k < m ==> !p(t[k]);
  }

  /** `Array.prototype.filter`: the elements satisfying `p`, in their order. */
  function Filter<T(!new)>(s: seq<T>, p: T -> bool): (r: seq<T>)
    ensures |r| <= |s|
    ensures forall x :: x in r <==> x in s && p(x)
    decreases |s|
  {
    if |s| == 0 then []
    else (if p(s[0]) then [s[0]] else []) + Filter(s[1..], p)
  }

  /** Filtering distributes over concatenation: the order of the input is kept. */
  lemma {:induction false} FilterConcat<T(!new)>(a: seq<T>, b: seq<T>, p: T -> bool)
    ensures Filter(a + b, p) == Filter(a, p) + Filter(b, p)
    decreases |a|
  {
    if |a| == 0 {
      assert a + b == b;
    } else {
      assert (a + b)[1..] == a[1..] + b;
      FilterConcat(a[1..], b, p);
    }
  }

  /** A filter that every element passes returns the input unchanged. */
  lemma {:induction false} FilterAll<T(!new)>(s: seq<T>, p: T -> bool)
    requires forall x :: x in s ==> p(x)
    ensures Filter(s, p) == s
    decreases |s|
  {
    if |s| > 0 {
      assert forall x :: x in s[1..] ==> x in s;
      FilterAll(s[1..], p);
      assert [s[0]] + s[1..] == s;
    }
  }

  /** Filters that agree on every element of `s` select the same elements. */
  lemma {:induction false} FilterSame<T(!new)>(s: seq<T>, p: T -> bool, q: T -> bool)
    requires forall x :: x in s ==> p(x) == q(x)
    ensures Filter(s, p) == Filter(s, q)
    decreases |s|
  {
    if |s| > 0 {
      assert forall x :: x in s[1..] ==> x in s;
      FilterSame(s[1..], p, q);
    }
  }

  /** `filter(p).length`. */
  function Count<T(!new)>(s: seq<T>, p: T -> bool): (n: nat)
    ensures n <= |s|
    ensures n == 0 <==> forall x :: x in s ==> !p(x)
  {
    var r := Filter(s, p);
    assert |r| > 0 ==> r[0] in r;
    |r|
  }

  /** Counting one element more adds one exactly when it passes. */
  lemma CountAppend<T(!new)>(s: seq<T>, x: T, p: T -> bool)
    ensures Count(s + [x], p) == Count(s, p) + (if p(x) then 1 else 0)
  {
    FilterConcat(s, [x], p);
    assert [x][1..] == [];
  }

  /** Two predicates that never hold together count, between them, exactly the
      elements their disjunction `u` accepts. */
  lemma {:induction false} CountDisjoint<T(!new)>(s: seq<T>, p: T -> bool, q: T -> bool, u: T -> bool)
    requires forall x :: x in s ==> !(p(x) && q(x)) && (u(x) <==> p(x) || q(x))
    ensures Count(s, p) + Count(s, q) == Count(s, u)
    decreases |s|
  {
    if |s| > 0 {
      assert forall x :: x in s[1..] ==> x in s;
      CountDisjoint(s[1..], p, q, u);
    }
  }

  /** Predicates that split every element two ways count up to the length. */
  lemma CountPartition2<T(!new)>(s: seq<T>, p: T -> bool, q: T -> bool)
    requires forall x :: x in s ==> (p(x) <==> !q(x))
    ensures Count(s, p) + Count(s, q) == |s|
  {
    var any := (x: T) => true;
    CountDisjoint(s, p, q, any);
    FilterAll(s, any);
  }

  /** Predicates that split every element three ways count up to the length. */
  lemma CountPartition3<T(!new)>(s: seq<T>, p: T -> bool, q: T -> bool, r: T -> bool)
    requires forall x :: x in s ==> (p(x) && !q(x) && !r(x)) || (!p(x) && q(x) && !r(x)) ||
                                     (!p(x) && !q(x) && r(x))
    ensures Count(s, p) + Count(s, q) + Count(s, r) == |s|
  {
    var pq := (x: T) => p(x) || q(x);
    CountDisjoint(s, p, q, pq);
    CountPartition2(s, pq, r);
  }

  /** When `p` holds exactly on the first `n` positions, `n` elements pass. */
  lemma {:induction false} CountPrefix<T(!new)>(s: seq<T>, p: T -> bool, n: nat)
    requires n <= |s|
    requires forall i :: 0 <= i < |s| ==> (p(s[i]) <==> i < n)
    ensures Count(s, p) == n
    decreases |s|
  {
    if n == 0 {
      assert forall x :: x in s ==> !p(x);
    } else {
      assert p(s[0]);
      CountPrefix(s[1..], p, n - 1);
    }
  }

  /** When `p` holds at position `c` only, exactly one element passes. */
  lemma {:induction false} CountSingle<T(!new)>(s: seq<T>, p: T -> bool, c: nat)
    requires c < |s|
    requires forall i :: 0 <= i < |s| ==> (p(s[i]) <==> i == c)
    ensures Count(s, p) == 1
    decreases |s|
  {
    if c == 0 {
      assert forall x :: x in s[1..] ==> !p(x);
      assert Count(s[1..], p) == 0;
    } else {
      CountSingle(s[1..], p, c - 1);
    }
  }

  /** Elements `k` of `ks` are pairwise distinct. */
  predicate Distinct<K(==)>(ks: seq<K>) {
    forall i, j :: 0 <= i < j < |ks| ==> ks[i] != ks[j]
  }

  /** The predicate `key(x) == k`, built by a named function so that equal
      calls denote the same predicate. */
  function KeyIs<T(!new), K(==)>(key: T -> K, k: K): T -> bool {
    x => key(x) == k
  }

  /** The predicate `key(x) in ks`. */
  function KeyIn<T(!new), K(==)>(key: T -> K, ks: seq<K>): T -> bool {
    x => key(x) in ks
  }

  /** One count per key, in the order of the keys: what
      `KEYS.map(k => items.filter(x => key(x) === k).length)` computes. */
  function CountsByKey<T(!new), K(==)>(s: seq<T>, key: T -> K, ks: seq<K>): (r: seq<nat>)
    ensures |r| == |ks|
    ensures forall i :: 0 <= i < |ks| ==> r[i] == Count(s, KeyIs(key, ks[i]))
    decreases |ks|
  {
    if |ks| == 0 then [] else [Count(s, KeyIs(key, ks[0]))] + CountsByKey(s, key, ks[1..])
  }

  /** `reduce((sum, x) => sum + x, 0)`. */
  function Sum(xs: seq<int>): int
    decreases |xs|
  {
    if |xs| == 0 then 0 else xs[0] + Sum(xs[1..])
  }

  /** Over distinct keys, "key among `ks`" splits into "key is the first" or
      "key among the rest", never both. */
  lemma KeyInSplit<T(!new), K>(key: T -> K, ks: seq<K>)
    requires |ks| > 0 && Distinct(ks)
    ensures forall x :: KeyIn(key, ks)(x) <==> KeyIs(key, ks[0])(x) || KeyIn(key, ks[1..])(x)
    ensures forall x :: !(KeyIs(key, ks[0])(x) && KeyIn(key, ks[1..])(x))
  {
    assert ks == [ks[0]] + ks[1..];
  }

  /** Summing the per-key counts over distinct keys counts each element whose
      key is among them exactly once. */
  lemma {:induction false} SumCountsByKey<T(!new), K>(s: seq<T>, key: T -> K, ks: seq<K>)
    requires Distinct(ks)
    ensures Sum(CountsByKey(s, key, ks)) == Count(s, KeyIn(key, ks))
    decreases |ks|
  {
    if |ks| == 0 {
      assert forall x :: x in s ==> !KeyIn(key, ks)(x);
    } else {
      var rest := ks[1..];
      assert Distinct(rest);
      SumCountsByKey(s, key, rest);
      KeyInSplit(key, ks);
      CountDisjoint(s, KeyIs(key, ks[0]), KeyIn(key, rest), KeyIn(key, ks));
    }
  }

  /** `slice().reverse()`: the input read back to front. */
  function Reverse<T(!new)>(s: seq<T>): (r: seq<T>)
    ensures |r| == |s|
    ensures forall k :: 0 <= k < |s| ==> r[k] == s[|s| - 1 - k]
    decreases |s|
  {
    if |s| == 0 then [] else Reverse(s[1..]) + [s[0]]
  }

  /** Filtering and then reversing keeps the same elements as reversing and
      then filtering: a filtered, reversed list is a subsequence of the
      reversed input. */
  lemma {:induction false} ReverseFilter<T(!new)>(s: seq<T>, p: T -> bool)
    ensures Reverse(Filter(s, p)) == Filter(Reverse(s), p)
    decreases |s|
  {
    if |s| > 0 {
      ReverseFilter(s[1..], p);
      var head := if p(s[0]) then [s[0]] else [];
      assert Filter(s, p) == head + Filter(s[1..], p);
      ReverseConcat(head, Filter(s[1..], p));
      assert Reverse(s) == Reverse(s[1..]) + [s[0]];
      FilterConcat(Reverse(s[1..]), [s[0]], p);
      assert Filter([s[0]], p) == head by { assert [s[0]][1..] == []; }
      assert Reverse(head) == head;
    }
  }

  /** Reversing a concatenation swaps and reverses its halves. */
  lemma ReverseConcat<T(!new)>(a: seq<T>, b: seq<T>)
    ensures Reverse(a + b) == Reverse(b) + Reverse(a)
  {
    var l, r := Reverse(a + b), Reverse(b) + Reverse(a);
    assert |l| == |r|;
    forall k | 0 <= k < |l| ensures l[k] == r[k] {
      if k < |b| {
        assert l[k] == (a + b)[|a| + |b| - 1 - k];
      } else {
        assert l[k] == (a + b)[|a| + |b| - 1 - k];
      }
    }
  }

  /** `slice(0, n)`: at most the first `n` elements. */
  function Take<T(!new)>(s: seq<T>, n: nat): (r: seq<T>)
    ensures |r| == if n < |s| then n else |s|
    ensures forall k :: 0 <= k < |r| ==> r[k] == s[k]
  {
    if n < |s| then s[..n] else s
  }
}
