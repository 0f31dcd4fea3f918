/** `Array.prototype.sort` on a copy, with a comparator that orders by a
    two-part numeric key, larger first. The runtime's sort is stable, so the
    result is fully determined: it is the stable insertion sort below. */
module StableSort {

  /** Sort key: compared on `major` first, then on `minor`. */
  datatype Key = Key(major: int, minor: int)

  /** `a` strictly precedes `b`: the comparator returns a negative number. */
  predicate Above(a: Key, b: Key) {
    a.major > b.major || (a.major == b.major && a.minor > b.minor)
  }

  /** The sequence is ordered: no element strictly precedes an earlier one. */
  predicate Descending<T>(s: seq<T>, key: T -> Key) {
    forall i, j :: 0 <= i < j < |s| ==> !Above(key(s[j]), key(s[i]))
  }

  /** Where `x` goes in `s`: after every element it does not strictly precede. */
  function InsertPos<T>(x: T, s: seq<T>, key: T -> Key): (p: nat)
    ensures p <= |s|
    ensures forall i :: 0 <= i < p ==> !Above(key(x), key(s[i]))
    ensures p < |s| ==> Above(key(x), key(s[p]))
  {
    if s == [] || Above(key(x), key(s[0])) then 0 else 1 + InsertPos(x, s[1..], key)
  }

  function Insert<T>(x: T, s: seq<T>, key: T -> Key): (r: seq<T>)
    ensures |r| == |s| + 1
  {
    if s == [] || Above(key(x), key(s[0])) then [x] + s
    else [s[0]] + Insert(x, s[1..], key)
  }

  /** `x` is spliced in at its insertion position; nothing else moves. */
  lemma {:induction false} InsertSplices<T>(x: T, s: seq<T>, key: T -> Key)
    ensures Insert(x, s, key) == s[..InsertPos(x, s, key)] + [x] + s[InsertPos(x, s, key)..]
  {
    if s != [] && !Above(key(x), key(s[0])) {
      InsertSplices(x, s[1..], key);
      assert s == [s[0]] + s[1..];
    }
  }

  /** The sorted copy: each element inserted, in input order, into the sorted prefix. */
  function SortByKey<T>(xs: seq<T>, key: T -> Key): seq<T> {
    if xs == [] then [] else Insert(xs[|xs| - 1], SortByKey(xs[..|xs| - 1], key), key)
  }

  /** The elements whose key is exactly `k`, in order. */
  function WithKey<T>(s: seq<T>, key: T -> Key, k: Key): (r: seq<T>)
    ensures |r| <= |s|
  {
    if s == [] then []
    else (if key(s[0]) == k then [s[0]] else []) + WithKey(s[1..], key, k)
  }

  lemma {:induction false} WithKeyConcat<T>(a: seq<T>, b: seq<T>, key: T -> Key, k: Key)
    ensures WithKey(a + b, key, k) == WithKey(a, key, k) + WithKey(b, key, k)
  {
    if a == [] {
      assert a + b == b;
    } else {
      assert (a + b)[0] == a[0];
      assert (a + b)[1..] == a[1..] + b;
      WithKeyConcat(a[1..], b, key, k);
    }
  }

  /** Inserting into an ordered sequence keeps it ordered. */
  lemma {:induction false} InsertDescending<T>(x: T, s: seq<T>, key: T -> Key)
    requires Descending(s, key)
    ensures Descending(Insert(x, s, key), key)
  {
    var p := InsertPos(x, s, key);
    var r := Insert(x, s, key);
    InsertSplices(x, s, key);
    forall i, j | 0 <= i < j < |r| ensures !Above(key(r[j]), key(r[i])) {
      if j < p || i > p {
      } else if i == p {
        assert r[j] == s[j - 1];
        assert !Above(key(s[j - 1]), key(s[p]));
      } else {
        assert r[i] == s[i];
        if j > p {
          assert r[j] == s[j - 1];
        }
      }
    }
  }

  /** Everything after the insertion point is strictly preceded by `x`. */
  lemma {:induction false} TailBelow<T>(x: T, s: seq<T>, key: T -> Key)
    requires Descending(s, key)
    ensures forall j :: InsertPos(x, s, key) <= j < |s| ==> Above(key(x), key(s[j]))
  {
    var p := InsertPos(x, s, key);
    forall j | p <= j < |s| ensures Above(key(x), key(s[j])) {
      if j > p {
        assert !Above(key(s[j]), key(s[p]));
      }
    }
  }

  lemma {:induction false} NoneWithKey<T>(t: seq<T>, key: T -> Key, k: Key)
    requires forall i :: 0 <= i < |t| ==> Above(k, key(t[i]))
    ensures WithKey(t, key, k) == []
  {
    if t != [] {
      assert Above(k, key(t[0]));
      NoneWithKey(t[1..], key, k);
    }
  }

  /** In an ordered sequence the new element lands after every element of
      its own key, so each key's elements keep their order. */
  lemma {:induction false} InsertWithKey<T>(x: T, s: seq<T>, key: T -> Key, k: Key)
    requires Descending(s, key)
    ensures WithKey(Insert(x, s, key), key, k) == WithKey(s, key, k) + (if key(x) == k then [x] else [])
  {
    var p := InsertPos(x, s, key);
    var pre, post := s[..p], s[p..];
    assert s == pre + post;
    InsertSplices(x, s, key);
    WithKeyConcat(pre + [x], post, key, k);
    WithKeyConcat(pre, [x], key, k);
    WithKeyConcat(pre, post, key, k);
    assert WithKey([x], key, k) == (if key(x) == k then [x] else []);
    if key(x) == k {
      TailBelow(x, s, key);
      NoneWithKey(post, key, k);
    }
  }

  lemma {:induction false} InsertPermutation<T>(x: T, s: seq<T>, key: T -> Key)
    ensures multiset(Insert(x, s, key)) == multiset(s) + multiset{x}
  {
    var p := InsertPos(x, s, key);
    InsertSplices(x, s, key);
    assert s == s[..p] + s[p..];
  }

  /** The sorted copy is a permutation of the input. */
  lemma {:induction false} SortPermutation<T>(xs: seq<T>, key: T -> Key)
    ensures multiset(SortByKey(xs, key)) == multiset(xs)
  {
    if xs != [] {
      var init, x := xs[..|xs| - 1], xs[|xs| - 1];
      var sortedInit := SortByKey(init, key);
      assert SortByKey(xs, key) == Insert(x, sortedInit, key);
      SortPermutation(init, key);
      InsertPermutation(x, sortedInit, key);
      assert xs == init + [x];
      assert multiset(xs) == multiset(init) + multiset{x};
    }
  }

  /** The sorted copy is ordered by key, larger first. */
  lemma {:induction false} SortDescending<T>(xs: seq<T>, key: T -> Key)
    ensures Descending(SortByKey(xs, key), key)
  {
    if xs != [] {
      SortDescending(xs[..|xs| - 1], key);
      InsertDescending(xs[|xs| - 1], SortByKey(xs[..|xs| - 1], key), key);
    }
  }

  /** The sort is stable: the elements of any one key appear in the sorted
      copy exactly in their input order. */
  lemma {:induction false} SortStable<T>(xs: seq<T>, key: T -> Key, k: Key)
    ensures WithKey(SortByKey(xs, key), key, k) == WithKey(xs, key, k)
  {
    if xs != [] {
      var init := xs[..|xs| - 1];
      var x := xs[|xs| - 1];
      SortStable(init, key, k);
      SortDescending(init, key);
      InsertWithKey(x, SortByKey(init, key), key, k);
      assert xs == init + [x];
      WithKeyConcat(init, [x], key, k);
    }
  }

  /** The sorted copy has the same length as the input. */
  lemma {:induction false} SortLength<T>(xs: seq<T>, key: T -> Key)
    ensures |SortByKey(xs, key)| == |xs|
  {
    SortPermutation(xs, key);
    assert |multiset(SortByKey(xs, key))| == |multiset(xs)|;
  }
}
