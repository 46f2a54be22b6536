/** Generic list operations the admin panel and the managers use on their stored arrays. */
module Collections {

  predicate NoDuplicates<T(==)>(xs: seq<T>) {
    forall i, j :: 0 <= i < j < |xs| ==> xs[i] != xs[j]
  }

  /** Array.prototype.findIndex(x => key(x) === id) */
  function FindIndex<T>(xs: seq<T>, key: T -> int, id: int): (r: int)
    ensures -1 <= r < |xs|
    ensures r == -1 <==> forall k :: 0 <= k < |xs| ==> key(xs[k]) != id
    ensures r >= 0 ==> key(xs[r]) == id && forall k :: 0 <= k < r ==> key(xs[k]) != id
  {
    if xs == [] then -1
    else if key(xs[0]) == id then 0
    else
      var k := FindIndex(xs[1..], key, id);
      if k < 0 then -1 else k + 1
  }

  /** xs with the first element whose key is id replaced by f of it; unchanged when there is none */
  function UpdateFirst<T>(xs: seq<T>, key: T -> int, id: int, f: T -> T): (r: seq<T>)
    ensures |r| == |xs|
    ensures var i := FindIndex(xs, key, id);
      (i < 0 ==> r == xs) &&
      (i >= 0 ==> r[i] == f(xs[i]) && forall k :: 0 <= k < |xs| && k != i ==> r[k] == xs[k])
  {
    var i := FindIndex(xs, key, id);
    if i < 0 then xs else xs[i := f(xs[i])]
  }

  /** Array.prototype.filter(p), keeping the order of the kept elements */
  function Filter<T>(xs: seq<T>, p: T -> bool): (r: seq<T>)
    ensures |r| <= |xs|
    ensures forall k :: 0 <= k < |r| ==> p(r[k])
    ensures forall x :: x in r ==> x in xs
    ensures forall k :: 0 <= k < |xs| && p(xs[k]) ==> xs[k] in r
  {
    if xs == [] then []
    else if p(xs[0]) then [xs[0]] + Filter(xs[1..], p)
    else Filter(xs[1..], p)
  }

  /** Filtering a concatenation filters each part, so the kept elements stay in source order */
  lemma {:induction false} FilterConcat<T>(xs: seq<T>, ys: seq<T>, p: T -> bool)
    ensures Filter(xs + ys, p) == Filter(xs, p) + Filter(ys, p)
  {
    if xs == [] {
      assert xs + ys == ys;
    } else {
      assert (xs + ys)[1..] == xs[1..] + ys;
      FilterConcat(xs[1..], ys, p);
    }
  }

  /** A filter that keeps everything is the identity */
  lemma {:induction false} FilterAll<T>(xs: seq<T>, p: T -> bool)
    requires forall k :: 0 <= k < |xs| ==> p(xs[k])
    ensures Filter(xs, p) == xs
  {
    if xs != [] {
      FilterAll(xs[1..], p);
    }
  }

  /** The elements a filter keeps and the ones it drops add up to the whole list */
  lemma {:induction false} FilterPartition<T>(xs: seq<T>, p: T -> bool, q: T -> bool)
    requires forall x :: q(x) == !p(x)
    ensures |Filter(xs, p)| + |Filter(xs, q)| == |xs|
  {
    if xs != [] {
      FilterPartition(xs[1..], p, q);
    }
  }

  /** Array.prototype.filter(x => key(x) !== id): every element with that id is gone, all others stay */
  function WithoutKey<T>(xs: seq<T>, key: T -> int, id: int): (r: seq<T>)
    ensures |r| <= |xs|
    ensures forall k :: 0 <= k < |r| ==> key(r[k]) != id
    ensures forall k :: 0 <= k < |xs| && key(xs[k]) != id ==> xs[k] in r
    ensures forall x :: x in r ==> x in xs
    ensures |r| < |xs| <==> FindIndex(xs, key, id) >= 0
    ensures r == Filter(xs, (x: T) => key(x) != id)
  {
    if xs == [] then []
    else if key(xs[0]) == id then WithoutKey(xs[1..], key, id)
    else [xs[0]] + WithoutKey(xs[1..], key, id)
  }

  /** xs with x removed (Set.prototype.delete on a set kept in insertion order) */
  function RemoveValue<T(==,!new)>(xs: seq<T>, x: T): (r: seq<T>)
    ensures forall y :: y in r <==> y in xs && y != x
    ensures NoDuplicates(xs) ==> NoDuplicates(r)
    ensures x !in xs ==> r == xs
  {
    if xs == [] then []
    else if xs[0] == x then RemoveValue(xs[1..], x)
    else
      var rest := RemoveValue(xs[1..], x);
      assert NoDuplicates(xs) ==> xs[0] !in xs[1..] && NoDuplicates(xs[1..]);
      [xs[0]] + rest
  }

  /** Set.prototype.add on a set kept in insertion order: x goes last unless present already */
  function AddValue<T(==,!new)>(xs: seq<T>, x: T): (r: seq<T>)
    ensures forall y :: y in r <==> y in xs || y == x
    ensures NoDuplicates(xs) ==> NoDuplicates(r)
    ensures x in xs ==> r == xs
    ensures x !in xs ==> r == xs + [x]
  {
    if x in xs then xs else xs + [x]
  }

  /** new Set(xs) in insertion order: first occurrences only */
  function Dedup<T(==,!new)>(xs: seq<T>): (r: seq<T>)
    ensures NoDuplicates(r)
    ensures forall y :: y in r <==> y in xs
    ensures |r| <= |xs|
  {
    if xs == [] then [] else AddValue(Dedup(xs[..|xs| - 1]), xs[|xs| - 1])
  }

  /** Deduplicating a list that has no duplicates returns it unchanged */
  lemma {:induction false} DedupDistinct<T(!new)>(xs: seq<T>)
    requires NoDuplicates(xs)
    ensures Dedup(xs) == xs
  {
    if xs != [] {
      var init, last := xs[..|xs| - 1], xs[|xs| - 1];
      DistinctPrefix(xs);
      DedupDistinct(init);
      assert xs == init + [last];
    }
  }

  /** Dropping the last element of a list without duplicates leaves one without it and without duplicates */
  lemma DistinctPrefix<T>(xs: seq<T>)
    requires xs != [] && NoDuplicates(xs)
    ensures NoDuplicates(xs[..|xs| - 1]) && xs[|xs| - 1] !in xs[..|xs| - 1]
  {
  }

  /** A weaker filter keeps at least as many elements */
  lemma {:induction false} FilterMonotone<T>(xs: seq<T>, p: T -> bool, q: T -> bool)
    requires forall x :: p(x) ==> q(x)
    ensures |Filter(xs, p)| <= |Filter(xs, q)|
  {
    if xs != [] {
      FilterMonotone(xs[1..], p, q);
    }
  }

  /** xs.slice(-n) for n >= 1: the last n elements, or all of them when there are fewer */
  function KeepLast<T>(xs: seq<T>, n: nat): (r: seq<T>)
    requires n >= 1
    ensures |r| == if |xs| <= n then |xs| else n
    ensures r == xs[|xs| - |r|..]
  {
    if |xs| <= n then xs else xs[|xs| - n..]
  }

  /** A filter that keeps nothing yields the empty list */
  lemma {:induction false} FilterNone<T>(xs: seq<T>, p: T -> bool)
    requires forall k :: 0 <= k < |xs| ==> !p(xs[k])
    ensures Filter(xs, p) == []
  {
    if xs != [] {
      FilterNone(xs[1..], p);
    }
  }

  /** `for (const [k, v] of m.entries()) copy[k] = v`: an entry-by-entry copy of a map */
  method CopyEntries<K, V>(m: map<K, V>) returns (copy: map<K, V>)
    ensures copy == m
  {
    copy := map[];
    var pending := m.Keys;
    while pending != {}
      invariant pending <= m.Keys
      invariant copy == map k | k in m.Keys - pending :: m[k]
      decreases |pending|
    {
      var k :| k in pending;
      copy := copy[k := m[k]];
      pending := pending - {k};
    }
  }

  /** Filtering with a predicate that agrees everywhere gives the same list */
  lemma {:induction false} FilterSamePredicate<T>(xs: seq<T>, p: T -> bool, q: T -> bool)
    requires forall x :: p(x) == q(x)
    ensures Filter(xs, p) == Filter(xs, q)
  {
    if xs != [] {
      FilterSamePredicate(xs[1..], p, q);
    }
  }

  /** Removing an id that is absent changes nothing */
  lemma {:induction false} WithoutAbsentKey<T>(xs: seq<T>, key: T -> int, id: int)
    requires FindIndex(xs, key, id) == -1
    ensures WithoutKey(xs, key, id) == xs
  {
    if xs != [] {
      WithoutAbsentKey(xs[1..], key, id);
    }
  }

  /** Replacing an element by one with the same key does not move the first match */
  lemma {:induction false} FindIndexAfterUpdate<T>(xs: seq<T>, i: nat, y: T, key: T -> int, id: int)
    requires i < |xs| && key(y) == key(xs[i])
    ensures FindIndex(xs[i := y], key, id) == FindIndex(xs, key, id)
  {
    if i > 0 {
      assert xs[i := y][1..] == xs[1..][i - 1 := y];
      FindIndexAfterUpdate(xs[1..], i - 1, y, key, id);
    }
  }
}
