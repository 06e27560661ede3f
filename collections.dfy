/**
 * Insertion-ordered sets and multiplicity counting.
 *
 * A JavaScript `Set` (and the key set of a `Map`) remembers the order in
 * which members were first inserted; it is modelled as a sequence without
 * duplicates, to which `Add` appends only absent members.
 */
module Collections {

  ghost predicate Distinct<T>(s: seq<T>)
  {
    forall i, j :: 0 <= i < j < |s| ==> s[i] != s[j]
  }

  /** `set.add(x)` on an insertion-ordered set. */
  function Add<T(==,!new)>(s: seq<T>, x: T): (r: seq<T>)
    ensures x in r
    ensures forall y :: y in r <==> y in s || y == x
    ensures |s| <= |r| <= |s| + 1 && r[..|s|] == s
    ensures x in s <==> r == s
  {
    if x in s then s else s + [x]
  }

  /** Adding every element of `xs`, left to right. */
  function AddAll<T(==,!new)>(s: seq<T>, xs: seq<T>): (r: seq<T>)
    ensures forall y :: y in r <==> y in s || y in xs
    ensures |s| <= |r| && r[..|s|] == s
    decreases |xs|
  {
    if xs == [] then s else AddAll(Add(s, xs[0]), xs[1..])
  }

  /** `new Set(xs)` as an ordered sequence: first occurrences, in order. */
  function Dedup<T(==,!new)>(xs: seq<T>): (r: seq<T>)
    ensures forall y :: y in r <==> y in xs
  {
    AddAll([], xs)
  }

  /** Adding to a set keeps it free of duplicates... */
  lemma AddDistinct<T(!new)>(s: seq<T>, x: T)
    requires Distinct(s)
    ensures Distinct(Add(s, x))
  {
  }

  /** ...and so does adding many, one at a time... */
  lemma {:induction false} AddAllDistinct<T(!new)>(s: seq<T>, xs: seq<T>)
    requires Distinct(s)
    ensures Distinct(AddAll(s, xs))
    decreases |xs|
  {
    if xs != [] {
      AddDistinct(s, xs[0]);
      AddAllDistinct(Add(s, xs[0]), xs[1..]);
    }
  }

  /** ...so `Dedup` keeps no duplicates. */
  lemma DedupDistinct<T(!new)>(xs: seq<T>)
    ensures Distinct(Dedup(xs))
  {
    AddAllDistinct([], xs);
  }

  lemma {:induction false} AddAllAbsorbed<T(!new)>(s: seq<T>, xs: seq<T>)
    requires forall x :: x in xs ==> x in s
    ensures AddAll(s, xs) == s
    decreases |xs|
  {
    if xs != [] {
      assert Add(s, xs[0]) == s;
      AddAllAbsorbed(s, xs[1..]);
    }
  }

  /** Re-inserting the same members changes nothing: insertion is idempotent. */
  lemma AddAllIdempotent<T(!new)>(s: seq<T>, xs: seq<T>)
    ensures AddAll(AddAll(s, xs), xs) == AddAll(s, xs)
  {
    AddAllAbsorbed(AddAll(s, xs), xs);
  }

  /** Adding one more element at the end of the input is one more `Add`. */
  lemma {:induction false} AddAllSnoc<T(!new)>(s: seq<T>, xs: seq<T>, x: T)
    ensures AddAll(s, xs + [x]) == Add(AddAll(s, xs), x)
    decreases |xs|
  {
    if xs == [] {
      assert xs + [x] == [x];
    } else {
      assert (xs + [x])[1..] == xs[1..] + [x];
      AddAllSnoc(Add(s, xs[0]), xs[1..], x);
    }
  }

  /** Adding `xs` and then `ys` is adding `xs + ys`. */
  lemma {:induction false} AddAllConcat<T(!new)>(s: seq<T>, xs: seq<T>, ys: seq<T>)
    ensures AddAll(AddAll(s, xs), ys) == AddAll(s, xs + ys)
    decreases |ys|
  {
    if ys == [] {
      assert xs + ys == xs;
    } else {
      var init, y := ys[..|ys| - 1], ys[|ys| - 1];
      assert ys == init + [y];
      assert xs + ys == (xs + init) + [y];
      AddAllConcat(s, xs, init);
      AddAllSnoc(AddAll(s, xs), init, y);
      AddAllSnoc(s, xs + init, y);
    }
  }

  /** `a` is what is left of `b` after deleting some elements: `a` keeps `b`'s order. */
  predicate IsSubseq<T(==)>(a: seq<T>, b: seq<T>)
    decreases |b|
  {
    a == [] ||
    (b != [] &&
     (IsSubseq(a, b[..|b| - 1]) || (a[|a| - 1] == b[|b| - 1] && IsSubseq(a[..|a| - 1], b[..|b| - 1]))))
  }

  lemma {:induction false} IsSubseqRefl<T>(s: seq<T>)
    ensures IsSubseq(s, s)
    decreases |s|
  {
    if s != [] {
      IsSubseqRefl(s[..|s| - 1]);
    }
  }

  /** Deleting elements twice is deleting elements once. */
  lemma {:induction false} IsSubseqTrans<T>(a: seq<T>, b: seq<T>, c: seq<T>)
    requires IsSubseq(a, b) && IsSubseq(b, c)
    ensures IsSubseq(a, c)
    decreases |c|
  {
    if a != [] {
      assert b != [] && c != [];
      var b', c' := b[..|b| - 1], c[..|c| - 1];
      if IsSubseq(b, c') {
        IsSubseqTrans(a, b, c');
      } else if IsSubseq(a, b') {
        IsSubseqTrans(a, b', c');
      } else {
        IsSubseqTrans(a[..|a| - 1], b', c');
      }
    }
  }

  /** `s.filter(p)`: the members satisfying `p`, in their original order. */
  function Filter<T(==,!new)>(s: seq<T>, p: T -> bool): (r: seq<T>)
    ensures |r| <= |s|
    ensures forall x :: x in r <==> x in s && p(x)
    ensures IsSubseq(r, s)
  {
    if s == [] then []
    else
      var init, x := s[..|s| - 1], s[|s| - 1];
      var f := Filter(init, p);
      assert s == init + [x] && s[..|s| - 1] == init;
      if p(x) then
        assert (f + [x])[..|f|] == f;
        f + [x]
      else f
  }

  /** Filtering a sequence without duplicates leaves none. */
  lemma {:induction false} FilterDistinct<T(!new)>(s: seq<T>, p: T -> bool)
    requires Distinct(s)
    ensures Distinct(Filter(s, p))
    decreases |s|
  {
    if s != [] {
      var init, x := s[..|s| - 1], s[|s| - 1];
      assert Distinct(init);
      FilterDistinct(init, p);
      assert x !in init;
    }
  }

  /** One more element of `s` considered by `Filter`. */
  lemma FilterStep<T(!new)>(s: seq<T>, k: nat, p: T -> bool)
    requires k < |s|
    ensures Filter(s[..k + 1], p) == Filter(s[..k], p) + (if p(s[k]) then [s[k]] else [])
  {
    assert s[..k + 1][..k] == s[..k];
  }

  /** A filter that every member passes keeps the whole sequence. */
  lemma {:induction false} FilterKeepsAll<T(!new)>(s: seq<T>, p: T -> bool)
    requires forall x :: x in s ==> p(x)
    ensures Filter(s, p) == s
    decreases |s|
  {
    if s != [] {
      assert s == s[..|s| - 1] + [s[|s| - 1]];
      FilterKeepsAll(s[..|s| - 1], p);
    }
  }

  /** `set.delete(x)` on an insertion-ordered set. */
  function Remove<T(==,!new)>(s: seq<T>, x: T): (r: seq<T>)
    ensures forall y :: y in r <==> y in s && y != x
    ensures IsSubseq(r, s)
  {
    Filter(s, y => y != x)
  }

  lemma RemoveDistinct<T(!new)>(s: seq<T>, x: T)
    requires Distinct(s)
    ensures Distinct(Remove(s, x))
  {
    FilterDistinct(s, y => y != x);
  }

  /** Deleting a member that was just added to a set lacking it restores the set. */
  lemma RemoveAdd<T(!new)>(s: seq<T>, x: T)
    requires x !in s
    ensures Remove(Add(s, x), x) == s
  {
    var t := s + [x];
    assert t[..|t| - 1] == s;
    FilterKeepsAll(s, y => y != x);
  }

  /** `xss.flat()`: the lists one after another. */
  function Concat<T(!new)>(xss: seq<seq<T>>): (r: seq<T>)
    ensures forall x :: x in r <==> exists j :: 0 <= j < |xss| && x in xss[j]
  {
    if xss == [] then []
    else
      var init := xss[..|xss| - 1];
      assert forall j :: 0 <= j < |init| ==> init[j] == xss[j];
      Concat(init) + xss[|xss| - 1]
  }

  /** Deduplicating one more list of a concatenation is adding its members. */
  lemma DedupConcatStep<T(!new)>(ls: seq<seq<T>>, i: nat)
    requires i < |ls|
    ensures Dedup(Concat(ls[..i + 1])) == AddAll(Dedup(Concat(ls[..i])), ls[i])
  {
    assert ls[..i + 1][..i] == ls[..i];
    assert Concat(ls[..i + 1]) == Concat(ls[..i]) + ls[i];
    AddAllConcat([], Concat(ls[..i]), ls[i]);
  }

  /** The key of every element, in order. */
  function KeysOf<T, K>(xs: seq<T>, key: T -> K): (ks: seq<K>)
    ensures |ks| == |xs|
    ensures forall i :: 0 <= i < |xs| ==> ks[i] == key(xs[i])
  {
    seq(|xs|, i requires 0 <= i < |xs| => key(xs[i]))
  }

  /** The elements whose key is `k`, in order: one group of a grouping by key. */
  function Group<T, K(==)>(xs: seq<T>, key: T -> K, k: K): (g: seq<T>)
    ensures |g| == multiset(KeysOf(xs, key))[k]
    ensures forall i :: 0 <= i < |g| ==> key(g[i]) == k && g[i] in xs
  {
    if xs == [] then []
    else
      var init, x := xs[..|xs| - 1], xs[|xs| - 1];
      assert KeysOf(xs, key) == KeysOf(init, key) + [key(x)];
      Group(init, key, k) + (if key(x) == k then [x] else [])
  }

  lemma KeysOfStep<T, K>(xs: seq<T>, i: nat, key: T -> K)
    requires i < |xs|
    ensures KeysOf(xs[..i + 1], key) == KeysOf(xs[..i], key) + [key(xs[i])]
  {
  }

  lemma GroupStep<T, K>(xs: seq<T>, i: nat, key: T -> K, k: K)
    requires i < |xs|
    ensures Group(xs[..i + 1], key, k) == Group(xs[..i], key, k) + (if key(xs[i]) == k then [xs[i]] else [])
  {
    assert xs[..i + 1][..i] == xs[..i];
  }

  /** A group holds every element with its key, and only those. */
  lemma {:induction false} GroupMembers<T, K>(xs: seq<T>, key: T -> K, k: K, x: T)
    ensures x in Group(xs, key, k) <==> x in xs && key(x) == k
    decreases |xs|
  {
    if xs != [] {
      var init := xs[..|xs| - 1];
      assert xs == init + [xs[|xs| - 1]];
      GroupMembers(init, key, k, x);
    }
  }

  /**
   * One result per listed key whose group is non-empty, built by `f` from the
   * key and its group, in key order.
   */
  function GroupsBy<T, K(==), R>(ks: seq<K>, xs: seq<T>, key: T -> K, f: (K, seq<T>) -> R): seq<R>
  {
    if ks == [] then []
    else
      var k := ks[|ks| - 1];
      var g := Group(xs, key, k);
      GroupsBy(ks[..|ks| - 1], xs, key, f) + (if |g| > 0 then [f(k, g)] else [])
  }

  lemma GroupsByStep<T, K, R>(ks: seq<K>, i: nat, xs: seq<T>, key: T -> K, f: (K, seq<T>) -> R)
    requires i < |ks|
    ensures var g := Group(xs, key, ks[i]);
      GroupsBy(ks[..i + 1], xs, key, f) == GroupsBy(ks[..i], xs, key, f) + (if |g| > 0 then [f(ks[i], g)] else [])
  {
    assert ks[..i + 1][..i] == ks[..i];
  }

  /** A key that occurs has a non-empty group, as large as its count. */
  lemma GroupNonEmpty<T, K>(xs: seq<T>, key: T -> K, k: K)
    requires k in KeysOf(xs, key)
    ensures |Group(xs, key, k)| == multiset(KeysOf(xs, key))[k] > 0
  {
  }

  /** When every listed key occurs, there is exactly one result per key... */
  lemma {:induction false} GroupsByLength<T, K(!new), R>(ks: seq<K>, xs: seq<T>, key: T -> K, f: (K, seq<T>) -> R)
    requires forall k :: k in ks ==> k in KeysOf(xs, key)
    ensures |GroupsBy(ks, xs, key, f)| == |ks|
    decreases |ks|
  {
    if ks != [] {
      var init, k := ks[..|ks| - 1], ks[|ks| - 1];
      assert forall k :: k in init ==> k in ks;
      GroupsByLength(init, xs, key, f);
      GroupNonEmpty(xs, key, k);
    }
  }

  /** ...and the `i`-th result is built from the `i`-th key and its group. */
  lemma {:induction false} GroupsByAt<T, K(!new), R>(ks: seq<K>, xs: seq<T>, key: T -> K, f: (K, seq<T>) -> R, i: nat)
    requires forall k :: k in ks ==> k in KeysOf(xs, key)
    requires i < |ks|
    ensures i < |GroupsBy(ks, xs, key, f)| && GroupsBy(ks, xs, key, f)[i] == f(ks[i], Group(xs, key, ks[i]))
    decreases |ks|
  {
    var init, k := ks[..|ks| - 1], ks[|ks| - 1];
    var r0 := GroupsBy(init, xs, key, f);
    GroupsByLast(ks, xs, key, f);
    if i < |init| {
      assert forall k :: k in init ==> k in ks;
      GroupsByAt(init, xs, key, f, i);
      assert ks[i] == init[i];
      assert GroupsBy(ks, xs, key, f)[i] == r0[i];
    } else {
      GroupsByLength(init, xs, key, f);
      assert GroupsBy(ks, xs, key, f)[i] == f(k, Group(xs, key, k));
    }
  }

  /** A last key that occurs contributes one result. */
  lemma GroupsByLast<T, K, R>(ks: seq<K>, xs: seq<T>, key: T -> K, f: (K, seq<T>) -> R)
    requires ks != [] && ks[|ks| - 1] in KeysOf(xs, key)
    ensures GroupsBy(ks, xs, key, f)
      == GroupsBy(ks[..|ks| - 1], xs, key, f) + [f(ks[|ks| - 1], Group(xs, key, ks[|ks| - 1]))]
  {
    GroupNonEmpty(xs, key, ks[|ks| - 1]);
  }

  /** A map from each key that occurs to its group. */
  ghost predicate Grouped<T, K(!new)>(m: map<K, seq<T>>, xs: seq<T>, key: T -> K)
  {
    && (forall k :: k in m <==> k in KeysOf(xs, key))
    && (forall k :: k in m ==> m[k] == Group(xs, key, k))
  }

  /** The distinct keys in order of first occurrence, after one more element. */
  lemma PushKeys<T, K(!new)>(xs: seq<T>, x: T, key: T -> K)
    ensures Dedup(KeysOf(xs + [x], key)) == Add(Dedup(KeysOf(xs, key)), key(x))
  {
    calc {
      Dedup(KeysOf(xs + [x], key));
      AddAll([], KeysOf(xs + [x], key));
      { KeysOfSnoc(xs, x, key); }
      AddAll([], KeysOf(xs, key) + [key(x)]);
      { AddAllSnoc([], KeysOf(xs, key), key(x)); }
      Add(AddAll([], KeysOf(xs, key)), key(x));
    }
  }

  lemma KeysOfSnoc<T, K>(xs: seq<T>, x: T, key: T -> K)
    ensures KeysOf(xs + [x], key) == KeysOf(xs, key) + [key(x)]
  {
  }

  /** Pushing an element onto its key's list keeps the map grouped. */
  lemma PushGrouped<T, K(!new)>(m: map<K, seq<T>>, xs: seq<T>, x: T, key: T -> K)
    requires Grouped(m, xs, key)
    ensures var k := key(x);
      Grouped(m[k := (if k in m then m[k] else []) + [x]], xs + [x], key)
  {
    var k := key(x);
    var ys := xs + [x];
    assert ys[..|xs|] == xs;
    assert KeysOf(ys, key) == KeysOf(xs, key) + [k];
    if k !in m {
      assert multiset(KeysOf(xs, key))[k] == 0;
    }
  }

  /**
   * The state of a grouping pass over `xs`: the keys in order of first
   * occurrence, and the map from each key to its group.
   */
  ghost predicate GroupState<T, K(!new)>(keys: seq<K>, m: map<K, seq<T>>, xs: seq<T>, key: T -> K)
  {
    keys == Dedup(KeysOf(xs, key)) && Grouped(m, xs, key)
  }

  /** The second pass over a finished grouping: the `k`-th key's list is its group, so one more key is one more result. */
  lemma GroupStateStep<T, K(!new), R>(keys: seq<K>, m: map<K, seq<T>>, xs: seq<T>, key: T -> K, f: (K, seq<T>) -> R, k: nat)
    requires GroupState(keys, m, xs, key) && k < |keys|
    ensures keys[k] in m
    ensures GroupsBy(keys[..k + 1], xs, key, f)
      == GroupsBy(keys[..k], xs, key, f) + (if |m[keys[k]]| > 0 then [f(keys[k], m[keys[k]])] else [])
  {
    assert keys[k] in KeysOf(xs, key);
    GroupsByStep(keys, k, xs, key, f);
  }

  /** One step of the grouping pass; `ys` is `xs` with `x` appended. */
  lemma PushGroupState<T, K(!new)>(keys: seq<K>, m: map<K, seq<T>>, xs: seq<T>, x: T, ys: seq<T>, key: T -> K)
    requires GroupState(keys, m, xs, key) && ys == xs + [x]
    ensures var k := key(x);
      GroupState(Add(keys, k), m[k := (if k in m then m[k] else []) + [x]], ys, key)
  {
    PushKeys(xs, x, key);
    PushGrouped(m, xs, x, key);
  }

  /** One more element at the end of the input joins its own key's group only. */
  lemma GroupSnoc<T, K>(xs: seq<T>, x: T, key: T -> K, k: K)
    ensures Group(xs + [x], key, k) == Group(xs, key, k) + (if key(x) == k then [x] else [])
  {
    assert (xs + [x])[..|xs|] == xs;
  }

  /**
   * The map a pass builds when it keeps, per key, a record `f` makes from
   * the key and the elements seen with it so far.
   */
  ghost function Tally<T, K(!new), R>(xs: seq<T>, key: T -> K, f: (K, seq<T>) -> R): map<K, R>
  {
    if xs == [] then map[]
    else
      var init, x := xs[..|xs| - 1], xs[|xs| - 1];
      Tally(init, key, f)[key(x) := f(key(x), Group(xs, key, key(x)))]
  }

  /** The tally holds a record for exactly the keys that occur, each built from its group. */
  lemma {:induction false} TallyAt<T, K(!new), R>(xs: seq<T>, key: T -> K, f: (K, seq<T>) -> R, k: K)
    ensures k in Tally(xs, key, f) <==> k in KeysOf(xs, key)
    ensures k in Tally(xs, key, f) ==> Tally(xs, key, f)[k] == f(k, Group(xs, key, k))
    decreases |xs|
  {
    if xs != [] {
      var init, x := xs[..|xs| - 1], xs[|xs| - 1];
      assert xs == init + [x];
      assert Tally(xs, key, f) == Tally(init, key, f)[key(x) := f(key(x), Group(xs, key, key(x)))];
      TallyAt(init, key, f, k);
      KeysOfSnoc(init, x, key);
      assert k in KeysOf(xs, key) <==> k in KeysOf(init, key) || k == key(x);
      if k != key(x) {
        GroupSnoc(init, x, key, k);
        assert Group(xs, key, k) == Group(init, key, k);
        assert k in Tally(xs, key, f) ==> Tally(xs, key, f)[k] == Tally(init, key, f)[k];
      }
    }
  }

  /**
   * The state of such a pass over `xs`: the keys in order of first
   * occurrence, and the map of records.
   */
  ghost predicate Tallied<T, K(!new), R>(keys: seq<K>, m: map<K, R>, xs: seq<T>, key: T -> K, f: (K, seq<T>) -> R)
  {
    keys == Dedup(KeysOf(xs, key)) && m == Tally(xs, key, f)
  }

  /** One step of the pass: the record of the element's key is rebuilt with the element added. */
  lemma PushTallied<T, K(!new), R>(keys: seq<K>, m: map<K, R>, xs: seq<T>, x: T, ys: seq<T>,
                                  key: T -> K, f: (K, seq<T>) -> R, r: R)
    requires Tallied(keys, m, xs, key, f) && ys == xs + [x]
    requires r == f(key(x), Group(xs, key, key(x)) + [x])
    ensures Tallied(Add(keys, key(x)), m[key(x) := r], ys, key, f)
  {
    PushKeys(xs, x, key);
    GroupSnoc(xs, x, key, key(x));
    assert ys[..|ys| - 1] == xs;
  }

  /** The record the pass holds for a key it has seen... */
  lemma SeenRecord<T, K(!new), R>(keys: seq<K>, m: map<K, R>, xs: seq<T>, key: T -> K, f: (K, seq<T>) -> R, k: K)
    requires Tallied(keys, m, xs, key, f) && k in m
    ensures Group(xs, key, k) != [] && m[k] == f(k, Group(xs, key, k))
  {
    TallyAt(xs, key, f, k);
    GroupNonEmpty(xs, key, k);
  }

  /** ...and a key it has not seen has an empty group. */
  lemma UnseenGroup<T, K(!new), R>(keys: seq<K>, m: map<K, R>, xs: seq<T>, key: T -> K, f: (K, seq<T>) -> R, k: K)
    requires Tallied(keys, m, xs, key, f) && k !in m
    ensures Group(xs, key, k) == []
  {
    TallyAt(xs, key, f, k);
  }

  /** The input a pass has seen grows by one element per step. */
  lemma SeenStep<T>(seen: seq<T>, ys: seq<T>, k: nat)
    requires k < |ys|
    ensures seen + ys[..k + 1] == seen + ys[..k] + [ys[k]]
  {
    assert ys[..k + 1] == ys[..k] + [ys[k]];
  }

  /** `Array.from(map.values())` for a map whose keys, in insertion order, are `keys`. */
  function Values<K, R>(keys: seq<K>, m: map<K, R>): (r: seq<R>)
    requires forall j :: 0 <= j < |keys| ==> keys[j] in m
    ensures |r| == |keys|
    ensures forall j :: 0 <= j < |keys| ==> r[j] == m[keys[j]]
  {
    seq(|keys|, j requires 0 <= j < |keys| && keys[j] in m => m[keys[j]])
  }

  /** At the end of the pass the values, in key order, are the records of the groups. */
  lemma TalliedValues<T, K(!new), R>(keys: seq<K>, m: map<K, R>, xs: seq<T>, key: T -> K, f: (K, seq<T>) -> R)
    requires Tallied(keys, m, xs, key, f)
    ensures forall j :: 0 <= j < |keys| ==> keys[j] in m
    ensures (forall j :: 0 <= j < |keys| ==> keys[j] in m) && Values(keys, m) == GroupsBy(keys, xs, key, f)
  {
    forall j | 0 <= j < |keys|
      ensures keys[j] in m && m[keys[j]] == f(keys[j], Group(xs, key, keys[j]))
    {
      assert keys[j] in KeysOf(xs, key);
      TallyAt(xs, key, f, keys[j]);
    }
    assert forall k :: k in keys ==> k in KeysOf(xs, key);
    GroupsByLength(keys, xs, key, f);
    var vs, gs := Values(keys, m), GroupsBy(keys, xs, key, f);
    forall j | 0 <= j < |keys|
      ensures vs[j] == gs[j]
    {
      GroupsByAt(keys, xs, key, f, j);
    }
  }

  /** No two members have the same key. */
  ghost predicate KeysDistinct<T, K>(s: seq<T>, key: T -> K)
  {
    forall a, b :: 0 <= a < b < |s| ==> key(s[a]) != key(s[b])
  }

  /**
   * Grouping by the distinct keys, in order of first occurrence, gives one
   * result per key built from that key's group; when `f` carries its key
   * into the result, the results' keys are pairwise different.
   */
  lemma GroupsByKeys<T, K(!new), R>(xs: seq<T>, key: T -> K, f: (K, seq<T>) -> R, rkey: R -> K)
    requires forall k, g :: g != [] && key(g[0]) == k ==> rkey(f(k, g)) == k
    ensures var ks := Dedup(KeysOf(xs, key));
      var rs := GroupsBy(ks, xs, key, f);
      && |rs| == |ks|
      && (forall j :: 0 <= j < |rs| ==> rs[j] == f(ks[j], Group(xs, key, ks[j])) && rkey(rs[j]) == ks[j])
      && KeysDistinct(rs, rkey)
  {
    var ks := Dedup(KeysOf(xs, key));
    var rs := GroupsBy(ks, xs, key, f);
    assert forall k :: k in ks ==> k in KeysOf(xs, key);
    DedupDistinct(KeysOf(xs, key));
    GroupsByLength(ks, xs, key, f);
    forall j | 0 <= j < |rs|
      ensures rs[j] == f(ks[j], Group(xs, key, ks[j])) && rkey(rs[j]) == ks[j]
    {
      GroupsByAt(ks, xs, key, f, j);
      GroupNonEmpty(xs, key, ks[j]);
    }
  }

  /** Every element's key has its result in the grouping. */
  lemma GroupsByCovers<T, K(!new), R>(xs: seq<T>, key: T -> K, f: (K, seq<T>) -> R, x: T) returns (j: nat)
    requires x in xs
    ensures var ks := Dedup(KeysOf(xs, key));
      j < |ks| == |GroupsBy(ks, xs, key, f)| && ks[j] == key(x)
      && GroupsBy(ks, xs, key, f)[j] == f(key(x), Group(xs, key, key(x)))
  {
    var ks := Dedup(KeysOf(xs, key));
    var i :| 0 <= i < |xs| && xs[i] == x;
    assert KeysOf(xs, key)[i] == key(x);
    assert key(x) in ks;
    j :| 0 <= j < |ks| && ks[j] == key(x);
    assert forall k :: k in ks ==> k in KeysOf(xs, key);
    GroupsByLength(ks, xs, key, f);
    GroupsByAt(ks, xs, key, f, j);
  }

  /** Sorting the grouping keeps one result per distinct key... */
  lemma SortedGroupsLength<T, K(!new), R>(xs: seq<T>, key: T -> K, f: (K, seq<T>) -> R, rank: R -> int)
    ensures var ks := Dedup(KeysOf(xs, key));
      |SortDesc(GroupsBy(ks, xs, key, f), rank)| == |ks|
  {
    var ks := Dedup(KeysOf(xs, key));
    assert forall k :: k in ks ==> k in KeysOf(xs, key);
    GroupsByLength(ks, xs, key, f);
  }

  /** ...and every element still finds the result of its key. */
  lemma SortedGroupsCover<T, K(!new), R>(xs: seq<T>, key: T -> K, f: (K, seq<T>) -> R, rank: R -> int, rkey: R -> K, x: T)
    requires forall k, g :: g != [] && key(g[0]) == k ==> rkey(f(k, g)) == k
    requires x in xs
    ensures exists r :: r in SortDesc(GroupsBy(Dedup(KeysOf(xs, key)), xs, key, f), rank) && rkey(r) == key(x)
  {
    var ks := Dedup(KeysOf(xs, key));
    var rs := GroupsBy(ks, xs, key, f);
    var j := GroupsByCovers(xs, key, f, x);
    GroupNonEmpty(xs, key, key(x));
    assert rs[j] in multiset(SortDesc(rs, rank));
    assert rkey(rs[j]) == key(x);
  }

  /** A sequence without duplicates counts each member at most once... */
  lemma {:induction false} DistinctCounts<T>(s: seq<T>)
    requires Distinct(s)
    ensures forall x :: multiset(s)[x] <= 1
    decreases |s|
  {
    if s != [] {
      var init, x := s[..|s| - 1], s[|s| - 1];
      MultisetSnoc(s);
      DistinctCounts(init);
      assert forall i :: 0 <= i < |init| ==> init[i] != x;
    }
  }

  /** ...and a sequence counting each member at most once has no duplicates. */
  lemma CountsDistinct<T>(s: seq<T>)
    requires forall x :: multiset(s)[x] <= 1
    ensures Distinct(s)
  {
    forall i, j | 0 <= i < j < |s|
      ensures s[i] != s[j]
    {
      assert s == s[..j] + [s[j]] + s[j + 1..];
      assert multiset(s) == multiset(s[..j]) + multiset{s[j]} + multiset(s[j + 1..]);
      assert s[..j][i] == s[i];
      assert multiset(s[..j])[s[i]] >= 1;
      assert multiset(s)[s[j]] >= multiset(s[..j])[s[j]] + 1;
    }
  }

  /** Reordering keeps a sequence free of duplicates. */
  lemma DistinctPermutation<T>(s: seq<T>, t: seq<T>)
    requires multiset(s) == multiset(t) && Distinct(s)
    ensures Distinct(t)
  {
    DistinctCounts(s);
    CountsDistinct(t);
  }

  /** Reordering keeps the members' keys pairwise different. */
  lemma KeysDistinctPermutation<T, K>(s: seq<T>, t: seq<T>, key: T -> K)
    requires multiset(s) == multiset(t) && KeysDistinct(s, key)
    ensures KeysDistinct(t, key)
  {
    DistinctPermutation(s, t);
    forall i, j | 0 <= i < j < |t|
      ensures key(t[i]) != key(t[j])
    {
      assert t[i] in multiset(s) && t[j] in multiset(s);
      var a :| 0 <= a < |s| && s[a] == t[i];
      var b :| 0 <= b < |s| && s[b] == t[j];
      assert a != b;
    }
  }

  /** A subsequence is no longer than the sequence, and as long only when equal to it. */
  lemma {:induction false} SubseqLength<T>(a: seq<T>, b: seq<T>)
    requires IsSubseq(a, b)
    ensures |a| <= |b|
    ensures |a| == |b| ==> a == b
    decreases |b|
  {
    if a != [] {
      var a', b' := a[..|a| - 1], b[..|b| - 1];
      if IsSubseq(a, b') {
        SubseqLength(a, b');
      } else {
        SubseqLength(a', b');
        assert a == a' + [a[|a| - 1]] && b == b' + [b[|b| - 1]];
      }
    }
  }

  /** A repeated value makes `Dedup` strictly shorter than its input. */
  lemma DedupShorter<T(!new)>(xs: seq<T>, i: nat, j: nat)
    requires i < j < |xs| && xs[i] == xs[j]
    ensures |Dedup(xs)| < |xs|
  {
    DedupSubseq(xs);
    SubseqLength(Dedup(xs), xs);
    DedupDistinct(xs);
    assert Dedup(xs) != xs;
  }

  /** A prefix is a subsequence. */
  lemma {:induction false} PrefixSubseq<T>(s: seq<T>, n: nat)
    requires n <= |s|
    ensures IsSubseq(s[..n], s)
    decreases |s|
  {
    if n == |s| {
      assert s[..n] == s;
      IsSubseqRefl(s);
    } else {
      PrefixSubseq(s[..|s| - 1], n);
      assert s[..|s| - 1][..n] == s[..n];
    }
  }

  /** `Dedup` keeps the first occurrences in their original order: it deletes elements only. */
  lemma {:induction false} DedupSubseq<T(!new)>(xs: seq<T>)
    ensures IsSubseq(Dedup(xs), xs)
    decreases |xs|
  {
    if xs != [] {
      var init, x := xs[..|xs| - 1], xs[|xs| - 1];
      LastSplit(xs);
      DedupSubseq(init);
      AddAllSnoc([], init, x);
      var d := Dedup(init);
      if x in d {
        assert Dedup(xs) == d;
      } else {
        var d' := d + [x];
        assert Dedup(xs) == d';
        assert d'[..|d'| - 1] == d && xs[..|xs| - 1] == init;
      }
    }
  }

  /** Sum of the multiplicities, in `m`, of the members listed in `ks`. */
  function SumCounts<T>(ks: seq<T>, m: multiset<T>): nat
  {
    if ks == [] then 0 else m[ks[0]] + SumCounts(ks[1..], m)
  }

  lemma {:induction false} SumCountsAdd<T>(ks: seq<T>, m: multiset<T>, x: T)
    requires Distinct(ks)
    ensures SumCounts(ks, m + multiset{x}) == SumCounts(ks, m) + (if x in ks then 1 else 0)
  {
    if ks != [] {
      assert x in ks[1..] ==> ks[0] != x;
      SumCountsAdd(ks[1..], m, x);
    }
  }

  lemma {:induction false} SumCountsLast<T>(ks: seq<T>, m: multiset<T>, x: T)
    ensures SumCounts(ks + [x], m) == SumCounts(ks, m) + m[x]
    decreases |ks|
  {
    if ks == [] {
      assert [x][1..] == [];
    } else {
      assert (ks + [x])[1..] == ks[1..] + [x];
      SumCountsLast(ks[1..], m, x);
    }
  }

  lemma {:induction false} SumCountsSnoc<T>(ks: seq<T>, m: multiset<T>, x: T)
    requires m[x] == 0
    ensures SumCounts(ks + [x], m + multiset{x}) == SumCounts(ks, m + multiset{x}) + 1
  {
    if ks == [] {
      assert [x][1..] == [];
    } else {
      assert (ks + [x])[1..] == ks[1..] + [x];
      SumCountsSnoc(ks[1..], m, x);
    }
  }

  /**
   * Grouping a list by key loses nothing: the group sizes, summed over the
   * distinct keys, give the length of the list.
   */
  lemma {:induction false} GroupSizesSum<T(!new)>(keys: seq<T>)
    ensures SumCounts(Dedup(keys), multiset(keys)) == |keys|
    decreases |keys|
  {
    if keys != [] {
      var init, x := keys[..|keys| - 1], keys[|keys| - 1];
      assert keys == init + [x];
      GroupSizesSum(init);
      DedupDistinct(init);
      AddAllSnoc([], init, x);
      assert multiset(keys) == multiset(init) + multiset{x};
      var d := Dedup(init);
      SumCountsAdd(d, multiset(init), x);
      if x !in d {
        assert multiset(init)[x] == 0;
        SumCountsSnoc(d, multiset(init), x);
      }
    }
  }

  /** Insertion into a list kept in non-increasing order of `key`, after the elements whose key is not smaller. */
  function InsertDesc<T>(x: T, s: seq<T>, key: T -> int): (r: seq<T>)
    ensures multiset(r) == multiset(s) + multiset{x}
    ensures |r| == |s| + 1
  {
    if s == [] || key(s[0]) < key(x) then [x] + s
    else
      assert s == [s[0]] + s[1..];
      [s[0]] + InsertDesc(x, s[1..], key)
  }

  ghost predicate SortedDesc<T>(s: seq<T>, key: T -> int)
  {
    forall i, j :: 0 <= i < j < |s| ==> key(s[i]) >= key(s[j])
  }

  lemma {:induction false} InsertDescSorted<T>(x: T, s: seq<T>, key: T -> int)
    requires SortedDesc(s, key)
    ensures SortedDesc(InsertDesc(x, s, key), key)
    ensures InsertDesc(x, s, key) != [] && key(InsertDesc(x, s, key)[0]) == (if s == [] || key(s[0]) < key(x) then key(x) else key(s[0]))
  {
    if s != [] && key(s[0]) >= key(x) {
      InsertDescSorted(x, s[1..], key);
    }
  }

  /** The prefix as long as the sequence is the sequence. */
  lemma PrefixFull<T>(s: seq<T>, n: nat)
    requires n == |s|
    ensures s[..n] == s
  {
  }

  /** A prefix one longer is the prefix followed by the next element. */
  lemma PrefixStep<T>(s: seq<T>, i: nat)
    requires i < |s|
    ensures s[..i + 1] == s[..i] + [s[i]]
  {
  }

  /** The keys of a concatenation are the concatenated keys. */
  lemma KeysOfConcat<T, K>(a: seq<T>, b: seq<T>, key: T -> K)
    ensures KeysOf(a + b, key) == KeysOf(a, key) + KeysOf(b, key)
  {
  }

  /** A non-empty sequence is its front followed by its last element. */
  lemma LastSplit<T>(s: seq<T>)
    requires s != []
    ensures s == s[..|s| - 1] + [s[|s| - 1]]
  {
  }

  lemma MultisetSnoc<T>(s: seq<T>)
    requires s != []
    ensures multiset(s) == multiset(s[..|s| - 1]) + multiset{s[|s| - 1]}
  {
    assert s == s[..|s| - 1] + [s[|s| - 1]];
  }

  /**
   * `Array.prototype.sort` by a descending numeric key: a permutation of
   * the input, ordered by key. The order of two elements with equal keys is
   * not part of the contract.
   */
  function SortDesc<T>(s: seq<T>, key: T -> int): (r: seq<T>)
    ensures multiset(r) == multiset(s)
    ensures |r| == |s|
    ensures SortedDesc(r, key)
  {
    if s == [] then []
    else
      var tail := SortDesc(s[..|s| - 1], key);
      InsertDescSorted(s[|s| - 1], tail, key);
      MultisetSnoc(s);
      InsertDesc(s[|s| - 1], tail, key)
  }
}
