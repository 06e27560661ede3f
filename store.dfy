/**
 * A key-value store written by `set` calls, each of which writes a few keys
 * at once, as the extension's local and sync storage areas are. The store is
 * a map; a history of writes is a sequence of such calls.
 */
module Store {
  import opened Wrappers

  /** One `set({k1: v1, k2: v2, ...})` call. */
  type Write<K, V> = seq<(K, V)>

  function Lookup<K(==,!new), V>(m: map<K, V>, k: K): Option<V>
  {
    if k in m then Some(m[k]) else None
  }

  /** The value one call writes to `k`, if it writes `k` at all (the last entry wins). */
  function Written<K(==,!new), V>(w: Write<K, V>, k: K): (r: Option<V>)
    ensures r.Some? <==> exists j :: 0 <= j < |w| && w[j].0 == k
  {
    if w == [] then None
    else if w[|w| - 1].0 == k then Some(w[|w| - 1].1)
    else
      var init := w[..|w| - 1];
      assert forall j :: 0 <= j < |init| ==> init[j] == w[j];
      Written(init, k)
  }

  function ApplyWrite<K(==,!new), V>(m: map<K, V>, w: Write<K, V>): (r: map<K, V>)
    ensures forall k :: Lookup(r, k) == if Written(w, k).Some? then Written(w, k) else Lookup(m, k)
  {
    if w == [] then m
    else
      var init, e := w[..|w| - 1], w[|w| - 1];
      ApplyWrite(m, init)[e.0 := e.1]
  }

  /** The store after a history of calls, oldest first. */
  function ApplyAll<K(==,!new), V>(m: map<K, V>, ws: seq<Write<K, V>>): map<K, V>
  {
    if ws == [] then m else ApplyWrite(ApplyAll(m, ws[..|ws| - 1]), ws[|ws| - 1])
  }

  /** The value the latest call that writes `k` gave it. */
  function LastWritten<K(==,!new), V>(ws: seq<Write<K, V>>, k: K): Option<V>
  {
    if ws == [] then None
    else if Written(ws[|ws| - 1], k).Some? then Written(ws[|ws| - 1], k)
    else LastWritten(ws[..|ws| - 1], k)
  }

  /** A key holds the value of its latest write, or what it held before. */
  lemma {:induction false} ApplyAllLookup<K(!new), V>(m: map<K, V>, ws: seq<Write<K, V>>, k: K)
    ensures Lookup(ApplyAll(m, ws), k) == if LastWritten(ws, k).Some? then LastWritten(ws, k) else Lookup(m, k)
    decreases |ws|
  {
    if ws != [] {
      ApplyAllLookup(m, ws[..|ws| - 1], k);
    }
  }

  lemma {:induction false} LastWrittenConcat<K(!new), V>(a: seq<Write<K, V>>, b: seq<Write<K, V>>, k: K)
    ensures LastWritten(a + b, k) == if LastWritten(b, k).Some? then LastWritten(b, k) else LastWritten(a, k)
    decreases |b|
  {
    if b != [] {
      assert (a + b)[..|a + b| - 1] == a + b[..|b| - 1];
      assert (a + b)[|a + b| - 1] == b[|b| - 1];
      LastWrittenConcat(a, b[..|b| - 1], k);
    } else {
      assert a + b == a;
    }
  }

  /** A history of a single call writes what that call writes. */
  lemma LastWrittenSingle<K(!new), V>(w: Write<K, V>, k: K)
    ensures LastWritten([w], k) == Written(w, k)
  {
    assert [w][..0] == [];
  }

  /** A call writing two distinct keys writes each to its value and nothing else. */
  lemma WrittenPair<K(!new), V>(k1: K, v1: V, k2: K, v2: V, k: K)
    requires k1 != k2
    ensures Written([(k1, v1), (k2, v2)], k) == if k == k1 then Some(v1) else if k == k2 then Some(v2) else None
  {
    assert [(k1, v1), (k2, v2)][..1] == [(k1, v1)];
    assert [(k1, v1)][..0] == [];
  }

  lemma ApplyAllSnoc<K(!new), V>(m: map<K, V>, ws: seq<Write<K, V>>, w: Write<K, V>)
    ensures ApplyAll(m, ws + [w]) == ApplyWrite(ApplyAll(m, ws), w)
  {
    assert (ws + [w])[..|ws|] == ws;
  }

  lemma ApplyAllConcat<K(!new), V>(m: map<K, V>, a: seq<Write<K, V>>, b: seq<Write<K, V>>)
    ensures ApplyAll(m, a + b) == ApplyAll(ApplyAll(m, a), b)
    decreases |b|
  {
    if b != [] {
      assert (a + b)[..|a + b| - 1] == a + b[..|b| - 1];
      ApplyAllConcat(m, a, b[..|b| - 1]);
    } else {
      assert a + b == a;
    }
  }
}
