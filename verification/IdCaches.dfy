/** `LinearIdCacheMap` (core/util.hxx:127-165): ids are handed out in sequence, and a
    key keeps its id until it is erased. Each operation is one atomic step. */
module IdCaches {
  import opened Wrappers

  datatype IdMap<!K> = IdMap(next: nat, ids: map<K, nat>) {

    function Created(key: K): IdMap<K> {
      if key in ids then this else IdMap(next + 1, ids[key := next])
    }

    function Erased(key: K): IdMap<K> { IdMap(next, ids - {key}) }

    /** No two live keys share an id, and the counter is above every live id. */
    ghost predicate Sound() {
      && (forall k :: k in ids ==> ids[k] < next)
      && (forall j, k :: j in ids && k in ids && ids[j] == ids[k] ==> j == k)
    }
  }

  class LinearIdCacheMap<Key(==)> {
    var next: nat
    var ids: map<Key, nat>

    function View(): IdMap<Key>
      reads this
    {
      IdMap(next, ids)
    }

    constructor ()
      ensures View() == IdMap(0, map[])
    {
      next, ids := 0, map[];
    }

    method Create(key: Key) returns (v: nat)
      modifies this
      ensures View() == old(View()).Created(key)
      ensures key in ids && v == ids[key]
    {
      if key in ids {
        return ids[key];
      }
      v := next;
      next := next + 1;
      ids := ids[key := v];
    }

    /** None stands for the exception of `at`. */
    method Get(key: Key) returns (r: Option<nat>)
      ensures r == if key in ids then Some(ids[key]) else None
    {
      if key in ids {
        r := Some(ids[key]);
      } else {
        r := None;
      }
    }

    method Erase(key: Key)
      modifies this
      ensures View() == old(View()).Erased(key)
    {
      ids := ids - {key};
    }
  }

  // ---- Runs of operations ----

  datatype Op<K> = Create(key: K) | Get(key: K) | Erase(key: K)

  function Apply<K(==)>(m: IdMap<K>, op: Op<K>): IdMap<K> {
    match op
    case Create(key) => m.Created(key)
    case Get(_) => m
    case Erase(key) => m.Erased(key)
  }

  function After<K(==)>(ops: seq<Op<K>>): IdMap<K> {
    if ops == [] then IdMap(0, map[]) else Apply(After(ops[..|ops| - 1]), ops[|ops| - 1])
  }

  /** The id that the i-th operation returned, if it returned one. */
  function Answer<K(==)>(ops: seq<Op<K>>, i: nat): Option<nat>
    requires i < |ops|
  {
    var m := After(ops[..i]);
    match ops[i]
    case Create(key) => Some(m.Created(key).ids[key])
    case Get(key) => if key in m.ids then Some(m.ids[key]) else None
    case Erase(_) => None
  }

  /** Key `k` was not erased strictly between operations i and j. */
  ghost predicate Held<K(!new)>(ops: seq<Op<K>>, i: nat, j: nat, k: K) {
    forall t :: i < t < j && t < |ops| ==> ops[t] != Erase(k)
  }

  lemma {:induction false} AlwaysSound<K(!new)>(ops: seq<Op<K>>)
    ensures After(ops).Sound()
  {
    if ops != [] {
      AlwaysSound(ops[..|ops| - 1]);
    }
  }

  /** Where id `a`, once given to `k`, is afterwards: with `k` or, once `k` was erased,
      with nobody for ever. */
  ghost predicate Tracked<K(!new)>(m: IdMap<K>, k: K, a: nat, held: bool) {
    && a < m.next
    && (if held then k in m.ids && m.ids[k] == a else forall j :: j in m.ids ==> m.ids[j] != a)
  }

  lemma {:induction false} TrackId<K(!new)>(ops: seq<Op<K>>, i: nat, j: nat)
    requires i < j <= |ops| && Answer(ops, i).Some?
    ensures Tracked(After(ops[..j]), ops[i].key, Answer(ops, i).value, Held(ops, i, j, ops[i].key))
    decreases j
  {
    var k, before := ops[i].key, ops[..j - 1];
    assert ops[..j][..j - 1] == before;
    AlwaysSound(before);
    if j > i + 1 {
      TrackId(ops, i, j - 1);
      assert Held(ops, i, j, k) <==> Held(ops, i, j - 1, k) && ops[j - 1] != Erase(k);
    }
  }

  /** Over every run, two answers agree exactly when they are for the same key and the
      key was not erased in between: ids are neither shared nor ever used again. */
  lemma SameIdIffHeld<K(!new)>(ops: seq<Op<K>>, i: nat, j: nat)
    requires i < j < |ops| && Answer(ops, i).Some? && Answer(ops, j).Some?
    ensures Answer(ops, i) == Answer(ops, j) <==>
            ops[i].key == ops[j].key && Held(ops, i, j, ops[i].key)
  {
    TrackId(ops, i, j);
    AlwaysSound(ops[..j]);
  }

  /** And no id below the counter was skipped: each was the answer to some `create`. */
  lemma {:induction false} NoIdIsSkipped<K(!new)>(ops: seq<Op<K>>, a: nat)
    requires a < After(ops).next
    ensures exists i :: 0 <= i < |ops| && ops[i].Create? && Answer(ops, i) == Some(a)
  {
    var n := |ops| - 1;
    var before := ops[..n];
    if a < After(before).next {
      NoIdIsSkipped(before, a);
      var i :| 0 <= i < |before| && before[i].Create? && Answer(before, i) == Some(a);
      assert before[..i] == ops[..i] && before[i] == ops[i];
      assert Answer(ops, i) == Some(a);
    } else {
      assert Answer(ops, n) == Some(a);
    }
  }

  /** The counter is above every id ever issued. */
  lemma CounterAboveAll<K(!new)>(ops: seq<Op<K>>, i: nat)
    requires i < |ops| && Answer(ops, i).Some?
    ensures Answer(ops, i).value < After(ops).next
  {
    TrackId(ops, i, |ops|);
    assert ops[..|ops|] == ops;
  }
}
