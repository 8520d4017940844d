/** Insertion-ordered dictionaries, as Python keeps them. */
module Dicts {
  import opened Sequences

  datatype Dict<V> = Dict(keys: seq<string>, vals: map<string, V>)

  function EmptyDict<V>(): Dict<V> { Dict([], map[]) }

  /** The key list names each stored key once. */
  ghost predicate Ordered<V>(d: Dict<V>) {
    && NoDup(d.keys)
    && (forall k :: k in d.keys <==> k in d.vals)
  }

  /** d[k] = v: an existing key keeps its place. */
  function Put<V>(d: Dict<V>, k: string, v: V): Dict<V> {
    Dict(if k in d.vals then d.keys else d.keys + [k], d.vals[k := v])
  }

  function Drop(keys: seq<string>, k: string): seq<string> {
    if keys == [] then []
    else (if keys[0] == k then [] else [keys[0]]) + Drop(keys[1..], k)
  }

  /** del d[k] */
  function Remove<V>(d: Dict<V>, k: string): Dict<V> {
    Dict(Drop(d.keys, k), d.vals - {k})
  }

  lemma {:induction false} DropMembers(keys: seq<string>, k: string)
    ensures forall x :: x in Drop(keys, k) <==> x in keys && x != k
  {
    if keys != [] {
      DropMembers(keys[1..], k);
      forall x ensures x in Drop(keys, k) <==> x in keys && x != k {
        assert x in keys <==> x == keys[0] || x in keys[1..];
      }
    }
  }

  lemma {:induction false} DropNoDup(keys: seq<string>, k: string)
    requires NoDup(keys)
    ensures NoDup(Drop(keys, k))
    ensures |Drop(keys, k)| == if k in keys then |keys| - 1 else |keys|
  {
    if keys != [] {
      DropNoDup(keys[1..], k);
      DropMembers(keys[1..], k);
      var rest := Drop(keys[1..], k);
      forall j | 0 <= j < |rest| ensures rest[j] != keys[0] {
        assert rest[j] in rest && rest[j] in keys[1..];
      }
      assert k in keys <==> k == keys[0] || k in keys[1..];
    }
  }

  lemma {:induction false} PutOrdered<V>(d: Dict<V>, k: string, v: V)
    requires Ordered(d)
    ensures Ordered(Put(d, k, v))
    ensures |Put(d, k, v).keys| == if k in d.vals then |d.keys| else |d.keys| + 1
    ensures d.keys <= Put(d, k, v).keys && k in Put(d, k, v).keys
  {
  }

  lemma {:induction false} RemoveOrdered<V>(d: Dict<V>, k: string)
    requires Ordered(d)
    ensures Ordered(Remove(d, k))
    ensures |Remove(d, k).keys| == if k in d.vals then |d.keys| - 1 else |d.keys|
  {
    DropMembers(d.keys, k);
    DropNoDup(d.keys, k);
  }
}
