/** A kvtree as the code holds it: an ordered list of elements with unique keys, each with a child that may be NULL. */
module Hashes {
  import opened Text
  import opened Trees

  datatype Hash = Null | Hash(elems: seq<Elem>)
  datatype Elem = Elem(key: Key, hash: Hash)

  function Elems(h: Hash): seq<Elem> {
    if h.Null? then [] else h.elems
  }

  ghost predicate Unique(es: seq<Elem>) {
    forall i, j :: 0 <= i < j < |es| ==> es[i].key != es[j].key
  }

  /** Keys are unique at every level. */
  ghost predicate WF(h: Hash) {
    h.Null? || (Unique(h.elems) && forall i :: 0 <= i < |h.elems| ==> WF(h.elems[i].hash))
  }

  ghost function Abs(h: Hash): Tree
    decreases h
  {
    if h.Null? then EMPTY else Tree(AbsElems(h.elems))
  }

  ghost function AbsElems(es: seq<Elem>): map<string, Tree>
    decreases es
  {
    if es == [] then map[] else AbsElems(es[1..])[es[0].key := Abs(es[0].hash)]
  }

  /** Position of the first element with this key, or the length. */
  function IndexOf(es: seq<Elem>, k: string): (i: nat)
    ensures i <= |es|
    ensures i < |es| ==> es[i].key == k
    ensures forall j :: 0 <= j < i ==> es[j].key != k
  {
    if es == [] || es[0].key == k then 0 else 1 + IndexOf(es[1..], k)
  }

  /** kvtree_get: NULL when the key is missing (or has no hash). */
  function Get(h: Hash, k: string): Hash {
    var i := IndexOf(Elems(h), k);
    if i < |Elems(h)| then Elems(h)[i].hash else Null
  }

  /** kvtree_elem_extract: the list without the first match. */
  function Without(es: seq<Elem>, k: string): seq<Elem> {
    if es == [] then [] else if es[0].key == k then es[1..] else [es[0]] + Without(es[1..], k)
  }

  /** kvtree_set: extract any match, then insert at the head. */
  function Set(h: Hash, k: Key, v: Hash): Hash
    requires h.Hash?
  {
    Hash([Elem(k, v)] + Without(h.elems, k))
  }

  /** Update a child through its pointer, creating it at the head when it is missing or NULL. */
  function Put(h: Hash, k: Key, v: Hash): Hash
    requires h.Hash?
  {
    var i := IndexOf(h.elems, k);
    if i < |h.elems| && h.elems[i].hash.Hash? then Hash(h.elems[i := Elem(k, v)]) else Set(h, k, v)
  }

  function OrNew(h: Hash): (r: Hash)
    ensures r.Hash?
  {
    if h.Null? then Hash([]) else h
  }

  lemma {:induction false} AbsLookup(es: seq<Elem>, k: string)
    ensures k in AbsElems(es) <==> IndexOf(es, k) < |es|
    ensures k in AbsElems(es) ==> AbsElems(es)[k] == Abs(es[IndexOf(es, k)].hash)
    decreases |es|
  {
    if es != [] {
      AbsLookup(es[1..], k);
    }
  }

  lemma {:induction false} AbsAt(es: seq<Elem>, i: nat)
    requires Unique(es) && i < |es|
    ensures IndexOf(es, es[i].key) == i
    ensures es[i].key in AbsElems(es) && AbsElems(es)[es[i].key] == Abs(es[i].hash)
  {
    AbsLookup(es, es[i].key);
  }

  /** As many children as elements. */
  lemma {:induction false} KidsCount(es: seq<Elem>)
    requires Unique(es)
    ensures |AbsElems(es)| == |es|
    decreases |es|
  {
    if es != [] {
      KidsCount(es[1..]);
      AbsLookup(es[1..], es[0].key);
    }
  }

  lemma GetIsKid(h: Hash, k: string)
    ensures Kid(Abs(h), k) == Abs(Get(h, k))
    ensures WF(h) ==> WF(Get(h, k))
    ensures Child(Abs(h), k).Some? <==> IndexOf(Elems(h), k) < |Elems(h)|
  {
    AbsLookup(Elems(h), k);
  }

  lemma {:induction false} WithoutKeeps(es: seq<Elem>, k: string)
    requires Unique(es)
    ensures forall e :: e in Without(es, k) <==> e in es && e.key != k
    ensures Unique(Without(es, k))
    decreases |es|
  {
    if es != [] && es[0].key != k {
      WithoutKeeps(es[1..], k);
      var tail := Without(es[1..], k);
      forall j | 0 <= j < |tail|
        ensures tail[j].key != es[0].key
      {
        assert tail[j] in es[1..];
      }
    }
  }

  lemma {:induction false} WithoutRemoves(es: seq<Elem>, k: string)
    requires Unique(es)
    ensures AbsElems(Without(es, k)) == AbsElems(es) - {k}
    decreases |es|
  {
    if es != [] {
      if es[0].key == k {
        AbsLookup(es[1..], k);
      } else {
        WithoutRemoves(es[1..], k);
        var tail := Without(es[1..], k);
        assert ([es[0]] + tail)[1..] == tail;
      }
    }
  }

  lemma SetUpdates(h: Hash, k: Key, v: Hash)
    requires h.Hash? && WF(h) && WF(v)
    ensures WF(Set(h, k, v))
    ensures Abs(Set(h, k, v)) == Tree(Abs(h).kids[k := Abs(v)])
  {
    SetKeepsWF(h, k, v);
    SetOnMap(h.elems, k, v);
  }

  lemma SetKeepsWF(h: Hash, k: Key, v: Hash)
    requires h.Hash? && WF(h) && WF(v)
    ensures WF(Set(h, k, v))
  {
    var w := Without(h.elems, k);
    WithoutKeeps(h.elems, k);
    forall j | 0 <= j < |w|
      ensures w[j].key != k && WF(w[j].hash)
    {
      assert w[j] in w && w[j] in h.elems;
    }
  }

  lemma SetOnMap(es: seq<Elem>, k: Key, v: Hash)
    requires Unique(es)
    ensures AbsElems([Elem(k, v)] + Without(es, k)) == AbsElems(es)[k := Abs(v)]
  {
    WithoutRemoves(es, k);
    var s := [Elem(k, v)] + Without(es, k);
    assert s[1..] == Without(es, k);
    assert (AbsElems(es) - {k})[k := Abs(v)] == AbsElems(es)[k := Abs(v)];
  }

  lemma PutUpdates(h: Hash, k: Key, v: Hash)
    requires h.Hash? && WF(h) && WF(v)
    ensures Put(h, k, v).Hash? && WF(Put(h, k, v))
    ensures Abs(Put(h, k, v)) == Tree(Abs(h).kids[k := Abs(v)])
  {
    var i := IndexOf(h.elems, k);
    if i < |h.elems| && h.elems[i].hash.Hash? {
      var r := h.elems[i := Elem(k, v)];
      assert Unique(r);
      forall q
        ensures q in AbsElems(r) <==> q in AbsElems(h.elems)[k := Abs(v)]
        ensures q in AbsElems(r) ==> AbsElems(r)[q] == AbsElems(h.elems)[k := Abs(v)][q]
      {
        AbsLookup(h.elems, q);
        AbsLookup(r, q);
        assert forall j :: 0 <= j < |r| ==> r[j].key == h.elems[j].key;
        if IndexOf(r, q) < |r| { AbsAt(h.elems, IndexOf(r, q)); }
      }
      assert AbsElems(r) == AbsElems(h.elems)[k := Abs(v)];
    } else {
      SetUpdates(h, k, v);
    }
  }

  lemma {:induction false} AbsPrefix(es: seq<Elem>, i: nat)
    requires Unique(es) && i < |es|
    ensures Unique(es[..i]) && Unique(es[..i + 1])
    ensures AbsElems(es[..i + 1]) == AbsElems(es[..i])[es[i].key := Abs(es[i].hash)]
    ensures es[i].key !in AbsElems(es[..i])
  {
    var p, q := es[..i], es[..i + 1];
    AbsLookup(p, es[i].key);
    forall k
      ensures k in AbsElems(q) <==> k in AbsElems(p)[es[i].key := Abs(es[i].hash)]
      ensures k in AbsElems(q) ==> AbsElems(q)[k] == AbsElems(p)[es[i].key := Abs(es[i].hash)][k]
    {
      AbsLookup(p, k);
      AbsLookup(q, k);
      if IndexOf(p, k) < |p| { AbsAt(q, IndexOf(p, k)); }
    }
  }

  /** One more element of hash2 merged in: the join grows by exactly that element. */
  lemma JoinStep(a: Tree, m: map<string, Tree>, k: string, t: Tree)
    requires k !in m
    ensures Join(a, Tree(m[k := t])) == Tree(Join(a, Tree(m)).kids[k := Join(Kid(a, k), t)])
    ensures Kid(Join(a, Tree(m)), k) == Kid(a, k)
  {
    JoinEmpty(t);
    JoinEmpty(Kid(a, k));
    assert Join(a, Tree(m[k := t])).kids == Join(a, Tree(m)).kids[k := Join(Kid(a, k), t)];
  }

  /** kvtree_merge. The result keeps keys unique whatever hash2 is; when hash2 has unique keys it is the join. */
  method Merge(h1: Hash, h2: Hash) returns (rc: bool, r: Hash)
    requires WF(h1)
    ensures rc <==> h1.Hash?
    ensures !rc ==> r == h1
    ensures WF(r) && (rc ==> r.Hash?)
    ensures rc && WF(h2) ==> Abs(r) == Join(Abs(h1), Abs(h2))
    decreases h2
  {
    rc, r := h1.Hash?, h1;
    if h1.Null? {
      return;
    }
    JoinEmpty(Abs(h1));
    var i := 0;
    while i < |Elems(h2)|
      invariant 0 <= i <= |Elems(h2)|
      invariant r.Hash? && WF(r)
      invariant WF(h2) ==> Abs(r) == Join(Abs(h1), Tree(AbsElems(Elems(h2)[..i])))
    {
      var elem := h2.elems[i];
      var old1 := Get(r, elem.key);
      GetIsKid(r, elem.key);
      var _, merged := Merge(OrNew(old1), elem.hash);
      ghost var before := r;
      r := Put(r, elem.key, merged);
      PutUpdates(before, elem.key, merged);
      if WF(h2) {
        AbsPrefix(h2.elems, i);
        JoinStep(Abs(h1), AbsElems(h2.elems[..i]), elem.key, Abs(elem.hash));
      }
      i := i + 1;
    }
    assert Elems(h2)[..i] == Elems(h2);
  }

  /** The hash at key/val, created when missing, with src merged into it:
      `kvtree_merge(kvtree_set_kv(h, key, val), src)`. */
  method MergeUnder(h: Hash, key: Key, val: Key, src: Hash) returns (r: Hash)
    requires h.Hash? && WF(h)
    ensures r.Hash? && WF(r)
    ensures WF(src) ==> Abs(r) == Join(Abs(h), Single(key, Single(val, Abs(src))))
  {
    GetIsKid(h, key);
    var k := OrNew(Get(h, key));
    GetIsKid(k, val);
    var v := OrNew(Get(k, val));
    var _, v' := Merge(v, src);
    PutUpdates(k, val, v');
    r := Put(h, key, Put(k, val, v'));
    PutUpdates(h, key, Put(k, val, v'));
    if WF(src) {
      JoinSingle(Abs(k), val, Abs(src));
      JoinSingle(Abs(h), key, Single(val, Abs(src)));
    }
  }

  lemma JoinSingle(a: Tree, k: string, t: Tree)
    ensures Join(a, Single(k, t)) == Tree(a.kids[k := Join(Kid(a, k), t)])
  {
    JoinEmpty(a);
    JoinStep(a, map[], k, t);
    assert Single(k, t) == Tree(map[k := t]);
  }
}
