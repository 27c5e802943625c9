/** How many bytes a tree packs to, told from the map alone. */
module Sizes {
  import opened Trees
  import opened Hashes
  import opened Packing

  ghost function TreeSize(t: Tree): nat
    decreases t, 1
  {
    4 + KidsSize(t, t.kids.Keys)
  }

  /** The size of the children with these keys. */
  ghost function KidsSize(t: Tree, keys: set<string>): nat
    requires keys <= t.kids.Keys
    decreases t, 0, keys
  {
    if keys == {} then 0 else
      var k :| k in keys;
      |k| + 1 + TreeSize(t.kids[k]) + KidsSize(t, keys - {k})
  }

  /** It does not matter which child comes first. */
  lemma {:induction false} AnyKidFirst(t: Tree, keys: set<string>, k: string)
    requires keys <= t.kids.Keys && k in keys
    ensures KidsSize(t, keys) == |k| + 1 + TreeSize(t.kids[k]) + KidsSize(t, keys - {k})
    decreases keys
  {
    var j :| j in keys && KidsSize(t, keys) == |j| + 1 + TreeSize(t.kids[j]) + KidsSize(t, keys - {j});
    if j != k {
      AnyKidFirst(t, keys - {j}, k);
      AnyKidFirst(t, keys - {k}, j);
      assert keys - {j} - {k} == keys - {k} - {j};
    }
  }

  function KeysOf(es: seq<Elem>): set<string> {
    set e | e in es :: e.key
  }

  /** kvtree_pack_size is a property of the map: the order of the elements does not matter. */
  lemma {:induction false} PackSizeOfMap(h: Hash)
    requires WF(h)
    ensures PackSize(h) == TreeSize(Abs(h))
    decreases h
  {
    if h.Hash? {
      var t := Abs(h);
      forall i | 0 <= i < |h.elems|
        ensures h.elems[i].key in t.kids && t.kids[h.elems[i].key] == Abs(h.elems[i].hash)
      {
        AbsAt(h.elems, i);
      }
      forall k
        ensures k in t.kids <==> k in KeysOf(h.elems)
      {
        AbsLookup(h.elems, k);
      }
      ElemsSizeOfMap(h.elems, t);
      assert t.kids.Keys == KeysOf(h.elems);
    }
  }

  lemma {:induction false} ElemsSizeOfMap(es: seq<Elem>, t: Tree)
    requires Unique(es) && KeysOf(es) <= t.kids.Keys
    requires forall e :: e in es ==> WF(e.hash) && e.key in t.kids && t.kids[e.key] == Abs(e.hash)
    ensures ElemsSize(es) == KidsSize(t, KeysOf(es))
    decreases es
  {
    if es != [] {
      PackSizeOfMap(es[0].hash);
      ElemsSizeOfMap(es[1..], t);
      AnyKidFirst(t, KeysOf(es), es[0].key);
      assert es == [es[0]] + es[1..];
      assert KeysOf(es) - {es[0].key} == KeysOf(es[1..]);
    }
  }

  /** Every path of a is a path of b. */
  ghost predicate Within(a: Tree, b: Tree) {
    forall k :: k in a.kids ==> k in b.kids && Within(a.kids[k], b.kids[k])
  }

  lemma {:induction false} WithinItself(a: Tree)
    ensures Within(a, a)
    decreases a
  {
    forall k | k in a.kids
      ensures Within(a.kids[k], a.kids[k])
    {
      WithinItself(a.kids[k]);
    }
  }

  lemma {:induction false} WithinJoin(a: Tree, b: Tree, c: Tree)
    requires Within(a, b)
    ensures Within(a, Join(b, c))
    decreases a
  {
    forall k | k in a.kids
      ensures k in Join(b, c).kids && Within(a.kids[k], Join(b, c).kids[k])
    {
      if k in c.kids {
        WithinJoin(a.kids[k], b.kids[k], c.kids[k]);
      }
    }
  }

  lemma {:induction false} WithinBothWays(a: Tree, b: Tree)
    requires Within(a, b) && Within(b, a)
    ensures a == b
    decreases a
  {
    forall k | k in a.kids
      ensures k in b.kids && a.kids[k] == b.kids[k]
    {
      WithinBothWays(a.kids[k], b.kids[k]);
    }
    assert a.kids == b.kids;
  }

  lemma {:induction false} WithinIsSmaller(a: Tree, b: Tree)
    requires Within(a, b)
    ensures TreeSize(a) <= TreeSize(b)
    decreases a, 1
  {
    KidsAreSmaller(a, b, a.kids.Keys, b.kids.Keys);
  }

  lemma {:induction false} KidsAreSmaller(a: Tree, b: Tree, keys: set<string>, more: set<string>)
    requires Within(a, b) && keys <= a.kids.Keys && keys <= more <= b.kids.Keys
    ensures KidsSize(a, keys) <= KidsSize(b, more)
    decreases a, 0, keys
  {
    if keys != {} {
      var k :| k in keys;
      AnyKidFirst(a, keys, k);
      AnyKidFirst(b, more, k);
      WithinIsSmaller(a.kids[k], b.kids[k]);
      KidsAreSmaller(a, b, keys - {k}, more - {k});
    }
  }

  /** Merging never takes more room than the two trees apart. */
  lemma {:induction false} JoinIsSmaller(a: Tree, b: Tree)
    ensures TreeSize(Join(a, b)) + 4 <= TreeSize(a) + TreeSize(b)
    decreases a, 1
  {
    var keys := Join(a, b).kids.Keys;
    JoinedKids(a, b, keys);
    assert keys * a.kids.Keys == a.kids.Keys && keys * b.kids.Keys == b.kids.Keys;
  }

  ghost function KidSize(t: Tree, k: string): nat {
    if k in t.kids then |k| + 1 + TreeSize(t.kids[k]) else 0
  }

  lemma OneKidLess(t: Tree, keys: set<string>, k: string)
    requires k in keys
    ensures KidsSize(t, keys * t.kids.Keys) == KidSize(t, k) + KidsSize(t, (keys - {k}) * t.kids.Keys)
  {
    var own := keys * t.kids.Keys;
    assert (keys - {k}) * t.kids.Keys == own - {k};
    if k in t.kids {
      assert k in own;
      AnyKidFirst(t, own, k);
    } else {
      assert own - {k} == own;
    }
  }

  lemma {:induction false} JoinedKids(a: Tree, b: Tree, keys: set<string>)
    requires keys <= Join(a, b).kids.Keys
    ensures KidsSize(Join(a, b), keys) <= KidsSize(a, keys * a.kids.Keys) + KidsSize(b, keys * b.kids.Keys)
    decreases a, 0, keys
  {
    if keys != {} {
      var k :| k in keys;
      JoinedKids(a, b, keys - {k});
      AnyKidFirst(Join(a, b), keys, k);
      OneKidLess(a, keys, k);
      OneKidLess(b, keys, k);
      if k in a.kids && k in b.kids {
        JoinIsSmaller(a.kids[k], b.kids[k]);
      }
    }
  }

  lemma SingleSize(k: string, t: Tree)
    ensures TreeSize(Single(k, t)) == 4 + |k| + 1 + TreeSize(t)
    ensures TreeSize(EMPTY) == 4
  {
    assert Single(k, t).kids.Keys == {k} && {k} - {k} == {};
    AnyKidFirst(Single(k, t), {k}, k);
  }
}
