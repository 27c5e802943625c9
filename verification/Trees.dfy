/** What a kvtree means: a finite map from key to tree, order forgotten, a NULL child the same as an empty one. */
module Trees {

  datatype Option<+T> = None | Some(value: T)

  datatype Tree = Tree(kids: map<string, Tree>)

  const EMPTY := Tree(map[])

  function Child(t: Tree, k: string): Option<Tree> {
    if k in t.kids then Some(t.kids[k]) else None
  }

  /** The child, with a missing one read as empty, as functions that take a NULL hash do. */
  function Kid(t: Tree, k: string): Tree {
    if k in t.kids then t.kids[k] else EMPTY
  }

  function Single(k: string, t: Tree): Tree {
    Tree(map[k := t])
  }

  /** The union of two trees, key by key. */
  function Join(a: Tree, b: Tree): Tree
    decreases a
  {
    Tree(map k | k in a.kids.Keys + b.kids.Keys ::
           if k in a.kids && k in b.kids then Join(a.kids[k], b.kids[k])
           else if k in a.kids then a.kids[k] else b.kids[k])
  }

  function JoinOpt(a: Option<Tree>, b: Option<Tree>): Option<Tree> {
    if a.Some? && b.Some? then Some(Join(a.value, b.value))
    else if a.Some? then a else b
  }

  /** A path of keys that can be followed from the root. */
  predicate HasPath(t: Tree, p: seq<string>) {
    p == [] || (p[0] in t.kids && HasPath(t.kids[p[0]], p[1..]))
  }

  lemma {:induction false} JoinIsUnionOfPaths(a: Tree, b: Tree, p: seq<string>)
    ensures HasPath(Join(a, b), p) <==> HasPath(a, p) || HasPath(b, p)
    decreases |p|
  {
    if p != [] && p[0] in a.kids && p[0] in b.kids {
      JoinIsUnionOfPaths(a.kids[p[0]], b.kids[p[0]], p[1..]);
    }
  }

  /** A tree is determined by its paths. */
  lemma {:induction false} PathsDetermineTree(a: Tree, b: Tree)
    requires forall p: seq<string> :: HasPath(a, p) <==> HasPath(b, p)
    ensures a == b
    decreases a
  {
    forall k: string
      ensures k in a.kids <==> k in b.kids
    {
      assert HasPath(a, [k]) <==> HasPath(b, [k]);
      assert k in a.kids <==> HasPath(a, [k]);
      assert k in b.kids <==> HasPath(b, [k]);
    }
    assert a.kids.Keys == b.kids.Keys;
    forall k | k in a.kids
      ensures a.kids[k] == b.kids[k]
    {
      forall p: seq<string>
        ensures HasPath(a.kids[k], p) <==> HasPath(b.kids[k], p)
      {
        var q := [k] + p;
        assert q[0] == k && q[1..] == p;
        assert HasPath(a, q) <==> HasPath(b, q);
      }
      PathsDetermineTree(a.kids[k], b.kids[k]);
    }
    assert a.kids == b.kids;
  }

  lemma {:induction false} JoinCommutes(a: Tree, b: Tree)
    ensures Join(a, b) == Join(b, a)
  {
    forall p: seq<string>
      ensures HasPath(Join(a, b), p) <==> HasPath(Join(b, a), p)
    {
      JoinIsUnionOfPaths(a, b, p);
      JoinIsUnionOfPaths(b, a, p);
    }
    PathsDetermineTree(Join(a, b), Join(b, a));
  }

  lemma {:induction false} JoinAssociates(a: Tree, b: Tree, c: Tree)
    ensures Join(Join(a, b), c) == Join(a, Join(b, c))
  {
    var l, r := Join(Join(a, b), c), Join(a, Join(b, c));
    forall p: seq<string>
      ensures HasPath(l, p) <==> HasPath(r, p)
    {
      JoinIsUnionOfPaths(Join(a, b), c, p);
      JoinIsUnionOfPaths(a, b, p);
      JoinIsUnionOfPaths(a, Join(b, c), p);
      JoinIsUnionOfPaths(b, c, p);
    }
    PathsDetermineTree(l, r);
  }

  lemma {:induction false} JoinIdempotent(a: Tree)
    ensures Join(a, a) == a
  {
    forall p: seq<string>
      ensures HasPath(Join(a, a), p) <==> HasPath(a, p)
    {
      JoinIsUnionOfPaths(a, a, p);
    }
    PathsDetermineTree(Join(a, a), a);
  }

  lemma JoinEmpty(a: Tree)
    ensures Join(a, EMPTY) == a
    ensures Join(EMPTY, a) == a
  {
    assert Join(a, EMPTY).kids == a.kids;
    assert Join(EMPTY, a).kids == a.kids;
  }

  lemma ChildJoin(a: Tree, b: Tree, k: string)
    ensures Child(Join(a, b), k) == JoinOpt(Child(a, k), Child(b, k))
    ensures Kid(Join(a, b), k) == Join(Kid(a, k), Kid(b, k))
  {
    JoinEmpty(Kid(a, k));
    JoinEmpty(Kid(b, k));
  }

  /** Trees with the same children are the same. */
  lemma ChildrenDetermineTree(a: Tree, b: Tree)
    requires forall k :: Child(a, k) == Child(b, k)
    ensures a == b
  {
    forall k
      ensures k in a.kids <==> k in b.kids
      ensures k in a.kids ==> a.kids[k] == b.kids[k]
    {
      assert Child(a, k) == Child(b, k);
    }
    assert a.kids == b.kids;
  }
}
