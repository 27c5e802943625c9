/** The linked list behind a kvtree: elements with a forward pointer and the address of the pointer that points
    at them, changed in place. Children are values here. */
module Lists {
  import opened Text
  import opened Trees
  import opened Hashes
  import opened Sorting

  /** The address kept in le_prev: the head's lh_first, or an element's le_next. */
  datatype Slot = HeadSlot | NextSlot(node: Node)

  class Node {
    const key: Key
    var hash: Hash
    var next: Node?
    var prev: Slot

    constructor (key: Key, hash: Hash)
      ensures this.key == key && this.hash == hash
    {
      this.key, this.hash, this.next, this.prev := key, hash, null, HeadSlot;
    }
  }

  /** The elements hold these keys and children, in this order. */
  ghost predicate Hold(ns: seq<Node>, es: seq<Elem>)
    reads ns`hash
  {
    |es| == |ns| && forall i :: 0 <= i < |ns| ==> es[i] == Elem(ns[i].key, ns[i].hash)
  }

  ghost predicate Distinct(ns: seq<Node>) {
    forall i, j :: 0 <= i < j < |ns| ==> ns[i] != ns[j]
  }

  /** Where element i of a list points. */
  ghost function NextOf(ns: seq<Node>, i: nat): Node? {
    if i + 1 < |ns| then ns[i + 1] else null
  }

  /** The i-th element, or NULL past the end. */
  ghost function NextFrom(ns: seq<Node>, i: nat): Node? {
    if i < |ns| then ns[i] else null
  }

  /** The slot that points at element i of a list. */
  ghost function SlotOf(ns: seq<Node>, i: nat): Slot
    requires i < |ns|
  {
    if i == 0 then HeadSlot else NextSlot(ns[i - 1])
  }

  /** Every pointer is where it should be: forward pointers follow the sequence and end in NULL, and each
      back pointer names the slot that points at the element. Hence no cycle. */
  ghost predicate Chain(ns: seq<Node>)
    reads ns`next, ns`prev
  {
    && Distinct(ns)
    && forall i :: 0 <= i < |ns| ==> ns[i].next == NextOf(ns, i) && ns[i].prev == SlotOf(ns, i)
  }

  /** Every element but i points past i, and is pointed at past i. */
  ghost predicate Bypassed(ns: seq<Node>, i: nat)
    requires i < |ns|
    reads ns`next, ns`prev
  {
    forall k :: 0 <= k < |ns| && k != i ==>
      && ns[k].next == (if k + 1 == i then NextOf(ns, i) else NextOf(ns, k))
      && ns[k].prev == (if k == i + 1 then SlotOf(ns, i) else SlotOf(ns, k))
  }

  /** The sequence without its i-th element. */
  function Cut<T>(s: seq<T>, i: nat): seq<T>
    requires i < |s|
  {
    s[..i] + s[i + 1..]
  }

  ghost predicate Within(ns: seq<Node>, repr: set<Node>) {
    forall i :: 0 <= i < |ns| ==> ns[i] in repr
  }

  lemma ChainAfterCut(ns: seq<Node>, i: nat)
    requires i < |ns| && Distinct(ns) && Bypassed(ns, i)
    ensures Chain(Cut(ns, i))
  {
    var rest := Cut(ns, i);
    forall j | 0 <= j < |rest|
      ensures rest[j].next == NextOf(rest, j) && rest[j].prev == SlotOf(rest, j)
    {
      var k := if j < i then j else j + 1;
      assert rest[j] == ns[k];
    }
  }

  lemma HeldAfterCut(ns: seq<Node>, es: seq<Elem>, repr: set<Node>, i: nat)
    requires i < |ns| && Hold(ns, es) && Distinct(ns) && Within(ns, repr)
    ensures Hold(Cut(ns, i), Cut(es, i)) && Within(Cut(ns, i), repr - {ns[i]})
    ensures NextFrom(Cut(ns, i), 0) == if i > 0 then ns[0] else NextOf(ns, 0)
  {
  }

  /** The first match is found by looking from the front. */
  lemma {:induction false} FirstMatch(es: seq<Elem>, k: string, i: nat)
    requires i <= |es| && (forall j :: 0 <= j < i ==> es[j].key != k) && (i < |es| ==> es[i].key == k)
    ensures i == IndexOf(es, k)
  {
  }

  /** Extracting by key cuts out the first match. */
  lemma {:induction false} WithoutCutsOut(es: seq<Elem>, k: string)
    ensures var i := IndexOf(es, k); Without(es, k) == if i < |es| then Cut(es, i) else es
    decreases |es|
  {
    if es != [] && es[0].key != k {
      WithoutCutsOut(es[1..], k);
      var i := IndexOf(es[1..], k);
      assert es == [es[0]] + es[1..];
      assert i < |es| - 1 ==> Cut(es, i + 1) == [es[0]] + Cut(es[1..], i);
    }
  }

  lemma SetIsUnique(es: seq<Elem>, k: Key, v: Hash)
    requires Unique(es)
    ensures Unique([Elem(k, v)] + Without(es, k))
  {
    WithoutKeeps(es, k);
    var rest := Without(es, k);
    assert forall i :: 0 <= i < |rest| ==> rest[i] in rest && rest[i].key != k;
  }

  lemma {:induction false} OnceEach(ns: seq<Node>, n: Node)
    requires Distinct(ns)
    ensures multiset(ns)[n] <= 1
    decreases |ns|
  {
    if ns != [] {
      var last := |ns| - 1;
      OnceEach(ns[..last], n);
      assert ns == ns[..last] + [ns[last]];
      assert ns[last] !in ns[..last];
    }
  }

  lemma TwiceCounts(ns: seq<Node>, i: nat, j: nat)
    requires i < j < |ns| && ns[i] == ns[j]
    ensures multiset(ns)[ns[i]] >= 2
  {
    assert ns == ns[..j] + [ns[j]] + ns[j + 1..];
    assert ns[i] in ns[..j];
  }

  lemma PermutationIsDistinct(ns: seq<Node>, list: seq<Node>)
    requires Distinct(ns) && multiset(list) == multiset(ns)
    ensures Distinct(list)
  {
    forall i, j | 0 <= i < j < |list|
      ensures list[i] != list[j]
    {
      OnceEach(ns, list[i]);
      if list[i] == list[j] {
        TwiceCounts(list, i, j);
      }
    }
  }

  ghost predicate StillIn(ns: seq<Node>, from: nat, n: Node) {
    exists p :: from <= p < |ns| && ns[p] == n
  }

  /** From position `index` on, the list has been moved to the front; the rest is still to come. */
  ghost predicate Moved(ns: seq<Node>, list: seq<Node>, index: nat)
    requires index <= |list| == |ns|
  {
    && (forall p :: 0 <= p < |list| - index ==> ns[p] == list[p + index])
    && (forall j :: 0 <= j < index ==> StillIn(ns, |list| - index, list[j]))
  }

  /** The sequence with its i-th element moved to the front. */
  ghost function ToFront(ns: seq<Node>, i: nat): (moved: seq<Node>)
    requires i < |ns|
    ensures |moved| == |ns| && moved[0] == ns[i]
    ensures forall p :: 0 < p <= i ==> moved[p] == ns[p - 1]
    ensures forall p :: i < p < |ns| ==> moved[p] == ns[p]
  {
    [ns[i]] + Cut(ns, i)
  }

  lemma MovesOne(ns: seq<Node>, list: seq<Node>, index: nat) returns (i: nat)
    requires index < |list| == |ns| && Distinct(list) && Moved(ns, list, index + 1)
    ensures i < |ns| && ns[i] == list[index]
    ensures Moved(ToFront(ns, i), list, index)
  {
    var done := |list| - index;
    assert StillIn(ns, done - 1, list[index]);
    i :| done - 1 <= i < |ns| && ns[i] == list[index];
    forall j | 0 <= j < index
      ensures StillIn(ToFront(ns, i), done, list[j])
    {
      assert StillIn(ns, done - 1, list[j]);
      StillToCome(ns, done, i, list[j]);
    }
    forall p | 0 <= p < done
      ensures ToFront(ns, i)[p] == list[p + index]
    {
      if p > 0 {
        assert ns[p - 1] == list[p - 1 + (index + 1)];
      }
    }
  }

  lemma StillToCome(ns: seq<Node>, done: nat, i: nat, m: Node)
    requires 0 < done <= i + 1 <= |ns| && ns[i] != m && StillIn(ns, done - 1, m)
    ensures StillIn(ToFront(ns, i), done, m)
  {
    var p :| done - 1 <= p < |ns| && ns[p] == m;
    assert ToFront(ns, i)[if p < i then p + 1 else p] == m;
  }

  lemma AllMoved(ns: seq<Node>, list: seq<Node>)
    requires |list| == |ns| && Moved(ns, list, 0)
    ensures ns == list
  {
    forall p | 0 <= p < |ns|
      ensures ns[p] == list[p]
    {
      assert ns[p] == list[p + 0];
    }
  }

  ghost predicate UniqueKeys(ns: seq<Node>) {
    forall i, j :: 0 <= i < j < |ns| ==> ns[i].key != ns[j].key
  }

  lemma UniqueByNode(ns: seq<Node>, es: seq<Elem>)
    requires Hold(ns, es)
    ensures Unique(es) <==> UniqueKeys(ns)
  {
    if Unique(es) {
      forall i, j | 0 <= i < j < |ns|
        ensures ns[i].key != ns[j].key
      {
        assert es[i].key != es[j].key;
      }
    }
  }

  lemma KeysStayUnique(ns: seq<Node>, es: seq<Elem>, list: seq<Node>)
    requires Hold(ns, es) && Unique(es)
    requires Distinct(list) && |list| == |ns| && forall n :: n in list ==> n in ns
    ensures UniqueKeys(list) && Moved(ns, list, |list|)
  {
    forall j | 0 <= j < |list|
      ensures StillIn(ns, 0, list[j])
    {
      assert list[j] in list;
    }
    UniqueByNode(ns, es);
    forall i, j | 0 <= i < j < |list|
      ensures list[i].key != list[j].key
    {
      assert list[i] in ns && list[j] in ns;
      var p :| 0 <= p < |ns| && ns[p] == list[i];
      var q :| 0 <= q < |ns| && ns[q] == list[j];
    }
  }

  ghost predicate SameElems(a: seq<Elem>, b: seq<Elem>) {
    |a| == |b| && forall e :: e in a <==> e in b
  }

  lemma PrefixGrows<T>(s: seq<T>, k: nat)
    requires k < |s|
    ensures s[..k + 1] == s[..k] + [s[k]]
  {
  }

  lemma SuffixGrows(es: seq<Elem>, i: nat)
    requires Unique(es) && i < |es|
    ensures es[i..] == [Elem(es[i].key, es[i].hash)] + es[i + 1..] && Unique(es[i..])
  {
  }

  /** Whatever the list holds in a new order is what it held. */
  lemma HoldSame(ns: seq<Node>, es: seq<Elem>, list: seq<Node>, es': seq<Elem>)
    requires Hold(ns, es) && Hold(list, es') && |list| == |ns| && forall n :: n in list <==> n in ns
    ensures SameElems(es', es)
  {
    forall e
      ensures e in es' <==> e in es
    {
      if e in es' {
        var p :| 0 <= p < |es'| && es'[p] == e;
        assert list[p] in ns;
        var q :| 0 <= q < |ns| && ns[q] == list[p];
        assert es[q] == e;
      }
      if e in es {
        var p :| 0 <= p < |es| && es[p] == e;
        assert ns[p] in list;
        var q :| 0 <= q < |list| && list[q] == ns[p];
        assert es'[q] == e;
      }
    }
  }

  lemma StrcmpOrders(dir: SortDirection, cmp: (Node, Node) -> int, ns: seq<Node>)
    requires forall a: Node, b: Node :: cmp(a, b) == CmpStr(dir, a.key, b.key)
    ensures Orders(cmp, ns)
  {
    forall a, b | a in ns && b in ns
      ensures cmp(a, b) <= 0 || cmp(b, a) <= 0
    {
      StrcmpFlips(a.key, b.key);
    }
    forall a, b, c | a in ns && b in ns && c in ns && cmp(a, b) <= 0 && cmp(b, c) <= 0
      ensures cmp(a, c) <= 0
    {
      if dir.Ascending? {
        StrcmpChains(a.key, b.key, c.key);
      } else {
        StrcmpChains(c.key, b.key, a.key);
      }
    }
  }

  /** Strictly in the order of text, or in the reverse of it. */
  ghost predicate InTextOrder(dir: SortDirection, es: seq<Elem>) {
    && (dir.Ascending? ==> forall i, j :: 0 <= i < j < |es| ==> TextBefore(es[i].key, es[j].key))
    && (dir.Descending? ==> forall i, j :: 0 <= i < j < |es| ==> TextBefore(es[j].key, es[i].key))
  }

  lemma SortedByText(dir: SortDirection, cmp: (Node, Node) -> int, ns: seq<Node>, es: seq<Elem>)
    requires Hold(ns, es) && Unique(es) && Ordered(cmp, ns)
    requires forall a: Node, b: Node :: cmp(a, b) == CmpStr(dir, a.key, b.key)
    ensures InTextOrder(dir, es)
  {
    forall i, j | 0 <= i < j < |es|
      ensures dir.Ascending? ==> TextBefore(es[i].key, es[j].key)
      ensures dir.Descending? ==> TextBefore(es[j].key, es[i].key)
    {
      assert cmp(ns[i], ns[j]) <= 0;
      StrcmpFlips(es[i].key, es[j].key);
      StrcmpIsText(es[i].key, es[j].key);
      StrcmpIsText(es[j].key, es[i].key);
    }
  }

  /** The numbers read from the keys. */
  ghost function IntKeys(es: seq<Elem>): (ks: seq<int>)
    ensures |ks| == |es| && forall i :: 0 <= i < |es| ==> ks[i] == Atoi(es[i].key)
  {
    seq(|es|, i requires 0 <= i < |es| => Atoi(es[i].key))
  }

  ghost predicate NodesFit(ns: seq<Node>) {
    forall a, b :: a in ns && b in ns ==> FitsInt(Atoi(a.key) - Atoi(b.key))
  }

  lemma NumbersFit(ns: seq<Node>, es: seq<Elem>)
    requires Hold(ns, es) && DifferencesFit(IntKeys(es))
    ensures NodesFit(ns)
  {
    forall a, b | a in ns && b in ns
      ensures FitsInt(Atoi(a.key) - Atoi(b.key))
    {
      var p :| 0 <= p < |ns| && ns[p] == a;
      var q :| 0 <= q < |ns| && ns[q] == b;
      assert FitsInt(IntKeys(es)[p] - IntKeys(es)[q]);
    }
  }

  lemma NumbersOrder(dir: SortDirection, cmp: (Node, Node) -> int, ns: seq<Node>)
    requires NodesFit(ns) && forall a: Node, b: Node :: cmp(a, b) == CmpInt(dir, Atoi(a.key), Atoi(b.key))
    ensures Orders(cmp, ns)
    ensures forall a, b :: a in ns && b in ns && cmp(a, b) <= 0 ==> InOrder(dir, Atoi(a.key), Atoi(b.key))
  {
  }

  lemma SortedByNumber(dir: SortDirection, cmp: (Node, Node) -> int, ns: seq<Node>, list: seq<Node>)
    requires Ordered(cmp, list) && multiset(list) == multiset(ns)
    requires forall a, b :: a in ns && b in ns && cmp(a, b) <= 0 ==> InOrder(dir, Atoi(a.key), Atoi(b.key))
    ensures forall i, j :: 0 <= i < j < |list| ==> InOrder(dir, Atoi(list[i].key), Atoi(list[j].key))
  {
    SameMembers(ns, list);
    forall i, j | 0 <= i < j < |list|
      ensures InOrder(dir, Atoi(list[i].key), Atoi(list[j].key))
    {
      assert list[i] in list && list[j] in list && cmp(list[i], list[j]) <= 0;
    }
  }

  class List {
    var first: Node?
    ghost var nodes: seq<Node>
    ghost var repr: set<Node>
    ghost var contents: seq<Elem>

    /** Exactly these elements can be reached, in this order. */
    ghost predicate Linked()
      reads this, repr`next, repr`prev
    {
      && Within(nodes, repr) && first == NextFrom(nodes, 0)
      && Chain(nodes)
    }

    /** The pointers make a list, of elements with unique keys. */
    ghost predicate Valid()
      reads this, repr
    {
      Linked() && Hold(nodes, contents) && Unique(contents)
    }

    /** LIST_INIT. */
    constructor ()
      ensures Valid() && contents == [] && repr == {}
    {
      first, nodes, contents, repr := null, [], [], {};
    }

    /** LIST_INSERT_HEAD. */
    method InsertHead(elm: Node)
      requires Linked() && Hold(nodes, contents) && elm !in repr
      modifies this, repr`prev, elm`next, elm`prev
      ensures Linked() && Hold(nodes, contents)
      ensures repr == old(repr) + {elm} && nodes == [elm] + old(nodes)
                && contents == [Elem(elm.key, old(elm.hash))] + old(contents)
    {
      LinkHead(elm);
      Adopt(elm);
    }

    method LinkHead(elm: Node)
      requires Linked() && elm !in repr
      modifies this`first, repr`prev, elm`next, elm`prev
      ensures Chain([elm] + nodes) && first == elm
    {
      elm.next := first;
      if elm.next != null {
        first.prev := NextSlot(elm);
      }
      first := elm;
      elm.prev := HeadSlot;
    }

    /** The element in front is now part of the list. */
    ghost method Adopt(elm: Node)
      requires Within(nodes, repr) && Hold(nodes, contents) && Chain([elm] + nodes) && first == elm
      modifies this`nodes, this`contents, this`repr
      ensures Linked() && Hold(nodes, contents)
      ensures repr == old(repr) + {elm} && nodes == [elm] + old(nodes)
                && contents == [Elem(elm.key, elm.hash)] + old(contents)
    {
      nodes, contents, repr := [elm] + nodes, [Elem(elm.key, elm.hash)] + contents, repr + {elm};
    }

    /** LIST_REMOVE: through the back pointer, whether it names the head or another element. */
    method Remove(elm: Node, ghost i: nat)
      requires Linked() && Hold(nodes, contents) && i < |nodes| && nodes[i] == elm
      modifies this, repr`next, repr`prev
      ensures Linked() && Hold(nodes, contents) && elm !in repr
      ensures repr <= old(repr) && nodes == Cut(old(nodes), i) && contents == Cut(old(contents), i)
    {
      Unlink(elm, i);
      Forget(i);
    }

    method Unlink(elm: Node, ghost i: nat)
      requires Linked() && i < |nodes| && nodes[i] == elm
      modifies this`first, repr`next, repr`prev
      ensures Bypassed(nodes, i)
      ensures first == if i > 0 then nodes[0] else NextOf(nodes, 0)
    {
      assert elm.next == NextOf(nodes, i) && elm.prev == SlotOf(nodes, i);
      if elm.next != null {
        assert elm.next == nodes[i + 1];
        elm.next.prev := elm.prev;
      }
      match elm.prev {
        case HeadSlot => first := elm.next;
        case NextSlot(node) => node.next := elm.next;
      }
    }

    /** The element that nothing points at any more is no longer part of the list. */
    ghost method Forget(i: nat)
      requires i < |nodes| && Distinct(nodes) && Within(nodes, repr) && Hold(nodes, contents) && Bypassed(nodes, i)
      requires first == if i > 0 then nodes[0] else NextOf(nodes, 0)
      modifies this`nodes, this`contents, this`repr
      ensures Linked() && Hold(nodes, contents)
      ensures repr == old(repr) - {old(nodes)[i]} && nodes == Cut(old(nodes), i) && contents == Cut(old(contents), i)
    {
      ChainAfterCut(nodes, i);
      HeldAfterCut(nodes, contents, repr, i);
      nodes, contents, repr := Cut(nodes, i), Cut(contents, i), repr - {nodes[i]};
    }

    /** kvtree_size. */
    method Size() returns (count: nat)
      requires Valid()
      ensures count == |contents|
    {
      count := 0;
      var elem := first;
      while elem != null
        invariant count <= |nodes| && elem == NextFrom(nodes, count)
        decreases |nodes| - count
      {
        elem, count := elem.next, count + 1;
      }
    }

    /** kvtree_elem_get: the first match, or NULL. */
    method ElemGet(k: string) returns (elem: Node?, ghost i: nat)
      requires Valid()
      ensures i == IndexOf(contents, k)
      ensures elem == NextFrom(nodes, i)
    {
      i, elem := 0, first;
      while elem != null && elem.key != k
        invariant i <= |nodes| && elem == NextFrom(nodes, i)
        invariant forall j :: 0 <= j < i ==> nodes[j].key != k
        decreases |nodes| - i
      {
        elem, i := elem.next, i + 1;
      }
      FirstMatch(contents, k, i);
    }

    /** kvtree_get. */
    method Get(k: string) returns (h: Hash)
      requires Valid()
      ensures h == Hashes.Get(Hash(contents), k)
    {
      var elem, i := ElemGet(k);
      h := if elem == null then Null else elem.hash;
    }

    /** kvtree_elem_extract. */
    method ElemExtract(k: string) returns (elem: Node?)
      requires Valid()
      modifies this, repr
      ensures Valid() && contents == Without(old(contents), k)
      ensures elem == null <==> old(IndexOf(contents, k) == |contents|)
      ensures repr <= old(repr) && (elem != null ==> elem in old(repr) && elem !in repr)
      ensures elem != null ==> elem.key == k && elem.hash == old(Hashes.Get(Hash(contents), k))
    {
      ghost var es := contents;
      ghost var i;
      elem, i := ElemGet(k);
      WithoutCutsOut(es, k);
      WithoutKeeps(es, k);
      if elem != null {
        Remove(elem, i);
      }
    }

    /** kvtree_set. */
    method Set(k: Key, v: Hash)
      requires Valid()
      modifies this, repr
      ensures Valid() && contents == Hashes.Set(Hash(old(contents)), k, v).elems
      ensures fresh(repr - old(repr))
    {
      SetIsUnique(contents, k, v);
      var elem := ElemExtract(k);
      if elem == null {
        elem := new Node(k, v);
      } else {
        elem.hash := v;
      }
      InsertHead(elem);
    }

    /** kvtree_extract. */
    method Extract(k: string) returns (h: Hash)
      requires Valid()
      modifies this, repr
      ensures Valid() && contents == Without(old(contents), k) && repr <= old(repr)
      ensures h == old(Hashes.Get(Hash(contents), k))
    {
      var elem := ElemExtract(k);
      h := if elem == null then Null else elem.hash;
    }

    /** kvtree_unset. */
    method Unset(k: string)
      requires Valid()
      modifies this, repr
      ensures Valid() && contents == Without(old(contents), k) && repr <= old(repr)
    {
      var _ := ElemExtract(k);
    }

    /** kvtree_unset_all: each element is extracted by address after its successor has been noted. */
    method UnsetAll()
      requires Valid()
      modifies this, repr
      ensures Valid() && contents == [] && repr <= old(repr)
    {
      var elem := first;
      while elem != null
        invariant Linked() && Hold(nodes, contents) && elem == first
        invariant repr <= old(repr)
        decreases |nodes|
      {
        var tmp := elem;
        elem := elem.next;
        Remove(tmp, 0);
      }
    }

    /** The addresses of all elements, front to back. */
    method Addresses() returns (list: seq<Node>)
      requires Valid()
      ensures list == nodes
    {
      list := [];
      var elem := first;
      ghost var k := 0;
      while elem != null
        invariant k <= |nodes| && list == nodes[..k] && elem == NextFrom(nodes, k)
        decreases |nodes| - k
      {
        PrefixGrows(nodes, k);
        elem, list, k := elem.next, list + [elem], k + 1;
      }
    }

    method ToElems() returns (es: seq<Elem>)
      requires Valid()
      ensures es == contents
    {
      es := [];
      var elem := first;
      ghost var k := 0;
      while elem != null
        invariant k <= |nodes| && es == contents[..k] && elem == NextFrom(nodes, k)
        decreases |nodes| - k
      {
        PrefixGrows(contents, k);
        elem, es, k := elem.next, es + [Elem(elem.key, elem.hash)], k + 1;
      }
    }

    /** Extract by address, insert at the head. */
    method MoveToFront(elem: Node, ghost i: nat)
      requires Linked() && Hold(nodes, contents) && i < |nodes| && nodes[i] == elem
      modifies this, repr`next, repr`prev
      ensures Linked() && Hold(nodes, contents) && repr <= old(repr)
      ensures nodes == ToFront(old(nodes), i)
    {
      Remove(elem, i);
      InsertHead(elem);
    }

    /** Backwards through the list: the elements end up in its order. */
    method ReinsertEach(list: seq<Node>)
      requires Linked() && Hold(nodes, contents) && Distinct(list) && |list| == |nodes| && Moved(nodes, list, |list|)
      modifies this, repr`next, repr`prev
      ensures Linked() && Hold(nodes, contents) && nodes == list && repr <= old(repr)
    {
      var index := |list|;
      while index > 0
        invariant 0 <= index <= |list| == |nodes|
        invariant Linked() && Hold(nodes, contents) && repr <= old(repr)
        invariant Moved(nodes, list, index)
      {
        index := index - 1;
        ghost var i := MovesOne(nodes, list, index);
        MoveToFront(list[index], i);
      }
      AllMoved(nodes, list);
    }

    method Reinsert(list: seq<Node>)
      requires Valid() && Distinct(list) && |list| == |nodes| && forall n :: n in list <==> n in nodes
      modifies this, repr`next, repr`prev
      ensures Valid() && nodes == list && repr <= old(repr) && SameElems(contents, old(contents))
    {
      ghost var ns, es := nodes, contents;
      KeysStayUnique(ns, es, list);
      ReinsertEach(list);
      UniqueByNode(list, contents);
      HoldSame(ns, es, list, contents);
    }

    /** kvtree_sort: the same elements with the same children, in the order of strcmp or its reverse. */
    method Sort(dir: SortDirection)
      requires Valid()
      modifies this, repr`next, repr`prev
      ensures Valid() && repr <= old(repr) && multiset(nodes) == multiset(old(nodes))
      ensures SameElems(contents, old(contents))
      ensures InTextOrder(dir, contents)
    {
      var list := Addresses();
      var cmp := (a: Node, b: Node) => CmpStr(dir, a.key, b.key);
      StrcmpOrders(dir, cmp, list);
      list := Qsort(list, cmp);
      PermutationIsDistinct(nodes, list);
      SameMembers(nodes, list);
      Reinsert(list);
      SortedByText(dir, cmp, nodes, contents);
    }

    /** kvtree_sort_int: the same elements with the same children always; in the order of their numbers when all
        differences of keys fit in an int. */
    method SortInt(dir: SortDirection)
      requires Valid()
      modifies this, repr`next, repr`prev
      ensures Valid() && repr <= old(repr) && multiset(nodes) == multiset(old(nodes))
      ensures SameElems(contents, old(contents))
      ensures old(DifferencesFit(IntKeys(contents))) ==>
                forall i, j :: 0 <= i < j < |contents| ==> InOrder(dir, Atoi(contents[i].key), Atoi(contents[j].key))
    {
      var list := Addresses();
      ghost var fit, before := DifferencesFit(IntKeys(contents)), list;
      var cmp := (a: Node, b: Node) => CmpInt(dir, Atoi(a.key), Atoi(b.key));
      if fit {
        assert NodesFit(before) by { NumbersFit(before, contents); }
        NumbersOrder(dir, cmp, before);
      }
      list := Qsort(list, cmp);
      if fit {
        SortedByNumber(dir, cmp, before, list);
      }
      PermutationIsDistinct(nodes, list);
      SameMembers(nodes, list);
      Reinsert(list);
    }
  }

  /** kvtree_sort_int on a list given by its elements: link them, sort in place, read them off. */
  method SortElems(es: seq<Elem>, dir: SortDirection) returns (sorted: seq<Elem>)
    requires Unique(es)
    ensures Unique(sorted) && SameElems(sorted, es)
    ensures DifferencesFit(IntKeys(es)) ==>
              forall i, j :: 0 <= i < j < |sorted| ==> InOrder(dir, Atoi(sorted[i].key), Atoi(sorted[j].key))
  {
    var list := FromElems(es);
    list.SortInt(dir);
    sorted := list.ToElems();
  }

  method FromElems(es: seq<Elem>) returns (list: List)
    requires Unique(es)
    ensures fresh(list) && fresh(list.repr) && list.Valid() && list.contents == es
  {
    list := new List();
    var i := |es|;
    while i > 0
      invariant 0 <= i <= |es| && list.Valid() && list.contents == es[i..]
      invariant fresh(list) && fresh(list.repr)
    {
      i := i - 1;
      var elem := new Node(es[i].key, es[i].hash);
      SuffixGrows(es, i);
      list.InsertHead(elem);
    }
    assert es[0..] == es;
  }

  // ---------- whole histories ----------

  datatype Op = SetOp(key: Key, hash: Hash) | ExtractOp(key: Key) | UnsetOp(key: Key) | UnsetAllOp

  /** What an operation does to the finite map. */
  ghost function OnMap(m: map<string, Tree>, op: Op): map<string, Tree> {
    match op
    case SetOp(k, v) => m[k := Abs(v)]
    case ExtractOp(k) => m - {k}
    case UnsetOp(k) => m - {k}
    case UnsetAllOp => map[]
  }

  ghost function AllOnMap(m: map<string, Tree>, ops: seq<Op>): map<string, Tree> {
    if ops == [] then m else OnMap(AllOnMap(m, ops[..|ops| - 1]), ops[|ops| - 1])
  }

  method Perform(list: List, op: Op)
    requires list.Valid()
    modifies list, list.repr
    ensures list.Valid() && AbsElems(list.contents) == OnMap(old(AbsElems(list.contents)), op)
    ensures fresh(list.repr - old(list.repr))
  {
    match op {
      case SetOp(k, v) =>
        SetOnMap(list.contents, k, v);
        list.Set(k, v);
      case ExtractOp(k) =>
        WithoutRemoves(list.contents, k);
        var _ := list.Extract(k);
      case UnsetOp(k) =>
        WithoutRemoves(list.contents, k);
        list.Unset(k);
      case UnsetAllOp => list.UnsetAll();
    }
  }

  /** After any history of operations the pointers still make a list with unique keys, and it means what the
      same updates and removals make of the finite map. */
  method History(list: List, ops: seq<Op>)
    requires list.Valid()
    modifies list, list.repr
    ensures list.Valid() && AbsElems(list.contents) == AllOnMap(old(AbsElems(list.contents)), ops)
  {
    for i := 0 to |ops|
      invariant list.Valid() && fresh(list.repr - old(list.repr))
      invariant AbsElems(list.contents) == AllOnMap(old(AbsElems(list.contents)), ops[..i])
    {
      assert ops[..i + 1][..i] == ops[..i];
      Perform(list, ops[i]);
    }
    assert ops[..|ops|] == ops;
  }
}
