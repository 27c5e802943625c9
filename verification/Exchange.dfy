/** The sparse all-to-all exchange, run in lockstep over all ranks. A run in which some message would exceed
    INT_MAX bytes aborts; the result is then None. */
module Exchange {
  import opened Bits
  import opened Text
  import opened Trees
  import opened Hashes
  import opened Packing
  import opened Routes
  import opened Sizes

  ghost function AbsAll(hs: seq<Hash>): (ts: seq<Tree>)
    ensures |ts| == |hs|
    ensures forall i :: 0 <= i < |hs| ==> ts[i] == Abs(hs[i])
  {
    seq(|hs|, i requires 0 <= i < |hs| => Abs(hs[i]))
  }

  ghost predicate AllWF(hs: seq<Hash>) {
    forall i :: 0 <= i < |hs| ==> WF(hs[i])
  }

  ghost predicate AllTrees(hs: seq<Hash>) {
    forall i :: 0 <= i < |hs| ==> WF(hs[i]) && hs[i].Hash?
  }

  /** Destination keys are canonical decimals of ranks. */
  ghost predicate Addressed(hs: seq<Hash>, n: nat) {
    |hs| == n && AllWF(hs) && forall r :: 0 <= r < n ==> RankKeys(Abs(hs[r]), n)
  }

  /** The number of rounds `step < ranks && (hops < 0 || hop_count < hops)` allows. */
  function RoundCount(n: nat, hops: int): nat {
    if 0 <= hops < Rounds(n) then hops else Rounds(n)
  }

  /** What rank r sends in round k, to the byte but for the order of elements. */
  ghost predicate IsMessage(sent: seq<Tree>, dir: Direction, k: nat, r: nat, t: Tree)
    requires r < |sent|
  {
    && Proper(t, |sent|)
    && forall dk, sk :: Lookup(t, dk, sk) ==
         if Forwards(dir, r, |sent|, k, dk) then Expected(sent, dir, k, r, dk, sk) else None
  }

  lemma MessageIsUnique(sent: seq<Tree>, dir: Direction, k: nat, r: nat, t: Tree, t': Tree)
    requires r < |sent| && IsMessage(sent, dir, k, r, t) && IsMessage(sent, dir, k, r, t')
    ensures t == t'
  {
    ProperDetermined(t, t', |sent|);
  }

  /** The message of rank r in round k has more than INT_MAX bytes. */
  ghost predicate TooLong(sent: seq<Tree>, dir: Direction, k: nat, r: nat)
    requires r < |sent|
  {
    exists t :: IsMessage(sent, dir, k, r, t) && TreeSize(t) > INT_MAX
  }

  /** Some rank has a message of more than INT_MAX bytes in one of the rounds. */
  ghost predicate Oversize(sent: seq<Tree>, dir: Direction, rounds: nat) {
    exists k: nat, r: nat :: k < rounds && r < |sent| && TooLong(sent, dir, k, r)
  }

  ghost predicate RoundTooLong(sent: seq<Tree>, dir: Direction, k: nat) {
    exists r: nat :: r < |sent| && TooLong(sent, dir, k, r)
  }

  lemma OneRoundMore(sent: seq<Tree>, dir: Direction, k: nat)
    ensures Oversize(sent, dir, k + 1) <==> Oversize(sent, dir, k) || RoundTooLong(sent, dir, k)
  {
    if RoundTooLong(sent, dir, k) {
      var r: nat :| r < |sent| && TooLong(sent, dir, k, r);
    }
  }

  lemma OversizeLater(sent: seq<Tree>, dir: Direction, j: nat, k: nat)
    requires Oversize(sent, dir, j) && j <= k
    ensures Oversize(sent, dir, k)
  {
  }

  lemma LengthOfMessage(sent: seq<Tree>, dir: Direction, k: nat, r: nat, h: Hash)
    requires r < |sent| && WF(h) && IsMessage(sent, dir, k, r, Abs(h))
    ensures TooLong(sent, dir, k, r) <==> PackSize(h) > INT_MAX
  {
    PackSizeOfMap(h);
    if TooLong(sent, dir, k, r) {
      var t :| IsMessage(sent, dir, k, r, t) && TreeSize(t) > INT_MAX;
      MessageIsUnique(sent, dir, k, r, t, Abs(h));
    }
  }

  lemma ElemPayload(cur: Hash, i: nat, sk: string)
    requires WF(cur)
    requires WF(Get(cur, "D")) && i < |Elems(Get(cur, "D"))|
    ensures var e := Elems(Get(cur, "D"))[i];
            && WF(e.hash) && Child(Kid(Abs(cur), "D"), e.key) == Some(Abs(e.hash))
            && Lookup(Abs(cur), e.key, sk) == Child(Kid(Abs(e.hash), "S"), sk)
  {
    GetIsKid(cur, "D");
    AbsAt(Elems(Get(cur, "D")), i);
  }

  /** A key that is no element's holds nothing. */
  lemma NoElemNoPayload(cur: Hash, dk: string, sk: string)
    requires WF(cur)
    requires IndexOf(Elems(Get(cur, "D")), dk) == |Elems(Get(cur, "D"))|
    ensures Lookup(Abs(cur), dk, sk) == None
  {
    GetIsKid(cur, "D");
    AbsLookup(Elems(Get(cur, "D")), dk);
  }

  /** `after` is `before` with the payloads `cur` has under D/key added, if `here`. */
  ghost predicate Grew(before: Tree, after: Tree, cur: Tree, key: string, here: bool) {
    forall dk, sk :: Lookup(after, dk, sk) ==
      JoinOpt(Lookup(before, dk, sk), if here && dk == key then Lookup(cur, dk, sk) else None)
  }

  /** Merging a subtree under D/key adds its payloads and nothing else. */
  lemma MergedUnderD(before: Tree, after: Tree, key: string, sub: Tree, n: nat)
    requires after == Join(before, Single("D", Single(key, sub)))
    ensures Grew(before, after, Single("D", Single(key, sub)), key, true)
    ensures Proper(before, n) && IsRank(key, n) && HasSources(sub) ==> Proper(after, n)
  {
    forall dk, sk
      ensures Lookup(after, dk, sk) ==
              JoinOpt(Lookup(before, dk, sk), if dk == key then Lookup(Single("D", Single(key, sub)), dk, sk) else None)
    {
      LookupJoin(before, Single("D", Single(key, sub)), dk, sk);
      LookupSingle(key, sub, dk, sk);
    }
    if Proper(before, n) && IsRank(key, n) && HasSources(sub) {
      ItemIsProper(key, sub, n);
      ProperJoin(before, Single("D", Single(key, sub)), n);
    }
  }

  lemma ItemIsProper(key: string, sub: Tree, n: nat)
    requires IsRank(key, n) && HasSources(sub)
    ensures Proper(Single("D", Single(key, sub)), n)
  {
    assert key in Single(key, sub).kids;
  }

  /** t holds what `cur` has under the first i keys of es that satisfy `pick`, and nothing else. */
  ghost predicate Picked(t: Tree, cur: Tree, es: seq<Elem>, i: nat, pick: string -> bool) {
    forall dk, sk :: Lookup(t, dk, sk) == if pick(dk) && IndexOf(es, dk) < i then Lookup(cur, dk, sk) else None
  }

  lemma PickNext(t: Tree, t': Tree, cur: Tree, es: seq<Elem>, i: nat, pick: string -> bool)
    requires Unique(es) && i < |es|
    requires Picked(t, cur, es, i, pick) && Grew(t, t', cur, es[i].key, pick(es[i].key))
    ensures Picked(t', cur, es, i + 1, pick)
  {
    AbsAt(es, i);
    forall dk, sk
      ensures Lookup(t', dk, sk) == if pick(dk) && IndexOf(es, dk) < i + 1 then Lookup(cur, dk, sk) else None
    {
      assert IndexOf(es, dk) == i <==> dk == es[i].key;
    }
  }

  /** The tagged form of a rank's own items. */
  ghost predicate Tagged(t: Tree, items: Tree, rank: nat) {
    forall dk, sk :: Lookup(t, dk, sk) == if sk == Dec(rank) then Child(items, dk) else None
  }

  lemma TaggedOne(items: Tree, key: string, rank: nat)
    requires key in items.kids
    ensures Tagged(Single("D", Single(key, Single("S", Single(Dec(rank), items.kids[key])))),
              Single(key, items.kids[key]), rank)
  {
  }

  lemma TaggedJoin(t: Tree, items: Tree, t1: Tree, items1: Tree, rank: nat)
    requires Tagged(t, items, rank) && Tagged(t1, items1, rank)
    ensures Tagged(Join(t, t1), Join(items, items1), rank)
  {
    forall dk, sk
      ensures Lookup(Join(t, t1), dk, sk) == if sk == Dec(rank) then Child(Join(items, items1), dk) else None
    {
      LookupJoin(t, t1, dk, sk);
      ChildJoin(items, items1, dk);
    }
  }

  /** One item, tagged with its destination and its source, is added to the working tree. */
  method LoadItem(cur: Hash, elem: Elem, rank: nat, n: nat, ghost items: Tree) returns (more: Hash)
    requires cur.Hash? && WF(cur) && Proper(Abs(cur), n) && Tagged(Abs(cur), items, rank)
    requires IsRank(elem.key, n) && WF(elem.hash)
    ensures more.Hash? && WF(more) && Proper(Abs(more), n)
    ensures Tagged(Abs(more), Join(items, Single(elem.key, Abs(elem.hash))), rank)
  {
    var dest := Atoi(elem.key);
    var sub := MergeUnder(Hash([]), "S", Dec(rank), elem.hash);
    JoinEmpty(Single("S", Single(Dec(rank), Abs(elem.hash))));
    assert HasSources(Abs(sub)) by { assert Dec(rank) in Single(Dec(rank), Abs(elem.hash)).kids; }
    more := MergeUnder(cur, "D", Dec(dest), sub);
    MergedUnderD(Abs(cur), Abs(more), Dec(dest), Abs(sub), n);
    TaggedOne(Single(elem.key, Abs(elem.hash)), elem.key, rank);
    TaggedJoin(Abs(cur), items, Single("D", Single(Dec(dest), Abs(sub))), Single(elem.key, Abs(elem.hash)), rank);
  }

  /** The working tree of a rank before the first round: its own items, tagged with destination and source. */
  method LoadCurrent(hashIn: Hash, rank: nat, n: nat) returns (cur: Hash)
    requires WF(hashIn) && RankKeys(Abs(hashIn), n)
    ensures cur.Hash? && WF(cur) && Proper(Abs(cur), n)
    ensures Tagged(Abs(cur), Abs(hashIn), rank)
  {
    cur := Hash([]);
    var es := Elems(hashIn);
    var i := 0;
    while i < |es|
      invariant 0 <= i <= |es|
      invariant cur.Hash? && WF(cur) && Proper(Abs(cur), n)
      invariant Tagged(Abs(cur), Tree(AbsElems(es[..i])), rank)
    {
      AbsAt(es, i);
      AbsPrefix(es, i);
      cur := LoadItem(cur, es[i], rank, n, Tree(AbsElems(es[..i])));
      JoinSingle(Tree(AbsElems(es[..i])), es[i].key, Abs(es[i].hash));
      JoinEmpty(Abs(es[i].hash));
      i := i + 1;
    }
    assert es[..i] == es;
  }

  /** The output after the first i elements: the payloads for this rank, if they were among them. */
  ghost predicate Took(out: Tree, out': Tree, cur: Tree, es: seq<Elem>, i: nat, rank: nat) {
    forall sk :: Child(out', sk) ==
      JoinOpt(Child(out, sk), if IndexOf(es, Dec(rank)) < i then Lookup(cur, Dec(rank), sk) else None)
  }

  ghost predicate TookOne(out: Tree, out': Tree, cur: Tree, key: string, rank: nat) {
    forall sk :: Child(out', sk) == JoinOpt(Child(out, sk), if key == Dec(rank) then Lookup(cur, key, sk) else None)
  }

  lemma TakeNext(out: Tree, out1: Tree, out2: Tree, cur: Tree, es: seq<Elem>, i: nat, rank: nat)
    requires Unique(es) && i < |es|
    requires Took(out, out1, cur, es, i, rank) && TookOne(out1, out2, cur, es[i].key, rank)
    ensures Took(out, out2, cur, es, i + 1, rank)
  {
    AbsAt(es, i);
    assert IndexOf(es, Dec(rank)) == i <==> Dec(rank) == es[i].key;
    forall sk
      ensures Child(out2, sk) ==
              JoinOpt(Child(out, sk), if IndexOf(es, Dec(rank)) < i + 1 then Lookup(cur, Dec(rank), sk) else None)
    {
      assert Child(out1, sk) ==
             JoinOpt(Child(out, sk), if IndexOf(es, Dec(rank)) < i then Lookup(cur, Dec(rank), sk) else None);
    }
  }

  /** The first i elements have gone where they belong. */
  ghost predicate Through(cur: Tree, es: seq<Elem>, i: nat, rank: nat, n: nat, dir: Direction, k: nat,
                          keep: Tree, send: Tree, out: Tree, out': Tree)
    requires rank < n
  {
    && Picked(keep, cur, es, i, dk => Keeps(dir, rank, n, k, dk))
    && Picked(send, cur, es, i, dk => Forwards(dir, rank, n, k, dk))
    && Took(out, out', cur, es, i, rank)
  }

  lemma OneMoreThrough(cur: Tree, es: seq<Elem>, i: nat, rank: nat, n: nat, dir: Direction, k: nat, out: Tree,
                       keep: Hash, keep': Hash, send: Hash, send': Hash, out0: Hash, out': Hash)
    requires rank < n && Unique(es) && i < |es|
    requires Through(cur, es, i, rank, n, dir, k, Abs(keep), Abs(send), out, Abs(out0))
    requires OneMoved(cur, es[i].key, rank, n, dir, k, keep, keep', send, send', out0, out')
    ensures Through(cur, es, i + 1, rank, n, dir, k, Abs(keep'), Abs(send'), out, Abs(out'))
  {
    PickNext(Abs(keep), Abs(keep'), cur, es, i, dk => Keeps(dir, rank, n, k, dk));
    PickNext(Abs(send), Abs(send'), cur, es, i, dk => Forwards(dir, rank, n, k, dk));
    TakeNext(out, Abs(out0), Abs(out'), cur, es, i, rank);
  }

  lemma AllSplit(cur: Hash, out: Tree, rank: nat, n: nat, dir: Direction, k: nat, keep: Tree, send: Tree, out': Tree)
    requires rank < n && WF(cur)
    requires Proper(keep, n) && Proper(send, n)
    requires Through(Abs(cur), Elems(Get(cur, "D")), |Elems(Get(cur, "D"))|, rank, n, dir, k, keep, send, out, out')
    ensures Splits(dir, rank, n, k, Abs(cur), out, keep, send, out')
  {
    var es := Elems(Get(cur, "D"));
    forall dk, sk | IndexOf(es, dk) == |es|
      ensures Lookup(Abs(cur), dk, sk) == None
    {
      NoElemNoPayload(cur, dk, sk);
    }
  }

  lemma StartThrough(cur: Hash, rank: nat, n: nat, dir: Direction, k: nat, out: Hash, none: Hash)
    requires rank < n && WF(cur) && out.Hash? && WF(out) && none == Hash([])
    ensures Through(Abs(cur), Elems(Get(cur, "D")), 0, rank, n, dir, k, Abs(none), Abs(none), Abs(out), Abs(out))
    ensures Sorted(none, none, out, n) && WF(Get(cur, "D")) && Unique(Elems(Get(cur, "D")))
  {
    GetIsKid(cur, "D");
  }

  /** The element loop at the start of a round: deliver, send or keep. */
  method SplitRound(cur: Hash, out: Hash, rank: nat, n: nat, dir: Direction, k: nat)
    returns (keep: Hash, send: Hash, out': Hash)
    requires rank < n && WF(cur) && Proper(Abs(cur), n)
    requires WF(out) && out.Hash?
    ensures Sorted(keep, send, out', n) && Splits(dir, rank, n, k, Abs(cur), Abs(out), Abs(keep), Abs(send), Abs(out'))
  {
    keep, send, out' := Hash([]), Hash([]), out;
    var es := Elems(Get(cur, "D"));
    StartThrough(cur, rank, n, dir, k, out, keep);
    var i := 0;
    while i < |es|
      invariant 0 <= i <= |es|
      invariant Sorted(keep, send, out', n)
      invariant Through(Abs(cur), es, i, rank, n, dir, k, Abs(keep), Abs(send), Abs(out), Abs(out'))
    {
      ghost var keep0, send0, out0 := keep, send, out';
      keep, send, out' := SplitElem(cur, i, rank, n, dir, k, keep, send, out');
      OneMoreThrough(Abs(cur), es, i, rank, n, dir, k, Abs(out), keep0, keep, send0, send, out0, out');
      i := i + 1;
    }
    AllSplit(cur, Abs(out), rank, n, dir, k, Abs(keep), Abs(send), Abs(out'));
  }

  /** What a round has sorted out so far. */
  ghost predicate Sorted(keep: Hash, send: Hash, out: Hash, n: nat) {
    && keep.Hash? && WF(keep) && send.Hash? && WF(send) && out.Hash? && WF(out)
    && Proper(Abs(keep), n) && Proper(Abs(send), n)
  }

  /** The payloads under one destination have gone where they belong, and nothing else has moved. */
  ghost predicate OneMoved(cur: Tree, key: string, rank: nat, n: nat, dir: Direction, k: nat,
                           keep: Hash, keep': Hash, send: Hash, send': Hash, out: Hash, out': Hash)
    requires rank < n
  {
    && Grew(Abs(keep), Abs(keep'), cur, key, Keeps(dir, rank, n, k, key))
    && Grew(Abs(send), Abs(send'), cur, key, Forwards(dir, rank, n, k, key))
    && TookOne(Abs(out), Abs(out'), cur, key, rank)
  }

  /** Where the payloads of element i go. */
  method SplitElem(cur: Hash, i: nat, rank: nat, n: nat, dir: Direction, k: nat, keep: Hash, send: Hash, out: Hash)
    returns (keep': Hash, send': Hash, out': Hash)
    requires rank < n && WF(cur) && Proper(Abs(cur), n)
    requires WF(Get(cur, "D")) && i < |Elems(Get(cur, "D"))|
    requires Sorted(keep, send, out, n)
    ensures Sorted(keep', send', out', n)
    ensures OneMoved(Abs(cur), Elems(Get(cur, "D"))[i].key, rank, n, dir, k, keep, keep', send, send', out, out')
  {
    keep', send', out' := keep, send, out;
    var elem := Elems(Get(cur, "D"))[i];
    var dest := Atoi(elem.key);
    ElemPayload(cur, i, "");
    assert IsRank(elem.key, n) && HasSources(Abs(elem.hash));
    forall sk
      ensures Lookup(Abs(cur), elem.key, sk) == Child(Kid(Abs(elem.hash), "S"), sk)
    {
      ElemPayload(cur, i, sk);
    }
    if dest == rank {
      out' := Deliver(out, elem.hash);
    } else if Bit(Dist(dir, rank, dest, n), k) {
      send' := MergeUnder(send, "D", Dec(dest), elem.hash);
      MergedUnderD(Abs(send), Abs(send'), Dec(dest), Abs(elem.hash), n);
      SamePayloads(Abs(send), Abs(send'), Abs(cur), elem.key, Abs(elem.hash));
    } else {
      keep' := MergeUnder(keep, "D", Dec(dest), elem.hash);
      MergedUnderD(Abs(keep), Abs(keep'), Dec(dest), Abs(elem.hash), n);
      SamePayloads(Abs(keep), Abs(keep'), Abs(cur), elem.key, Abs(elem.hash));
    }
  }

  lemma SamePayloads(before: Tree, after: Tree, cur: Tree, key: string, sub: Tree)
    requires Grew(before, after, Single("D", Single(key, sub)), key, true)
    requires forall sk :: Lookup(cur, key, sk) == Child(Kid(sub, "S"), sk)
    ensures Grew(before, after, cur, key, true)
  {
    forall dk, sk
      ensures Lookup(after, dk, sk) == JoinOpt(Lookup(before, dk, sk), if dk == key then Lookup(cur, dk, sk) else None)
    {
      LookupSingle(key, sub, dk, sk);
    }
  }

  /** Discard the source key and merge the payloads into the output. */
  method Deliver(out: Hash, elem: Hash) returns (out': Hash)
    requires out.Hash? && WF(out) && WF(elem)
    ensures out'.Hash? && WF(out')
    ensures forall sk :: Child(Abs(out'), sk) == JoinOpt(Child(Abs(out), sk), Child(Kid(Abs(elem), "S"), sk))
  {
    GetIsKid(elem, "S");
    var _, merged := Merge(out, Get(elem, "S"));
    forall sk
      ensures Child(Abs(merged), sk) == JoinOpt(Child(Abs(out), sk), Child(Kid(Abs(elem), "S"), sk))
    {
      ChildJoin(Abs(out), Kid(Abs(elem), "S"), sk);
    }
    return merged;
  }

  /** kvtree_sendrecv, the bytes of one message: pack, transfer, unpack. Aborts above INT_MAX. */
  method Transfer(send: Hash) returns (recv: Option<Hash>)
    requires WF(send)
    ensures recv.None? <==> PackSize(send) > INT_MAX
    ensures recv.Some? ==> recv.value.Hash? && WF(recv.value) && Abs(recv.value) == Abs(send)
  {
    if PackSize(send) > INT_MAX {
      return None;
    }
    SmallMeansCountsOk(send);
    var buf := new char[PackSize(send)];
    var n := PackInto(buf, 0, send);
    PackFillsSize(send);
    var bytes := buf[..];
    assert bytes == Pack(send);
    assert At(bytes, 0, Pack(send));
    PackRoundTrip(bytes, 0, send);
    var r := UnpackFrom(bytes, 0);
    return Some(r.value.0);
  }

  /** The first half of a round, on every rank. */
  method SplitAll(cur: seq<Hash>, out: seq<Hash>, n: nat, dir: Direction, k: nat)
    returns (keep: seq<Hash>, send: seq<Hash>, out': seq<Hash>)
    requires |cur| == |out| == n && AllTrees(cur) && AllTrees(out)
    requires forall r :: 0 <= r < n ==> Proper(Abs(cur[r]), n)
    ensures |keep| == |send| == |out'| == n && AllTrees(keep) && AllTrees(send) && AllTrees(out')
    ensures forall r :: 0 <= r < n ==>
              Splits(dir, r, n, k, Abs(cur[r]), Abs(out[r]), Abs(keep[r]), Abs(send[r]), Abs(out'[r]))
  {
    keep, send, out' := [], [], [];
    for rank := 0 to n
      invariant |keep| == |send| == |out'| == rank && AllTrees(keep) && AllTrees(send) && AllTrees(out')
      invariant forall r :: 0 <= r < rank ==>
                  Splits(dir, r, n, k, Abs(cur[r]), Abs(out[r]), Abs(keep[r]), Abs(send[r]), Abs(out'[r]))
    {
      var kept, sent, delivered := SplitRound(cur[rank], out[rank], rank, n, dir, k);
      keep, send, out' := keep + [kept], send + [sent], out' + [delivered];
    }
  }

  /** In a left run rank i sends to the rank `step` below it, in a right run to the one above it, around the ring. */
  ghost predicate SendsTo(dir: Direction, i: nat, r: nat, step: nat, n: nat)
    requires step < n
  {
    r == if dir.Left? then (i + n - step) % n else (i + step) % n
  }

  /** The second half of a round: every rank merges what its source sent into what it kept. */
  method ShiftAll(keep: seq<Hash>, send: seq<Hash>, n: nat, dir: Direction, step: nat) returns (next: Option<seq<Hash>>)
    requires |keep| == |send| == n && step < n && AllTrees(keep) && AllTrees(send)
    ensures next.None? <==> exists r :: 0 <= r < n && PackSize(send[r]) > INT_MAX
    ensures next.Some? ==> |next.value| == n && AllTrees(next.value)
    ensures next.Some? ==> forall r :: 0 <= r < n ==>
              Abs(next.value[r]) == Join(Abs(keep[r]), Abs(send[Peer(Opposite(dir), r, step, n)]))
    ensures next.Some? ==> forall i, r :: 0 <= i < n && 0 <= r < n && SendsTo(dir, i, r, step, n) ==>
              Abs(next.value[r]) == Join(Abs(keep[r]), Abs(send[i]))
  {
    var all: seq<Hash> := [];
    for rank := 0 to n
      invariant |all| == rank && AllTrees(all)
      invariant forall r :: 0 <= r < rank ==> PackSize(send[Peer(Opposite(dir), r, step, n)]) <= INT_MAX
      invariant forall r :: 0 <= r < rank ==>
                  Abs(all[r]) == Join(Abs(keep[r]), Abs(send[Peer(Opposite(dir), r, step, n)]))
    {
      var src := Peer(Opposite(dir), rank, step, n);
      var recv := Transfer(send[src]);
      if recv.None? {
        return None;
      }
      var _, merged := Merge(keep[rank], recv.value);
      all := all + [merged];
    }
    forall r | 0 <= r < n
      ensures PackSize(send[r]) <= INT_MAX
    {
      PeerAndBack(dir, r, step, n);
      assert r == Peer(Opposite(dir), Peer(dir, r, step, n), step, n);
    }
    forall i, r | 0 <= i < n && 0 <= r < n && SendsTo(dir, i, r, step, n)
      ensures Abs(all[r]) == Join(Abs(keep[r]), Abs(send[i]))
    {
      PeerIsNext(dir, i, step, n);
      PeerAndBack(dir, i, step, n);
    }
    return Some(all);
  }

  ghost predicate TookOwn(out: Tree, out': Tree, cur: Tree, r: nat) {
    forall sk :: Child(out', sk) == JoinOpt(Child(out, sk), Lookup(cur, Dec(r), sk))
  }

  /** A rank copies what is left under its own key into its output. */
  method FinishRank(cur: Hash, out: Hash, rank: nat) returns (out': Hash)
    requires WF(cur) && out.Hash? && WF(out)
    ensures out'.Hash? && WF(out') && TookOwn(Abs(out), Abs(out'), Abs(cur), rank)
  {
    GetIsKid(cur, "D");
    GetIsKid(Get(cur, "D"), Dec(rank));
    out' := Deliver(out, Get(Get(cur, "D"), Dec(rank)));
  }

  method FinishAll(cur: seq<Hash>, out: seq<Hash>, n: nat) returns (out': seq<Hash>)
    requires |cur| == |out| == n && AllTrees(cur) && AllTrees(out)
    ensures |out'| == n && AllTrees(out')
    ensures forall r :: 0 <= r < n ==> TookOwn(Abs(out[r]), Abs(out'[r]), Abs(cur[r]), r)
  {
    out' := [];
    for rank := 0 to n
      invariant |out'| == rank && AllTrees(out')
      invariant forall r :: 0 <= r < rank ==> TookOwn(Abs(out[r]), Abs(out'[r]), Abs(cur[r]), r)
    {
      var delivered := FinishRank(cur[rank], out[rank], rank);
      out' := out' + [delivered];
    }
  }

  /** Every rank sets up its working tree. */
  method LoadAll(hashIn: seq<Hash>, hashOut: seq<Hash>, n: nat, ghost dir: Direction) returns (cur: seq<Hash>)
    requires n > 0 && Addressed(hashIn, n)
    requires |hashOut| == n && AllTrees(hashOut)
    ensures AtRound(cur, hashOut, AbsAll(hashOut), AbsAll(hashIn), dir, 0)
  {
    cur := LoadEach(hashIn, n);
    LoadHolds(AbsAll(cur), AbsAll(hashIn), dir);
  }

  ghost predicate Loaded(cur: Hash, hashIn: Hash, rank: nat, n: nat) {
    cur.Hash? && WF(cur) && Proper(Abs(cur), n) && Tagged(Abs(cur), Abs(hashIn), rank)
  }

  method LoadEach(hashIn: seq<Hash>, n: nat) returns (cur: seq<Hash>)
    requires Addressed(hashIn, n)
    ensures |cur| == n && forall r :: 0 <= r < n ==> Loaded(cur[r], hashIn[r], r, n)
  {
    cur := [];
    for rank := 0 to n
      invariant |cur| == rank
      invariant forall r :: 0 <= r < rank ==> Loaded(cur[r], hashIn[r], r, n)
    {
      var loaded := LoadCurrent(hashIn[rank], rank, n);
      cur := cur + [loaded];
    }
  }

  lemma LoadHolds(cur: seq<Tree>, sent: seq<Tree>, dir: Direction)
    requires |cur| == |sent|
    requires forall r :: 0 <= r < |sent| ==> RankKeys(sent[r], |sent|) && Tagged(cur[r], sent[r], r)
    ensures Holds(cur, sent, dir, 0)
  {
  }

  /** The state of all ranks between rounds is the closed form. */
  ghost predicate AtRound(cur: seq<Hash>, out: seq<Hash>, out0: seq<Tree>, sent: seq<Tree>, dir: Direction, k: nat) {
    && |cur| == |out| == |sent| && AllTrees(cur) && AllTrees(out)
    && (forall r :: 0 <= r < |sent| ==> Proper(Abs(cur[r]), |sent|))
    && Holds(AbsAll(cur), sent, dir, k)
    && Output(AbsAll(out), out0, sent, dir, LandedBelow(k))
  }

  /** The body of the rounds loop. */
  method OneRound(cur: seq<Hash>, out: seq<Hash>, n: nat, dir: Direction, k: nat, step: nat,
                  ghost out0: seq<Tree>, ghost sent: seq<Tree>)
    returns (next: Option<(seq<Hash>, seq<Hash>)>)
    requires |sent| == n && step == Pow2(k) < n && AtRound(cur, out, out0, sent, dir, k)
    ensures next.None? <==> RoundTooLong(sent, dir, k)
    ensures next.Some? ==> AtRound(next.value.0, next.value.1, out0, sent, dir, k + 1)
  {
    var keep, send, delivered := SplitAll(cur, out, n, dir, k);
    var merged := ShiftAll(keep, send, n, dir, step);
    LengthsOfRound(cur, out, keep, send, delivered, sent, dir, k);
    if merged.None? {
      return None;
    }
    RoundAdvances(sent, dir, k, AbsAll(cur), AbsAll(keep), AbsAll(send), AbsAll(merged.value),
                  out0, AbsAll(out), AbsAll(delivered));
    MergedIsProper(keep, send, merged.value, n, dir, step);
    return Some((merged.value, delivered));
  }

  /** Besides what was there, rank d has what each source s sent to it from within the limit: counting down from s to
      d in a left run, counting up in a right run. */
  ghost predicate Arrived(out: seq<Tree>, out0: seq<Tree>, sent: seq<Tree>, dir: Direction, limit: nat) {
    && |out| == |out0| == |sent|
    && forall d, sk :: 0 <= d < |sent| ==>
         Child(out[d], sk) == JoinOpt(Child(out0[d], sk), FromWithin(sent, dir, limit, d, sk))
  }

  ghost function FromWithin(sent: seq<Tree>, dir: Direction, limit: nat, d: nat, sk: string): Option<Tree>
    requires d < |sent|
  {
    var n := |sent|;
    if !IsRank(sk, n) then None
    else
      var s := Atoi(sk);
      if (if dir.Left? then (s + n - d) % n else (d + n - s) % n) < limit then Child(sent[s], Dec(d)) else None
  }

  lemma OutputArrived(out: seq<Tree>, out0: seq<Tree>, sent: seq<Tree>, dir: Direction, limit: nat)
    requires Output(out, out0, sent, dir, limit)
    ensures Arrived(out, out0, sent, dir, limit)
  {
    forall d, sk | 0 <= d < |sent|
      ensures Child(out[d], sk) == JoinOpt(Child(out0[d], sk), FromWithin(sent, dir, limit, d, sk))
    {
      if IsRank(sk, |sent|) {
        DistIsAway(dir, Atoi(sk), d, |sent|);
      }
    }
  }

  /** kvtree_exchange_direction_hops on all ranks together. Exactly the items whose distance is below
      2^rounds arrive; the others are lost with the working trees. */
  method ExchangeDirectionHops(hashIn: seq<Hash>, hashOut: seq<Hash>, n: nat, dir: Direction, hops: int)
    returns (result: Option<seq<Hash>>)
    requires n > 0 && Addressed(hashIn, n)
    requires |hashOut| == n && AllTrees(hashOut)
    ensures result.None? <==> Oversize(AbsAll(hashIn), dir, RoundCount(n, hops))
    ensures result.Some? ==> |result.value| == n && AllTrees(result.value)
    ensures result.Some? ==>
              Output(AbsAll(result.value), AbsAll(hashOut), AbsAll(hashIn), dir, Pow2(RoundCount(n, hops)))
    ensures result.Some? ==>
              Arrived(AbsAll(result.value), AbsAll(hashOut), AbsAll(hashIn), dir, Pow2(RoundCount(n, hops)))
  {
    ghost var sent, out0 := AbsAll(hashIn), AbsAll(hashOut);
    var current := LoadAll(hashIn, hashOut, n, dir);
    var out := hashOut;
    var step, hopCount := 1, 0;
    while step < n && (hops < 0 || hopCount < hops)
      invariant step == Pow2(hopCount) && hopCount <= RoundCount(n, hops)
      invariant AtRound(current, out, out0, sent, dir, hopCount) && !Oversize(sent, dir, hopCount)
      decreases RoundCount(n, hops) - hopCount
    {
      RoundsIsGuard(n, hopCount);
      var next := OneRound(current, out, n, dir, hopCount, step, out0, sent);
      OneRoundMore(sent, dir, hopCount);
      if next.None? {
        OversizeLater(sent, dir, hopCount + 1, RoundCount(n, hops));
        return None;
      }
      current, out := next.value.0, next.value.1;
      step, hopCount := step * 2, hopCount + 1;
    }
    RoundsIsGuard(n, hopCount);
    assert hopCount == RoundCount(n, hops);
    var final := FinishAll(current, out, n);
    FinishOutput(sent, dir, hopCount, current, out0, out, final);
    OutputArrived(AbsAll(final), out0, sent, dir, Pow2(hopCount));
    return Some(final);
  }

  lemma LengthsOfRound(cur: seq<Hash>, out: seq<Hash>, keep: seq<Hash>, send: seq<Hash>, out': seq<Hash>,
                       sent: seq<Tree>, dir: Direction, k: nat)
    requires |cur| == |out| == |keep| == |send| == |out'| == |sent| && AllWF(send)
    requires Holds(AbsAll(cur), sent, dir, k)
    requires forall r :: 0 <= r < |sent| ==>
               Splits(dir, r, |sent|, k, Abs(cur[r]), Abs(out[r]), Abs(keep[r]), Abs(send[r]), Abs(out'[r]))
    ensures forall r :: 0 <= r < |sent| ==> (TooLong(sent, dir, k, r) <==> PackSize(send[r]) > INT_MAX)
  {
    forall r | 0 <= r < |sent|
      ensures TooLong(sent, dir, k, r) <==> PackSize(send[r]) > INT_MAX
    {
      assert Splits(dir, r, |sent|, k, Abs(cur[r]), Abs(out[r]), Abs(keep[r]), Abs(send[r]), Abs(out'[r]));
      assert forall dk, sk :: Lookup(Abs(cur[r]), dk, sk) == Lookup(AbsAll(cur)[r], dk, sk);
      LengthOfMessage(sent, dir, k, r, send[r]);
    }
  }

  lemma MergedIsProper(keep: seq<Hash>, send: seq<Hash>, next: seq<Hash>, n: nat, dir: Direction, step: nat)
    requires |keep| == |send| == |next| == n && step < n
    requires forall r :: 0 <= r < n ==> Proper(Abs(keep[r]), n) && Proper(Abs(send[r]), n)
    requires forall r :: 0 <= r < n ==> Abs(next[r]) == Join(Abs(keep[r]), Abs(send[Peer(Opposite(dir), r, step, n)]))
    ensures forall r :: 0 <= r < n ==> Proper(Abs(next[r]), n)
  {
    forall r | 0 <= r < n
      ensures Proper(Abs(next[r]), n)
    {
      ProperJoin(Abs(keep[r]), Abs(send[Peer(Opposite(dir), r, step, n)]), n);
    }
  }

  lemma FinishOutput(sent: seq<Tree>, dir: Direction, k: nat, cur: seq<Hash>, out0: seq<Tree>, out: seq<Hash>,
                     out': seq<Hash>)
    requires AtRound(cur, out, out0, sent, dir, k) && |out'| == |sent|
    requires forall r :: 0 <= r < |sent| ==> TookOwn(Abs(out[r]), Abs(out'[r]), Abs(cur[r]), r)
    ensures Output(AbsAll(out'), out0, sent, dir, Pow2(k))
  {
    forall r, sk | 0 <= r < |sent|
      ensures Child(AbsAll(out')[r], sk) == JoinOpt(Child(out0[r], sk), Received(sent, dir, Pow2(k), r, sk))
    {
      assert Lookup(AbsAll(cur)[r], Dec(r), sk) == Expected(sent, dir, k, r, Dec(r), sk);
      FinishDelivers(sent, dir, k, r, sk, out0[r], AbsAll(out)[r], AbsAll(out')[r]);
    }
  }

  /** What rank d is due from rank sk. */
  function Due(sent: seq<Tree>, d: nat, sk: string): Option<Tree> {
    if IsRank(sk, |sent|) then Child(sent[Atoi(sk)], Dec(d)) else None
  }

  /** Every rank's output has, besides what it had before, exactly what each source sent to it. */
  ghost predicate Delivered(out: seq<Tree>, out0: seq<Tree>, sent: seq<Tree>) {
    && |out| == |out0| == |sent|
    && forall d, sk :: 0 <= d < |sent| ==> Child(out[d], sk) == JoinOpt(Child(out0[d], sk), Due(sent, d, sk))
  }

  /** kvtree_exchange_direction: a full-length run delivers everything. */
  method ExchangeDirection(send: seq<Hash>, recv: seq<Hash>, n: nat, dir: Direction) returns (result: Option<seq<Hash>>)
    requires n > 0 && Addressed(send, n)
    requires |recv| == n && AllTrees(recv)
    ensures result.None? <==> Oversize(AbsAll(send), dir, Rounds(n))
    ensures result.Some? ==> |result.value| == n && AllTrees(result.value)
    ensures result.Some? ==> Delivered(AbsAll(result.value), AbsAll(recv), AbsAll(send))
  {
    result := ExchangeDirectionHops(send, recv, n, dir, -1);
  }
}
