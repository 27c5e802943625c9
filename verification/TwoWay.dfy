/** kvtree_exchange: each item goes in the direction of fewest hops, and both runs stop early. */
module TwoWay {
  import opened Bits
  import opened Text
  import opened Trees
  import opened Hashes
  import opened Routes
  import opened Exchange
  import opened Loads

  /** The hops an item needs in a direction. */
  function Hops(dir: Direction, s: nat, d: nat, n: nat): nat
    requires s < n && d < n
  {
    PopCount(Dist(dir, s, d, n), Rounds(n))
  }

  /** The rounds after which an item has arrived. */
  function Steps(dir: Direction, s: nat, d: nat, n: nat): nat
    requires s < n && d < n
  {
    Top(Dist(dir, s, d, n), Rounds(n))
  }

  function Chosen(s: nat, d: nat, n: nat): Direction
    requires s < n && d < n
  {
    if Hops(Left, s, d, n) < Hops(Right, s, d, n) then Left else Right
  }

  /** The part of a rank's items that travels in the given direction. */
  function Share(dir: Direction, s: nat, n: nat, items: Tree): Tree
    requires s < n
  {
    Tree(map k | k in items.kids && IsRank(k, n) && Chosen(s, Atoi(k), n) == dir :: items.kids[k])
  }

  /** Left exactly when the distance counted down has fewer set bits than the distance counted up; a tie goes right. */
  lemma ChosenByBits(s: nat, d: nat, n: nat)
    requires s < n && d < n
    ensures Chosen(s, d, n) == Left <==>
            PopCount((s + n - d) % n, Rounds(n)) < PopCount((d + n - s) % n, Rounds(n))
  {
    DistIsAway(Left, s, d, n);
    DistIsAway(Right, s, d, n);
  }

  /** The counting loop, for both directions at once. */
  method CountHops(distLeft: nat, distRight: nat, ranks: nat)
    returns (hopsLeft: nat, hopsRight: nat, stepsLeft: nat, stepsRight: nat)
    ensures hopsLeft == PopCount(distLeft, Rounds(ranks)) && hopsRight == PopCount(distRight, Rounds(ranks))
    ensures stepsLeft == Top(distLeft, Rounds(ranks)) && stepsRight == Top(distRight, Rounds(ranks))
  {
    hopsLeft, hopsRight, stepsLeft, stepsRight := 0, 0, 0, 0;
    var dist, step := 1, 1;
    while dist < ranks
      invariant step >= 1 && dist == Pow2(step - 1) && step - 1 <= Rounds(ranks)
      invariant hopsLeft == PopCount(distLeft, step - 1) && hopsRight == PopCount(distRight, step - 1)
      invariant stepsLeft == Top(distLeft, step - 1) && stepsRight == Top(distRight, step - 1)
      decreases Rounds(ranks) - (step - 1)
    {
      RoundsIsGuard(ranks, step - 1);
      if Bit(distLeft, step - 1) {
        hopsLeft, stepsLeft := hopsLeft + 1, step;
      }
      if Bit(distRight, step - 1) {
        hopsRight, stepsRight := hopsRight + 1, step;
      }
      dist, step := dist * 2, step + 1;
    }
    RoundsIsGuard(ranks, step - 1);
  }

  /** The limit covers the steps of every item and is no larger than some item needs. */
  ghost predicate Limits(limit: nat, dir: Direction, s: nat, n: nat, items: Tree)
    requires s < n
  {
    && (forall k :: k in items.kids && IsRank(k, n) ==> Steps(dir, s, Atoi(k), n) <= limit)
    && (limit == 0 || exists k :: k in items.kids && IsRank(k, n) && Steps(dir, s, Atoi(k), n) == limit)
  }

  lemma LimitsGrow(limit: nat, dir: Direction, s: nat, n: nat, items: map<string, Tree>, k: string, t: Tree)
    requires s < n && Limits(limit, dir, s, n, Tree(items)) && IsRank(k, n)
    ensures var steps := Steps(dir, s, Atoi(k), n);
            Limits(if steps > limit then steps else limit, dir, s, n, Tree(items[k := t]))
  {
    var steps := Steps(dir, s, Atoi(k), n);
    var more := items[k := t];
    if steps > limit {
      assert k in more;
    } else if limit > 0 {
      var j :| j in items && IsRank(j, n) && Steps(dir, s, Atoi(j), n) == limit;
      assert j in more;
    }
  }

  lemma ShareGrows(dir: Direction, s: nat, n: nat, items: map<string, Tree>, k: string, t: Tree)
    requires s < n && IsRank(k, n) && k !in items
    ensures Share(dir, s, n, Tree(items[k := t])) ==
            if Chosen(s, Atoi(k), n) == dir then Tree(Share(dir, s, n, Tree(items)).kids[k := t])
            else Share(dir, s, n, Tree(items))
  {
    var before, after := Share(dir, s, n, Tree(items)), Share(dir, s, n, Tree(items[k := t]));
    var grown := if Chosen(s, Atoi(k), n) == dir then Tree(before.kids[k := t]) else before;
    forall j
      ensures Child(after, j) == Child(grown, j)
    {
      if j == k {
      } else {
        assert j in items[k := t] <==> j in items;
      }
    }
    ChildrenDetermineTree(after, grown);
  }

  /** What one rank has assigned to a direction of the given items. */
  ghost predicate AssignedSoFar(h: Hash, limit: nat, dir: Direction, rank: nat, ranks: nat, items: map<string, Tree>)
    requires rank < ranks
  {
    h.Hash? && WF(h) && Abs(h) == Share(dir, rank, ranks, Tree(items)) && Limits(limit, dir, rank, ranks, Abs(h))
  }

  lemma NotChosen(h: Hash, limit: nat, dir: Direction, rank: nat, ranks: nat, items: map<string, Tree>, key: string,
                  t: Tree)
    requires rank < ranks && AssignedSoFar(h, limit, dir, rank, ranks, items)
    requires IsRank(key, ranks) && key !in items && Chosen(rank, Atoi(key), ranks) != dir
    ensures AssignedSoFar(h, limit, dir, rank, ranks, items[key := t])
  {
    ShareGrows(dir, rank, ranks, items, key, t);
  }

  /** Give one item to a direction. */
  method Give(h: Hash, limit: nat, item: Hash, dest: nat, steps: nat, rank: nat, ranks: nat, ghost dir: Direction,
              ghost items: map<string, Tree>)
    returns (more: Hash, limit': nat)
    requires rank < ranks && dest < ranks && WF(item) && AssignedSoFar(h, limit, dir, rank, ranks, items)
    requires Dec(dest) !in items && Chosen(rank, dest, ranks) == dir && steps == Steps(dir, rank, dest, ranks)
    ensures AssignedSoFar(more, limit', dir, rank, ranks, items[Dec(dest) := Abs(item)])
  {
    var tmp := Copy(item);
    ShareGrows(dir, rank, ranks, items, Dec(dest), Abs(item));
    LimitsGrow(limit, dir, rank, ranks, Abs(h).kids, Dec(dest), Abs(tmp));
    SetUpdates(h, Dec(dest), tmp);
    more := Set(h, Dec(dest), tmp);
    limit' := if steps > limit then steps else limit;
  }

  /** The body of the assignment loop. */
  method AssignOne(elem: Elem, rank: nat, ranks: nat, left: Hash, right: Hash, maxLeft: nat, maxRight: nat,
                   ghost items: map<string, Tree>)
    returns (left': Hash, right': Hash, maxLeft': nat, maxRight': nat)
    requires rank < ranks && IsRank(elem.key, ranks) && WF(elem.hash) && elem.key !in items
    requires AssignedSoFar(left, maxLeft, Left, rank, ranks, items)
               && AssignedSoFar(right, maxRight, Right, rank, ranks, items)
    ensures AssignedSoFar(left', maxLeft', Left, rank, ranks, items[elem.key := Abs(elem.hash)])
    ensures AssignedSoFar(right', maxRight', Right, rank, ranks, items[elem.key := Abs(elem.hash)])
  {
    left', right', maxLeft', maxRight' := left, right, maxLeft, maxRight;
    var dest := Atoi(elem.key);
    var hopsLeft, hopsRight, stepsLeft, stepsRight :=
      CountHops(Dist(Left, rank, dest, ranks), Dist(Right, rank, dest, ranks), ranks);
    if hopsLeft < hopsRight {
      NotChosen(right, maxRight, Right, rank, ranks, items, elem.key, Abs(elem.hash));
      left', maxLeft' := Give(left, maxLeft, elem.hash, dest, stepsLeft, rank, ranks, Left, items);
    } else {
      NotChosen(left, maxLeft, Left, rank, ranks, items, elem.key, Abs(elem.hash));
      right', maxRight' := Give(right, maxRight, elem.hash, dest, stepsRight, rank, ranks, Right, items);
    }
  }

  lemma NothingAssigned(dir: Direction, rank: nat, ranks: nat)
    requires rank < ranks
    ensures AssignedSoFar(Hash([]), 0, dir, rank, ranks, map[])
  {
    assert Share(dir, rank, ranks, Tree(map[])).kids == map[];
  }

  /** The assignment loop of one rank: two trees that share out the items, and the steps each needs. */
  method Assign(send: Hash, rank: nat, ranks: nat) returns (left: Hash, right: Hash, maxLeft: nat, maxRight: nat)
    requires rank < ranks && WF(send) && RankKeys(Abs(send), ranks)
    ensures AssignedSoFar(left, maxLeft, Left, rank, ranks, Abs(send).kids)
    ensures AssignedSoFar(right, maxRight, Right, rank, ranks, Abs(send).kids)
  {
    left, right, maxLeft, maxRight := Hash([]), Hash([]), 0, 0;
    NothingAssigned(Left, rank, ranks);
    NothingAssigned(Right, rank, ranks);
    var es := Elems(send);
    var i := 0;
    ghost var items: map<string, Tree> := map[];
    while i < |es|
      invariant 0 <= i <= |es| && items == AbsElems(es[..i])
      invariant AssignedSoFar(left, maxLeft, Left, rank, ranks, items)
      invariant AssignedSoFar(right, maxRight, Right, rank, ranks, items)
    {
      AbsAt(es, i);
      AbsPrefix(es, i);
      left, right, maxLeft, maxRight := AssignOne(es[i], rank, ranks, left, right, maxLeft, maxRight, items);
      i, items := i + 1, items[es[i].key := Abs(es[i].hash)];
    }
    assert es[..i] == es;
  }

  method Copy(h: Hash) returns (c: Hash)
    requires WF(h)
    ensures c.Hash? && WF(c) && Abs(c) == Abs(h)
  {
    var _, merged := Merge(Hash([]), h);
    JoinEmpty(Abs(h));
    assert Abs(Hash([])) == EMPTY;
    return merged;
  }

  /** Stopping after the steps an item needs still brings it all the way. */
  lemma StepsSuffice(dir: Direction, s: nat, d: nat, n: nat, limit: nat)
    requires s < n && d < n && Steps(dir, s, d, n) <= limit
    ensures Dist(dir, s, d, n) < Pow2(limit)
    ensures Steps(dir, s, d, n) <= Rounds(n)
  {
    var x := Dist(dir, s, d, n);
    LowIsAll(x, Rounds(n));
    TopBounds(x, Rounds(n));
    Pow2Mono(Steps(dir, s, d, n), limit);
  }

  ghost function Shares(dir: Direction, sent: seq<Tree>): (ts: seq<Tree>)
    ensures |ts| == |sent|
    ensures forall s :: 0 <= s < |sent| ==> ts[s] == Share(dir, s, |sent|, sent[s])
  {
    seq(|sent|, s requires 0 <= s < |sent| => Share(dir, s, |sent|, sent[s]))
  }

  /** A limit that covers every item of every rank makes the cut-off invisible. */
  lemma CutOffDelivers(sent: seq<Tree>, dir: Direction, limit: nat, d: nat, sk: string)
    requires d < |sent|
    requires forall s :: 0 <= s < |sent| ==> forall k :: k in sent[s].kids && IsRank(k, |sent|) ==>
               Steps(dir, s, Atoi(k), |sent|) <= limit
    ensures Received(sent, dir, Pow2(limit), d, sk) == Due(sent, d, sk)
  {
    if IsRank(sk, |sent|) && Dec(d) in sent[Atoi(sk)].kids {
      assert IsRank(Dec(d), |sent|);
      StepsSuffice(dir, Atoi(sk), d, |sent|, limit);
    }
  }

  /** Every item is in exactly one of the two shares. */
  lemma OneDirectionEach(sent: seq<Tree>, d: nat, sk: string)
    requires d < |sent|
    ensures Due(sent, d, sk).Some? ==>
              (Due(Shares(Left, sent), d, sk).Some? <==> Due(Shares(Right, sent), d, sk).None?)
    ensures Due(sent, d, sk) == JoinOpt(Due(Shares(Left, sent), d, sk), Due(Shares(Right, sent), d, sk))
  {
    if IsRank(sk, |sent|) {
      assert IsRank(Dec(d), |sent|);
    }
  }

  lemma BothRunsDeliver(out0: seq<Tree>, out1: seq<Tree>, out2: seq<Tree>, sent: seq<Tree>, maxLeft: nat, maxRight: nat)
    requires Output(out1, out0, Shares(Left, sent), Left, Pow2(maxLeft))
    requires Output(out2, out1, Shares(Right, sent), Right, Pow2(maxRight))
    requires Covers(maxLeft, Left, Shares(Left, sent)) && Covers(maxRight, Right, Shares(Right, sent))
    ensures Delivered(out2, out0, sent)
  {
    forall d, sk | 0 <= d < |sent|
      ensures Child(out2[d], sk) == JoinOpt(Child(out0[d], sk), Due(sent, d, sk))
    {
      CutOffDelivers(Shares(Left, sent), Left, maxLeft, d, sk);
      CutOffDelivers(Shares(Right, sent), Right, maxRight, d, sk);
      OneDirectionEach(sent, d, sk);
      assert Child(out1[d], sk) == JoinOpt(Child(out0[d], sk), Due(Shares(Left, sent), d, sk));
    }
  }

  /** The limit covers the items of every rank. */
  ghost predicate Covers(limit: nat, dir: Direction, sent: seq<Tree>) {
    forall s :: 0 <= s < |sent| ==>
      forall k :: k in sent[s].kids && IsRank(k, |sent|) ==> Steps(dir, s, Atoi(k), |sent|) <= limit
  }

  /** The limit is the largest number of steps any item of any rank needs: the result of the MAX reduction. */
  ghost predicate TightestCover(limit: nat, dir: Direction, sent: seq<Tree>) {
    && Covers(limit, dir, sent)
    && (limit == 0 || exists s, k ::
          0 <= s < |sent| && k in sent[s].kids && IsRank(k, |sent|) && Steps(dir, s, Atoi(k), |sent|) == limit)
  }

  ghost predicate SharedOut(dir: Direction, s: nat, n: nat, items: Tree, share: Tree, limit: nat)
    requires s < n
  {
    share == Share(dir, s, n, items) && Limits(limit, dir, s, n, share)
  }

  /** What one rank brings to the exchange. */
  datatype Assignment = Assignment(share: Hash, limit: nat)

  ghost predicate Assigned(dir: Direction, s: nat, n: nat, items: Tree, a: Assignment)
    requires s < n
  {
    a.share.Hash? && WF(a.share) && SharedOut(dir, s, n, items, Abs(a.share), a.limit)
  }

  method AssignRank(send: Hash, rank: nat, n: nat) returns (left: Assignment, right: Assignment)
    requires rank < n && WF(send) && RankKeys(Abs(send), n)
    ensures Assigned(Left, rank, n, Abs(send), left) && Assigned(Right, rank, n, Abs(send), right)
  {
    var l, r, maxLeft, maxRight := Assign(send, rank, n);
    return Assignment(l, maxLeft), Assignment(r, maxRight);
  }

  /** Assignment on every rank. */
  method AssignAll(send: seq<Hash>, n: nat) returns (left: seq<Assignment>, right: seq<Assignment>)
    requires n > 0 && Addressed(send, n)
    ensures |left| == |right| == n
    ensures forall s :: 0 <= s < n ==> Assigned(Left, s, n, Abs(send[s]), left[s])
    ensures forall s :: 0 <= s < n ==> Assigned(Right, s, n, Abs(send[s]), right[s])
  {
    left, right := [], [];
    for rank := 0 to n
      invariant |left| == |right| == rank
      invariant forall s :: 0 <= s < rank ==> Assigned(Left, s, n, Abs(send[s]), left[s])
      invariant forall s :: 0 <= s < rank ==> Assigned(Right, s, n, Abs(send[s]), right[s])
    {
      var l, r := AssignRank(send[rank], rank, n);
      left, right := left + [l], right + [r];
    }
  }

  /** The trees for one direction and the MAX reduction of their step counts. */
  method Collect(a: seq<Assignment>, n: nat, ghost dir: Direction, ghost send: seq<Hash>)
    returns (share: seq<Hash>, limit: nat)
    requires n > 0 && |a| == n == |send|
    requires forall s :: 0 <= s < n ==> Assigned(dir, s, n, Abs(send[s]), a[s])
    ensures |share| == n && AllWF(share) && AbsAll(share) == Shares(dir, AbsAll(send))
    ensures TightestCover(limit, dir, AbsAll(share))
  {
    share := seq(n, i requires 0 <= i < n => a[i].share);
    var limits: seq<nat> := seq(n, i requires 0 <= i < n => a[i].limit);
    limit := MaxReduce(limits);
    forall s | 0 <= s < n
      ensures WF(share[s]) && SharedOut(dir, s, n, Abs(send[s]), Abs(share[s]), limits[s])
    {
      assert Assigned(dir, s, n, Abs(send[s]), a[s]);
    }
    AllSharedOut(dir, send, share, limits, limit);
  }

  lemma AllSharedOut(dir: Direction, send: seq<Hash>, share: seq<Hash>, limits: seq<nat>, m: nat)
    requires |send| == |share| == |limits|
    requires m in limits && forall i :: 0 <= i < |limits| ==> limits[i] <= m
    requires forall s :: 0 <= s < |send| ==> SharedOut(dir, s, |send|, Abs(send[s]), Abs(share[s]), limits[s])
    ensures AbsAll(share) == Shares(dir, AbsAll(send)) && TightestCover(m, dir, AbsAll(share))
  {
    var ts := AbsAll(share);
    forall s | 0 <= s < |send|
      ensures ts[s] == Shares(dir, AbsAll(send))[s] && Limits(limits[s], dir, s, |ts|, ts[s])
    {
      assert SharedOut(dir, s, |send|, Abs(send[s]), Abs(share[s]), limits[s]);
    }
    ReduceCovers(limits, m, dir, ts);
  }

  /** MPI_Allreduce with MPI_MAX. */
  method MaxReduce(xs: seq<nat>) returns (m: nat)
    requires |xs| > 0
    ensures m in xs && forall i :: 0 <= i < |xs| ==> xs[i] <= m
  {
    m := xs[0];
    for i := 1 to |xs|
      invariant m in xs && forall j :: 0 <= j < i ==> xs[j] <= m
    {
      if xs[i] > m {
        m := xs[i];
      }
    }
  }

  lemma ReduceCovers(limits: seq<nat>, m: nat, dir: Direction, sent: seq<Tree>)
    requires |limits| == |sent| && m in limits && forall i :: 0 <= i < |limits| ==> limits[i] <= m
    requires forall s :: 0 <= s < |sent| ==> Limits(limits[s], dir, s, |sent|, sent[s])
    ensures TightestCover(m, dir, sent)
  {
    var s :| 0 <= s < |limits| && limits[s] == m;
    assert Limits(limits[s], dir, s, |sent|, sent[s]);
    forall s, k | 0 <= s < |sent| && k in sent[s].kids && IsRank(k, |sent|)
      ensures Steps(dir, s, Atoi(k), |sent|) <= m
    {
      assert Limits(limits[s], dir, s, |sent|, sent[s]);
    }
  }

  lemma CoverIsWithinRounds(limit: nat, dir: Direction, sent: seq<Tree>)
    requires TightestCover(limit, dir, sent)
    ensures RoundCount(|sent|, limit) == limit
  {
    if limit > 0 {
      var s, k :| 0 <= s < |sent| && k in sent[s].kids && IsRank(k, |sent|) && Steps(dir, s, Atoi(k), |sent|) == limit;
      StepsSuffice(dir, s, Atoi(k), |sent|, limit);
    }
  }

  /** Some message of one of the two runs has more than INT_MAX bytes. */
  ghost predicate ExchangeTooLong(sent: seq<Tree>) {
    exists l: nat, r: nat :: AgreedLimits(sent, l, r) && RunsTooLong(sent, l, r)
  }

  /** The hop limits that come out of the MAX reduction. */
  ghost predicate AgreedLimits(sent: seq<Tree>, maxLeft: nat, maxRight: nat) {
    TightestCover(maxLeft, Left, Shares(Left, sent)) && TightestCover(maxRight, Right, Shares(Right, sent))
  }

  ghost predicate RunsTooLong(sent: seq<Tree>, maxLeft: nat, maxRight: nat) {
    Oversize(Shares(Left, sent), Left, maxLeft) || Oversize(Shares(Right, sent), Right, maxRight)
  }

  /** If all items together fit in a message, no message of kvtree_exchange is too long. */
  lemma LightExchangeFits(sent: seq<Tree>, ps: seq<Parcel>)
    requires Listed(sent, ps) && Costs(ps, |ps|) <= INT_MAX
    ensures !ExchangeTooLong(sent)
  {
    forall dir, rounds: nat
      ensures !Oversize(Shares(dir, sent), dir, rounds)
    {
      forall r, dk | 0 <= r < |sent| && dk in Shares(dir, sent)[r].kids
        ensures Parcel(dk, Dec(r), Shares(dir, sent)[r].kids[dk]) in ps
      {
        assert Shares(dir, sent)[r] == Share(dir, r, |sent|, sent[r]);
      }
      LightLoadFits(Shares(dir, sent), ps, dir, rounds);
    }
  }

  lemma LimitIsUnique(dir: Direction, sent: seq<Tree>, l: nat, m: nat)
    requires TightestCover(l, dir, sent) && TightestCover(m, dir, sent)
    ensures l == m
  {
  }

  lemma LimitsDecide(sent: seq<Tree>, maxLeft: nat, maxRight: nat)
    requires AgreedLimits(sent, maxLeft, maxRight)
    ensures ExchangeTooLong(sent) <==> RunsTooLong(sent, maxLeft, maxRight)
  {
    if ExchangeTooLong(sent) {
      var l: nat, r: nat :| AgreedLimits(sent, l, r) && RunsTooLong(sent, l, r);
      LimitIsUnique(Left, Shares(Left, sent), l, maxLeft);
      LimitIsUnique(Right, Shares(Right, sent), r, maxRight);
    }
  }

  /** kvtree_exchange on all ranks: whatever the cut-offs, every item is delivered. */
  method ExchangeTrees(send: seq<Hash>, recv: seq<Hash>, n: nat) returns (result: Option<seq<Hash>>)
    requires n > 0 && Addressed(send, n)
    requires |recv| == n && AllTrees(recv)
    ensures result.None? <==> ExchangeTooLong(AbsAll(send))
    ensures result.Some? ==> |result.value| == n && AllTrees(result.value)
    ensures result.Some? ==> Delivered(AbsAll(result.value), AbsAll(recv), AbsAll(send))
  {
    var lefts, rights := AssignAll(send, n);
    var left, maxLeft := Collect(lefts, n, Left, send);
    var right, maxRight := Collect(rights, n, Right, send);
    CoverIsWithinRounds(maxLeft, Left, AbsAll(left));
    CoverIsWithinRounds(maxRight, Right, AbsAll(right));
    ShareAddressed(left, Left, AbsAll(send));
    ShareAddressed(right, Right, AbsAll(send));
    var mid := ExchangeDirectionHops(left, recv, n, Left, maxLeft);
    LimitsDecide(AbsAll(send), maxLeft, maxRight);
    if mid.None? {
      return None;
    }
    result := ExchangeDirectionHops(right, mid.value, n, Right, maxRight);
    if result.None? {
      return None;
    }
    BothRunsDeliver(AbsAll(recv), AbsAll(mid.value), AbsAll(result.value), AbsAll(send), maxLeft, maxRight);
  }

  lemma ShareAddressed(share: seq<Hash>, dir: Direction, sent: seq<Tree>)
    requires AllWF(share) && |share| == |sent| && AbsAll(share) == Shares(dir, sent)
    ensures Addressed(share, |sent|)
  {
    forall r | 0 <= r < |sent|
      ensures RankKeys(Abs(share[r]), |sent|)
    {
      assert Abs(share[r]) == AbsAll(share)[r] == Share(dir, r, |sent|, sent[r]);
    }
  }

  /** In the exchange an item is forwarded as few times as either direction allows, however early the run stops. */
  lemma HopsAreMinimal(s: nat, d: nat, n: nat, rounds: nat)
    requires s < n && d < n
    requires Steps(Chosen(s, d, n), s, d, n) <= rounds <= Rounds(n)
    ensures TimesForwarded(Chosen(s, d, n), n, s, d, rounds) <= Hops(Left, s, d, n)
    ensures TimesForwarded(Chosen(s, d, n), n, s, d, rounds) <= Hops(Right, s, d, n)
    ensures TimesForwarded(Chosen(s, d, n), n, s, d, rounds) == Hops(Chosen(s, d, n), s, d, n) <= Rounds(n)
  {
    var dir := Chosen(s, d, n);
    ForwardedPerSetBit(dir, n, s, d, rounds);
    StepsSuffice(dir, s, d, n, rounds);
    PopCountSmall(Dist(dir, s, d, n), rounds, Rounds(n));
  }
}
