/** Where Bruck's algorithm puts every (source, destination) item in every round: the closed form, and the
    proof that one round of per-rank splitting and shifting moves the closed form one round on. */
module Routes {
  import opened Bits
  import opened Text
  import opened Trees
  import opened Sizes

  datatype Direction = Left | Right

  function Opposite(dir: Direction): Direction {
    if dir.Left? then Right else Left
  }

  /** The rank `step` places away in the given direction, around the ring. */
  function Peer(dir: Direction, r: nat, step: nat, n: nat): (p: nat)
    requires r < n && step < n
    ensures p < n
  {
    if dir.Right? then (if r + step >= n then r + step - n else r + step)
    else (if r < step then r + n - step else r - step)
  }

  /** How far an item has to travel in the given direction. */
  function Dist(dir: Direction, from: nat, to: nat, n: nat): (x: nat)
    requires from < n && to < n
    ensures x < n
    ensures Peer(dir, from, x, n) == to
  {
    var x := if dir.Right? then to - from else from - to;
    if x < 0 then x + n else x
  }

  /** How far d is from s: on the left, ranks count down. */
  function Away(dir: Direction, s: nat, d: nat, n: nat): (x: nat)
    requires s < n && d < n
  {
    if dir.Left? then (s + n - d) % n else (d + n - s) % n
  }

  lemma DistIsAway(dir: Direction, s: nat, d: nat, n: nat)
    requires s < n && d < n
    ensures Dist(dir, s, d, n) == Away(dir, s, d, n)
  {
    var x := if dir.Left? then s + n - d else d + n - s;
    RingPlace(x, n);
  }

  /** Left of r is r less the step, right of it r and the step, around the ring. */
  lemma PeerIsNext(dir: Direction, r: nat, step: nat, n: nat)
    requires r < n && step < n
    ensures Peer(dir, r, step, n) == if dir.Left? then (r + n - step) % n else (r + step) % n
  {
    RingPlace(if dir.Left? then r + n - step else r + step, n);
  }

  lemma RingPlace(x: nat, n: nat)
    requires x < 2 * n
    ensures x % n == if x < n then x else x - n
  {
    QuotientIs(x, n, if x < n then 0 else 1, if x < n then x else x - n);
    EuclidOf(x, n);
  }

  lemma PeerAndBack(dir: Direction, r: nat, step: nat, n: nat)
    requires r < n && step < n
    ensures Peer(dir, Peer(Opposite(dir), r, step, n), step, n) == r
    ensures Peer(Opposite(dir), Peer(dir, r, step, n), step, n) == r
  {
  }

  lemma PeerTwice(dir: Direction, r: nat, x: nat, y: nat, n: nat)
    requires r < n && x + y < n
    ensures Peer(dir, Peer(dir, r, x, n), y, n) == Peer(dir, r, x + y, n)
  {
  }

  /** Moving x of the distance leaves the rest of it. */
  lemma DistAfterMove(dir: Direction, s: nat, d: nat, x: nat, n: nat)
    requires s < n && d < n && x <= Dist(dir, s, d, n)
    ensures Dist(dir, Peer(dir, s, x, n), d, n) == Dist(dir, s, d, n) - x
  {
  }

  // ---------- the closed form ----------

  /** The payload filed under D/dk/S/sk in a rank's working tree. */
  function Lookup(t: Tree, dk: string, sk: string): Option<Tree> {
    Child(Kid(Kid(Kid(t, "D"), dk), "S"), sk)
  }

  predicate RankKeys(t: Tree, n: nat) {
    forall k :: k in t.kids ==> IsRank(k, n)
  }

  /** Only payloads: each below D, the rank it goes to, S and the rank it comes from. */
  predicate Proper(t: Tree, n: nat) {
    && (forall k :: k in t.kids ==> k == "D" && t.kids[k].kids != map[])
    && DestsProper(Kid(t, "D"), n)
  }

  predicate DestsProper(d: Tree, n: nat) {
    forall dk :: dk in d.kids ==> IsRank(dk, n) && HasSources(d.kids[dk])
  }

  predicate HasSources(t: Tree) {
    t.kids.Keys == {"S"} && t.kids["S"].kids != map[]
  }

  /** The rank an item from s to d has reached after k rounds. */
  function PosAfter(dir: Direction, n: nat, s: nat, d: nat, k: nat): nat
    requires s < n && d < n
  {
    Peer(dir, s, Low(Dist(dir, s, d, n), k), n)
  }

  /** Distances below this are out of the working trees, in the output, after k rounds. */
  function LandedBelow(k: nat): nat {
    if k == 0 then 0 else Pow2(k - 1)
  }

  /** What rank r holds under D/dk/S/sk after k rounds. */
  function Expected(sent: seq<Tree>, dir: Direction, k: nat, r: nat, dk: string, sk: string): Option<Tree> {
    var n := |sent|;
    if IsRank(dk, n) && IsRank(sk, n) then
      var d, s := Atoi(dk), Atoi(sk);
      if Dist(dir, s, d, n) >= LandedBelow(k) && PosAfter(dir, n, s, d, k) == r then Child(sent[s], dk) else None
    else None
  }

  /** What rank r has been handed from rank sk by items closer than the limit. */
  function Received(sent: seq<Tree>, dir: Direction, limit: nat, r: nat, sk: string): Option<Tree> {
    var n := |sent|;
    if r < n && IsRank(sk, n) && Dist(dir, Atoi(sk), r, n) < limit then Child(sent[Atoi(sk)], Dec(r)) else None
  }

  ghost predicate Holds(cur: seq<Tree>, sent: seq<Tree>, dir: Direction, k: nat) {
    && |cur| == |sent|
    && forall r, dk, sk :: 0 <= r < |sent| ==> Lookup(cur[r], dk, sk) == Expected(sent, dir, k, r, dk, sk)
  }

  ghost predicate Output(out: seq<Tree>, out0: seq<Tree>, sent: seq<Tree>, dir: Direction, limit: nat) {
    && |out| == |out0| == |sent|
    && forall r, sk :: 0 <= r < |sent| ==>
         Child(out[r], sk) == JoinOpt(Child(out0[r], sk), Received(sent, dir, limit, r, sk))
  }

  // ---------- one round ----------

  predicate Forwards(dir: Direction, r: nat, n: nat, k: nat, dk: string)
    requires r < n
  {
    IsRank(dk, n) && Atoi(dk) != r && Bit(Dist(dir, r, Atoi(dk), n), k)
  }

  predicate Keeps(dir: Direction, r: nat, n: nat, k: nat, dk: string)
    requires r < n
  {
    IsRank(dk, n) && Atoi(dk) != r && !Bit(Dist(dir, r, Atoi(dk), n), k)
  }

  /** What one rank does with its working tree at the start of round k. */
  ghost predicate Splits(dir: Direction, r: nat, n: nat, k: nat, cur: Tree, out: Tree, keep: Tree, send: Tree,
                         out': Tree)
    requires r < n
  {
    && Proper(keep, n) && Proper(send, n)
    && (forall dk, sk :: Lookup(keep, dk, sk) == if Keeps(dir, r, n, k, dk) then Lookup(cur, dk, sk) else None)
    && (forall dk, sk :: Lookup(send, dk, sk) == if Forwards(dir, r, n, k, dk) then Lookup(cur, dk, sk) else None)
    && (forall sk :: Child(out', sk) == JoinOpt(Child(out, sk), Lookup(cur, Dec(r), sk)))
  }

  lemma LookupJoin(a: Tree, b: Tree, dk: string, sk: string)
    ensures Lookup(Join(a, b), dk, sk) == JoinOpt(Lookup(a, dk, sk), Lookup(b, dk, sk))
  {
    ChildJoin(a, b, "D");
    ChildJoin(Kid(a, "D"), Kid(b, "D"), dk);
    ChildJoin(Kid(Kid(a, "D"), dk), Kid(Kid(b, "D"), dk), "S");
    ChildJoin(Kid(Kid(Kid(a, "D"), dk), "S"), Kid(Kid(Kid(b, "D"), dk), "S"), sk);
  }

  lemma LookupSingle(key: string, t: Tree, dk: string, sk: string)
    ensures Lookup(Single("D", Single(key, t)), dk, sk) == if dk == key then Child(Kid(t, "S"), sk) else None
  {
  }

  lemma ProperJoin(a: Tree, b: Tree, n: nat)
    requires Proper(a, n) && Proper(b, n)
    ensures Proper(Join(a, b), n)
  {
    ChildJoin(a, b, "D");
    DestsJoin(Kid(a, "D"), Kid(b, "D"), n);
  }

  lemma DestsJoin(a: Tree, b: Tree, n: nat)
    requires DestsProper(a, n) && DestsProper(b, n)
    ensures DestsProper(Join(a, b), n)
    ensures a.kids != map[] || b.kids != map[] ==> Join(a, b).kids != map[]
  {
    forall dk | dk in a.kids && dk in b.kids
      ensures HasSources(Join(a.kids[dk], b.kids[dk]))
    {
      SourcesJoin(a.kids[dk], b.kids[dk]);
    }
    JoinNonEmpty(a, b);
  }

  lemma JoinNonEmpty(a: Tree, b: Tree)
    ensures a.kids != map[] || b.kids != map[] ==> Join(a, b).kids != map[]
  {
    if k :| k in a.kids || k in b.kids {
      assert k in Join(a, b).kids;
    }
  }

  lemma SourcesJoin(a: Tree, b: Tree)
    requires HasSources(a) && HasSources(b)
    ensures HasSources(Join(a, b))
  {
    JoinNonEmpty(a.kids["S"], b.kids["S"]);
    assert Join(a, b).kids.Keys == {"S"};
  }

  /** A tree of payloads that another tree also has is within it. */
  lemma ProperWithin(a: Tree, b: Tree, n: nat)
    requires Proper(a, n)
    requires forall dk, sk :: Lookup(a, dk, sk).Some? ==>
               Lookup(b, dk, sk).Some? && Within(Lookup(a, dk, sk).value, Lookup(b, dk, sk).value)
    ensures Within(a, b)
  {
    var da, db := Kid(a, "D"), Kid(b, "D");
    forall dk | dk in da.kids
      ensures dk in db.kids && Within(da.kids[dk], db.kids[dk])
    {
      SourcesWithin(da.kids[dk], Kid(db, dk), a, b, dk);
    }
    if "D" in a.kids {
      var dk :| dk in da.kids;
    }
  }

  lemma SourcesWithin(a: Tree, b: Tree, ta: Tree, tb: Tree, dk: string)
    requires HasSources(a) && a == Kid(Kid(ta, "D"), dk) && b == Kid(Kid(tb, "D"), dk)
    requires forall sk :: Lookup(ta, dk, sk).Some? ==>
               Lookup(tb, dk, sk).Some? && Within(Lookup(ta, dk, sk).value, Lookup(tb, dk, sk).value)
    ensures dk in Kid(tb, "D").kids && Within(a, b)
  {
    var sa := a.kids["S"];
    forall sk | sk in sa.kids
      ensures sk in Kid(b, "S").kids && Within(sa.kids[sk], Kid(b, "S").kids[sk])
    {
      assert Lookup(ta, dk, sk) == Some(sa.kids[sk]);
    }
    var sk :| sk in sa.kids;
    assert Child(Kid(b, "S"), sk).Some?;
    assert Within(sa, Kid(b, "S"));
  }

  /** The payloads determine the tree. */
  lemma ProperDetermined(a: Tree, b: Tree, n: nat)
    requires Proper(a, n) && Proper(b, n) && forall dk, sk :: Lookup(a, dk, sk) == Lookup(b, dk, sk)
    ensures a == b
  {
    forall dk, sk | Lookup(a, dk, sk).Some?
      ensures Within(Lookup(a, dk, sk).value, Lookup(b, dk, sk).value)
    {
      WithinItself(Lookup(a, dk, sk).value);
    }
    ProperWithin(a, b, n);
    ProperWithin(b, a, n);
    WithinBothWays(a, b);
  }

  /** The item from s to d, followed through round k: it is at its destination exactly when its distance is
      used up, otherwise it moves on exactly when bit k of the distance is set. */
  lemma ItemMoves(dir: Direction, n: nat, s: nat, d: nat, k: nat)
    requires s < n && d < n && Pow2(k) < n
    ensures var x, p := Dist(dir, s, d, n), PosAfter(dir, n, s, d, k);
            && (p == d <==> x < Pow2(k))
            && Bit(Dist(dir, p, d, n), k) == Bit(x, k)
            && PosAfter(dir, n, s, d, k + 1) == if Bit(x, k) then Peer(dir, p, Pow2(k), n) else p
  {
    var x := Dist(dir, s, d, n);
    var low := Low(x, k);
    DistAfterMove(dir, s, d, low, n);
    BitAboveLow(x, k);
    LowIsAll(x, k);
    LowStep(x, k);
    if Bit(x, k) {
      PeerTwice(dir, s, low, Pow2(k), n);
    }
  }

  lemma LandedGrows(k: nat)
    ensures LandedBelow(k) <= Pow2(k) == LandedBelow(k + 1)
  {
  }

  /** One round moves the closed form on by one. */
  lemma RoundMoves(sent: seq<Tree>, dir: Direction, k: nat, r: nat, dk: string, sk: string, keep: Tree, send: Tree)
    requires r < |sent| && Pow2(k) < |sent|
    requires Lookup(keep, dk, sk) == if Keeps(dir, r, |sent|, k, dk) then Expected(sent, dir, k, r, dk, sk) else None
    requires var src := Peer(Opposite(dir), r, Pow2(k), |sent|);
             Lookup(send, dk, sk) == if Forwards(dir, src, |sent|, k, dk) then Expected(sent, dir, k, src, dk, sk)
                 else None
    ensures Lookup(Join(keep, send), dk, sk) == Expected(sent, dir, k + 1, r, dk, sk)
  {
    var n := |sent|;
    LookupJoin(keep, send, dk, sk);
    if IsRank(dk, n) && IsRank(sk, n) {
      var d, s := Atoi(dk), Atoi(sk);
      ItemMoves(dir, n, s, d, k);
      LandedGrows(k);
      PeerAndBack(dir, r, Pow2(k), n);
      PeerAndBack(dir, PosAfter(dir, n, s, d, k), Pow2(k), n);
    }
  }

  /** What reaches its destination in round k is what was at most one bit away. */
  lemma RoundDelivers(sent: seq<Tree>, dir: Direction, k: nat, r: nat, sk: string, out0: Tree, out: Tree, out': Tree)
    requires r < |sent| && Pow2(k) < |sent|
    requires Child(out, sk) == JoinOpt(Child(out0, sk), Received(sent, dir, LandedBelow(k), r, sk))
    requires Child(out', sk) == JoinOpt(Child(out, sk), Expected(sent, dir, k, r, Dec(r), sk))
    ensures Child(out', sk) == JoinOpt(Child(out0, sk), Received(sent, dir, LandedBelow(k + 1), r, sk))
  {
    if IsRank(sk, |sent|) {
      ItemMoves(dir, |sent|, Atoi(sk), r, k);
      LandedGrows(k);
    }
  }

  /** The last merge, after k rounds: rank r takes what it holds for itself. */
  lemma FinishDelivers(sent: seq<Tree>, dir: Direction, k: nat, r: nat, sk: string, out0: Tree, out: Tree, out': Tree)
    requires r < |sent|
    requires Child(out, sk) == JoinOpt(Child(out0, sk), Received(sent, dir, LandedBelow(k), r, sk))
    requires Child(out', sk) == JoinOpt(Child(out, sk), Expected(sent, dir, k, r, Dec(r), sk))
    ensures Child(out', sk) == JoinOpt(Child(out0, sk), Received(sent, dir, Pow2(k), r, sk))
  {
    if IsRank(sk, |sent|) {
      var n, s := |sent|, Atoi(sk);
      var x := Dist(dir, s, r, n);
      LowIsAll(x, k);
      DistAfterMove(dir, s, r, Low(x, k), n);
      LandedGrows(k);
    }
  }

  lemma RoundAdvances(sent: seq<Tree>, dir: Direction, k: nat, cur: seq<Tree>, keep: seq<Tree>, send: seq<Tree>,
                      next: seq<Tree>,
                      out0: seq<Tree>, out: seq<Tree>, out': seq<Tree>)
    requires Pow2(k) < |sent| && Holds(cur, sent, dir, k) && Output(out, out0, sent, dir, LandedBelow(k))
    requires |keep| == |send| == |next| == |out'| == |sent|
    requires forall r :: 0 <= r < |sent| ==> Splits(dir, r, |sent|, k, cur[r], out[r], keep[r], send[r], out'[r])
    requires forall r :: 0 <= r < |sent| ==> next[r] == Join(keep[r], send[Peer(Opposite(dir), r, Pow2(k), |sent|)])
    ensures Holds(next, sent, dir, k + 1) && Output(out', out0, sent, dir, LandedBelow(k + 1))
  {
    forall r, dk, sk | 0 <= r < |sent|
      ensures Lookup(next[r], dk, sk) == Expected(sent, dir, k + 1, r, dk, sk)
    {
      var src := Peer(Opposite(dir), r, Pow2(k), |sent|);
      assert Splits(dir, src, |sent|, k, cur[src], out[src], keep[src], send[src], out'[src]);
      RoundMoves(sent, dir, k, r, dk, sk, keep[r], send[src]);
    }
    forall r, sk | 0 <= r < |sent|
      ensures Child(out'[r], sk) == JoinOpt(Child(out0[r], sk), Received(sent, dir, LandedBelow(k + 1), r, sk))
    {
      RoundDelivers(sent, dir, k, r, sk, out0[r], out[r], out'[r]);
    }
  }

  /** How many times an item changes rank in the first k rounds. */
  function TimesForwarded(dir: Direction, n: nat, s: nat, d: nat, k: nat): nat
    requires s < n && d < n
  {
    if k == 0 then 0
    else TimesForwarded(dir, n, s, d, k - 1)
         + (if PosAfter(dir, n, s, d, k) != PosAfter(dir, n, s, d, k - 1) then 1 else 0)
  }

  /** An item is forwarded once per set bit of its distance. */
  lemma {:induction false} ForwardedPerSetBit(dir: Direction, n: nat, s: nat, d: nat, k: nat)
    requires s < n && d < n && k <= Rounds(n)
    ensures TimesForwarded(dir, n, s, d, k) == PopCount(Dist(dir, s, d, n), k)
  {
    if k > 0 {
      ForwardedPerSetBit(dir, n, s, d, k - 1);
      RoundsIsGuard(n, k - 1);
      ItemMoves(dir, n, s, d, k - 1);
    }
  }

  /** After k rounds the low k bits of the distance left to go are zero. */
  lemma {:induction false} LowBitsUsedUp(dir: Direction, n: nat, s: nat, d: nat, k: nat)
    requires s < n && d < n
    ensures Low(Dist(dir, PosAfter(dir, n, s, d, k), d, n), k) == 0
  {
    var x := Dist(dir, s, d, n);
    DistAfterMove(dir, s, d, Low(x, k), n);
    LowOfRest(x, k);
  }

  lemma {:induction false} LowOfRest(x: nat, k: nat)
    ensures Low(x - Low(x, k), k) == 0
  {
    if k > 0 {
      LowOfRest(x / 2, k - 1);
      var rest := x / 2 - Low(x / 2, k - 1);
      assert x - Low(x, k) == 2 * rest;
      LowOfDouble(rest, k);
    }
  }

  lemma LowOfDouble(z: nat, k: nat)
    requires k > 0
    ensures Low(2 * z, k) == 2 * Low(z, k - 1)
  {
    assert 2 * z / 2 == z && 2 * z % 2 == 0;
  }

  /** After a full-length run nothing is left anywhere for another rank. */
  lemma NothingLeftForOthers(cur: seq<Tree>, sent: seq<Tree>, dir: Direction, r: nat, dk: string, sk: string)
    requires r < |sent| && Holds(cur, sent, dir, Rounds(|sent|))
    requires Lookup(cur[r], dk, sk).Some?
    ensures dk == Dec(r)
  {
    var n, k := |sent|, Rounds(|sent|);
    var d, s := Atoi(dk), Atoi(sk);
    LowIsAll(Dist(dir, s, d, n), k);
  }
}
