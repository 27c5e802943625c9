/** Data so light that no message and no file of a gather or a scatter of it can be too large. */
module LightLoads {
  import opened Text
  import opened Trees
  import opened Routes
  import opened Exchange
  import opened Sizes
  import opened FileTree
  import opened Loads

  /** The room the items of the first r ranks take, with so many bytes more for each. */
  ghost function Room(items: seq<Tree>, each: nat, r: nat): nat
    requires r <= |items|
  {
    if r == 0 then 4 else Room(items, each, r - 1) + TreeSize(items[r - 1]) + each
  }

  lemma {:induction false} RoomGrows(a: seq<Tree>, x: nat, b: seq<Tree>, y: nat, r: nat)
    requires |a| == |b| >= r && forall q :: 0 <= q < r ==> TreeSize(a[q]) + x <= TreeSize(b[q]) + y
    ensures Room(a, x, r) <= Room(b, y, r)
  {
    if r > 0 {
      RoomGrows(a, x, b, y, r - 1);
    }
  }

  /** Each rank's parcel has its item and two ranks as keys. */
  ghost predicate OneEach(items: seq<Tree>, ps: seq<Parcel>) {
    && |items| == |ps|
    && forall q :: 0 <= q < |ps| ==> ps[q].item == items[q] && |ps[q].dest| <= 10 && |ps[q].source| <= 10
  }

  lemma {:induction false} OneEachCosts(items: seq<Tree>, ps: seq<Parcel>, r: nat)
    requires OneEach(items, ps) && r <= |ps|
    ensures Costs(ps, r) <= Room(items, 42, r)
  {
    if r > 0 {
      OneEachCosts(items, ps, r - 1);
    }
  }

  /** All trees together, with about a hundred bytes for each, fit in a message. */
  ghost predicate Light(items: seq<Tree>) {
    Room(items, 95, |items|) <= INT_MAX
  }

  lemma LightFits(items: seq<Tree>, ps: seq<Parcel>, sent: seq<Tree>, dir: Direction, rounds: nat)
    requires Room(items, 42, |items|) <= INT_MAX && OneEach(items, ps) && Listed(sent, ps)
    ensures !Oversize(sent, dir, rounds)
  {
    OneEachCosts(items, ps, |ps|);
    LightLoadFits(sent, ps, dir, rounds);
  }

  lemma EntrySize(name: string)
    ensures TreeSize(Entry(name)) == |name| + 35
  {
    var e := Entry(name);
    assert e.kids.Keys == {"FILE", "OFFSET"};
    AnyKidFirst(e, {"FILE", "OFFSET"}, "FILE");
    assert {"FILE", "OFFSET"} - {"FILE"} == {"OFFSET"} && {"OFFSET"} - {"OFFSET"} == {};
    AnyKidFirst(e, {"OFFSET"}, "OFFSET");
    SingleSize(name, EMPTY);
    SingleSize("0", EMPTY);
  }

  /** Data that is light leaves room for the names of files as well. */
  lemma LightNames(data: seq<Tree>, level: nat)
    requires Light(data) && level <= INT_MAX && |data| <= INT_MAX
    ensures Room(Entries(level, |data|), 42, |data|) <= INT_MAX
  {
    forall q | 0 <= q < |data|
      ensures TreeSize(Entries(level, |data|)[q]) + 42 <= TreeSize(data[q]) + 95
    {
      EntrySize(Name(level, q));
      DecIsShort(level);
      DecIsShort(q);
    }
    RoomGrows(Entries(level, |data|), 42, data, 95, |data|);
  }

  lemma LightData(data: seq<Tree>)
    requires Light(data)
    ensures Room(data, 42, |data|) <= INT_MAX
  {
    RoomGrows(data, 42, data, 95, |data|);
  }

  lemma {:induction false} GatheredRoom(items: seq<Tree>, valid: seq<bool>, table: seq<nat>, w: nat, r: nat, g: Tree)
    requires |items| == |valid| == |table| <= INT_MAX && r <= |items| && g == Gathered(items, valid, table, w)
    ensures 4 + KidsSize(g, RankKeySet(r) * g.kids.Keys) <= Room(items, 42, r)
  {
    if r == 0 {
      assert RankKeySet(0) == {};
    } else {
      GatheredRoom(items, valid, table, w, r - 1, g);
      OneMoreRank(r - 1);
      OneKidLess(g, RankKeySet(r), Dec(r - 1));
      assert RankKeySet(r) - {Dec(r - 1)} == RankKeySet(r - 1);
      DecIsShort(r - 1);
    }
  }

  /** A file of a light set is far from too large. */
  lemma LightFileFits(items: seq<Tree>, valid: seq<bool>, table: seq<nat>, w: nat, level: nat)
    requires |items| == |valid| == |table| <= INT_MAX && level <= INT_MAX
    requires Room(items, 42, |items|) <= INT_MAX
    ensures !TooBigToPersist(FileOf(Gathered(items, valid, table, w), level, |items|))
  {
    var g := Gathered(items, valid, table, w);
    GatheredRoom(items, valid, table, w, |items|, g);
    assert RankKeySet(|items|) * g.kids.Keys == g.kids.Keys;
    FileSize(g, level, |items|);
  }

  lemma FileSize(ranks: Tree, level: nat, n: nat)
    requires level <= INT_MAX && n <= INT_MAX
    ensures TreeSize(FileOf(ranks, level, n)) <= TreeSize(ranks) + 59
  {
    var f := FileOf(ranks, level, n);
    assert f.kids.Keys == {"RANK", "LEVEL", "RANKS"};
    AnyKidFirst(f, {"RANK", "LEVEL", "RANKS"}, "RANK");
    assert {"RANK", "LEVEL", "RANKS"} - {"RANK"} == {"LEVEL", "RANKS"};
    AnyKidFirst(f, {"LEVEL", "RANKS"}, "LEVEL");
    assert {"LEVEL", "RANKS"} - {"LEVEL"} == {"RANKS"} && {"RANKS"} - {"RANKS"} == {};
    AnyKidFirst(f, {"RANKS"}, "RANKS");
    SingleSize(Dec(level), EMPTY);
    SingleSize(Dec(n), EMPTY);
    DecIsShort(level);
    DecIsShort(n);
  }
}
