/** kvtree_write_gather, run in lockstep over all ranks: data to writers, files of file names to fewer
    writers, level by level, until rank 0 writes alone. None stands for an abort: a message above INT_MAX
    bytes, or a buffer larger than memory can be. */
module Gather {
  import opened Text
  import opened Trees
  import opened Hashes
  import opened Packing
  import opened Files
  import opened Values
  import opened Routes
  import opened Exchange
  import opened FileTree
  import opened Writers
  import opened Sizes
  import opened Loads
  import opened LightLoads
  import Bits

  /** kvtree_exchange_sendq: merge into what is queued for the rank, or queue a copy. */
  method SendQ(send: Hash, rank: nat, msg: Hash) returns (r: Hash)
    requires send.Hash? && WF(send) && WF(msg)
    ensures r.Hash? && WF(r) && Abs(r) == Join(Abs(send), Single(Dec(rank), Abs(msg)))
  {
    var queued := Get(send, Dec(rank));
    GetIsKid(send, Dec(rank));
    JoinSingle(Abs(send), Dec(rank), Abs(msg));
    var _, merged := Merge(OrNew(queued), msg);
    if queued.Null? {
      SetUpdates(send, Dec(rank), merged);
      r := Set(send, Dec(rank), merged);
    } else {
      PutUpdates(send, Dec(rank), merged);
      r := Put(send, Dec(rank), merged);
    }
  }

  /** What every rank sends: its item, if it has one, to its writer. */
  function SendTrees(items: seq<Tree>, valid: seq<bool>, table: seq<nat>): (ts: seq<Tree>)
    requires |items| == |valid| == |table|
    ensures |ts| == |items|
  {
    seq(|items|, q requires 0 <= q < |items| => if valid[q] then Single(Dec(table[q]), items[q]) else EMPTY)
  }

  /** Delivering those messages to empty outputs gives every rank exactly what it collects. */
  lemma DeliveredIsGathered(items: seq<Tree>, valid: seq<bool>, table: seq<nat>, out: seq<Tree>, out0: seq<Tree>,
                            w: nat)
    requires |items| == |valid| == |table| == |out| == |out0| && w < |items|
    requires Exchange.Delivered(out, out0, SendTrees(items, valid, table)) && out0[w] == EMPTY
    ensures out[w] == Gathered(items, valid, table, w)
  {
    var g := Gathered(items, valid, table, w);
    forall k
      ensures Child(out[w], k) == Child(g, k)
    {
      assert Child(out[w], k) == Due(SendTrees(items, valid, table), w, k);
      if IsRank(k, |items|) {
        assert Dec(table[Atoi(k)]) == Dec(w) <==> table[Atoi(k)] == w;
      }
    }
    ChildrenDetermineTree(out[w], g);
  }

  method Empties(n: nat) returns (es: seq<Hash>)
    ensures |es| == n && AllTrees(es) && forall i :: 0 <= i < n ==> Abs(es[i]) == EMPTY
  {
    es := seq(n, _ => Hash([]));
    assert Abs(Hash([])) == EMPTY;
  }

  /** Queue every rank's item for its writer. */
  method QueueAll(items: seq<Hash>, valid: seq<bool>, table: seq<nat>) returns (send: seq<Hash>)
    requires |items| == |valid| == |table| && AllWF(items)
    requires forall q :: 0 <= q < |table| ==> table[q] < |table|
    ensures Addressed(send, |items|) && AbsAll(send) == SendTrees(AbsAll(items), valid, table)
  {
    send := [];
    for q := 0 to |items|
      invariant |send| == q && AllWF(send)
      invariant forall i :: 0 <= i < q ==> Abs(send[i]) == SendTrees(AbsAll(items), valid, table)[i]
    {
      var s := Hash([]);
      if valid[q] {
        JoinEmpty(Single(Dec(table[q]), Abs(items[q])));
        assert Abs(s) == EMPTY;
        s := SendQ(s, table[q], items[q]);
      }
      send := send + [s];
    }
  }

  /** Gather the items of the valid ranks to their writers. */
  method GatherTo(items: seq<Hash>, valid: seq<bool>, table: seq<nat>) returns (recv: Option<seq<Hash>>)
    requires |items| == |valid| == |table| > 0 && AllWF(items)
    requires forall q :: 0 <= q < |table| ==> table[q] < |table|
    ensures recv.None? <==> Oversize(SendTrees(AbsAll(items), valid, table), Left, Bits.Rounds(|items|))
    ensures recv.Some? ==> |recv.value| == |items| && AllTrees(recv.value)
    ensures recv.Some? ==> forall w :: 0 <= w < |items| ==>
              Abs(recv.value[w]) == Gathered(AbsAll(items), valid, table, w)
  {
    var send := QueueAll(items, valid, table);
    var empties := Empties(|items|);
    recv := ExchangeDirection(send, empties, |items|, Left);
    if recv.Some? {
      forall w | 0 <= w < |items|
        ensures Abs(recv.value[w]) == Gathered(AbsAll(items), valid, table, w)
      {
        DeliveredIsGathered(AbsAll(items), valid, table, AbsAll(recv.value), AbsAll(empties), w);
      }
    }
  }

  // ---------- files ----------

  /** No node has more children than the `int` counter of kvtree_unpack can count. */
  ghost predicate FewChildren(t: Tree) {
    |t.kids| <= INT_MAX && forall k :: k in t.kids ==> FewChildren(t.kids[k])
  }

  lemma {:induction false} CountsFromTree(h: Hash)
    requires WF(h)
    ensures CountsOk(h) <==> FewChildren(Abs(h))
    decreases h
  {
    if h.Hash? {
      KidsCount(h.elems);
      var kids := Abs(h).kids;
      forall i | 0 <= i < |h.elems|
        ensures h.elems[i].key in kids
        ensures CountsOk(h.elems[i].hash) <==> FewChildren(kids[h.elems[i].key])
      {
        AbsAt(h.elems, i);
        CountsFromTree(h.elems[i].hash);
      }
      forall k | k in kids
        ensures exists i :: 0 <= i < |h.elems| && h.elems[i].key == k
      {
        AbsLookup(h.elems, k);
        assert h.elems[IndexOf(h.elems, k)].key == k;
      }
    }
  }

  /** The tree that goes into a file. */
  method BuildFile(recv: Hash, level: nat, n: nat) returns (save: Hash)
    requires WF(recv)
    ensures save.Hash? && WF(save) && Abs(save) == FileOf(Abs(recv), level, n)
  {
    save := Hash([]);
    SetUpdates(save, "RANK", recv);
    save := Set(save, "RANK", recv);
    AtoiPrintInt(level);
    AtoiPrintInt(n);
    SetStrHolds(save, "LEVEL", PrintInt(level));
    save := SetInt(save, "LEVEL", level);
    SetStrHolds(save, "RANKS", PrintInt(n));
    save := SetInt(save, "RANKS", n);
    assert Abs(save).kids == FileOf(Abs(recv), level, n).kids;
  }

  /** kvtree_write_file: persist a tree into a file, truncating what was there. */
  method SaveTree(crc: Checksum, fs: FS, path: string, save: Hash) returns (fs': Option<FS>)
    requires save.Hash? && WF(save) && FewChildren(Abs(save))
    ensures fs'.None? <==> TooBigToPersist(Abs(save))
    ensures fs'.Some? ==> Opens(crc, fs'.value, path, Abs(save)) && OnlyChanged(fs, fs'.value, path)
  {
    PackSizeOfMap(save);
    if PersistSize(save) > ULONG_MAX {
      return None;
    }
    var buf := WritePersist(crc, save);
    CountsFromTree(save);
    PersistRoundTrip(crc, save, "");
    assert buf.value + "" == buf.value;
    return Some(fs[path := buf.value]);
  }

  method SaveFile(crc: Checksum, fs: FS, path: string, recv: Hash, level: nat, n: nat) returns (fs': Option<FS>)
    requires WF(recv) && FewChildren(Abs(recv))
    ensures fs'.None? <==> TooBigToPersist(FileOf(Abs(recv), level, n))
    ensures fs'.Some? ==> Opens(crc, fs'.value, path, FileOf(Abs(recv), level, n)) && OnlyChanged(fs, fs'.value, path)
  {
    var save := BuildFile(recv, level, n);
    FileHasFewChildren(Abs(recv), level, n);
    fs' := SaveTree(crc, fs, path, save);
  }

  lemma FileHasFewChildren(t: Tree, level: nat, n: nat)
    requires FewChildren(t)
    ensures FewChildren(FileOf(t, level, n))
  {
    var f := FileOf(t, level, n);
    assert f.kids.Keys == {"RANK", "LEVEL", "RANKS"};
    assert |{"RANK", "LEVEL", "RANKS"}| <= 3;
    assert |f.kids| == |f.kids.Keys|;
    SingleIsFew(Dec(level));
    SingleIsFew(Dec(n));
  }

  lemma SingleIsFew(k: string)
    ensures FewChildren(Single(k, EMPTY)) && FewChildren(EMPTY)
  {
    assert |EMPTY.kids| == 0;
    assert |Single(k, EMPTY).kids| == 1;
  }

  lemma GatheredIsFew(items: seq<Tree>, valid: seq<bool>, table: seq<nat>, w: nat)
    requires |items| == |valid| == |table| <= INT_MAX
    requires forall q :: 0 <= q < |items| ==> FewChildren(items[q])
    ensures FewChildren(Gathered(items, valid, table, w))
  {
    var g := Gathered(items, valid, table, w);
    assert g.kids.Keys <= RankKeySet(|items|);
    SubsetSize(g.kids.Keys, RankKeySet(|items|));
    RankKeysCounted(|items|);
    assert |g.kids| == |g.kids.Keys|;
  }

  lemma {:induction false} SubsetSize<T>(a: set<T>, b: set<T>)
    requires a <= b
    ensures |a| <= |b|
  {
    if a != {} {
      var x :| x in a;
      SubsetSize(a - {x}, b - {x});
    }
  }

  // ---------- the levels above the data ----------

  /** The record of a file name, as its writer builds it. */
  method MakeEntry(file: Key) returns (h: Hash)
    ensures h.Hash? && WF(h) && Abs(h) == Entry(file)
    ensures PackSize(h) == |file| + 35
  {
    h := Hash([]);
    SetStrHolds(h, "FILE", file);
    h := SetStr(h, "FILE", file);
    SetTextHolds(h, "OFFSET", PrintNat(0, 10));
    h := SetULong(h, "OFFSET", 0);
    assert Abs(h).kids == Entry(file).kids;
    PackSizeOfMap(h);
    EntrySize(file);
  }

  /** The names under which the valid ranks of a level have written (or will write) their files. */
  ghost predicate NamedFor(file: seq<Key>, valid: seq<bool>, level: nat) {
    |file| == |valid| && forall q :: 0 <= q < |valid| && valid[q] ==> file[q] == Name(level, q)
  }

  /** The bytes each rank adds to the next level: the record of its file, if it has written one. */
  ghost function NameCounts(prev: seq<nat>, level: nat): (counts: seq<nat>)
    ensures |counts| == |prev|
  {
    seq(|prev|, q requires 0 <= q < |prev| => NameCount(prev, level, q))
  }

  ghost function NameCount(prev: seq<nat>, level: nat, q: nat): nat
    requires q < |prev|
  {
    if prev[q] == q then |Name(level, q)| + 35 else 0
  }

  ghost predicate IsRecord(h: Hash, level: nat, q: nat) {
    WF(h) && Abs(h) == Entry(Name(level, q))
  }

  /** A valid rank builds the record of its file and counts its bytes. */
  method OneEntry(file: Key, valid: bool, ghost prev: seq<nat>, ghost level: nat, ghost q: nat)
    returns (h: Hash, packSize: nat)
    requires q < |prev| && valid == (prev[q] == q) && (valid ==> file == Name(level, q))
    ensures WF(h) && packSize == NameCount(prev, level, q)
    ensures valid ==> IsRecord(h, level, q)
  {
    h, packSize := Hash([]), 0;
    if valid {
      h := MakeEntry(file);
      packSize := PackSize(h);
    }
  }

  /** Every valid rank builds the record of its file and counts its bytes. */
  method MakeEntries(file: seq<Key>, valid: seq<bool>, ghost prev: seq<nat>, ghost level: nat)
    returns (items: seq<Hash>, counts: seq<nat>)
    requires valid == Selfs(prev) && NamedFor(file, valid, level)
    ensures counts == NameCounts(prev, level)
    ensures |items| == |valid| && AllWF(items)
    ensures forall q :: 0 <= q < |valid| && valid[q] ==> IsRecord(items[q], level, q)
  {
    items, counts := [], [];
    for q := 0 to |valid|
      invariant |items| == |counts| == q && AllWF(items)
      invariant forall i :: 0 <= i < q && valid[i] ==> IsRecord(items[i], level, i)
      invariant forall i :: 0 <= i < q ==> counts[i] == NameCount(prev, level, i)
    {
      var h, packSize := OneEntry(file[q], valid[q], prev, level, q);
      items, counts := items + [h], counts + [packSize];
    }
  }

  /** The writers among the valid ranks of one level make a proper next table. */
  lemma PickedIsNext(lower: seq<nat>, upper: seq<nat>, level: nat, n: nat)
    requires Table(lower, n) && level <= INT_MAX && n <= INT_MAX && AllWriters(NameCounts(lower, level), upper)
    ensures NextTable(lower, upper, n)
  {
    var counts := NameCounts(lower, level);
    PickedIsTable(counts, upper);
    forall q | 0 <= q < n
      ensures counts[q] <= SEGSIZE / 2
    {
      DecIsShort(level);
      DecIsShort(q);
    }
    forall q | 0 <= q < n && upper[q] == q
      ensures lower[q] == q
    {
      WriterWritesForItself(counts, upper, q);
    }
    WritersHalve(counts);
    SameCounts(counts, lower, upper, n);
  }

  lemma PickedIsTable(counts: seq<nat>, upper: seq<nat>)
    requires |counts| > 0 && AllWriters(counts, upper)
    ensures Table(upper, |counts|)
  {
    forall q | 0 <= q < |upper|
      ensures upper[q] < |counts| && upper[upper[q]] == upper[q]
    {
      WriterWritesForItself(counts, upper, q);
    }
    WriterWritesForItself(counts, upper, 0);
  }

  lemma {:induction false} SameCounts(counts: seq<nat>, lower: seq<nat>, upper: seq<nat>, r: nat)
    requires |counts| == |lower| == |upper| && r <= |counts| && AllWriters(counts, upper)
    requires forall q :: 0 <= q < |counts| ==> (counts[q] > 0 <==> lower[q] == q)
    ensures NumStarts(counts, r) == NumSelf(upper, r)
    ensures NumNonEmpty(counts, r) == NumSelf(lower, r)
  {
    if r > 0 {
      SameCounts(counts, lower, upper, r - 1);
      WriterWritesForItself(counts, upper, r - 1);
    }
  }

  lemma OneMoreLevel(prev: seq<nat>, tables: seq<seq<nat>>, n: nat, all: seq<seq<nat>>)
    requires Ladder(tables, n) && NextTable(prev, tables[0], n) && !OnlyRankZero(tables[0])
    requires all == [prev] + tables
    ensures Ladder(all, n) && forall l :: 0 <= l < |all| ==> |all[l]| == n
  {
    forall l | 0 <= l < |all|
      ensures Table(all[l], n)
    {
      assert l > 0 ==> all[l] == tables[l - 1];
    }
    forall l | 1 <= l < |all|
      ensures Rung(all, l, n)
    {
      assert l > 1 ==> Rung(tables, l - 1, n);
      assert all[l] == tables[l - 1];
      assert l > 1 ==> all[l - 1] == tables[l - 2];
    }
  }

  lemma TopLevel(prev: seq<nat>, table: seq<nat>, n: nat)
    requires NextTable(prev, table, n) && OnlyRankZero(table)
    ensures Ladder([prev, table], n)
  {
    var all := [prev, table];
    assert Rung(all, 1, n);
  }

  function LevelPath(prefix: string, level: nat, top: bool, w: nat): string {
    prefix + (if top then "" else Name(level, w))
  }

  lemma LevelPathIsPathOf(prefix: string, level: nat, top: bool, w: nat)
    ensures IsPathOf(LevelPath(prefix, level, top, w), prefix, level, top, w)
  {
    NameIsFileName(level, w);
    assert prefix + "" == prefix;
  }

  /** The files of the first r writers of a level are in place. */
  ghost predicate LevelStored(crc: Checksum, fs: FS, prefix: string, table: seq<nat>, ranks: seq<Tree>,
                              level: nat, top: bool, r: nat)
    requires |table| == |ranks| >= r
  {
    forall w :: 0 <= w < r && table[w] == w ==>
      Opens(crc, fs, LevelPath(prefix, level, top, w), FileOf(ranks[w], level, |table|))
  }

  ghost predicate LevelWrites(prefix: string, table: seq<nat>, level: nat, top: bool, p: string) {
    exists w: nat :: w < |table| && table[w] == w && p == LevelPath(prefix, level, top, w)
  }

  /** Nothing but the files of this level's writers has appeared, gone or changed. */
  ghost predicate LevelFrame(fs: FS, fs': FS, prefix: string, table: seq<nat>, level: nat, top: bool) {
    forall p :: !LevelWrites(prefix, table, level, top, p) ==> SameAt(fs, fs', p)
  }

  ghost predicate FitUpTo(table: seq<nat>, ranks: seq<Tree>, level: nat, r: nat)
    requires |table| == |ranks| >= r
  {
    forall w :: 0 <= w < r && table[w] == w ==> !TooBigToPersist(FileOf(ranks[w], level, |table|))
  }

  /** Some writer's file is larger than memory can be. */
  ghost predicate TooBigToStore(table: seq<nat>, ranks: seq<Tree>, level: nat)
    requires |table| == |ranks|
  {
    !FitUpTo(table, ranks, level, |table|)
  }

  lemma NextFile(crc: Checksum, fs: FS, fs': FS, prefix: string, table: seq<nat>, ranks: seq<Tree>,
                 level: nat, top: bool, r: nat)
    requires |table| == |ranks| > r && table[r] == r && (top ==> OnlyRankZero(table))
    requires LevelStored(crc, fs, prefix, table, ranks, level, top, r)
    requires Opens(crc, fs', LevelPath(prefix, level, top, r), FileOf(ranks[r], level, |table|))
    requires OnlyChanged(fs, fs', LevelPath(prefix, level, top, r))
    ensures LevelStored(crc, fs', prefix, table, ranks, level, top, r + 1)
  {
    forall w | 0 <= w < r && table[w] == w
      ensures Opens(crc, fs', LevelPath(prefix, level, top, w), FileOf(ranks[w], level, |table|))
    {
      PathsDiffer(prefix, level, w, level, r);
      assert SameAt(fs, fs', LevelPath(prefix, level, top, w));
    }
  }

  lemma FrameGrows(fs: FS, mid: FS, fs': FS, prefix: string, table: seq<nat>, level: nat, top: bool, r: nat)
    requires LevelFrame(fs, mid, prefix, table, level, top) && r < |table| && table[r] == r
    requires OnlyChanged(mid, fs', LevelPath(prefix, level, top, r))
    ensures LevelFrame(fs, fs', prefix, table, level, top)
  {
    forall p | !LevelWrites(prefix, table, level, top, p)
      ensures SameAt(fs, fs', p)
    {
      assert p != LevelPath(prefix, level, top, r);
      assert SameAt(fs, mid, p) && SameAt(mid, fs', p);
    }
  }

  /** The first r ranks have had their turn at writing a level. */
  ghost predicate LevelDone(crc: Checksum, fs: FS, fs': FS, prefix: string, table: seq<nat>, ranks: seq<Tree>,
                            level: nat, top: bool, r: nat)
    requires |table| == |ranks| >= r
  {
    && LevelStored(crc, fs', prefix, table, ranks, level, top, r)
    && LevelFrame(fs, fs', prefix, table, level, top)
    && FitUpTo(table, ranks, level, r)
  }

  /** One rank's turn: if it is a writer its file is put in place, unless it is too large. */
  method WriteOne(crc: Checksum, fs: FS, prefix: string, table: seq<nat>, recv: seq<Hash>, level: nat, top: bool,
                  rank: nat, ghost fs0: FS)
    returns (fs': Option<FS>)
    requires |recv| == |table| > rank && AllTrees(recv) && FewChildren(Abs(recv[rank]))
    requires top ==> OnlyRankZero(table)
    requires LevelDone(crc, fs0, fs, prefix, table, AbsAll(recv), level, top, rank)
    ensures fs'.None? ==> table[rank] == rank && TooBigToPersist(FileOf(AbsAll(recv)[rank], level, |table|))
    ensures fs'.Some? ==> LevelDone(crc, fs0, fs'.value, prefix, table, AbsAll(recv), level, top, rank + 1)
  {
    if table[rank] != rank {
      return Some(fs);
    }
    fs' := SaveFile(crc, fs, LevelPath(prefix, level, top, rank), recv[rank], level, |table|);
    if fs'.Some? {
      NextFile(crc, fs, fs'.value, prefix, table, AbsAll(recv), level, top, rank);
      FrameGrows(fs0, fs, fs'.value, prefix, table, level, top, rank);
    }
  }

  /** Writing one level of files. */
  method WriteLevel(crc: Checksum, fs: FS, prefix: string, table: seq<nat>, recv: seq<Hash>, level: nat, top: bool)
    returns (fs': Option<FS>)
    requires |recv| == |table| && AllTrees(recv)
    requires forall w :: 0 <= w < |recv| ==> FewChildren(Abs(recv[w]))
    requires top ==> OnlyRankZero(table)
    ensures fs'.None? <==> TooBigToStore(table, AbsAll(recv), level)
    ensures fs'.Some? ==> LevelStored(crc, fs'.value, prefix, table, AbsAll(recv), level, top, |table|)
    ensures fs'.Some? ==> LevelFrame(fs, fs'.value, prefix, table, level, top)
    ensures forall w :: 0 <= w < |table| ==> IsPathOf(LevelPath(prefix, level, top, w), prefix, level, top, w)
  {
    forall w: nat | w < |table|
      ensures IsPathOf(LevelPath(prefix, level, top, w), prefix, level, top, w)
    {
      LevelPathIsPathOf(prefix, level, top, w);
    }
    var out := fs;
    for rank := 0 to |table|
      invariant LevelDone(crc, fs, out, prefix, table, AbsAll(recv), level, top, rank)
    {
      var next := WriteOne(crc, out, prefix, table, recv, level, top, rank, fs);
      if next.None? {
        return None;
      }
      out := next.value;
    }
    return Some(out);
  }

  lemma PathsDiffer(prefix: string, l1: nat, w1: nat, l2: nat, w2: nat)
    ensures prefix + Name(l1, w1) == prefix + Name(l2, w2) <==> l1 == l2 && w1 == w2
    ensures prefix + Name(l1, w1) != prefix
  {
    NamesDiffer(l1, w1, l2, w2);
    assert (prefix + Name(l1, w1))[|prefix|..] == Name(l1, w1);
    assert (prefix + Name(l2, w2))[|prefix|..] == Name(l2, w2);
  }

  // ---------- the recursion over levels ----------

  /** Only the items of valid ranks matter. */
  lemma SameWhereValid(a: seq<Tree>, b: seq<Tree>, valid: seq<bool>, table: seq<nat>)
    requires |a| == |b| == |valid| == |table|
    requires forall q :: 0 <= q < |a| && valid[q] ==> a[q] == b[q]
    ensures SendTrees(a, valid, table) == SendTrees(b, valid, table)
    ensures forall w :: Gathered(a, valid, table, w) == Gathered(b, valid, table, w)
  {
    forall w
      ensures Gathered(a, valid, table, w) == Gathered(b, valid, table, w)
    {
      assert Gathered(a, valid, table, w).kids == Gathered(b, valid, table, w).kids;
    }
  }

  lemma EntriesAreFew(level: nat, n: nat)
    ensures forall q :: 0 <= q < n ==> FewChildren(Entries(level, n)[q])
  {
    forall q | 0 <= q < n
      ensures FewChildren(Entries(level, n)[q])
    {
      var e := Entry(Name(level, q));
      SingleIsFew(Name(level, q));
      SingleIsFew("0");
      assert e.kids.Keys == {"FILE", "OFFSET"};
      assert |{"FILE", "OFFSET"}| <= 2;
      assert |e.kids| == |e.kids.Keys|;
    }
  }

  function NameMessages(prev: seq<nat>, table: seq<nat>, level: nat): seq<Tree>
    requires |prev| == |table|
  {
    SendTrees(Entries(level, |prev|), Selfs(prev), table)
  }

  function NameRanks(prev: seq<nat>, table: seq<nat>, level: nat): (ts: seq<Tree>)
    requires |prev| == |table|
    ensures |ts| == |table|
  {
    seq(|table|, w requires 0 <= w < |table| => Gathered(Entries(level, |prev|), Selfs(prev), table, w))
  }

  /** A gather of the names has reached the writers of a level. */
  ghost predicate NamesHere(table: seq<nat>, recv: seq<Hash>, level: nat, n: nat, prev: seq<nat>)
    requires level > 0
  {
    && NextTable(prev, table, n) && AllWriters(NameCounts(prev, level - 1), table)
    && |recv| == n && AllTrees(recv) && AbsAll(recv) == NameRanks(prev, table, level - 1)
    && (forall w :: 0 <= w < n ==> FewChildren(Abs(recv[w])))
    && !Oversize(NameMessages(prev, table, level - 1), Left, Bits.Rounds(n))
  }

  /** Build the records of the files of a level and pick their writers. */
  method PickNext(file: seq<Key>, valid: seq<bool>, n: nat, ghost level: nat, ghost prev: seq<nat>)
    returns (items: seq<Hash>, table: seq<nat>, allRanks: bool)
    requires 0 < n <= INT_MAX && level <= INT_MAX && |valid| == n
    requires Table(prev, n) && valid == Selfs(prev) && NamedFor(file, valid, level)
    ensures AllWriters(NameCounts(prev, level), table)
    ensures NextTable(prev, table, n) && (allRanks <==> OnlyRankZero(table))
    ensures |items| == n && AllWF(items)
    ensures forall q :: 0 <= q < n && valid[q] ==> Abs(items[q]) == Entries(level, n)[q]
  {
    var counts;
    items, counts := MakeEntries(file, valid, prev, level);
    table, allRanks := PickWriter(counts);
    PickedIsNext(prev, table, level, n);
    forall q | 0 <= q < n && valid[q]
      ensures Abs(items[q]) == Entries(level, n)[q]
    {
      assert IsRecord(items[q], level, q);
    }
  }

  /** Pick the writers of a level and gather the names of the files below to them. */
  method GatherNames(file: seq<Key>, valid: seq<bool>, n: nat, level: nat, ghost prev: seq<nat>)
    returns (table: seq<nat>, allRanks: bool, recv: Option<seq<Hash>>)
    requires 0 < n <= INT_MAX && 0 < level <= INT_MAX && |valid| == n
    requires Table(prev, n) && valid == Selfs(prev) && NamedFor(file, valid, level - 1)
    ensures AllWriters(NameCounts(prev, level - 1), table)
    ensures NextTable(prev, table, n) && (allRanks <==> OnlyRankZero(table))
    ensures recv.None? <==> Oversize(NameMessages(prev, table, level - 1), Left, Bits.Rounds(n))
    ensures recv.Some? ==> NamesHere(table, recv.value, level, n, prev)
  {
    var items;
    items, table, allRanks := PickNext(file, valid, n, level - 1, prev);
    recv := GatherTo(items, valid, table);
    SameWhereValid(AbsAll(items), Entries(level - 1, n), valid, table);
    if recv.Some? {
      NamesArrive(table, recv.value, level, n, prev);
    }
  }

  lemma NamesArrive(table: seq<nat>, recv: seq<Hash>, level: nat, n: nat, prev: seq<nat>)
    requires 0 < level && n <= INT_MAX && NextTable(prev, table, n)
    requires AllWriters(NameCounts(prev, level - 1), table) && |recv| == n && AllTrees(recv)
    requires forall w :: 0 <= w < n ==> Abs(recv[w]) == Gathered(Entries(level - 1, n), Selfs(prev), table, w)
    requires !Oversize(NameMessages(prev, table, level - 1), Left, Bits.Rounds(n))
    ensures NamesHere(table, recv, level, n, prev)
  {
    NamesAreFew(level - 1, n, Selfs(prev), table);
    assert AbsAll(recv) == NameRanks(prev, table, level - 1);
  }

  lemma NamesAreFew(level: nat, n: nat, valid: seq<bool>, table: seq<nat>)
    requires |valid| == |table| == n <= INT_MAX
    ensures forall w :: FewChildren(Gathered(Entries(level, n), valid, table, w))
  {
    EntriesAreFew(level, n);
    forall w
      ensures FewChildren(Gathered(Entries(level, n), valid, table, w))
    {
      GatheredIsFew(Entries(level, n), valid, table, w);
    }
  }

  /** The map files of level base+i, for a stack of tables that begins at level base, are in place. */
  ghost predicate MapStored(crc: Checksum, fs: FS, prefix: string, tables: seq<seq<nat>>, n: nat, base: nat, i: nat)
    requires 1 <= i < |tables| && |tables[i - 1]| == |tables[i]| == n
  {
    LevelStored(crc, fs, prefix, tables[i], NameRanks(tables[i - 1], tables[i], base + i - 1),
                base + i, i + 1 == |tables|, n)
  }

  /** The map files of all levels above base are in place. */
  ghost predicate MapsStored(crc: Checksum, fs: FS, prefix: string, tables: seq<seq<nat>>, n: nat, base: nat) {
    && Ladder(tables, n)
    && forall i :: 1 <= i < |tables| ==> MapStored(crc, fs, prefix, tables, n, base, i)
  }

  /** A file of another level is none of this level's. */
  lemma LevelsApart(prefix: string, l1: nat, top: bool, w1: nat, l2: nat, table: seq<nat>)
    requires l1 != l2
    ensures !LevelWrites(prefix, table, l2, false, LevelPath(prefix, l1, top, w1))
  {
    forall w2: nat
      ensures LevelPath(prefix, l1, top, w1) != LevelPath(prefix, l2, false, w2)
    {
      PathsDiffer(prefix, l1, w1, l2, w2);
      PathsDiffer(prefix, l2, w2, l2, w2);
      assert prefix + "" == prefix;
    }
  }

  /** Files of higher levels survive the writing of this one. */
  lemma HigherSurvives(crc: Checksum, fs: FS, fs': FS, prefix: string, lower: seq<nat>, level: nat,
                       table: seq<nat>, ranks: seq<Tree>, higher: nat, top: bool)
    requires higher > level && |table| == |ranks|
    requires LevelFrame(fs, fs', prefix, lower, level, false)
    requires LevelStored(crc, fs, prefix, table, ranks, higher, top, |table|)
    ensures LevelStored(crc, fs', prefix, table, ranks, higher, top, |table|)
  {
    forall w: nat | 0 <= w < |table| && table[w] == w
      ensures Opens(crc, fs', LevelPath(prefix, higher, top, w), FileOf(ranks[w], higher, |table|))
    {
      var p := LevelPath(prefix, higher, top, w);
      assert Opens(crc, fs, p, FileOf(ranks[w], higher, |table|));
      LevelsApart(prefix, higher, top, w, level, lower);
      assert SameAt(fs, fs', p);
    }
  }

  lemma StackStored(crc: Checksum, fs: FS, fs': FS, prefix: string, prev: seq<nat>, tables: seq<seq<nat>>,
                    n: nat, level: nat, all: seq<seq<nat>>, ranks: seq<Tree>)
    requires level > 0 && MapsStored(crc, fs, prefix, tables, n, level) && all == [prev] + tables
    requires NextTable(prev, tables[0], n) && !OnlyRankZero(tables[0])
    requires LevelFrame(fs, fs', prefix, tables[0], level, false)
    requires ranks == NameRanks(prev, tables[0], level - 1)
    requires LevelStored(crc, fs', prefix, tables[0], ranks, level, false, n)
    ensures MapsStored(crc, fs', prefix, all, n, level - 1)
  {
    OneMoreLevel(prev, tables, n, all);
    var base := level - 1;
    forall i: nat | 1 <= i < |all|
      ensures MapStored(crc, fs', prefix, all, n, base, i)
    {
      StackStoredEach(crc, fs, fs', prefix, prev, tables, n, level, all, ranks, i, base);
    }
  }

  lemma StackStoredEach(crc: Checksum, fs: FS, fs': FS, prefix: string, prev: seq<nat>, tables: seq<seq<nat>>,
                        n: nat, level: nat, all: seq<seq<nat>>, ranks: seq<Tree>, i: nat, base: nat)
    requires level == base + 1 && MapsStored(crc, fs, prefix, tables, n, level) && all == [prev] + tables
    requires |prev| == n && 1 <= i < |all| && |tables| > 1 && forall l :: 0 <= l < |all| ==> |all[l]| == n
    requires LevelFrame(fs, fs', prefix, tables[0], level, false)
    requires |tables[0]| == n && ranks == NameRanks(prev, tables[0], base)
    requires LevelStored(crc, fs', prefix, tables[0], ranks, level, false, n)
    ensures MapStored(crc, fs', prefix, all, n, base, i)
  {
    if i > 1 {
      var j := i - 1;
      assert all[j] == tables[j - 1] && all[i] == tables[j];
      assert MapStored(crc, fs, prefix, tables, n, level, j);
      StackStoredAt(crc, fs, fs', prefix, prev, tables, n, level, j, all, i, base);
    } else {
      StackStoredFirst(crc, fs', prefix, prev, tables, n, level, all, ranks);
    }
  }

  lemma StackStoredFirst(crc: Checksum, fs: FS, prefix: string, prev: seq<nat>, tables: seq<seq<nat>>, n: nat,
                         level: nat, all: seq<seq<nat>>, ranks: seq<Tree>)
    requires level > 0 && |tables| > 1 && |prev| == |tables[0]| == n && all == [prev] + tables
    requires ranks == NameRanks(prev, tables[0], level - 1)
    requires LevelStored(crc, fs, prefix, tables[0], ranks, level, false, n)
    ensures |all[0]| == |all[1]| == n && MapStored(crc, fs, prefix, all, n, level - 1, 1)
  {
    assert all[1] == tables[0] && all[0] == prev && level - 1 + 1 == level;
  }

  lemma StackStoredAt(crc: Checksum, fs: FS, fs': FS, prefix: string, prev: seq<nat>, tables: seq<seq<nat>>,
                      n: nat, level: nat, i: nat, all: seq<seq<nat>>, next: nat, base: nat)
    requires next == i + 1 && level == base + 1
    requires 1 <= i < |tables| && |tables[i - 1]| == |tables[i]| == n && all == [prev] + tables && level > 0
    requires MapStored(crc, fs, prefix, tables, n, level, i)
    requires LevelFrame(fs, fs', prefix, tables[0], level, false)
    ensures |all[next - 1]| == |all[next]| == n && MapStored(crc, fs', prefix, all, n, base, next)
  {
    var below, table := tables[i - 1], tables[i];
    assert all[next] == table && all[next - 1] == below;
    HigherSurvives(crc, fs, fs', prefix, tables[0], level, table, NameRanks(below, table, level + i - 1),
                   level + i, i + 1 == |tables|);
    assert next + 1 == |all| <==> i + 1 == |tables|;
    assert base + next == level + i;
  }

  lemma TopStored(crc: Checksum, fs: FS, prefix: string, prev: seq<nat>, table: seq<nat>, n: nat, level: nat,
                  tables: seq<seq<nat>>, ranks: seq<Tree>)
    requires level > 0 && NextTable(prev, table, n) && OnlyRankZero(table) && tables == [prev, table]
    requires ranks == NameRanks(prev, table, level - 1) && LevelStored(crc, fs, prefix, table, ranks, level, true, n)
    ensures MapsStored(crc, fs, prefix, tables, n, level - 1)
  {
    TopLevel(prev, table, n);
    assert tables[1 - 1] == prev && tables[1] == table && |tables| == 2;
    assert MapStored(crc, fs, prefix, tables, n, level - 1, 1);
  }

  // ---------- which files change ----------

  /** The paths written from the table at index `from` on, when the first table is that of level base. */
  ghost predicate Writes(prefix: string, tables: seq<seq<nat>>, base: nat, from: nat, p: string) {
    exists i: nat :: from <= i < |tables| && LevelWrites(prefix, tables[i], base + i, i + 1 == |tables|, p)
  }

  /** Exactly the files of these writers may have appeared, gone or changed. */
  ghost predicate Framed(fs: FS, fs': FS, prefix: string, tables: seq<seq<nat>>, base: nat, from: nat) {
    forall p :: !Writes(prefix, tables, base, from, p) ==> SameAt(fs, fs', p)
  }

  lemma TopFramed(fs: FS, fs': FS, prefix: string, tables: seq<seq<nat>>, base: nat)
    requires |tables| == 2 && LevelFrame(fs, fs', prefix, tables[1], base + 1, true)
    ensures Framed(fs, fs', prefix, tables, base, 1)
  {
    forall p | !Writes(prefix, tables, base, 1, p)
      ensures SameAt(fs, fs', p)
    {
      assert 1 + 1 == |tables|;
      assert !LevelWrites(prefix, tables[1], base + 1, true, p);
    }
  }

  lemma StackFramed(fs: FS, mid: FS, fs': FS, prefix: string, prev: seq<nat>, tables: seq<seq<nat>>, base: nat,
                    all: seq<seq<nat>>)
    requires |tables| > 1 && all == [prev] + tables && Framed(fs, mid, prefix, tables, base + 1, 1)
    requires LevelFrame(mid, fs', prefix, tables[0], base + 1, false)
    ensures Framed(fs, fs', prefix, all, base, 1)
  {
    forall p | !Writes(prefix, all, base, 1, p)
      ensures SameAt(fs, fs', p)
    {
      forall i: nat | i < |tables|
        ensures !LevelWrites(prefix, tables[i], base + 1 + i, i + 1 == |tables|, p)
      {
        assert all[i + 1] == tables[i] && base + (i + 1) == base + 1 + i;
        assert i + 1 + 1 == |all| <==> i + 1 == |tables|;
      }
      assert !LevelWrites(prefix, tables[0], base + 1 + 0, false, p);
      assert SameAt(fs, mid, p) && SameAt(mid, fs', p);
    }
  }

  lemma BottomFramed(fs: FS, mid: FS, fs': FS, prefix: string, tables: seq<seq<nat>>)
    requires |tables| > 1 && Framed(fs, mid, prefix, tables, 0, 1)
    requires LevelFrame(mid, fs', prefix, tables[0], 0, false)
    ensures Framed(fs, fs', prefix, tables, 0, 0)
  {
    forall p | !Writes(prefix, tables, 0, 0, p)
      ensures SameAt(fs, fs', p)
    {
      assert !LevelWrites(prefix, tables[0], 0 + 0, 0 + 1 == |tables|, p);
      assert SameAt(fs, mid, p) && SameAt(mid, fs', p);
    }
  }

  // ---------- when a gather of names gives up ----------

  /** Each table is the one pick_writer yields from the records of the level below, and there are few levels. */
  ghost predicate Climbed(tables: seq<seq<nat>>, n: nat, base: nat) {
    && 0 < |tables| && base + |tables| <= n + 1 && |tables[0]| == n
    && (|tables| > 1 ==> AllWriters(NameCounts(tables[0], base), tables[1]) && Climbed(tables[1..], n, base + 1))
  }

  lemma ClimbedOneMore(prev: seq<nat>, tables: seq<seq<nat>>, n: nat, base: nat, all: seq<seq<nat>>)
    requires |prev| == n && Climbed(tables, n, base + 1) && all == [prev] + tables
    requires AllWriters(NameCounts(prev, base), tables[0])
    ensures Climbed(all, n, base)
  {
    assert all[1..] == tables && all[1] == tables[0];
  }

  lemma ClimbedTwo(prev: seq<nat>, table: seq<nat>, n: nat, base: nat, all: seq<seq<nat>>)
    requires |prev| == |table| == n && base + 2 <= n + 1 && all == [prev, table]
    requires AllWriters(NameCounts(prev, base), table)
    ensures Climbed(all, n, base)
  {
    assert Climbed([table], n, base + 1);
    ClimbedOneMore(prev, [table], n, base, all);
  }

  /** A message or a file of the level above this one is too large. */
  ghost predicate NamesTooBig(prev: seq<nat>, table: seq<nat>, level: nat) {
    && |prev| == |table|
    && (|| Oversize(NameMessages(prev, table, level), Left, Bits.Rounds(|prev|))
        || TooBigToStore(table, NameRanks(prev, table, level), level + 1))
  }

  /** A message or a file of some level above base is too large. */
  ghost predicate SomeMapTooBig(tables: seq<seq<nat>>, base: nat) {
    |tables| > 1 && (NamesTooBig(tables[0], tables[1], base) || SomeMapTooBig(tables[1..], base + 1))
  }

  lemma StackTooBig(prev: seq<nat>, table: seq<nat>, upper: seq<seq<nat>>, level: nat, all: seq<seq<nat>>, big: bool)
    requires |upper| > 0 && table == upper[0] && all == [prev] + upper && level > 0
    requires big == NamesTooBig(prev, table, level - 1)
    ensures SomeMapTooBig(all, level - 1) == (big || SomeMapTooBig(upper, level))
  {
    assert all[1..] == upper && all[0] == prev && all[1] == table;
  }

  lemma NamesTooBigHere(prev: seq<nat>, table: seq<nat>, level: nat, ranks: seq<Tree>, long: bool, wide: bool)
    requires |prev| == |table| && level > 0 && ranks == NameRanks(prev, table, level - 1)
    requires long == Oversize(NameMessages(prev, table, level - 1), Left, Bits.Rounds(|prev|))
    requires wide == TooBigToStore(table, ranks, level)
    ensures NamesTooBig(prev, table, level - 1) == (long || wide)
  {
  }

  lemma TopTooBig(prev: seq<nat>, table: seq<nat>, level: nat, ranks: seq<Tree>, all: seq<seq<nat>>, long: bool,
                  wide: bool)
    requires all == [prev, table] && |prev| == |table| && level > 0 && ranks == NameRanks(prev, table, level - 1)
    requires long == Oversize(NameMessages(prev, table, level - 1), Left, Bits.Rounds(|prev|))
    requires wide == TooBigToStore(table, ranks, level)
    ensures SomeMapTooBig(all, level - 1) == (long || wide)
  {
    NamesTooBigHere(prev, table, level, ranks, long, wide);
    StackTooBig(prev, table, [table], level, all, long || wide);
  }

  /** The level above exists: fewer writers than valid ranks. */
  lemma FewerWriters(prev: seq<nat>, table: seq<nat>, n: nat)
    requires NextTable(prev, table, n) && !OnlyRankZero(table)
    ensures NumSelf(table, n) < NumSelf(prev, n)
  {
    if NumSelf(table, n) <= 1 {
      RankZeroAlone(table, n);
    }
  }

  /** The files of a level and those above it are in place, and no others have changed. */
  ghost predicate Written(crc: Checksum, prefix: string, fs: FS, fs': FS, level: nat, n: nat, tables: seq<seq<nat>>)
    requires level > 0
  {
    MapsStored(crc, fs', prefix, tables, n, level - 1) && Framed(fs, fs', prefix, tables, level - 1, 1)
  }

  /** What the recursion promises of the tables of a level and those above it. */
  ghost predicate Mapped(crc: Checksum, prefix: string, fs: FS, fs': Option<FS>, prev: seq<nat>, level: nat, n: nat,
                         tables: seq<seq<nat>>)
    requires level > 0
  {
    && Climbed(tables, n, level - 1) && tables[0] == prev
    && (fs'.Some? ==> Written(crc, prefix, fs, fs'.value, level, n, tables))
  }

  lemma WrittenTop(crc: Checksum, prefix: string, fs: FS, fs': FS, prev: seq<nat>, table: seq<nat>, level: nat, n: nat,
                   tables: seq<seq<nat>>, ranks: seq<Tree>)
    requires 0 < level && NextTable(prev, table, n) && OnlyRankZero(table) && tables == [prev, table]
    requires ranks == NameRanks(prev, table, level - 1)
    requires LevelStored(crc, fs', prefix, table, ranks, level, true, n)
    requires LevelFrame(fs, fs', prefix, table, level, true)
    ensures Written(crc, prefix, fs, fs', level, n, tables)
  {
    TopStored(crc, fs', prefix, prev, table, n, level, tables, ranks);
    TopFramed(fs, fs', prefix, tables, level - 1);
  }

  lemma WrittenBelow(crc: Checksum, prefix: string, fs: FS, mid: FS, fs': FS, prev: seq<nat>, table: seq<nat>,
                     upper: seq<seq<nat>>, level: nat, n: nat, tables: seq<seq<nat>>, ranks: seq<Tree>)
    requires level > 0 && NextTable(prev, table, n) && !OnlyRankZero(table)
    requires |upper| > 0 && upper[0] == table && tables == [prev] + upper
    requires ranks == NameRanks(prev, table, level - 1)
    requires Written(crc, prefix, fs, mid, level + 1, n, upper)
    requires LevelStored(crc, fs', prefix, table, ranks, level, false, n)
    requires LevelFrame(mid, fs', prefix, table, level, false)
    ensures Written(crc, prefix, fs, fs', level, n, tables)
  {
    StackStored(crc, mid, fs', prefix, prev, upper, n, level, tables, ranks);
    StackFramed(fs, mid, fs', prefix, prev, upper, level - 1, tables);
  }

  lemma NamesDoNotArrive(prev: seq<nat>, table: seq<nat>, level: nat, n: nat, tables: seq<seq<nat>>)
    requires 0 < level && |prev| == |table| == n && tables == [prev, table]
    requires Oversize(NameMessages(prev, table, level - 1), Left, Bits.Rounds(n))
    ensures SomeMapTooBig(tables, level - 1)
  {
    var ranks := NameRanks(prev, table, level - 1);
    NamesTooBigHere(prev, table, level, ranks, true, TooBigToStore(table, ranks, level));
    StackTooBig(prev, table, [table], level, tables, true);
  }

  lemma NothingMapped(crc: Checksum, prefix: string, fs: FS, prev: seq<nat>, table: seq<nat>, level: nat, n: nat,
                      tables: seq<seq<nat>>)
    requires 0 < level <= n && |prev| == |table| == n && tables == [prev, table]
    requires AllWriters(NameCounts(prev, level - 1), table)
    ensures Mapped(crc, prefix, fs, None, prev, level, n, tables)
  {
    ClimbedTwo(prev, table, n, level - 1, tables);
  }

  /** kvtree_write_gather_map: gather the names of the files of the valid ranks to writers; if rank 0 is not
      the only one, do the same for their files first, then write. */
  method WriteGatherMap(crc: Checksum, prefix: string, fs: FS, file: seq<Key>, offset: nat, level: nat,
                        valid: seq<bool>, n: nat, ghost prev: seq<nat>)
    returns (fs': Option<FS>, ghost tables: seq<seq<nat>>)
    requires 0 < n <= INT_MAX && |valid| == n
    requires Table(prev, n) && valid == Selfs(prev) && level > 0 && NamedFor(file, valid, level - 1)
    requires level + NumSelf(prev, n) <= n + 1
    ensures Mapped(crc, prefix, fs, fs', prev, level, n, tables)
    ensures fs'.None? <==> offset != 0 || SomeMapTooBig(tables, level - 1)
    decreases NumSelf(prev, n), 1
  {
    OneWriterLeft(prev, n, n);
    if offset != 0 {
      return None, [prev];
    }
    var table, allRanks, recv := GatherNames(file, valid, n, level, prev);
    if recv.None? {
      tables := [prev, table];
      NamesDoNotArrive(prev, table, level, n, tables);
      NothingMapped(crc, prefix, fs, prev, table, level, n, tables);
      return None, tables;
    }
    if allRanks {
      fs', tables := WriteTop(crc, prefix, fs, table, recv.value, level, n, prev);
    } else {
      fs', tables := WriteAbove(crc, prefix, fs, table, recv.value, level, n, prev);
    }
  }

  lemma TopClimbed(prev: seq<nat>, table: seq<nat>, level: nat, n: nat, tables: seq<seq<nat>>, recv: seq<Hash>)
    requires 0 < level <= n && NamesHere(table, recv, level, n, prev) && tables == [prev, table]
    ensures Climbed(tables, n, level - 1) && tables[0] == prev
  {
    ClimbedTwo(prev, table, n, level - 1, tables);
  }

  lemma TopMapped(crc: Checksum, prefix: string, fs: FS, fs': Option<FS>, prev: seq<nat>, table: seq<nat>, level: nat,
                  n: nat, tables: seq<seq<nat>>, recv: seq<Hash>, ranks: seq<Tree>)
    requires 0 < level <= n && NamesHere(table, recv, level, n, prev) && ranks == AbsAll(recv)
    requires OnlyRankZero(table) && tables == [prev, table]
    requires fs'.None? <==> TooBigToStore(table, ranks, level)
    requires fs'.Some? ==> LevelStored(crc, fs'.value, prefix, table, ranks, level, true, n)
    requires fs'.Some? ==> LevelFrame(fs, fs'.value, prefix, table, level, true)
    ensures Mapped(crc, prefix, fs, fs', prev, level, n, tables)
    ensures fs'.None? == SomeMapTooBig(tables, level - 1)
  {
    TopClimbed(prev, table, level, n, tables, recv);
    if fs'.Some? {
      WrittenTop(crc, prefix, fs, fs'.value, prev, table, level, n, tables, ranks);
    }
    assert Mapped(crc, prefix, fs, fs', prev, level, n, tables);
    TopTooBig(prev, table, level, ranks, tables, false, fs'.None?);
  }

  /** The branch without another level: rank 0 writes the root. */
  method WriteTop(crc: Checksum, prefix: string, fs: FS, table: seq<nat>, recv: seq<Hash>, level: nat, n: nat,
                  ghost prev: seq<nat>)
    returns (fs': Option<FS>, ghost tables: seq<seq<nat>>)
    requires 0 < level <= n && NamesHere(table, recv, level, n, prev) && OnlyRankZero(table)
    ensures Mapped(crc, prefix, fs, fs', prev, level, n, tables)
    ensures fs'.None? <==> SomeMapTooBig(tables, level - 1)
  {
    tables := [prev, table];
    fs' := WriteLevel(crc, fs, prefix, table, recv, level, true);
    TopMapped(crc, prefix, fs, fs', prev, table, level, n, tables, recv, AbsAll(recv));
  }

  /** Each rank names its writer's file; the writers go on to the next level. */
  method NameFiles(table: seq<nat>, level: nat) returns (file: seq<Key>, valid: seq<bool>)
    ensures valid == Selfs(table) && NamedFor(file, valid, level)
  {
    file := seq(|table|, q requires 0 <= q < |table| => Name(level, table[q]));
    valid := seq(|table|, q requires 0 <= q < |table| => table[q] == q);
  }

  lemma StackMapped(crc: Checksum, prefix: string, fs: FS, mid: Option<FS>, fs': Option<FS>, prev: seq<nat>,
                    table: seq<nat>, upper: seq<seq<nat>>, level: nat, n: nat, tables: seq<seq<nat>>,
                    recv: seq<Hash>, ranks: seq<Tree>)
    requires level > 0 && NamesHere(table, recv, level, n, prev)
    requires ranks == AbsAll(recv) && |ranks| == |table| == n
    requires !OnlyRankZero(table) && tables == [prev] + upper
    requires Mapped(crc, prefix, fs, mid, table, level + 1, n, upper)
    requires mid.None? <==> SomeMapTooBig(upper, level)
    requires if mid.None? then fs'.None? else fs'.None? <==> TooBigToStore(table, ranks, level)
    requires fs'.Some? ==> LevelStored(crc, fs'.value, prefix, table, ranks, level, false, n)
    requires fs'.Some? ==> LevelFrame(mid.value, fs'.value, prefix, table, level, false)
    ensures Mapped(crc, prefix, fs, fs', prev, level, n, tables)
    ensures fs'.None? == SomeMapTooBig(tables, level - 1)
  {
    ClimbedOneMore(prev, upper, n, level - 1, tables);
    ghost var big := TooBigToStore(table, ranks, level);
    NamesTooBigHere(prev, table, level, ranks, false, big);
    StackTooBig(prev, table, upper, level, tables, big);
    if fs'.Some? {
      WrittenBelow(crc, prefix, fs, mid.value, fs'.value, prev, table, upper, level, n, tables, ranks);
    }
  }

  /** The branch with another level: recurse, then write this level's files. */
  method WriteAbove(crc: Checksum, prefix: string, fs: FS, table: seq<nat>, recv: seq<Hash>, level: nat, n: nat,
                    ghost prev: seq<nat>)
    returns (fs': Option<FS>, ghost tables: seq<seq<nat>>)
    requires 0 < n <= INT_MAX && level > 0 && |prev| == n && level + NumSelf(prev, n) <= n + 1
    requires NamesHere(table, recv, level, n, prev) && !OnlyRankZero(table)
    ensures Mapped(crc, prefix, fs, fs', prev, level, n, tables)
    ensures fs'.None? <==> SomeMapTooBig(tables, level - 1)
    decreases NumSelf(prev, n), 0
  {
    FewerWriters(prev, table, n);
    var names, valid := NameFiles(table, level);
    var above, upper := WriteGatherMap(crc, prefix, fs, names, 0, level + 1, valid, n, table);
    tables := [prev] + upper;
    if above.None? {
      fs' := None;
    } else {
      fs' := WriteLevel(crc, above.value, prefix, table, recv, level, false);
    }
    StackMapped(crc, prefix, fs, above, fs', prev, table, upper, level, n, tables, recv, AbsAll(recv));
  }

  // ---------- the whole gather ----------

  /** A message or a file of level 0 is too large. */
  ghost predicate DataTooBig(data: seq<Tree>, table: seq<nat>) {
    && |data| == |table|
    && (|| Oversize(SendTrees(data, AllValid(|data|), table), Left, Bits.Rounds(|data|))
        || TooBigToStore(table, DataRanks(data, table), 0))
  }

  function DataRanks(data: seq<Tree>, table: seq<nat>): (ts: seq<Tree>)
    requires |data| == |table|
    ensures |ts| == |table|
  {
    seq(|table|, w requires 0 <= w < |table| => Gathered(data, AllValid(|data|), table, w))
  }

  ghost function DataCounts(data: seq<Tree>): (counts: seq<nat>)
    ensures |counts| == |data|
  {
    seq(|data|, r requires 0 <= r < |data| => TreeSize(data[r]))
  }

  /** The tables of writers a gather of these trees goes by. */
  ghost predicate TablesFor(data: seq<Tree>, tables: seq<seq<nat>>) {
    Climbed(tables, |data|, 0) && AllWriters(DataCounts(data), tables[0])
  }

  lemma AllStored(crc: Checksum, fs: FS, fs': FS, prefix: string, data: seq<Tree>, tables: seq<seq<nat>>)
    requires MapsStored(crc, fs, prefix, tables, |data|, 0)
    requires LevelFrame(fs, fs', prefix, tables[0], 0, false)
    requires LevelStored(crc, fs', prefix, tables[0], DataRanks(data, tables[0]), 0, false, |data|)
    ensures Stored(crc, fs', prefix, data, tables)
  {
    var n := |data|;
    forall l: nat, w: nat | 0 <= l < |tables| && 0 <= w < n && tables[l][w] == w
      ensures Opens(crc, fs', prefix + SuffixAt(tables, l, w), FileOf(CollectedAt(data, tables, l, w), l, n))
    {
      var top := l + 1 == |tables|;
      assert prefix + SuffixAt(tables, l, w) == LevelPath(prefix, l, top, w);
      if l > 0 {
        assert MapStored(crc, fs, prefix, tables, n, 0, l);
        HigherSurvives(crc, fs, fs', prefix, tables[0], 0, tables[l], NameRanks(tables[l - 1], tables[l], l - 1), l,
            top);
      }
    }
  }

  /** Every writer's file is in place, under a path told by level and writer. */
  ghost predicate StoredByName(crc: Checksum, fs: FS, prefix: string, data: seq<Tree>, tables: seq<seq<nat>>) {
    && Ladder(tables, |data|)
    && forall l: nat, w: nat :: l < |tables| && w < |data| && tables[l][w] == w ==>
         HasFileAt(crc, fs, prefix, l, l + 1 == |tables|, w, FileOf(CollectedAt(data, tables, l, w), l, |data|))
  }

  ghost predicate HasFileAt(crc: Checksum, fs: FS, prefix: string, level: nat, top: bool, w: nat, t: Tree) {
    exists p: string :: IsPathOf(p, prefix, level, top, w) && Opens(crc, fs, p, t)
  }

  lemma StoredHasNames(crc: Checksum, fs: FS, prefix: string, data: seq<Tree>, tables: seq<seq<nat>>)
    requires Stored(crc, fs, prefix, data, tables)
    ensures StoredByName(crc, fs, prefix, data, tables)
  {
    forall l: nat, w: nat | l < |tables| && w < |data| && tables[l][w] == w
      ensures HasFileAt(crc, fs, prefix, l, l + 1 == |tables|, w, FileOf(CollectedAt(data, tables, l, w), l, |data|))
    {
      LevelPathIsPathOf(prefix, l, l + 1 == |tables|, w);
      assert prefix + SuffixAt(tables, l, w) == LevelPath(prefix, l, l + 1 == |tables|, w);
    }
  }

  /** Picking the writers of level 0 and gathering the data to them. */
  method GatherData(data: seq<Hash>) returns (writer: seq<nat>, recv: Option<seq<Hash>>)
    requires 0 < |data| <= INT_MAX && AllWF(data)
    requires forall r :: 0 <= r < |data| ==> CountsOk(data[r])
    ensures AllWriters(DataCounts(AbsAll(data)), writer) && Table(writer, |data|)
    ensures recv.None? <==> Oversize(SendTrees(AbsAll(data), AllValid(|data|), writer), Left, Bits.Rounds(|data|))
    ensures recv.Some? ==> |recv.value| == |data| && AllTrees(recv.value)
    ensures recv.Some? ==> AbsAll(recv.value) == DataRanks(AbsAll(data), writer)
    ensures recv.Some? ==> forall w :: 0 <= w < |data| ==> FewChildren(Abs(recv.value[w]))
  {
    var n := |data|;
    var counts := seq(n, r requires 0 <= r < n => PackSize(data[r]));
    forall r | 0 <= r < n
      ensures counts[r] == DataCounts(AbsAll(data))[r]
    {
      PackSizeOfMap(data[r]);
    }
    assert counts == DataCounts(AbsAll(data));
    var allRanks;
    writer, allRanks := PickWriter(counts);
    PickedIsTable(counts, writer);
    recv := GatherTo(data, AllValid(n), writer);
    if recv.Some? {
      assert AbsAll(recv.value) == DataRanks(AbsAll(data), writer);
      GatheredDataIsFew(data, writer, recv.value);
    }
  }

  /** kvtree_write_gather on all ranks. It gives up exactly when a message or a file is too large. */
  method WriteGather(crc: Checksum, prefix: string, data: seq<Hash>, fs: FS)
    returns (fs': Option<FS>, ghost tables: seq<seq<nat>>)
    requires 0 < |data| <= INT_MAX && AllWF(data)
    requires forall r :: 0 <= r < |data| ==> CountsOk(data[r])
    ensures TablesFor(AbsAll(data), tables)
    ensures fs'.None? <==> DataTooBig(AbsAll(data), tables[0]) || SomeMapTooBig(tables, 0)
    ensures fs'.Some? ==> Stored(crc, fs'.value, prefix, AbsAll(data), tables)
    ensures fs'.Some? ==> StoredByName(crc, fs'.value, prefix, AbsAll(data), tables)
    ensures fs'.Some? ==> Framed(fs, fs'.value, prefix, tables, 0, 0)
  {
    var n := |data|;
    var writer, recv := GatherData(data);
    if recv.None? {
      return None, [writer];
    }
    var names, valid := NameFiles(writer, 0);
    NumSelfBound(writer, n);
    var above;
    above, tables := WriteGatherMap(crc, prefix, fs, names, 0, 1, valid, n, writer);
    if above.None? {
      return None, tables;
    }
    fs' := WriteLevel(crc, above.value, prefix, writer, recv.value, 0, false);
    if fs'.Some? {
      AllStored(crc, above.value, fs'.value, prefix, AbsAll(data), tables);
      BottomFramed(fs, above.value, fs'.value, prefix, tables);
      StoredHasNames(crc, fs'.value, prefix, AbsAll(data), tables);
    }
  }

  lemma GatheredDataIsFew(data: seq<Hash>, writer: seq<nat>, recv: seq<Hash>)
    requires |data| == |writer| == |recv| <= INT_MAX && AllWF(data)
    requires forall r :: 0 <= r < |data| ==> CountsOk(data[r])
    requires AbsAll(recv) == DataRanks(AbsAll(data), writer)
    ensures forall w :: 0 <= w < |recv| ==> FewChildren(Abs(recv[w]))
  {
    var ts := AbsAll(data);
    forall r | 0 <= r < |data|
      ensures FewChildren(ts[r])
    {
      CountsFromTree(data[r]);
    }
    forall w | 0 <= w < |recv|
      ensures FewChildren(Abs(recv[w]))
    {
      GatheredIsFew(ts, AllValid(|data|), writer, w);
      assert Abs(recv[w]) == AbsAll(recv)[w] == DataRanks(ts, writer)[w];
    }
  }

  // ---------- a light gather cannot give up ----------

  lemma {:induction false} LightGatherFits(items: seq<Tree>, valid: seq<bool>, table: seq<nat>, rounds: nat)
    requires |items| == |valid| == |table| <= INT_MAX && Room(items, 42, |items|) <= INT_MAX
    requires forall q :: 0 <= q < |table| ==> table[q] < |table|
    ensures !Oversize(SendTrees(items, valid, table), Left, rounds)
  {
    var ps := seq(|items|, q requires 0 <= q < |items| => Parcel(Dec(table[q]), Dec(q), items[q]));
    forall q | 0 <= q < |items|
      ensures |ps[q].dest| <= 10 && |ps[q].source| <= 10
    {
      DecIsShort(table[q]);
      DecIsShort(q);
    }
    var sent := SendTrees(items, valid, table);
    forall r, dk | 0 <= r < |sent| && dk in sent[r].kids
      ensures Parcel(dk, Dec(r), sent[r].kids[dk]) in ps
    {
      assert ps[r] == Parcel(dk, Dec(r), sent[r].kids[dk]);
    }
    LightFits(items, ps, sent, Left, rounds);
  }

  lemma LightLevelFits(items: seq<Tree>, valid: seq<bool>, table: seq<nat>, ranks: seq<Tree>, level: nat)
    requires |items| == |valid| == |table| == |ranks| <= INT_MAX && level <= INT_MAX
    requires Room(items, 42, |items|) <= INT_MAX
    requires forall w :: 0 <= w < |ranks| ==> ranks[w] == Gathered(items, valid, table, w)
    ensures !TooBigToStore(table, ranks, level)
  {
    forall w: nat | w < |table|
      ensures !TooBigToPersist(FileOf(ranks[w], level, |table|))
    {
      LightFileFits(items, valid, table, w, level);
    }
  }

  lemma LightNamesFit(data: seq<Tree>, prev: seq<nat>, table: seq<nat>, base: nat)
    requires Light(data) && base < |data| == |prev| == |table| <= INT_MAX
    requires AllWriters(NameCounts(prev, base), table)
    ensures !NamesTooBig(prev, table, base)
  {
    var n := |data|;
    forall q | 0 <= q < n
      ensures table[q] < n
    {
      assert WritesFor(NameCounts(prev, base), table[q], q);
    }
    LightNames(data, base);
    LightGatherFits(Entries(base, n), Selfs(prev), table, Bits.Rounds(n));
    LightLevelFits(Entries(base, n), Selfs(prev), table, NameRanks(prev, table, base), base + 1);
  }

  lemma {:induction false} LightMapsFit(data: seq<Tree>, tables: seq<seq<nat>>, base: nat)
    requires Light(data) && |data| <= INT_MAX && Climbed(tables, |data|, base)
    ensures !SomeMapTooBig(tables, base)
    decreases |tables|
  {
    if |tables| > 1 {
      LightMapsFit(data, tables[1..], base + 1);
      LightNamesFit(data, tables[0], tables[1], base);
    }
  }

  /** With all data together well below the largest message, a gather does not give up. */
  lemma LightGatherSucceeds(data: seq<Tree>, tables: seq<seq<nat>>)
    requires Light(data) && 0 < |data| <= INT_MAX && TablesFor(data, tables)
    ensures !DataTooBig(data, tables[0]) && !SomeMapTooBig(tables, 0)
  {
    var table := tables[0];
    forall q | 0 <= q < |data|
      ensures table[q] < |data|
    {
      assert WritesFor(DataCounts(data), table[q], q);
    }
    LightData(data);
    LightGatherFits(data, AllValid(|data|), table, Bits.Rounds(|data|));
    LightLevelFits(data, AllValid(|data|), table, DataRanks(data, table), 0);
    LightMapsFit(data, tables, 0);
  }
}
