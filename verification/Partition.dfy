/** kvtree_write_to_gather: one caller that has every rank's data writes the two levels of files a gather would
    have left, with at most a given number of ranks in each part. */
module Partition {
  import opened Text
  import opened Trees
  import opened Hashes
  import opened Packing
  import opened Files
  import opened Values
  import opened FileTree
  import opened Gather
  import opened Sorting
  import opened Lists

  // ---------- which rank is in which part ----------

  /** The first rank of the part that rank q is in. */
  function PartOf(e: nat, q: nat): (w: nat)
    requires e > 0
    ensures w <= q < w + e
  {
    if q < e then 0 else e + PartOf(e, q - e)
  }

  predicate IsFirst(e: nat, w: nat)
    requires e > 0
  {
    PartOf(e, w) == w
  }

  /** A part is the e ranks from its first; the next part follows. */
  lemma {:induction false} PartIsRun(e: nat, w: nat, q: nat)
    requires e > 0 && IsFirst(e, w)
    ensures PartOf(e, q) == w <==> w <= q < w + e
    ensures IsFirst(e, w + e)
  {
    if w >= e {
      if q >= e {
        PartIsRun(e, w - e, q - e);
      } else {
        PartIsRun(e, w - e, 0);
      }
    } else {
      assert PartOf(e, w + e) == e + PartOf(e, w);
    }
  }

  lemma {:induction false} PartsHaveFirsts(e: nat, q: nat)
    requires e > 0
    ensures IsFirst(e, PartOf(e, q))
  {
    if q >= e {
      PartsHaveFirsts(e, q - e);
    }
  }

  function Parts(e: nat, n: nat): (t: seq<nat>)
    requires e > 0
    ensures |t| == n && forall q :: 0 <= q < n ==> t[q] == PartOf(e, q)
  {
    seq(n, q requires 0 <= q < n => PartOf(e, q))
  }

  function Zeros(n: nat): (t: seq<nat>)
    ensures |t| == n && forall q :: 0 <= q < n ==> t[q] == 0
  {
    seq(n, q => 0)
  }

  function PartTables(e: nat, n: nat): (t: seq<seq<nat>>)
    requires e > 0
    ensures |t| == 2
  {
    [Parts(e, n), Zeros(n)]
  }

  lemma {:induction false} ZerosCountOne(n: nat, r: nat)
    requires r <= n
    ensures NumSelf(Zeros(n), r) <= 1
    ensures r > 0 ==> NumSelf(Zeros(n), r) == 1
  {
    if r > 0 {
      ZerosCountOne(n, r - 1);
    }
  }

  /** The parts and the root file are a two-level tree of writers. */
  lemma PartsAreLadder(e: nat, n: nat)
    requires e > 0 && n > 0
    ensures Ladder(PartTables(e, n), n)
  {
    var lower, upper := Parts(e, n), Zeros(n);
    forall q | 0 <= q < n
      ensures lower[q] < n && lower[lower[q]] == lower[q]
    {
      PartsHaveFirsts(e, q);
    }
    assert Table(lower, n);
    assert Table(upper, n);
    ZerosCountOne(n, n);
    OneWriterLeft(lower, n, n);
    assert NextTable(lower, upper, n);
    assert Rung(PartTables(e, n), 1, n);
    assert OnlyRankZero(upper);
  }

  // ---------- the trees in the files ----------

  /** What rank q's data is. */
  ghost function ItemsOf(data: Tree, n: nat): (items: seq<Tree>)
    ensures |items| == n
  {
    seq(n, q requires 0 <= q < n => Kid(data, Dec(q)))
  }

  /** The items of ranks lo to hi, by rank. */
  function Slice(items: seq<Tree>, lo: nat, hi: nat): Tree {
    Tree(map k | k in RankKeySet(|items|) && lo <= Atoi(k) < hi :: items[Atoi(k)])
  }

  lemma SliceAt(items: seq<Tree>, lo: nat, hi: nat, k: string)
    requires hi <= |items|
    ensures Child(Slice(items, lo, hi), k) == if IsRank(k, |items|)
              && lo <= Atoi(k) < hi then Some(items[Atoi(k)]) else None
    ensures IsRank(k, |items|) ==> k == Dec(Atoi(k))
  {
  }

  lemma SliceGrows(items: seq<Tree>, lo: nat, j: nat)
    requires lo <= j < |items|
    ensures Join(Slice(items, lo, j), Single(Dec(j), items[j])) == Slice(items, lo, j + 1)
  {
    var s := Slice(items, lo, j);
    forall k
      ensures Child(Join(s, Single(Dec(j), items[j])), k) == Child(Slice(items, lo, j + 1), k)
    {
      ChildJoin(s, Single(Dec(j), items[j]), k);
      SliceAt(items, lo, j, k);
      SliceAt(items, lo, j + 1, k);
    }
    ChildrenDetermineTree(Join(s, Single(Dec(j), items[j])), Slice(items, lo, j + 1));
  }

  /** A file under construction: other keys, and RANK once it has an entry. */
  ghost predicate Holding(t: Tree, rest: map<string, Tree>, ranks: Tree, any: bool) {
    && "RANK" !in rest && (!any ==> ranks == EMPTY)
    && t.kids == if any then rest["RANK" := ranks] else rest
  }

  lemma HoldsMore(t: Tree, rest: map<string, Tree>, ranks: Tree, any: bool, k: string, u: Tree)
    requires Holding(t, rest, ranks, any)
    ensures Holding(Join(t, Single("RANK", Single(k, u))), rest, Join(ranks, Single(k, u)), true)
  {
    JoinSingle(t, "RANK", Single(k, u));
    assert Kid(t, "RANK") == ranks;
  }

  /** LEVEL and RANKS. */
  function PartHeader(n: nat): map<string, Tree> {
    map["LEVEL" := Single(Dec(0), EMPTY), "RANKS" := Single(Dec(n), EMPTY)]
  }

  lemma HeldIsFile(t: Tree, ranks: Tree, n: nat)
    requires Holding(t, PartHeader(n), ranks, true)
    ensures t == FileOf(ranks, 0, n)
  {
    assert t.kids == FileOf(ranks, 0, n).kids;
  }

  method StartPart(n: nat, ghost w: nat, ghost items: seq<Tree>) returns (entries: Hash)
    requires n == |items|
    ensures PartSoFar(entries, items, w, w)
  {
    SliceIsEmpty(items, w);
    entries := Hash([]);
    SetKvAdds(entries, "LEVEL", Dec(0));
    entries := SetKv(entries, "LEVEL", Dec(0));
    SetKvAdds(entries, "RANKS", Dec(n));
    entries := SetKv(entries, "RANKS", Dec(n));
    assert Abs(Hash([])) == EMPTY;
    JoinEmpty(Single("LEVEL", Single(Dec(0), EMPTY)));
    JoinSingle(Single("LEVEL", Single(Dec(0), EMPTY)), "RANKS", Single(Dec(n), EMPTY));
    JoinEmpty(Single(Dec(n), EMPTY));
    assert Abs(entries).kids == PartHeader(n);
  }

  /** The elements in the order of their ranks. */
  ghost predicate InRankOrder(es: seq<Elem>, items: seq<Tree>) {
    && |es| == |items|
    && forall q :: 0 <= q < |es| ==> es[q].key == Dec(q) && WF(es[q].hash) && Abs(es[q].hash) == items[q]
  }

  /** A part under construction: the entries of ranks w to q. */
  ghost predicate PartSoFar(entries: Hash, items: seq<Tree>, w: nat, q: nat) {
    entries.Hash? && WF(entries) && Holding(Abs(entries), PartHeader(|items|), Slice(items, w, q), w < q)
  }

  /** One more entry under RANK. */
  method AddEntry(entries: Hash, elem: Elem, w: nat, q: nat, ghost items: seq<Tree>) returns (more: Hash)
    requires PartSoFar(entries, items, w, q) && w <= q < |items|
    requires elem.key == Dec(q) && WF(elem.hash) && Abs(elem.hash) == items[q]
    ensures PartSoFar(more, items, w, q + 1)
  {
    var rank := Atoi(elem.key);
    HoldsMore(Abs(entries), PartHeader(|items|), Slice(items, w, q), w < q, Dec(rank), items[q]);
    SliceGrows(items, w, q);
    more := MergeUnder(entries, "RANK", Dec(rank), elem.hash);
  }

  /** The inner loop: up to e entries from rank w on. */
  method BuildPart(es: seq<Elem>, w: nat, n: nat, e: nat, ghost items: seq<Tree>) returns (entries: Hash, next: nat)
    requires e > 0 && w < n == |es| && InRankOrder(es, items)
    ensures next == if w + e < n then w + e else n
    ensures PartSoFar(entries, items, w, next)
  {
    entries := StartPart(n, w, items);
    next := w;
    var count := 0;
    while count < e
      invariant count <= e && next == w + count < n
      invariant PartSoFar(entries, items, w, next)
    {
      entries := AddEntry(entries, es[next], w, next, items);
      count, next := count + 1, next + 1;
      if next == |es| {
        break;
      }
    }
  }

  lemma SliceIsEmpty(items: seq<Tree>, w: nat)
    ensures Slice(items, w, w) == EMPTY
  {
    assert Slice(items, w, w).kids == EMPTY.kids;
  }

  // ---------- the root file ----------

  /** The names of the parts that begin below rank hi, by first rank. */
  function PartNames(e: nat, n: nat, hi: nat): Tree
    requires e > 0
  {
    Tree(map k | k in RankKeySet(n) && Atoi(k) < hi && IsFirst(e, Atoi(k)) :: Entry(Name(0, Atoi(k))))
  }

  lemma NamesAt(e: nat, n: nat, hi: nat, k: string)
    requires e > 0
    ensures Child(PartNames(e, n, hi), k) ==
            if IsRank(k, n) && Atoi(k) < hi && IsFirst(e, Atoi(k)) then Some(Entry(Name(0, Atoi(k)))) else None
    ensures IsRank(k, n) ==> k == Dec(Atoi(k))
  {
  }

  lemma NamesGrow(e: nat, n: nat, w: nat, next: nat)
    requires e > 0 && IsFirst(e, w) && w < n && next == if w + e < n then w + e else n
    ensures PartNames(e, n, next) == Tree(PartNames(e, n, w).kids[Dec(w) := Entry(Name(0, w))])
  {
    var grown := Tree(PartNames(e, n, w).kids[Dec(w) := Entry(Name(0, w))]);
    assert IsRank(Dec(w), n);
    forall k
      ensures Child(PartNames(e, n, next), k) == Child(grown, k)
    {
      NamesAt(e, n, w, k);
      NamesAt(e, n, next, k);
      if IsRank(k, n) {
        PartIsRun(e, w, Atoi(k));
      }
    }
    ChildrenDetermineTree(PartNames(e, n, next), grown);
  }

  /** The whole of it is what rank 0 would have gathered. */
  lemma NamesAreGathered(e: nat, n: nat)
    requires e > 0 && n > 0
    ensures PartNames(e, n, n) == Gathered(Entries(0, n), Selfs(Parts(e, n)), Zeros(n), 0)
  {
    assert PartNames(e, n, n).kids == Gathered(Entries(0, n), Selfs(Parts(e, n)), Zeros(n), 0).kids;
  }

  lemma SliceIsGathered(items: seq<Tree>, e: nat, w: nat, next: nat)
    requires e > 0 && IsFirst(e, w) && w < |items| && next == if w + e < |items| then w + e else |items|
    ensures Slice(items, w, next) == Gathered(items, AllValid(|items|), Parts(e, |items|), w)
  {
    var g := Gathered(items, AllValid(|items|), Parts(e, |items|), w);
    forall k
      ensures Child(Slice(items, w, next), k) == Child(g, k)
    {
      SliceAt(items, w, next, k);
      if IsRank(k, |items|) {
        PartIsRun(e, w, Atoi(k));
      }
    }
    ChildrenDetermineTree(Slice(items, w, next), g);
  }

  const ROOT_LEVEL: map<string, Tree> := map["LEVEL" := Single("1", EMPTY)]

  lemma OneIsDec()
    ensures Dec(1) == "1"
  {
    assert PrintNat(1, 10) == [DigitChar(1)];
  }

  /** The record of a part, set field by field in the hash that kvtree_set_kv_int made. */
  method AddName(files: Hash, w: nat, ghost e: nat, ghost n: nat, ghost next: nat) returns (more: Hash)
    requires e > 0 && IsFirst(e, w) && w < n && next == if w + e < n then w + e else n
    requires files.Hash? && WF(files) && Holding(Abs(files), ROOT_LEVEL, PartNames(e, n, w), w > 0)
    ensures more.Hash? && WF(more) && Holding(Abs(more), ROOT_LEVEL, PartNames(e, n, next), true)
  {
    var entry := MakeEntry(Name(0, w));
    GetIsKid(files, "RANK");
    var rankHash := OrNew(Get(files, "RANK"));
    PutUpdates(rankHash, Dec(w), entry);
    PutUpdates(files, "RANK", Put(rankHash, Dec(w), entry));
    NamesGrow(e, n, w, next);
    HeldRanks(Abs(files), ROOT_LEVEL, PartNames(e, n, w), w > 0, PartNames(e, n, next));
    more := Put(files, "RANK", Put(rankHash, Dec(w), entry));
  }

  lemma HeldRanks(t: Tree, rest: map<string, Tree>, ranks: Tree, any: bool, u: Tree)
    requires Holding(t, rest, ranks, any)
    ensures Kid(t, "RANK") == ranks
    ensures Holding(Tree(t.kids["RANK" := u]), rest, u, true)
  {
    assert t.kids["RANK" := u] == rest["RANK" := u];
  }

  // ---------- the whole set of files ----------

  function PartPath(prefix: string, w: nat): string {
    prefix + Name(0, w)
  }

  /** What is in the part that begins with rank w. */
  function PartTree(items: seq<Tree>, e: nat, w: nat): Tree
    requires e > 0
  {
    FileOf(Gathered(items, AllValid(|items|), Parts(e, |items|), w), 0, |items|)
  }

  /** What is in the root file. */
  function RootTree(e: nat, n: nat): Tree
    requires e > 0
  {
    if n == 0 then Tree(ROOT_LEVEL["RANKS" := Single(Dec(n), EMPTY)]) else FileOf(PartNames(e, n, n), 1, n)
  }

  /** The parts that begin below rank hi are in place. */
  ghost predicate PartsUpTo(crc: Checksum, fs: FS, prefix: string, items: seq<Tree>, e: nat, hi: nat)
    requires e > 0
  {
    forall w: nat :: w < hi && IsFirst(e, w) ==> Opens(crc, fs, PartPath(prefix, w), PartTree(items, e, w))
  }

  /** Every rank's data is in the part of its first rank, and the root names the parts. */
  ghost predicate PartsStored(crc: Checksum, fs: FS, prefix: string, items: seq<Tree>, e: nat)
    requires e > 0
  {
    PartsUpTo(crc, fs, prefix, items, e, |items|) && Opens(crc, fs, prefix, RootTree(e, |items|))
  }

  ghost predicate IsPart(prefix: string, e: nat, n: nat, path: string)
    requires e > 0
  {
    exists w: nat :: w < n && IsFirst(e, w) && path == PartPath(prefix, w)
  }

  /** No file but the root and the parts has appeared, gone or changed. */
  ghost predicate OthersKept(fs: FS, fs': FS, prefix: string, e: nat, n: nat)
    requires e > 0
  {
    forall p :: p != prefix && !IsPart(prefix, e, n, p) ==> SameAt(fs, fs', p)
  }

  ghost predicate PartsFit(items: seq<Tree>, e: nat, hi: nat)
    requires e > 0
  {
    forall w: nat :: w < hi && IsFirst(e, w) ==> !TooBigToPersist(PartTree(items, e, w))
  }

  /** Some file of the set is larger than memory can be. */
  ghost predicate SetTooBig(items: seq<Tree>, e: nat)
    requires e > 0
  {
    TooBigToPersist(RootTree(e, |items|)) || !PartsFit(items, e, |items|)
  }

  /** The parts that begin below rank hi have been written. */
  ghost predicate PartsDone(crc: Checksum, fs: FS, fs': FS, prefix: string, items: seq<Tree>, e: nat, hi: nat)
    requires e > 0
  {
    && PartsUpTo(crc, fs', prefix, items, e, hi)
    && OthersKept(fs, fs', prefix, e, |items|)
    && PartsFit(items, e, hi)
  }

  /** The parts are in place, under paths told by their first ranks. */
  ghost predicate PartsByName(crc: Checksum, fs: FS, prefix: string, items: seq<Tree>, e: nat)
    requires e > 0
  {
    forall w: nat :: w < |items| && IsFirst(e, w) ==> HasFileAt(crc, fs, prefix, 0, false, w, PartTree(items, e, w))
  }

  lemma PartsHaveNames(crc: Checksum, fs: FS, prefix: string, items: seq<Tree>, e: nat)
    requires e > 0 && PartsUpTo(crc, fs, prefix, items, e, |items|)
    ensures PartsByName(crc, fs, prefix, items, e)
  {
    forall w: nat | w < |items| && IsFirst(e, w)
      ensures HasFileAt(crc, fs, prefix, 0, false, w, PartTree(items, e, w))
    {
      PartPathIsPathOf(prefix, w);
    }
  }

  lemma PartPathIsPathOf(prefix: string, w: nat)
    ensures IsPathOf(PartPath(prefix, w), prefix, 0, false, w)
  {
    NameIsFileName(0, w);
  }

  lemma OnePartMore(crc: Checksum, fs0: FS, fs: FS, fs': FS, prefix: string, items: seq<Tree>, e: nat, w: nat,
                    next: nat)
    requires e > 0 && IsFirst(e, w) && w < |items| && next <= w + e
    requires PartsDone(crc, fs0, fs, prefix, items, e, w) && OnlyChanged(fs, fs', PartPath(prefix, w))
    requires Opens(crc, fs', PartPath(prefix, w), PartTree(items, e, w))
    requires !TooBigToPersist(PartTree(items, e, w))
    ensures PartsDone(crc, fs0, fs', prefix, items, e, next)
  {
    forall v: nat | v < next && IsFirst(e, v)
      ensures Opens(crc, fs', PartPath(prefix, v), PartTree(items, e, v)) && !TooBigToPersist(PartTree(items, e, v))
    {
      PartIsRun(e, w, v);
      if v != w {
        PathsDiffer(prefix, 0, v, 0, w);
        assert SameAt(fs, fs', PartPath(prefix, v));
      }
    }
    StillKept(fs0, fs, fs', prefix, e, |items|, PartPath(prefix, w));
  }

  lemma StillKept(fs: FS, mid: FS, fs': FS, prefix: string, e: nat, n: nat, path: string)
    requires e > 0 && OthersKept(fs, mid, prefix, e, n) && OnlyChanged(mid, fs', path)
    requires path == prefix || IsPart(prefix, e, n, path)
    ensures OthersKept(fs, fs', prefix, e, n)
  {
    forall p | p != prefix && !IsPart(prefix, e, n, p)
      ensures SameAt(fs, fs', p)
    {
      assert SameAt(fs, mid, p) && SameAt(mid, fs', p);
    }
  }

  lemma ItemsStayFew(items: seq<Tree>, e: nat, w: nat)
    requires e > 0 && |items| <= INT_MAX && forall q :: 0 <= q < |items| ==> FewChildren(items[q])
    ensures FewChildren(PartTree(items, e, w))
  {
    GatheredIsFew(items, AllValid(|items|), Parts(e, |items|), w);
    FileHasFewChildren(Gathered(items, AllValid(|items|), Parts(e, |items|), w), 0, |items|);
  }

  /** One part: its file, and its record in the root. */
  method WritePart(crc: Checksum, prefix: string, fs: FS, es: seq<Elem>, w: nat, e: nat, files: Hash,
                   ghost items: seq<Tree>, ghost fs0: FS)
    returns (fs': Option<FS>, more: Hash, next: nat)
    requires e > 0 && IsFirst(e, w) && w < |es| <= INT_MAX && InRankOrder(es, items)
    requires forall q :: 0 <= q < |items| ==> FewChildren(items[q])
    requires files.Hash? && WF(files) && Holding(Abs(files), ROOT_LEVEL, PartNames(e, |es|, w), w > 0)
    requires PartsDone(crc, fs0, fs, prefix, items, e, w)
    ensures next == if w + e < |es| then w + e else |es|
    ensures more.Hash? && WF(more) && Holding(Abs(more), ROOT_LEVEL, PartNames(e, |es|, next), true)
    ensures fs'.None? <==> TooBigToPersist(PartTree(items, e, w))
    ensures fs'.Some? ==> OnlyChanged(fs, fs'.value, PartPath(prefix, w))
    ensures fs'.Some? ==> PartsDone(crc, fs0, fs'.value, prefix, items, e, next)
  {
    var entries;
    entries, next := BuildPart(es, w, |es|, e, items);
    HeldIsFile(Abs(entries), Slice(items, w, next), |es|);
    SliceIsGathered(items, e, w, next);
    ItemsStayFew(items, e, w);
    fs' := SaveTree(crc, fs, PartPath(prefix, w), entries);
    if fs'.Some? {
      OnePartMore(crc, fs0, fs, fs'.value, prefix, items, e, w, next);
    }
    more := AddName(files, w, e, |es|, next);
  }

  method StartRoot() returns (files: Hash)
    ensures files.Hash? && WF(files) && Holding(Abs(files), ROOT_LEVEL, EMPTY, false)
  {
    files := Hash([]);
    assert Abs(files) == EMPTY;
    SetKvAdds(files, "LEVEL", Dec(1));
    OneIsDec();
    JoinEmpty(Single("LEVEL", Single(Dec(1), EMPTY)));
    files := SetKv(files, "LEVEL", Dec(1));
    assert Abs(files).kids == ROOT_LEVEL;
  }

  lemma RootComplete(t: Tree, e: nat, n: nat, ranks: Tree)
    requires e > 0 && Holding(t, ROOT_LEVEL, ranks, n > 0) && ranks == PartNames(e, n, n)
    ensures Tree(t.kids["RANKS" := Single(Dec(n), EMPTY)]) == RootTree(e, n)
  {
    if n > 0 {
      OneIsDec();
      FileInOrder(ranks, n);
    }
  }

  lemma FileInOrder(ranks: Tree, n: nat)
    ensures map["LEVEL" := Single(Dec(1), EMPTY)]["RANK" := ranks]["RANKS" := Single(Dec(n), EMPTY)] ==
              FileOf(ranks, 1, n).kids
  {
  }

  lemma SetsRanks(h: Hash, n: nat)
    requires h.Hash? && WF(h) && "RANKS" !in Abs(h).kids
    ensures SetKv(h, "RANKS", Dec(n)).Hash? && WF(SetKv(h, "RANKS", Dec(n)))
    ensures Abs(SetKv(h, "RANKS", Dec(n))) == Tree(Abs(h).kids["RANKS" := Single(Dec(n), EMPTY)])
  {
    SetKvAdds(h, "RANKS", Dec(n));
    JoinSingle(Abs(h), "RANKS", Single(Dec(n), EMPTY));
    JoinEmpty(Single(Dec(n), EMPTY));
  }

  method FinishRoot(files: Hash, e: nat, n: nat) returns (root: Hash)
    requires e > 0 && files.Hash? && WF(files) && Holding(Abs(files), ROOT_LEVEL, PartNames(e, n, n), n > 0)
    ensures root.Hash? && WF(root) && Abs(root) == RootTree(e, n)
  {
    SetsRanks(files, n);
    RootComplete(Abs(files), e, n, PartNames(e, n, n));
    root := SetKv(files, "RANKS", Dec(n));
  }

  lemma RootIsFew(e: nat, n: nat)
    requires e > 0 && n <= INT_MAX
    ensures FewChildren(RootTree(e, n))
  {
    if n == 0 {
      SingleIsFew("1");
      SingleIsFew(Dec(n));
      assert RootTree(e, n).kids.Keys == {"LEVEL", "RANKS"};
      assert |{"LEVEL", "RANKS"}| <= 2;
    } else {
      NamesAreGathered(e, n);
      EntriesAreFew(0, n);
      GatheredIsFew(Entries(0, n), Selfs(Parts(e, n)), Zeros(n), 0);
      FileHasFewChildren(PartNames(e, n, n), 1, n);
    }
  }

  lemma RootDone(crc: Checksum, fs0: FS, fs: FS, fs': FS, prefix: string, items: seq<Tree>, e: nat)
    requires e > 0 && PartsDone(crc, fs0, fs, prefix, items, e, |items|) && OnlyChanged(fs, fs', prefix)
    ensures PartsUpTo(crc, fs', prefix, items, e, |items|) && OthersKept(fs0, fs', prefix, e, |items|)
  {
    forall w: nat | w < |items| && IsFirst(e, w)
      ensures Opens(crc, fs', PartPath(prefix, w), PartTree(items, e, w))
    {
      PathsDiffer(prefix, 0, w, 0, w);
      assert SameAt(fs, fs', PartPath(prefix, w));
    }
    StillKept(fs0, fs, fs', prefix, e, |items|, prefix);
  }

  lemma NoNamesYet(e: nat, n: nat)
    requires e > 0
    ensures PartNames(e, n, 0) == EMPTY
  {
    assert PartNames(e, n, 0).kids == EMPTY.kids;
  }

  /** The outer loop. */
  method WriteParts(crc: Checksum, prefix: string, fs: FS, es: seq<Elem>, e: nat, ghost items: seq<Tree>)
    returns (fs': Option<FS>, files: Hash)
    requires e > 0 && |es| <= INT_MAX && InRankOrder(es, items)
    requires forall q :: 0 <= q < |items| ==> FewChildren(items[q])
    ensures fs'.None? <==> !PartsFit(items, e, |es|)
    ensures fs'.Some? ==> PartsDone(crc, fs, fs'.value, prefix, items, e, |es|)
    ensures fs'.Some? ==>
              files.Hash? && WF(files) && Holding(Abs(files), ROOT_LEVEL, PartNames(e, |es|, |es|), |es| > 0)
  {
    files := StartRoot();
    NoNamesYet(e, |es|);
    var out, writer := fs, 0;
    while writer < |es|
      invariant writer <= |es| && (writer < |es| ==> IsFirst(e, writer))
      invariant files.Hash? && WF(files) && Holding(Abs(files), ROOT_LEVEL, PartNames(e, |es|, writer), writer > 0)
      invariant PartsDone(crc, fs, out, prefix, items, e, writer)
    {
      var next, written;
      written, files, next := WritePart(crc, prefix, out, es, writer, e, files, items, fs);
      if written.None? {
        return None, files;
      }
      PartIsRun(e, writer, writer);
      out, writer := written.value, next;
    }
    fs' := Some(out);
  }

  /** The parts and the root file, from elements already in rank order. */
  method WriteSet(crc: Checksum, prefix: string, fs: FS, es: seq<Elem>, e: nat, ghost items: seq<Tree>)
    returns (fs': Option<FS>)
    requires e > 0 && |es| <= INT_MAX && InRankOrder(es, items)
    requires forall q :: 0 <= q < |items| ==> FewChildren(items[q])
    ensures fs'.None? <==> SetTooBig(items, e)
    ensures fs'.Some? ==> PartsStored(crc, fs'.value, prefix, items, e) && OthersKept(fs, fs'.value, prefix, e, |es|)
  {
    var out, files := WriteParts(crc, prefix, fs, es, e, items);
    if out.None? {
      return None;
    }
    fs' := WriteRoot(crc, prefix, out.value, files, |es|, e, items);
    if fs'.Some? {
      RootDone(crc, fs, out.value, fs'.value, prefix, items, e);
    }
  }

  method WriteRoot(crc: Checksum, prefix: string, fs: FS, files: Hash, n: nat, e: nat, ghost items: seq<Tree>)
    returns (fs': Option<FS>)
    requires e > 0 && n == |items| <= INT_MAX
    requires files.Hash? && WF(files) && Holding(Abs(files), ROOT_LEVEL, PartNames(e, n, n), n > 0)
    ensures fs'.None? <==> TooBigToPersist(RootTree(e, n))
    ensures fs'.Some? ==> Opens(crc, fs'.value, prefix, RootTree(e, n)) && OnlyChanged(fs, fs'.value, prefix)
  {
    var root := FinishRoot(files, e, n);
    RootIsFew(e, n);
    fs' := SaveTree(crc, fs, prefix, root);
  }

  // ---------- sorted by rank ----------

  /** The keys of the tree are exactly the ranks. */
  ghost predicate HasAllRanks(data: Tree, n: nat) {
    forall k :: k in data.kids <==> IsRank(k, n)
  }

  ghost predicate Climbs(xs: seq<int>) {
    forall i, j :: 0 <= i < j < |xs| ==> xs[i] < xs[j]
  }

  /** n different numbers below n, in order, are 0 to n-1. */
  lemma {:induction false} ClimbsByOne(xs: seq<int>, i: nat)
    requires Climbs(xs) && i < |xs| && forall j :: 0 <= j < |xs| ==> 0 <= xs[j] < |xs|
    ensures i <= xs[i]
  {
    if i > 0 {
      ClimbsByOne(xs, i - 1);
    }
  }

  lemma {:induction false} ClimbsNoFaster(xs: seq<int>, i: nat)
    requires Climbs(xs) && i < |xs| && forall j :: 0 <= j < |xs| ==> 0 <= xs[j] < |xs|
    ensures xs[i] <= i
    decreases |xs| - i
  {
    if i + 1 < |xs| {
      ClimbsNoFaster(xs, i + 1);
      assert xs[i] < xs[i + 1];
    }
  }

  lemma RankCount(h: Hash, n: nat)
    requires WF(h) && HasAllRanks(Abs(h), n)
    ensures |Elems(h)| == n
  {
    RankKeysCounted(n);
    if h.Hash? {
      KidsCount(h.elems);
    }
    assert Abs(h).kids.Keys == RankKeySet(n);
    assert |Abs(h).kids| == |Abs(h).kids.Keys|;
  }

  /** Sorted by number, the elements are in the order of their ranks. */
  lemma SortedByRank(h: Hash, n: nat, es: seq<Elem>)
    requires h.Hash? && WF(h) && HasAllRanks(Abs(h), n) && Unique(es) && SameElems(es, h.elems)
    requires forall i, j :: 0 <= i < j < |es| ==> Atoi(es[i].key) <= Atoi(es[j].key)
    ensures InRankOrder(es, ItemsOf(Abs(h), n))
  {
    RankCount(h, n);
    var xs := IntKeys(es);
    forall i | 0 <= i < |es|
      ensures IsRank(es[i].key, n) && WF(es[i].hash) && Abs(es[i].hash) == Kid(Abs(h), es[i].key)
    {
      assert es[i] in h.elems;
      var p :| 0 <= p < |h.elems| && h.elems[p] == es[i];
      AbsAt(h.elems, p);
    }
    forall i, j | 0 <= i < j < |es|
      ensures xs[i] < xs[j]
    {
      assert es[i].key == Dec(xs[i]) && es[j].key == Dec(xs[j]);
    }
    forall q | 0 <= q < |es|
      ensures es[q].key == Dec(q)
    {
      ClimbsByOne(xs, q);
      ClimbsNoFaster(xs, q);
    }
  }

  lemma RanksDiffer(h: Hash, n: nat)
    requires h.Hash? && WF(h) && HasAllRanks(Abs(h), n) && n <= INT_MAX
    ensures DifferencesFit(IntKeys(h.elems))
  {
    forall i | 0 <= i < |h.elems|
      ensures IsRank(h.elems[i].key, n)
    {
      AbsAt(h.elems, i);
    }
  }

  /** kvtree_write_to_gather, for data with the keys 0 to ranks-1: sorts the data, then writes every rank's tree
      into exactly one part, the parts named by their first ranks. */
  method WriteToGather(crc: Checksum, prefix: string, data: Hash, ranks: nat, e: nat, fs: FS)
    returns (fs': Option<FS>, sorted: Hash)
    requires e > 0 && ranks <= INT_MAX
    requires data.Hash? && WF(data) && CountsOk(data) && HasAllRanks(Abs(data), ranks)
    ensures fs'.None? <==> SetTooBig(ItemsOf(Abs(data), ranks), e)
    ensures fs'.Some? ==> PartsStored(crc, fs'.value, prefix, ItemsOf(Abs(data), ranks), e)
    ensures fs'.Some? ==> PartsByName(crc, fs'.value, prefix, ItemsOf(Abs(data), ranks), e)
    ensures fs'.Some? ==> OthersKept(fs, fs'.value, prefix, e, ranks)
    ensures sorted.Hash? && InRankOrder(sorted.elems, ItemsOf(Abs(data), ranks))
  {
    RanksDiffer(data, ranks);
    var es := SortElems(data.elems, Ascending);
    SortedByRank(data, ranks, es);
    sorted := Hash(es);
    CountsFromTree(data);
    fs' := WriteSet(crc, prefix, fs, es, e, ItemsOf(Abs(data), ranks));
    if fs'.Some? {
      PartsHaveNames(crc, fs'.value, prefix, ItemsOf(Abs(data), ranks), e);
    }
  }
}
