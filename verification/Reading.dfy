/** kvtree_read_scatter_single: one caller reads every rank's data back from the parts found in a directory. */
module Reading {
  import opened Text
  import opened Trees
  import opened Hashes
  import opened Packing
  import opened Files
  import opened Values
  import opened Exchange
  import opened FileTree
  import opened LightLoads
  import opened Gather
  import opened Scatter
  import opened Partition

  /** The set written from one place is one a gather could have left. */
  lemma PartsAreStored(crc: Checksum, fs: FS, prefix: string, items: seq<Tree>, e: nat)
    requires e > 0 && |items| > 0 && PartsStored(crc, fs, prefix, items, e)
    ensures Stored(crc, fs, prefix, items, PartTables(e, |items|))
  {
    var n, tables := |items|, PartTables(e, |items|);
    PartsAreLadder(e, n);
    NamesAreGathered(e, n);
    forall l, w | 0 <= l < |tables| && 0 <= w < n && tables[l][w] == w
      ensures Opens(crc, fs, prefix + SuffixAt(tables, l, w), FileOf(CollectedAt(items, tables, l, w), l, n))
    {
      if l == 0 {
        assert IsFirst(e, w);
        assert Opens(crc, fs, PartPath(prefix, w), PartTree(items, e, w));
      } else {
        assert prefix + "" == prefix;
      }
    }
  }

  lemma LightSetFits(items: seq<Tree>, e: nat)
    requires e > 0 && Light(items) && 0 < |items| <= INT_MAX
    ensures !SetTooBig(items, e)
  {
    var n := |items|;
    LightData(items);
    LightNames(items, 0);
    NamesAreGathered(e, n);
    LightFileFits(Entries(0, n), Selfs(Parts(e, n)), Zeros(n), 0, 1);
    forall w: nat | w < n && IsFirst(e, w)
      ensures !TooBigToPersist(PartTree(items, e, w))
    {
      LightFileFits(items, AllValid(n), Parts(e, n), w, 0);
    }
  }

  /** kvtree_write_to_gather followed by kvtree_read_scatter on as many ranks: each gets its own entry. It gives
      up exactly when a file or a message is too large, and never when all data together is well below the
      largest message. */
  method PartitionThenScatter(crc: Checksum, prefix: string, data: Hash, n: nat, e: nat, fs: FS)
    returns (outcome: Outcome, out: seq<Hash>)
    requires e > 0 && 0 < n <= INT_MAX
    requires data.Hash? && WF(data) && CountsOk(data) && HasAllRanks(Abs(data), n)
    ensures outcome == Success || outcome == Aborted
    ensures outcome == Success ==>
              |out| == n && AllWF(out) && forall q :: 0 <= q < n ==> Abs(out[q]) == Abs(data).kids[Dec(q)]
    ensures outcome == Aborted <==>
            SetTooBig(ItemsOf(Abs(data), n), e) || TooBigToPass(ItemsOf(Abs(data), n), PartTables(e, n))
    ensures Light(ItemsOf(Abs(data), n)) ==> outcome == Success
  {
    ghost var items := ItemsOf(Abs(data), n);
    PartsAreLadder(e, n);
    if Light(items) {
      LightSetFits(items, e);
      LightScatterSucceeds(items, PartTables(e, n));
    }
    var written, _ := WriteToGather(crc, prefix, data, n, e, fs);
    if written.None? {
      return Aborted, [];
    }
    PartsAreStored(crc, written.value, prefix, items, e);
    var empties := Empties(n);
    ghost var trace, last;
    outcome, out, trace, last := ReadScatter(crc, prefix, written.value, empties, n, 1, items, PartTables(e, n));
    forall q | 0 <= q < n
      ensures Join(Abs(empties[q]), items[q]) == Abs(data).kids[Dec(q)]
    {
      assert IsRank(Dec(q), n);
      JoinEmpty(items[q]);
    }
  }

  // ---------- what the files of a directory add ----------

  /** What reading a file adds: what is under its RANK if its LEVEL is 0, and nothing if it cannot be read. */
  ghost predicate Adds(crc: Checksum, fs: FS, path: string, t: Tree) {
    if path !in fs || !ReadFd(crc, fs[path]).Read? then t == EMPTY
    else
      var h := ReadFd(crc, fs[path]).hash;
      WF(h) && t == if ValueIs(Abs(h), "LEVEL", 0) then Kid(Abs(h), "RANK") else EMPTY
  }

  ghost predicate AllAdd(crc: Checksum, fs: FS, listing: seq<string>, adds: seq<Tree>) {
    |listing| == |adds| && forall i :: 0 <= i < |listing| ==> Adds(crc, fs, listing[i], adds[i])
  }

  /** The trees of the first i files, merged. */
  function Joined(adds: seq<Tree>, i: nat): Tree
    requires i <= |adds|
  {
    if i == 0 then EMPTY else Join(Joined(adds, i - 1), adds[i - 1])
  }

  /** The sizes of the trees of the first i files. */
  function Counted(adds: seq<Tree>, i: nat): nat
    requires i <= |adds|
  {
    if i == 0 then 0 else Counted(adds, i - 1) + |adds[i - 1].kids|
  }

  // ---------- the reader ----------

  /** One matching file: its RANK entries are merged in and counted, if its LEVEL is 0. */
  method ReadPart(crc: Checksum, fs: FS, path: string, tree: Hash, actual: nat, ghost t: Tree)
    returns (tree': Hash, actual': nat)
    requires tree.Hash? && WF(tree)
    ensures tree'.Hash? && WF(tree')
    ensures Adds(crc, fs, path, t) ==> Abs(tree') == Join(Abs(tree), t) && actual' == actual + |t.kids|
  {
    tree', actual' := tree, actual;
    ghost var whole := if path in fs && ReadFd(crc, fs[path]).Read? then Abs(ReadFd(crc, fs[path]).hash) else EMPTY;
    JoinEmpty(Abs(tree));
    var read, sub := ReadRank(crc, fs, path, 0, whole);
    ValueOfMap(sub, "LEVEL", 0);
    if read && GetULong(sub, "LEVEL") == Some(0) {
      var ranks := Get(sub, "RANK");
      GetIsKid(sub, "RANK");
      if ranks.Hash? {
        KidsCount(ranks.elems);
        var _, merged := Merge(tree, ranks);
        tree', actual' := merged, actual + |ranks.elems|;
      }
    }
  }

  /** The tree and the count after i files. */
  ghost predicate ReadUpTo(tree: Hash, actual: nat, adds: seq<Tree>, i: nat) {
    i <= |adds| && Abs(tree) == Joined(adds, i) && actual == Counted(adds, i)
  }

  lemma NextRead(tree: Hash, actual: nat, tree': Hash, actual': nat, adds: seq<Tree>, i: nat)
    requires i < |adds| && ReadUpTo(tree, actual, adds, i)
    requires Abs(tree') == Join(Abs(tree), adds[i]) && actual' == actual + |adds[i].kids|
    ensures ReadUpTo(tree', actual', adds, i + 1)
  {
  }

  /** The loop over the directory. */
  method ReadParts(crc: Checksum, fs: FS, listing: seq<string>, ghost adds: seq<Tree>) returns (tree: Hash, actual: nat)
    ensures tree.Hash? && WF(tree)
    ensures AllAdd(crc, fs, listing, adds) ==> Abs(tree) == Joined(adds, |adds|) && actual == Counted(adds, |adds|)
  {
    ghost var good := AllAdd(crc, fs, listing, adds);
    tree, actual := Hash([]), 0;
    for i := 0 to |listing|
      invariant tree.Hash? && WF(tree)
      invariant good ==> ReadUpTo(tree, actual, adds, i)
    {
      ghost var tree0, actual0, t := tree, actual, if good then adds[i] else EMPTY;
      tree, actual := ReadPart(crc, fs, listing[i], tree, actual, t);
      if good {
        NextRead(tree0, actual0, tree, actual, adds, i);
      }
    }
  }

  /** kvtree_read_scatter_single, on the matching names of the directory, whatever files they are: merges all they
      add into the caller's tree, and succeeds exactly when their sizes add up to the RANKS of the root. */
  method ReadScatterSingle(crc: Checksum, prefix: string, fs: FS, listing: seq<string>, data: Hash,
                           ghost root: Tree, ghost adds: seq<Tree>)
    returns (ok: bool, data': Hash)
    requires data.Hash? && WF(data)
    ensures data'.Hash? && WF(data')
    ensures prefix !in fs ==> !ok && data' == data
    ensures Opens(crc, fs, prefix, root) && AllAdd(crc, fs, listing, adds) ==>
              (ok <==> ValueIs(root, "RANKS", Counted(adds, |adds|)))
    ensures Opens(crc, fs, prefix, root) && AllAdd(crc, fs, listing, adds)
              && (exists n :: ValueIs(root, "RANKS", n)) ==>
              Abs(data') == Join(Abs(data), Joined(adds, |adds|))
  {
    var read, found := ReadRank(crc, fs, prefix, 0, root);
    forall n: nat
      ensures GetULong(found, "RANKS") == Some(n) <==> ValueIs(Abs(found), "RANKS", n)
    {
      ValueOfMap(found, "RANKS", n);
    }
    if !read || GetULong(found, "RANKS").None? {
      return false, data;
    }
    var expected := GetULong(found, "RANKS").value;
    var tree, actual := ReadParts(crc, fs, listing, adds);
    var _, merged := Merge(data, tree);
    return actual == expected, merged;
  }

  // ---------- parts of this set and strays ----------

  ghost predicate AllListed(prefix: string, e: nat, n: nat, listing: seq<string>)
    requires e > 0
  {
    forall w: nat :: w < n && IsFirst(e, w) ==> PartPath(prefix, w) in listing
  }

  /** The ranks whose part is in the listing. */
  function Covered(prefix: string, e: nat, n: nat, listing: seq<string>): (c: set<string>)
    requires e > 0
    ensures forall k :: k in c <==> IsRank(k, n) && PartPath(prefix, PartOf(e, Atoi(k))) in listing
  {
    set k | k in RankKeySet(n) && PartPath(prefix, PartOf(e, Atoi(k))) in listing
  }

  /** The data of those ranks. */
  function DataOf(items: seq<Tree>, keys: set<string>): Tree {
    Tree(map k | k in RankKeySet(|items|) && k in keys :: items[Atoi(k)])
  }

  lemma SameSize<T>(a: set<T>, b: set<T>)
    requires a <= b && |a| == |b|
    ensures a == b
  {
    assert |b - a| == |b| - |a|;
    assert b - a == {};
    assert b == a + (b - a);
  }

  /** The counts agree exactly when no part is missing. */
  lemma CountTellsAll(prefix: string, e: nat, n: nat, listing: seq<string>)
    requires e > 0
    ensures |Covered(prefix, e, n, listing)| == n <==> AllListed(prefix, e, n, listing)
    ensures AllListed(prefix, e, n, listing) ==> Covered(prefix, e, n, listing) == RankKeySet(n)
  {
    var c := Covered(prefix, e, n, listing);
    RankKeysCounted(n);
    if |c| == n {
      SameSize(c, RankKeySet(n));
      forall w: nat | w < n && IsFirst(e, w)
        ensures PartPath(prefix, w) in listing
      {
        assert IsRank(Dec(w), n) && Dec(w) in c;
      }
    }
    if AllListed(prefix, e, n, listing) {
      forall k | k in RankKeySet(n)
        ensures k in c
      {
        PartsHaveFirsts(e, Atoi(k));
      }
      assert c == RankKeySet(n);
    }
  }

  ghost predicate Distinct(listing: seq<string>) {
    forall i, j :: 0 <= i < j < |listing| ==> listing[i] != listing[j]
  }

  /** What the files that are no parts of this set add to the count. */
  ghost function Strays(prefix: string, e: nat, n: nat, listing: seq<string>, adds: seq<Tree>, i: nat): nat
    requires e > 0 && |listing| == |adds| >= i
  {
    if i == 0 then 0
    else Strays(prefix, e, n, listing, adds, i - 1)
         + (if IsPart(prefix, e, n, listing[i - 1]) then 0 else |adds[i - 1].kids|)
  }

  /** Each part of the set adds its ranks' data. */
  ghost predicate PartsAdd(prefix: string, e: nat, items: seq<Tree>, listing: seq<string>, adds: seq<Tree>)
    requires e > 0
  {
    && |listing| == |adds|
    && forall i: nat, w: nat :: i < |listing| && w < |items| && IsFirst(e, w) && listing[i] == PartPath(prefix, w) ==>
         adds[i] == Gathered(items, AllValid(|items|), Parts(e, |items|), w)
  }

  lemma StoredPartsAdd(crc: Checksum, fs: FS, prefix: string, e: nat, items: seq<Tree>, listing: seq<string>,
                       adds: seq<Tree>)
    requires e > 0 && PartsUpTo(crc, fs, prefix, items, e, |items|) && AllAdd(crc, fs, listing, adds)
    ensures PartsAdd(prefix, e, items, listing, adds)
  {
    forall i: nat, w: nat | i < |listing| && w < |items| && IsFirst(e, w) && listing[i] == PartPath(prefix, w)
      ensures adds[i] == Gathered(items, AllValid(|items|), Parts(e, |items|), w)
    {
      assert Opens(crc, fs, PartPath(prefix, w), PartTree(items, e, w));
      assert Adds(crc, fs, listing[i], adds[i]);
      PartAddsItsRanks(crc, fs, listing[i], items, e, w, adds[i]);
    }
  }

  lemma PartAddsItsRanks(crc: Checksum, fs: FS, path: string, items: seq<Tree>, e: nat, w: nat, t: Tree)
    requires e > 0 && Opens(crc, fs, path, PartTree(items, e, w)) && Adds(crc, fs, path, t)
    ensures t == Gathered(items, AllValid(|items|), Parts(e, |items|), w)
  {
    OneValue(PartTree(items, e, w), "LEVEL", 0);
  }

  /** What has been read after i files: the data of the listed parts, and the strays. */
  ghost predicate HaveRead(prefix: string, e: nat, items: seq<Tree>, listing: seq<string>, adds: seq<Tree>, i: nat)
    requires e > 0 && |listing| == |adds| >= i
  {
    var c := Covered(prefix, e, |items|, listing[..i]);
    var strays := Strays(prefix, e, |items|, listing, adds, i);
    Counted(adds, i) == |c| + strays && (strays == 0 ==> Joined(adds, i) == DataOf(items, c))
  }

  lemma {:induction false} ReadSoFar(prefix: string, e: nat, items: seq<Tree>, listing: seq<string>, adds: seq<Tree>,
                                     i: nat)
    requires e > 0 && Distinct(listing) && i <= |listing| == |adds|
    requires PartsAdd(prefix, e, items, listing, adds)
    ensures HaveRead(prefix, e, items, listing, adds, i)
  {
    if i == 0 {
      NothingRead(prefix, e, items, listing, adds);
    } else {
      ReadSoFar(prefix, e, items, listing, adds, i - 1);
      OneMoreRead(prefix, e, items, listing, adds, i - 1, i);
    }
  }

  lemma OneMoreRead(prefix: string, e: nat, items: seq<Tree>, listing: seq<string>, adds: seq<Tree>, i: nat, next: nat)
    requires e > 0 && Distinct(listing) && next == i + 1 <= |listing| == |adds|
    requires PartsAdd(prefix, e, items, listing, adds)
    requires HaveRead(prefix, e, items, listing, adds, i)
    ensures HaveRead(prefix, e, items, listing, adds, next)
  {
    if IsPart(prefix, e, |items|, listing[i]) {
      var w: nat :| w < |items| && IsFirst(e, w) && listing[i] == PartPath(prefix, w);
      PartStep(prefix, e, items, listing, adds, i, w);
    } else {
      StrayStep(prefix, e, items, listing, adds, i);
    }
  }

  lemma NothingRead(prefix: string, e: nat, items: seq<Tree>, listing: seq<string>, adds: seq<Tree>)
    requires e > 0 && |listing| == |adds|
    ensures HaveRead(prefix, e, items, listing, adds, 0)
  {
    assert listing[..0] == [] && Covered(prefix, e, |items|, []) == {};
    assert DataOf(items, {}).kids == EMPTY.kids;
  }

  lemma PartStep(prefix: string, e: nat, items: seq<Tree>, listing: seq<string>, adds: seq<Tree>, i: nat, w: nat)
    requires e > 0 && Distinct(listing) && |listing| == |adds| > i && IsPart(prefix, e, |items|, listing[i])
    requires w < |items| && IsFirst(e, w) && listing[i] == PartPath(prefix, w)
    requires adds[i] == Gathered(items, AllValid(|items|), Parts(e, |items|), w)
    requires HaveRead(prefix, e, items, listing, adds, i)
    ensures HaveRead(prefix, e, items, listing, adds, i + 1)
  {
    PartRead(prefix, e, items, listing, i, w);
    OneMoreFile(prefix, e, |items|, listing, adds, i);
  }

  lemma OneMoreFile(prefix: string, e: nat, n: nat, listing: seq<string>, adds: seq<Tree>, i: nat)
    requires e > 0 && |listing| == |adds| > i
    ensures Counted(adds, i + 1) == Counted(adds, i) + |adds[i].kids|
    ensures Joined(adds, i + 1) == Join(Joined(adds, i), adds[i])
    ensures IsPart(prefix, e, n, listing[i]) ==>
              Strays(prefix, e, n, listing, adds, i + 1) == Strays(prefix, e, n, listing, adds, i)
  {
  }

  lemma StrayStep(prefix: string, e: nat, items: seq<Tree>, listing: seq<string>, adds: seq<Tree>, i: nat)
    requires e > 0 && |listing| == |adds| > i && !IsPart(prefix, e, |items|, listing[i])
    requires HaveRead(prefix, e, items, listing, adds, i)
    ensures HaveRead(prefix, e, items, listing, adds, i + 1)
  {
    StrayRead(prefix, e, items, listing, i);
    JoinEmpty(Joined(adds, i));
    NoKidsIsEmpty(adds[i]);
  }

  lemma NoKidsIsEmpty(t: Tree)
    ensures |t.kids| == 0 ==> t == EMPTY
  {
    if |t.kids| == 0 {
      assert t.kids == map[];
    }
  }

  lemma StrayRead(prefix: string, e: nat, items: seq<Tree>, listing: seq<string>, i: nat)
    requires e > 0 && i < |listing| && !IsPart(prefix, e, |items|, listing[i])
    ensures Covered(prefix, e, |items|, listing[..i + 1]) == Covered(prefix, e, |items|, listing[..i])
  {
    var n := |items|;
    assert listing[..i + 1] == listing[..i] + [listing[i]];
    forall k | IsRank(k, n)
      ensures PartPath(prefix, PartOf(e, Atoi(k))) != listing[i]
    {
      PartsHaveFirsts(e, Atoi(k));
      assert PartOf(e, Atoi(k)) < n;
    }
  }

  lemma PartRead(prefix: string, e: nat, items: seq<Tree>, listing: seq<string>, i: nat, w: nat)
    requires e > 0 && Distinct(listing) && i < |listing|
    requires w < |items| && IsFirst(e, w) && listing[i] == PartPath(prefix, w)
    ensures var g := Gathered(items, AllValid(|items|), Parts(e, |items|), w);
            var c, c' := Covered(prefix, e, |items|, listing[..i]), Covered(prefix, e, |items|, listing[..i + 1]);
            && |c'| == |c| + |g.kids|
            && Join(DataOf(items, c), g) == DataOf(items, c')
  {
    var n := |items|;
    var g := Gathered(items, AllValid(n), Parts(e, n), w);
    var c, c' := Covered(prefix, e, n, listing[..i]), Covered(prefix, e, n, listing[..i + 1]);
    forall k
      ensures k in c' <==> k in c || k in g.kids
      ensures !(k in c && k in g.kids)
    {
      if IsRank(k, n) {
        CoveredNext(prefix, listing, i, w, PartOf(e, Atoi(k)));
      }
    }
    assert c' == c + g.kids.Keys;
    assert |g.kids| == |g.kids.Keys|;
    DataJoins(items, c, g, c');
  }

  lemma CoveredNext(prefix: string, listing: seq<string>, i: nat, w: nat, v: nat)
    requires Distinct(listing) && i < |listing| && listing[i] == PartPath(prefix, w)
    ensures PartPath(prefix, v) in listing[..i + 1] <==> PartPath(prefix, v) in listing[..i] || v == w
    ensures v == w ==> PartPath(prefix, v) !in listing[..i]
  {
    PathsDiffer(prefix, 0, v, 0, w);
    assert listing[..i + 1] == listing[..i] + [listing[i]];
  }

  lemma DataJoins(items: seq<Tree>, c: set<string>, g: Tree, c': set<string>)
    requires forall k :: k in g.kids ==> IsRank(k, |items|) && g.kids[k] == items[Atoi(k)]
    requires forall k :: k in c' <==> k in c || k in g.kids
    requires forall k :: !(k in c && k in g.kids)
    ensures Join(DataOf(items, c), g) == DataOf(items, c')
  {
    forall k
      ensures Child(Join(DataOf(items, c), g), k) == Child(DataOf(items, c'), k)
    {
      ChildJoin(DataOf(items, c), g, k);
      DataAt(items, c, k);
      DataAt(items, c', k);
    }
    ChildrenDetermineTree(Join(DataOf(items, c), g), DataOf(items, c'));
  }

  lemma DataAt(items: seq<Tree>, keys: set<string>, k: string)
    ensures Child(DataOf(items, keys), k) == if IsRank(k, |items|) && k in keys then Some(items[Atoi(k)]) else None
  {
  }

  /** What a count equal to RANKS is worth: strays make up for exactly as many missing ranks; without strays the
      counts agree exactly when no part is missing, and then the data is whole. */
  lemma CountWithStrays(prefix: string, e: nat, items: seq<Tree>, listing: seq<string>, adds: seq<Tree>)
    requires e > 0 && Distinct(listing) && PartsAdd(prefix, e, items, listing, adds)
    ensures var n, strays := |items|, Strays(prefix, e, |items|, listing, adds, |listing|);
            var c := Covered(prefix, e, n, listing);
            && (Counted(adds, |adds|) == n <==> |c| + strays == n)
            && (strays == 0 ==> Joined(adds, |adds|) == DataOf(items, c))
            && (strays == 0 ==> (Counted(adds, |adds|) == n <==> AllListed(prefix, e, n, listing)))
  {
    ReadSoFar(prefix, e, items, listing, adds, |listing|);
    assert listing[..|listing|] == listing;
    CountTellsAll(prefix, e, |items|, listing);
  }

  /** When success means what it should: the counts agree exactly when no part is missing if and only if there are no
      strays, or a part is missing and the strays do not make up for its ranks. With all parts there, the counts agree
      exactly when there are no strays. */
  lemma CountTellsTruth(prefix: string, e: nat, items: seq<Tree>, listing: seq<string>, adds: seq<Tree>)
    requires e > 0 && Distinct(listing) && PartsAdd(prefix, e, items, listing, adds)
    ensures var n, strays := |items|, Strays(prefix, e, |items|, listing, adds, |listing|);
            var covered, all := |Covered(prefix, e, n, listing)|, AllListed(prefix, e, n, listing);
            && ((Counted(adds, |adds|) == n <==> all) <==> strays == 0 || (!all && covered + strays != n))
            && (all ==> (Counted(adds, |adds|) == n <==> strays == 0))
  {
    CountWithStrays(prefix, e, items, listing, adds);
    CountTellsAll(prefix, e, |items|, listing);
  }

  /** A directory that holds nothing but parts of this set has no strays. */
  lemma {:induction false} OnlyPartsNoStrays(prefix: string, e: nat, n: nat, listing: seq<string>, adds: seq<Tree>,
                                             i: nat)
    requires e > 0 && |listing| == |adds| >= i && forall j :: 0 <= j < |listing| ==> IsPart(prefix, e, n, listing[j])
    ensures Strays(prefix, e, n, listing, adds, i) == 0
  {
    if i > 0 {
      OnlyPartsNoStrays(prefix, e, n, listing, adds, i - 1);
    }
  }

  /** Written and read back with nothing missing, the data is what it was. */
  lemma WholeDataBack(data: Tree, n: nat)
    requires HasAllRanks(data, n)
    ensures DataOf(ItemsOf(data, n), RankKeySet(n)) == data
  {
    assert DataOf(ItemsOf(data, n), RankKeySet(n)).kids == data.kids;
  }

  lemma OneMoreAdds(crc: Checksum, fs: FS, listing: seq<string>, adds: seq<Tree>, path: string, t: Tree)
    requires AllAdd(crc, fs, listing, adds) && Adds(crc, fs, path, t)
    ensures AllAdd(crc, fs, listing + [path], adds + [t])
  {
  }

  /** The strays of a directory survive the writing of a set, with what they add. */
  lemma WhatIsThere(crc: Checksum, fs: FS, fs': FS, prefix: string, e: nat, items: seq<Tree>, listing: seq<string>,
                    before: seq<Tree>) returns (adds: seq<Tree>)
    requires e > 0 && |before| == |listing| && prefix !in listing
    requires forall i :: 0 <= i < |listing| && !IsPart(prefix, e, |items|, listing[i]) ==>
               Adds(crc, fs, listing[i], before[i])
    requires PartsUpTo(crc, fs', prefix, items, e, |items|) && OthersKept(fs, fs', prefix, e, |items|)
    ensures AllAdd(crc, fs', listing, adds)
    ensures forall i :: 0 <= i < |listing| && !IsPart(prefix, e, |items|, listing[i]) ==> adds[i] == before[i]
  {
    adds := [];
    for i := 0 to |listing|
      invariant |adds| == i && AllAdd(crc, fs', listing[..i], adds)
      invariant forall j :: 0 <= j < i && !IsPart(prefix, e, |items|, listing[j]) ==> adds[j] == before[j]
    {
      var t := before[i];
      if IsPart(prefix, e, |items|, listing[i]) {
        var w: nat :| w < |items| && IsFirst(e, w) && listing[i] == PartPath(prefix, w);
        t := Gathered(items, AllValid(|items|), Parts(e, |items|), w);
        PartIsThere(crc, fs', listing[i], items, e, w);
      } else {
        assert listing[i] in listing && SameAt(fs, fs', listing[i]);
        StaysThere(crc, fs, fs', listing[i], t);
      }
      OneMoreAdds(crc, fs', listing[..i], adds, listing[i], t);
      assert listing[..i + 1] == listing[..i] + [listing[i]];
      adds := adds + [t];
    }
    assert listing[..|listing|] == listing;
  }

  lemma PartIsThere(crc: Checksum, fs: FS, path: string, items: seq<Tree>, e: nat, w: nat)
    requires e > 0 && Opens(crc, fs, path, PartTree(items, e, w))
    ensures Adds(crc, fs, path, Gathered(items, AllValid(|items|), Parts(e, |items|), w))
  {
    OneValue(PartTree(items, e, w), "LEVEL", 0);
  }

  lemma {:induction false} SameStrays(prefix: string, e: nat, n: nat, listing: seq<string>, a: seq<Tree>, b: seq<Tree>,
                                      i: nat)
    requires e > 0 && |listing| == |a| == |b| >= i
    requires forall j :: 0 <= j < |listing| && !IsPart(prefix, e, n, listing[j]) ==> a[j] == b[j]
    ensures Strays(prefix, e, n, listing, a, i) == Strays(prefix, e, n, listing, b, i)
  {
    if i > 0 {
      SameStrays(prefix, e, n, listing, a, b, i - 1);
    }
  }

  lemma RootCounts(e: nat, n: nat)
    requires e > 0 && n <= ULONG_MAX
    ensures forall m :: ValueIs(RootTree(e, n), "RANKS", m) <==> m == n
  {
    OneValue(RootTree(e, n), "RANKS", n);
  }

  /** kvtree_write_to_gather, then kvtree_read_scatter_single into an empty tree, in a directory that may hold other
      matching files, each adding what `before` says. The read succeeds exactly when the strays make up for the
      missing ranks; without strays, exactly when nothing is missing, and then the data is the original. */
  method PartitionThenRead(crc: Checksum, prefix: string, data: Hash, n: nat, e: nat, fs: FS, listing: seq<string>,
                           ghost before: seq<Tree>)
    returns (written: bool, ok: bool, back: Hash)
    requires e > 0 && n <= INT_MAX
    requires data.Hash? && WF(data) && CountsOk(data) && HasAllRanks(Abs(data), n)
    requires Distinct(listing) && prefix !in listing && |before| == |listing|
    requires forall i :: 0 <= i < |listing| && !IsPart(prefix, e, n, listing[i]) ==>
               Adds(crc, fs, listing[i], before[i])
    ensures written <==> !SetTooBig(ItemsOf(Abs(data), n), e)
    ensures written ==>
              (ok <==> |Covered(prefix, e, n, listing)| + Strays(prefix, e, n, listing, before, |listing|) == n)
    ensures written && Strays(prefix, e, n, listing, before, |listing|) == 0 ==>
              && (ok <==> AllListed(prefix, e, n, listing))
              && (ok ==> WF(back) && Abs(back) == Abs(data))
  {
    back := Hash([]);
    assert Abs(back) == EMPTY;
    var fs', _ := WriteToGather(crc, prefix, data, n, e, fs);
    if fs'.None? {
      return false, false, back;
    }
    ghost var items := ItemsOf(Abs(data), n);
    ghost var adds := WhatIsThere(crc, fs, fs'.value, prefix, e, items, listing, before);
    RootCounts(e, n);
    ok, back := ReadScatterSingle(crc, prefix, fs'.value, listing, back, RootTree(e, n), adds);
    written := true;
    StoredPartsAdd(crc, fs'.value, prefix, e, items, listing, adds);
    CountWithStrays(prefix, e, items, listing, adds);
    SameStrays(prefix, e, n, listing, adds, before, |listing|);
    CountTellsAll(prefix, e, n, listing);
    WholeDataBack(Abs(data), n);
    JoinEmpty(Joined(adds, |adds|));
  }

  // ---------- where the count misleads ----------

  lemma DisjointCount(a: set<string>, b: set<string>, c: set<string>)
    requires a !! b && c == a + b
    ensures |c| == |a| + |b|
  {
  }

  lemma SliceCount(items: seq<Tree>, lo: nat, hi: nat, s: Tree)
    requires lo <= hi <= |items| && s == Slice(items, lo, hi)
    ensures |s.kids| == hi - lo
  {
    var own := s.kids.Keys;
    forall k
      ensures k in own <==> k in RankKeySet(hi) && k !in RankKeySet(lo)
      ensures k in RankKeySet(lo) ==> k in RankKeySet(hi)
    {
      SliceAt(items, lo, hi, k);
    }
    DisjointCount(own, RankKeySet(lo), RankKeySet(hi));
    RankKeysCounted(lo);
    RankKeysCounted(hi);
    assert |s.kids| == |own|;
  }

  /** The files of an eight-rank directory rewritten with four entries a file after two a file, when the part of
      ranks 4 to 7 is gone. */
  function Mixed(prefix: string): seq<string> {
    [PartPath(prefix, 0), PartPath(prefix, 2), PartPath(prefix, 6)]
  }

  lemma MixedPaths(prefix: string)
    ensures Distinct(Mixed(prefix)) && prefix !in Mixed(prefix) && PartPath(prefix, 4) !in Mixed(prefix)
    ensures IsPart(prefix, 4, 8, PartPath(prefix, 0))
    ensures !IsPart(prefix, 4, 8, PartPath(prefix, 2)) && !IsPart(prefix, 4, 8, PartPath(prefix, 6))
    ensures IsFirst(2, 0) && IsFirst(2, 2) && IsFirst(2, 6) && IsFirst(4, 0) && IsFirst(4, 4)
  {
    forall v: nat, w: nat
      ensures PartPath(prefix, v) == PartPath(prefix, w) <==> v == w
      ensures PartPath(prefix, v) != prefix
    {
      PathsDiffer(prefix, 0, v, 0, w);
    }
    assert PartOf(4, 6) == 4 + PartOf(4, 2);
    assert PartOf(2, 6) == 2 + PartOf(2, 4) && PartOf(2, 4) == 2 + PartOf(2, 2) && PartOf(2, 2) == 2 + PartOf(2, 0);
  }

  lemma PartHas(items: seq<Tree>, e: nat, w: nat, g: Tree)
    requires e > 0 && IsFirst(e, w) && w + e <= |items|
    requires g == Gathered(items, AllValid(|items|), Parts(e, |items|), w)
    ensures |g.kids| == e
  {
    SliceIsGathered(items, e, w, w + e);
    SliceCount(items, w, w + e, g);
  }

  lemma PartLacks(items: seq<Tree>, e: nat, w: nat, g: Tree, q: nat)
    requires e > 0 && PartOf(e, q) != w && g == Gathered(items, AllValid(|items|), Parts(e, |items|), w)
    ensures Dec(q) !in g.kids
  {
    assert Atoi(Dec(q)) == q;
  }

  lemma StaysThere(crc: Checksum, fs: FS, fs': FS, path: string, t: Tree)
    requires Adds(crc, fs, path, t) && SameAt(fs, fs', path)
    ensures Adds(crc, fs', path, t)
  {
  }

  /** What the files of that directory add: eight in all, and nothing of rank 4. With the lost part, twelve. */
  lemma MixedAdds(crc: Checksum, first: FS, second: FS, prefix: string, items: seq<Tree>)
    returns (adds: seq<Tree>, whole: seq<Tree>)
    requires |items| == 8 && PartsUpTo(crc, first, prefix, items, 2, 8)
    requires PartsUpTo(crc, second, prefix, items, 4, 8) && OthersKept(first, second, prefix, 4, 8)
    ensures |adds| == 3 && AllAdd(crc, second, Mixed(prefix), adds)
    ensures Counted(adds, 3) == 8 && Dec(4) !in Joined(adds, 3).kids
    ensures |whole| == 4 && AllAdd(crc, second, Mixed(prefix) + [PartPath(prefix, 4)], whole)
    ensures Counted(whole, 4) == 12
  {
    var a := Gathered(items, AllValid(8), Parts(4, 8), 0);
    var b := Gathered(items, AllValid(8), Parts(2, 8), 2);
    var c := Gathered(items, AllValid(8), Parts(2, 8), 6);
    var d := Gathered(items, AllValid(8), Parts(4, 8), 4);
    adds, whole := [a, b, c], [a, b, c] + [d];
    MixedFiles(crc, first, second, prefix, items, a, b, c, d, adds, whole);
    MixedSizes(items, a, b, c, d);
    MixedCounts(a, b, c, d, adds, whole);
  }

  lemma MixedFiles(crc: Checksum, first: FS, second: FS, prefix: string, items: seq<Tree>,
                   a: Tree, b: Tree, c: Tree, d: Tree, adds: seq<Tree>, whole: seq<Tree>)
    requires |items| == 8 && PartsUpTo(crc, first, prefix, items, 2, 8)
    requires PartsUpTo(crc, second, prefix, items, 4, 8) && OthersKept(first, second, prefix, 4, 8)
    requires a == Gathered(items, AllValid(8), Parts(4, 8), 0) && d == Gathered(items, AllValid(8), Parts(4, 8), 4)
    requires b == Gathered(items, AllValid(8), Parts(2, 8), 2) && c == Gathered(items, AllValid(8), Parts(2, 8), 6)
    requires adds == [a, b, c] && whole == adds + [d]
    ensures AllAdd(crc, second, Mixed(prefix), adds)
    ensures AllAdd(crc, second, Mixed(prefix) + [PartPath(prefix, 4)], whole)
  {
    MixedStored(crc, first, second, prefix, items, a, b, c, d);
    ThreeFiles(crc, second, PartPath(prefix, 0), PartPath(prefix, 2), PartPath(prefix, 6), a, b, c);
    OneMoreAdds(crc, second, Mixed(prefix), adds, PartPath(prefix, 4), d);
  }

  lemma MixedSizes(items: seq<Tree>, a: Tree, b: Tree, c: Tree, d: Tree)
    requires |items| == 8
    requires a == Gathered(items, AllValid(8), Parts(4, 8), 0) && d == Gathered(items, AllValid(8), Parts(4, 8), 4)
    requires b == Gathered(items, AllValid(8), Parts(2, 8), 2) && c == Gathered(items, AllValid(8), Parts(2, 8), 6)
    ensures |a.kids| == 4 && |b.kids| == 2 && |c.kids| == 2 && |d.kids| == 4
    ensures Dec(4) !in a.kids && Dec(4) !in b.kids && Dec(4) !in c.kids
  {
    MixedPaths("");
    PartHas(items, 4, 0, a);
    PartHas(items, 2, 2, b);
    PartHas(items, 2, 6, c);
    PartHas(items, 4, 4, d);
    assert PartOf(2, 4) == 2 + PartOf(2, 2) && PartOf(4, 4) == 4 + PartOf(4, 0);
    PartLacks(items, 4, 0, a, 4);
    PartLacks(items, 2, 2, b, 4);
    PartLacks(items, 2, 6, c, 4);
  }

  lemma ThreeFiles(crc: Checksum, fs: FS, p: string, q: string, r: string, a: Tree, b: Tree, c: Tree)
    requires Adds(crc, fs, p, a) && Adds(crc, fs, q, b) && Adds(crc, fs, r, c)
    ensures AllAdd(crc, fs, [p, q, r], [a, b, c])
  {
  }

  lemma MixedStored(crc: Checksum, first: FS, second: FS, prefix: string, items: seq<Tree>,
                    a: Tree, b: Tree, c: Tree, d: Tree)
    requires |items| == 8 && PartsUpTo(crc, first, prefix, items, 2, 8)
    requires PartsUpTo(crc, second, prefix, items, 4, 8) && OthersKept(first, second, prefix, 4, 8)
    requires a == Gathered(items, AllValid(8), Parts(4, 8), 0) && d == Gathered(items, AllValid(8), Parts(4, 8), 4)
    requires b == Gathered(items, AllValid(8), Parts(2, 8), 2) && c == Gathered(items, AllValid(8), Parts(2, 8), 6)
    ensures Adds(crc, second, PartPath(prefix, 0), a) && Adds(crc, second, PartPath(prefix, 2), b)
    ensures Adds(crc, second, PartPath(prefix, 6), c) && Adds(crc, second, PartPath(prefix, 4), d)
  {
    MixedPaths(prefix);
    var q, r := PartPath(prefix, 2), PartPath(prefix, 6);
    assert SameAt(first, second, q) && SameAt(first, second, r);
    PartIsThere(crc, second, PartPath(prefix, 0), items, 4, 0);
    PartIsThere(crc, second, PartPath(prefix, 4), items, 4, 4);
    PartIsThere(crc, first, q, items, 2, 2);
    StaysThere(crc, first, second, q, b);
    PartIsThere(crc, first, r, items, 2, 6);
    StaysThere(crc, first, second, r, c);
  }

  lemma OneAddMore(adds: seq<Tree>, i: nat, t: Tree)
    requires i < |adds| && adds[i] == t
    ensures Counted(adds, i + 1) == Counted(adds, i) + |t.kids|
    ensures forall k :: k in Joined(adds, i + 1).kids <==> k in Joined(adds, i).kids || k in t.kids
  {
  }

  lemma ThreeAdds(a: Tree, b: Tree, c: Tree, adds: seq<Tree>)
    requires |adds| >= 3 && adds[0] == a && adds[1] == b && adds[2] == c
    ensures Counted(adds, 3) == |a.kids| + |b.kids| + |c.kids|
    ensures forall k :: k in Joined(adds, 3).kids <==> k in a.kids || k in b.kids || k in c.kids
  {
    OneAddMore(adds, 0, a);
    OneAddMore(adds, 1, b);
    OneAddMore(adds, 2, c);
  }

  lemma MixedCounts(a: Tree, b: Tree, c: Tree, d: Tree, adds: seq<Tree>, whole: seq<Tree>)
    requires adds == [a, b, c] && whole == adds + [d]
    requires |a.kids| == 4 && |b.kids| == 2 && |c.kids| == 2 && |d.kids| == 4
    requires Dec(4) !in a.kids && Dec(4) !in b.kids && Dec(4) !in c.kids
    ensures Counted(adds, 3) == 8 && Dec(4) !in Joined(adds, 3).kids && Counted(whole, 4) == 12
  {
    ThreeAdds(a, b, c, adds);
    ThreeAdds(a, b, c, whole);
    OneAddMore(whole, 3, d);
  }

  /** The input on which the count misleads: eight ranks written two to a file, then again four to a file, and the
      part of ranks 4 to 7 lost. The read succeeds without their data. With all parts there it fails. */
  method StalePartsMislead(crc: Checksum, prefix: string, data: Hash, fs: FS)
    returns (written: bool, okLost: bool, back: Hash, okWhole: bool)
    requires data.Hash? && WF(data) && CountsOk(data) && HasAllRanks(Abs(data), 8)
    ensures written <==> !SetTooBig(ItemsOf(Abs(data), 8), 2) && !SetTooBig(ItemsOf(Abs(data), 8), 4)
    ensures written ==> okLost && Dec(4) in Abs(data).kids && Dec(4) !in Abs(back).kids
    ensures written ==> !okWhole
  {
    written, okLost, back, okWhole := false, false, Hash([]), false;
    assert Abs(back) == EMPTY;
    ghost var items := ItemsOf(Abs(data), 8);
    var first, _ := WriteToGather(crc, prefix, data, 8, 2, fs);
    if first.None? {
      return;
    }
    var second, _ := WriteToGather(crc, prefix, data, 8, 4, first.value);
    if second.None? {
      return;
    }
    written := true;
    ghost var adds, whole := MixedAdds(crc, first.value, second.value, prefix, items);
    RootCounts(4, 8);
    okLost, back := ReadScatterSingle(crc, prefix, second.value, Mixed(prefix), back, RootTree(4, 8), adds);
    JoinEmpty(Joined(adds, 3));
    var more;
    okWhole, more := ReadScatterSingle(crc, prefix, second.value, Mixed(prefix) + [PartPath(prefix, 4)], Hash([]),
                                       RootTree(4, 8), whole);
  }
}
