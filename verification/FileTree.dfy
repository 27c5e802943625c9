/** What a gathered set of files holds: the tables of writers, one per level, and the tree in each file. */
module FileTree {
  import opened Text
  import opened Trees
  import opened Hashes
  import opened Files
  import opened Sizes
  import Bits

  /** A file system: contents by path. */
  type FS = map<string, string>

  /** Suffix of the file a writer writes below the top level. */
  function Name(level: nat, writer: nat): (s: Key)
    ensures |s| > 0 && s[0] == '.'
  {
    "." + Dec(level) + "." + Dec(writer)
  }

  /** A dot, the numeral of the level, a dot, the numeral of the writer. */
  ghost predicate IsFileName(s: string, level: nat, writer: nat) {
    exists a: string, b: string ::
      s == "." + a + "." + b && Numeral(a, level, 10) && Numeral(b, writer, 10)
  }

  lemma NameIsFileName(level: nat, writer: nat)
    ensures IsFileName(Name(level, writer), level, writer)
    ensures Name(0, 2) == ".0.2" && Name(1, 0) == ".1.0"
  {
    PrintsInt(level);
    PrintsInt(writer);
    assert Dec(0) == "0" && Dec(1) == "1" && Dec(2) == "2";
  }

  /** The path of a writer's file: the prefix itself at the top, otherwise the prefix and the file name. */
  ghost predicate IsPathOf(p: string, prefix: string, level: nat, top: bool, writer: nat) {
    if top then p == prefix else exists s: string :: p == prefix + s && IsFileName(s, level, writer)
  }

  lemma NamesDiffer(l1: nat, w1: nat, l2: nat, w2: nat)
    ensures Name(l1, w1) == Name(l2, w2) <==> l1 == l2 && w1 == w2
  {
    if Name(l1, w1) == Name(l2, w2) {
      assert Name(l1, w1)[1..] == Dec(l1) + "." + Dec(w1);
      assert Name(l2, w2)[1..] == Dec(l2) + "." + Dec(w2);
      SplitAtDot(Dec(l1), Dec(w1), Dec(l2), Dec(w2));
      assert Atoi(Dec(l1)) == l1 && Atoi(Dec(w1)) == w1;
      assert Atoi(Dec(l2)) == l2 && Atoi(Dec(w2)) == w2;
    }
  }

  /** The record that sends a reader to a file: name under FILE, position under OFFSET. */
  function Entry(name: string): Tree {
    Tree(map["FILE" := Single(name, EMPTY), "OFFSET" := Single("0", EMPTY)])
  }

  function Entries(level: nat, n: nat): (es: seq<Tree>)
    ensures |es| == n
  {
    seq(n, q requires 0 <= q < n => Entry(Name(level, q)))
  }

  /** The ranks that are their own writer. */
  function Selfs(table: seq<nat>): (v: seq<bool>)
    ensures |v| == |table|
  {
    seq(|table|, q requires 0 <= q < |table| => table[q] == q)
  }

  /** What rank w collects: the items of the valid ranks it writes for, by rank. */
  function Gathered(items: seq<Tree>, valid: seq<bool>, table: seq<nat>, w: nat): Tree
    requires |items| == |valid| == |table|
  {
    Tree(map q | q in RankKeySet(|items|) && valid[Atoi(q)] && table[Atoi(q)] == w :: items[Atoi(q)])
  }

  function RankKeySet(n: nat): (s: set<string>)
    ensures forall k :: k in s <==> IsRank(k, n)
  {
    set q | 0 <= q < n :: Dec(q)
  }

  lemma OneMoreRank(n: nat)
    ensures Dec(n) !in RankKeySet(n) && RankKeySet(n + 1) == RankKeySet(n) + {Dec(n)}
  {
    assert !IsRank(Dec(n), n);
    forall k
      ensures k in RankKeySet(n + 1) <==> k in RankKeySet(n) + {Dec(n)}
    {
      assert IsRank(k, n + 1) <==> IsRank(k, n) || k == Dec(n);
    }
  }

  lemma {:induction false} RankKeysCounted(n: nat)
    ensures |RankKeySet(n)| == n
  {
    if n > 0 {
      RankKeysCounted(n - 1);
      OneMoreRank(n - 1);
    } else {
      assert RankKeySet(0) == {};
    }
  }

  /** A file of the set: LEVEL, RANKS and the collected items under RANK. */
  function FileOf(ranks: Tree, level: nat, n: nat): Tree {
    Tree(map["RANK" := ranks, "LEVEL" := Single(Dec(level), EMPTY), "RANKS" := Single(Dec(n), EMPTY)])
  }

  function AllValid(n: nat): (v: seq<bool>)
    ensures |v| == n
  {
    seq(n, _ => true)
  }

  /** The items collected at a level, and from whom: the data at level 0, above it the names of the files below. */
  function ItemsAt(data: seq<Tree>, level: nat): (items: seq<Tree>)
    ensures |items| == |data|
  {
    if level == 0 then data else Entries(level - 1, |data|)
  }

  function ValidAt(tables: seq<seq<nat>>, level: nat, n: nat): (v: seq<bool>)
    requires level <= |tables| && forall l :: 0 <= l < |tables| ==> |tables[l]| == n
    ensures |v| == n
  {
    if level == 0 then AllValid(n) else Selfs(tables[level - 1])
  }

  function CollectedAt(data: seq<Tree>, tables: seq<seq<nat>>, level: nat, w: nat): Tree
    requires level < |tables| && forall l :: 0 <= l < |tables| ==> |tables[l]| == |data|
  {
    Gathered(ItemsAt(data, level), ValidAt(tables, level, |data|), tables[level], w)
  }

  /** The suffix of the file written by w at a level: empty at the top. */
  function SuffixAt(tables: seq<seq<nat>>, level: nat, w: nat): Key {
    if level + 1 == |tables| then "" else Name(level, w)
  }

  ghost predicate Opens(crc: Checksum, fs: FS, path: string, t: Tree) {
    && path in fs
    && ReadFd(crc, fs[path]).Read?
    && WF(ReadFd(crc, fs[path]).hash) && Abs(ReadFd(crc, fs[path]).hash) == t
  }

  /** A tree whose persisted form is larger than memory can be. */
  ghost predicate TooBigToPersist(t: Tree) {
    HEADER_SIZE + TreeSize(t) + 4 > ULONG_MAX
  }

  ghost predicate SameAt(fs: FS, fs': FS, path: string) {
    (path in fs' <==> path in fs) && (path in fs ==> fs'[path] == fs[path])
  }

  /** No file but this one has appeared, gone or changed. */
  ghost predicate OnlyChanged(fs: FS, fs': FS, path: string) {
    forall p :: p != path ==> SameAt(fs, fs', p)
  }

  /** A table of writers: each rank's writer writes for itself, and rank 0 is one. */
  ghost predicate Table(t: seq<nat>, n: nat) {
    |t| == n && n > 0 && t[0] == 0 && forall q :: 0 <= q < n ==> t[q] < n && t[t[q]] == t[q]
  }

  function NumSelf(t: seq<nat>, r: nat): nat
    requires r <= |t|
  {
    if r == 0 then 0 else NumSelf(t, r - 1) + (if t[r - 1] == r - 1 then 1 else 0)
  }

  /** The step from one level's writers to the next: a subset, rank 0 kept, at most half as many, rounded up. */
  ghost predicate NextTable(lower: seq<nat>, upper: seq<nat>, n: nat) {
    && Table(lower, n) && Table(upper, n)
    && (forall q :: 0 <= q < n && upper[q] == q ==> lower[q] == q)
    && NumSelf(upper, n) <= (NumSelf(lower, n) + 1) / 2
  }

  ghost predicate Rung(tables: seq<seq<nat>>, l: nat, n: nat)
    requires 1 <= l < |tables|
  {
    NextTable(tables[l - 1], tables[l], n)
  }

  ghost predicate OnlyRankZero(t: seq<nat>) {
    forall q :: 0 <= q < |t| ==> t[q] == 0
  }

  /** The tables of a whole gather: at least two levels, and the top is the first above level 0 where rank 0 is
      alone. */
  ghost predicate Ladder(tables: seq<seq<nat>>, n: nat) {
    && |tables| >= 2
    && (forall l :: 0 <= l < |tables| ==> Table(tables[l], n))
    && (forall l :: 1 <= l < |tables| ==> Rung(tables, l, n))
    && (forall l :: 1 <= l < |tables| ==> (OnlyRankZero(tables[l]) <==> l == |tables| - 1))
  }

  /** Every writer's file is in place at every level. */
  ghost predicate Stored(crc: Checksum, fs: FS, prefix: string, data: seq<Tree>, tables: seq<seq<nat>>) {
    && Ladder(tables, |data|)
    && forall l, w :: 0 <= l < |tables| && 0 <= w < |data| && tables[l][w] == w ==>
         Opens(crc, fs, prefix + SuffixAt(tables, l, w), FileOf(CollectedAt(data, tables, l, w), l, |data|))
  }

  lemma {:induction false} NumSelfBound(t: seq<nat>, r: nat)
    requires r <= |t|
    ensures NumSelf(t, r) <= r
  {
    if r > 0 {
      NumSelfBound(t, r - 1);
    }
  }

  /** With one writer left, it is rank 0 and it writes for all. */
  lemma {:induction false} OneWriterLeft(t: seq<nat>, n: nat, r: nat)
    requires Table(t, n) && 0 < r <= n
    ensures NumSelf(t, r) >= 1
    ensures NumSelf(t, r) <= 1 ==> forall q :: 0 < q < r ==> t[q] != q
  {
    if r > 1 {
      OneWriterLeft(t, n, r - 1);
    } else {
      assert NumSelf(t, 0) == 0;
    }
  }

  ghost predicate Halves(sizes: seq<nat>, i: nat)
    requires 0 < i < |sizes|
  {
    sizes[i] <= (sizes[i - 1] + 1) / 2
  }

  lemma {:induction false} HalvedEachLevel(sizes: seq<nat>, l: nat, k: nat)
    requires forall i :: 0 < i < |sizes| ==> Halves(sizes, i)
    requires l < |sizes| && sizes[0] <= Bits.Pow2(k) && l <= k
    ensures sizes[l] <= Bits.Pow2(k - l)
  {
    if l > 0 {
      HalvedEachLevel(sizes, l - 1, k);
      assert Bits.Pow2(k - (l - 1)) == 2 * Bits.Pow2(k - l);
      assert Halves(sizes, l);
    }
  }

  lemma RankZeroAlone(t: seq<nat>, n: nat)
    requires Table(t, n) && NumSelf(t, n) <= 1
    ensures OnlyRankZero(t)
  {
    OneWriterLeft(t, n, n);
    forall q | 0 <= q < n
      ensures t[q] == 0
    {
      assert t[t[q]] == t[q];
    }
  }

  lemma SizesHalve(tables: seq<seq<nat>>, n: nat) returns (sizes: seq<nat>)
    requires Ladder(tables, n)
    ensures |sizes| == |tables|
    ensures forall i :: 0 <= i < |sizes| ==> sizes[i] == NumSelf(tables[i], n)
    ensures sizes[0] <= n
    ensures forall i :: 0 < i < |sizes| ==> Halves(sizes, i)
  {
    sizes := seq(|tables|, i requires 0 <= i < |tables| => NumSelf(tables[i], n));
    NumSelfBound(tables[0], n);
    forall i | 0 < i < |sizes|
      ensures Halves(sizes, i)
    {
      assert Rung(tables, i, n);
    }
  }

  lemma FewWritersIsTop(tables: seq<seq<nat>>, n: nat, l: nat)
    requires Ladder(tables, n) && 1 <= l < |tables| && NumSelf(tables[l], n) <= 1
    ensures |tables| == l + 1
  {
    RankZeroAlone(tables[l], n);
  }

  /** The file tree is logarithmically deep. */
  lemma DepthIsLogarithmic(tables: seq<seq<nat>>, n: nat)
    requires Ladder(tables, n)
    ensures |tables| <= if n <= 1 then 2 else Bits.Rounds(n) + 1
  {
    var k := Bits.Rounds(n);
    var sizes := SizesHalve(tables, n);
    if n <= 1 {
      FewWritersIsTop(tables, n, 1);
    } else if |tables| > k + 1 {
      HalvedEachLevel(sizes, k, k);
      RoundsPositive(n);
      FewWritersIsTop(tables, n, k);
    }
  }

  lemma RoundsPositive(n: nat)
    requires n > 1
    ensures Bits.Rounds(n) > 0
  {
    assert Bits.Pow2(0) == 1;
  }
}
