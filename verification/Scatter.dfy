/** kvtree_read_scatter, run in lockstep over all ranks: from the root file, each reader passes on the names
    of the next level's files, down to level 0, where each passes on the data. */
module Scatter {
  import opened Text
  import opened Trees
  import opened Hashes
  import opened Packing
  import opened Files
  import opened Values
  import opened Routes
  import opened Exchange
  import opened FileTree
  import opened Gather
  import opened Loads
  import opened LightLoads
  import Bits

  /** Aborted: a message above INT_MAX bytes. Unmodelled: files whose RANK keys are not ranks, or a chain of
      files longer than the given bound. */
  datatype Outcome = Success | Failure | Aborted | Unmodelled

  /** Where the ranks that read at a level find their files. */
  ghost predicate AtLevel(prefix: string, tables: seq<seq<nat>>, n: nat, level: nat, valid: seq<bool>,
                          file: seq<string>, offset: seq<nat>) {
    && level < |tables| && |tables[level]| == n
    && |valid| == |file| == |offset| == n
    && valid == Selfs(tables[level])
    && forall q :: 0 <= q < n && valid[q] ==> file[q] == prefix + SuffixAt(tables, level, q) && offset[q] == 0
  }

  /** The trees the readers of a level find. */
  ghost function TreesAt(data: seq<Tree>, tables: seq<seq<nat>>, level: nat): (ts: seq<Tree>)
    requires level < |tables| && forall l :: 0 <= l < |tables| ==> |tables[l]| == |data|
    ensures |ts| == |data|
  {
    seq(|data|, w requires 0 <= w < |data| =>
      if tables[level][w] == w then FileOf(CollectedAt(data, tables, level, w), level, |data|) else EMPTY)
  }

  /** What the readers of a level pass on. */
  ghost function Passed(data: seq<Tree>, tables: seq<seq<nat>>, level: nat): (ts: seq<Tree>)
    requires level < |tables| && forall l :: 0 <= l < |tables| ==> |tables[l]| == |data|
    ensures |ts| == |data|
  {
    seq(|data|, w requires 0 <= w < |data| =>
      if tables[level][w] == w then CollectedAt(data, tables, level, w) else EMPTY)
  }

  /** Scattering undoes gathering: every valid rank gets its item back, from its writer and from no one else. */
  lemma ScatterUndoesGather(items: seq<Tree>, valid: seq<bool>, table: seq<nat>, sends: seq<Tree>, out: seq<Tree>,
                            out0: seq<Tree>, q: nat)
    requires |items| == |valid| == |sends| == |out| == |out0| > q && Table(table, |items|)
    requires forall w :: 0 <= w < |items| ==>
               sends[w] == if table[w] == w then Gathered(items, valid, table, w) else EMPTY
    requires Delivered(out, out0, sends) && out0[q] == EMPTY
    ensures out[q] == if valid[q] then Single(Dec(table[q]), items[q]) else EMPTY
  {
    var expected := if valid[q] then Single(Dec(table[q]), items[q]) else EMPTY;
    assert IsRank(Dec(q), |items|) && IsRank(Dec(table[q]), |items|);
    forall k
      ensures Child(out[q], k) == Child(expected, k)
    {
      assert Child(out[q], k) == Due(sends, q, k);
      if IsRank(k, |items|) {
        assert table[table[q]] == table[q];
      }
    }
    ChildrenDetermineTree(out[q], expected);
  }

  lemma GatheredHasRankKeys(items: seq<Tree>, valid: seq<bool>, table: seq<nat>, w: nat)
    requires |items| == |valid| == |table|
    ensures RankKeys(Gathered(items, valid, table, w), |items|)
  {
  }

  // ---------- one rank ----------

  function FromOffset(contents: string, offset: nat): (s: string)
    ensures offset == 0 ==> s == contents
  {
    if offset <= |contents| then contents[offset..] else ""
  }

  /** There is a file, and what stands in it from the offset on can be read. */
  ghost predicate CanRead(crc: Checksum, fs: FS, path: string, offset: nat) {
    path in fs && !ReadFd(crc, FromOffset(fs[path], offset)).Failed?
  }

  /** Reading shows this tree: that of the file, or an empty one when there is nothing to read. */
  ghost predicate Shows(crc: Checksum, fs: FS, path: string, offset: nat, h: Hash) {
    && CanRead(crc, fs, path, offset)
    && match ReadFd(crc, FromOffset(fs[path], offset))
       case Failed => false
       case EmptyFile => h == Hash([])
       case Read(_, found) => WF(found) ==> Abs(h) == Abs(found)
  }

  /** Open, seek, read, close. A missing file is refused, and so is one that holds something but is not intact. */
  method ReadRank(crc: Checksum, fs: FS, path: string, offset: nat, ghost t: Tree) returns (ok: bool, h: Hash)
    ensures h.Hash? && WF(h)
    ensures path !in fs ==> !ok
    ensures offset == 0 && path in fs && fs[path] == "" ==> ok && h == Hash([])
    ensures offset == 0 && path in fs && fs[path] != "" && (forall size: nat :: !Intact(crc, fs[path], size)) ==> !ok
    ensures ok <==> CanRead(crc, fs, path, offset)
    ensures ok ==> Shows(crc, fs, path, offset, h)
    ensures offset == 0 && Opens(crc, fs, path, t) ==> ok && Abs(h) == t
  {
    h := Hash([]);
    if path !in fs {
      return false, h;
    }
    var contents := fs[path];
    ReadsOnlyIntact(crc, contents);
    var r := ReadFd(crc, FromOffset(contents, offset));
    match r
    case Failed => return false, h;
    case EmptyFile => return true, h;
    case Read(_, read) =>
      JoinEmpty(Abs(read));
      assert Abs(Hash([])) == EMPTY;
      var _, merged := Merge(h, read);
      return true, merged;
  }

  // ---------- what the files tell ----------

  /** What each reader passes on. */
  ghost function Sends(hashes: seq<Hash>): (ts: seq<Tree>)
    ensures |ts| == |hashes| && forall r :: 0 <= r < |ts| ==> ts[r] == Kid(Abs(hashes[r]), "RANK")
  {
    seq(|hashes|, r requires 0 <= r < |hashes| => Kid(Abs(hashes[r]), "RANK"))
  }

  /** Every reader has read its file, and the others nothing. */
  ghost predicate AllShow(crc: Checksum, fs: FS, valid: seq<bool>, file: seq<string>, offset: seq<nat>,
                          hashes: seq<Hash>) {
    && |valid| == |file| == |offset| == |hashes|
    && forall r :: 0 <= r < |valid| ==>
         if valid[r] then Shows(crc, fs, file[r], offset[r], hashes[r]) else hashes[r] == Hash([])
  }

  ghost predicate SomeUnreadable(crc: Checksum, fs: FS, valid: seq<bool>, file: seq<string>, offset: seq<nat>) {
    && |valid| == |file| == |offset|
    && exists r :: 0 <= r < |valid| && valid[r] && !CanRead(crc, fs, file[r], offset[r])
  }

  /** Every reader's file says its level. */
  ghost predicate LevelsThere(hashes: seq<Hash>, valid: seq<bool>)
    requires |hashes| == |valid|
  {
    forall r :: 0 <= r < |valid| && valid[r] ==> GetInt(hashes[r], "LEVEL").Some?
  }

  /** Rank 0's file is above level 1, so that there is another level of names below. */
  ghost predicate Deep(hashes: seq<Hash>, valid: seq<bool>)
    requires |hashes| == |valid|
  {
    |valid| > 0 && valid[0] && GetInt(hashes[0], "LEVEL").Some? && GetInt(hashes[0], "LEVEL").value > 1
  }

  /** The file of w has a record for q. */
  ghost predicate HasRecord(hashes: seq<Hash>, w: nat, q: nat)
    requires w < |hashes|
  {
    Dec(q) in Kid(Abs(hashes[w]), "RANK").kids
  }

  ghost function RecordFor(hashes: seq<Hash>, w: nat, q: nat): Tree
    requires w < |hashes|
  {
    Kid(Kid(Abs(hashes[w]), "RANK"), Dec(q))
  }

  /** A record names this file and this offset. */
  ghost predicate RecordNames(record: Tree, prefix: string, file: string, offset: nat) {
    (exists v :: OnlyValue(record, "FILE", v) && file == prefix + v) && ValueIs(record, "OFFSET", offset)
  }

  /** A record without one file name or without one offset. */
  ghost predicate BadRecord(record: Tree) {
    (forall v :: !OnlyValue(record, "FILE", v)) || forall m: nat :: !ValueIs(record, "OFFSET", m)
  }

  /** Some file has a bad record. */
  ghost predicate HasBadRecord(hashes: seq<Hash>) {
    exists w: nat, q: nat :: w < |hashes| && HasRecord(hashes, w, q) && BadRecord(RecordFor(hashes, w, q))
  }

  /** The next readers are the ranks there is a record for, each with a file and an offset from such a record. */
  ghost predicate NextFrom(hashes: seq<Hash>, prefix: string, valid: seq<bool>, file: seq<string>, offset: seq<nat>) {
    && |valid| == |file| == |offset| == |hashes|
    && forall q: nat :: q < |valid| ==> NextOf(hashes, prefix, q, valid[q], file[q], offset[q])
  }

  ghost predicate NextOf(hashes: seq<Hash>, prefix: string, q: nat, valid: bool, file: string, offset: nat) {
    && (valid <==> exists w: nat :: w < |hashes| && HasRecord(hashes, w, q))
    && (valid ==> exists w: nat :: w < |hashes| && HasRecord(hashes, w, q)
                                   && RecordNames(RecordFor(hashes, w, q), prefix, file, offset))
  }

  /** A key under some file's RANK is no rank. */
  ghost predicate SomeKeyNoRank(hashes: seq<Hash>) {
    exists r :: 0 <= r < |hashes| && !RankKeys(Kid(Abs(hashes[r]), "RANK"), |hashes|)
  }

  /** Every rank has received what was passed on to it. */
  ghost predicate Received(recv: seq<Hash>, hashes: seq<Hash>) {
    && |recv| == |hashes|
    && forall q: nat, sk :: q < |recv| ==> Child(Abs(recv[q]), sk) == Due(Sends(hashes), q, sk)
  }

  /** Are the keys canonical decimals of ranks? */
  method KeysAreRanks(h: Hash, n: nat) returns (b: bool)
    requires WF(h)
    ensures b <==> RankKeys(Abs(h), n)
  {
    var es := Elems(h);
    for i := 0 to |es|
      invariant forall j :: 0 <= j < i ==> IsRank(es[j].key, n)
    {
      if !IsRank(es[i].key, n) {
        AbsAt(es, i);
        return false;
      }
    }
    forall k | k in Abs(h).kids
      ensures IsRank(k, n)
    {
      AbsLookup(es, k);
    }
    return true;
  }

  /** What a rank is to read next comes from one of the records it got, if any. */
  ghost predicate NamedBy(got: Tree, prefix: string, valid: bool, file: string, offset: nat) {
    && (valid <==> got.kids != map[])
    && (valid ==> exists k :: k in got.kids && RecordNames(got.kids[k], prefix, file, offset))
  }

  ghost predicate NamedBadly(got: Tree) {
    exists k :: k in got.kids && BadRecord(got.kids[k])
  }

  /** The file a rank is told to read next, if any. */
  method NextFile(recv: Hash, prefix: string, ghost from: string, ghost name: string)
    returns (ok: bool, valid: bool, file: string, offset: nat)
    requires WF(recv)
    ensures Abs(recv) == EMPTY ==> ok && !valid
    ensures Abs(recv) == Single(from, Entry(name)) ==> ok && valid && file == prefix + name && offset == 0
    ensures if ok then NamedBy(Abs(recv), prefix, valid, file, offset) else NamedBadly(Abs(recv))
  {
    ok, valid, file, offset := true, false, "", 0;
    ghost var told := Abs(recv) == Single(from, Entry(name));
    if told {
      OneKidOneElem(recv, from, Entry(name));
    }
    NoKidsNoElems(recv);
    if Elems(recv) == [] {
      return;
    }
    valid := true;
    var elemHash := Elems(recv)[0].hash;
    AbsAt(Elems(recv), 0);
    ReadsRecord(elemHash);
    if told {
      ValueFromMap(elemHash, "FILE", name);
      ValueFromMap(elemHash, "OFFSET", "0");
      StrtoulPrint(0);
    }
    match GetVal(elemHash, "FILE") {
      case None => ok := false;
      case Some(value) => file := prefix + value;
    }
    match GetULong(elemHash, "OFFSET") {
      case None => ok := false;
      case Some(value) => offset := value;
    }
  }

  lemma ReadsRecord(h: Hash)
    requires WF(h)
    ensures forall v :: GetVal(h, "FILE") == Some(v) <==> OnlyValue(Abs(h), "FILE", v)
    ensures forall m: nat :: GetULong(h, "OFFSET") == Some(m) <==> ValueIs(Abs(h), "OFFSET", m)
  {
    forall v
      ensures GetVal(h, "FILE") == Some(v) <==> OnlyValue(Abs(h), "FILE", v)
    {
      GetValOfMap(h, "FILE", v);
    }
    forall m: nat
      ensures GetULong(h, "OFFSET") == Some(m) <==> ValueIs(Abs(h), "OFFSET", m)
    {
      ValueOfMap(h, "OFFSET", m);
    }
  }

  lemma FileFields(h: Hash, ranks: Tree, level: nat, n: nat)
    requires WF(h) && Abs(h) == FileOf(ranks, level, n)
    ensures GetInt(h, "LEVEL") == Some(level) && GetInt(h, "RANKS") == Some(n)
    ensures Abs(Get(h, "RANK")) == ranks && WF(Get(h, "RANK"))
  {
    ValueFromMap(h, "LEVEL", Dec(level));
    ValueFromMap(h, "RANKS", Dec(n));
    GetIsKid(h, "RANK");
  }

  // ---------- all ranks ----------

  /** Every valid rank reads its file. */
  method ReadAll(crc: Checksum, fs: FS, valid: seq<bool>, file: seq<string>, offset: seq<nat>, ghost ts: seq<Tree>)
    returns (ok: bool, hashes: seq<Hash>)
    requires |valid| == |file| == |offset| == |ts|
    ensures |hashes| == |valid| && AllTrees(hashes)
    ensures ok ==> AllShow(crc, fs, valid, file, offset, hashes)
    ensures !ok ==> SomeUnreadable(crc, fs, valid, file, offset)
    ensures (forall r :: 0 <= r < |valid| ==>
              if valid[r] then offset[r] == 0 && Opens(crc, fs, file[r], ts[r]) else ts[r] == EMPTY) ==>
              ok && AbsAll(hashes) == ts
  {
    ok, hashes := true, [];
    ghost var good := forall r :: 0 <= r < |valid| ==>
        if valid[r] then offset[r] == 0 && Opens(crc, fs, file[r], ts[r]) else ts[r] == EMPTY;
    for r := 0 to |valid|
      invariant |hashes| == r && AllTrees(hashes)
      invariant ok ==> forall i :: 0 <= i < r ==>
                  if valid[i] then Shows(crc, fs, file[i], offset[i], hashes[i]) else hashes[i] == Hash([])
      invariant !ok ==> SomeUnreadable(crc, fs, valid, file, offset)
      invariant good ==> ok && forall i :: 0 <= i < r ==> Abs(hashes[i]) == ts[i]
    {
      var readOk, h := true, Hash([]);
      assert Abs(h) == EMPTY;
      if valid[r] {
        readOk, h := ReadRank(crc, fs, file[r], offset[r], ts[r]);
      }
      ok, hashes := ok && readOk, hashes + [h];
    }
  }

  /** Every reader passes on what is under RANK; None when a key there is not a rank. */
  method PassOn(hashes: seq<Hash>, n: nat) returns (send: Option<seq<Hash>>)
    requires |hashes| == n && AllTrees(hashes)
    ensures send.Some? ==> Addressed(send.value, n) && forall r :: 0 <= r < n ==>
              Abs(send.value[r]) == Kid(Abs(hashes[r]), "RANK")
    ensures send.None? ==> exists r :: 0 <= r < n && !RankKeys(Kid(Abs(hashes[r]), "RANK"), n)
  {
    var all: seq<Hash> := [];
    for r := 0 to n
      invariant |all| == r && AllWF(all)
      invariant forall i :: 0 <= i < r ==> Abs(all[i]) == Kid(Abs(hashes[i]), "RANK") && RankKeys(Abs(all[i]), n)
    {
      GetIsKid(hashes[r], "RANK");
      JoinEmpty(Kid(Abs(hashes[r]), "RANK"));
      assert Abs(Hash([])) == EMPTY;
      var _, s := Merge(Hash([]), Get(hashes[r], "RANK"));
      var b := KeysAreRanks(s, n);
      if !b {
        return None;
      }
      all := all + [s];
    }
    return Some(all);
  }

  /** What every rank should be told next: nothing, or the name of its file at the level below. */
  ghost predicate Told(recv: seq<Hash>, valid: seq<bool>, table: seq<nat>, level: nat) {
    && |recv| == |valid| == |table|
    && forall q :: 0 <= q < |recv| ==>
         Abs(recv[q]) == if valid[q] then Single(Dec(table[q]), Entry(Name(level, q))) else EMPTY
  }

  ghost predicate NextKnown(valid: bool, file: string, offset: nat, prefix: string, expected: bool, level: nat,
                            q: nat) {
    valid == expected && (expected ==> file == prefix + Name(level, q) && offset == 0)
  }

  ghost predicate AllKnown(newValid: seq<bool>, newFile: seq<string>, newOffset: seq<nat>, prefix: string,
                           valid: seq<bool>, level: nat) {
    && |newValid| == |newFile| == |newOffset| == |valid|
    && forall q :: 0 <= q < |valid| ==> NextKnown(newValid[q], newFile[q], newOffset[q], prefix, valid[q], level, q)
  }

  /** The answers so far come from the records the first ranks got; a bad answer from a bad record. */
  ghost predicate NamedSoFar(recv: seq<Hash>, prefix: string, ok: bool, valid: seq<bool>, file: seq<string>,
                             offset: seq<nat>) {
    && |valid| == |file| == |offset| <= |recv|
    && (ok ==> forall i :: 0 <= i < |valid| ==> NamedBy(Abs(recv[i]), prefix, valid[i], file[i], offset[i]))
    && (!ok ==> exists i :: 0 <= i < |valid| && NamedBadly(Abs(recv[i])))
  }

  lemma NamedNext(recv: seq<Hash>, prefix: string, ok: bool, valid: seq<bool>, file: seq<string>, offset: seq<nat>,
                  ok': bool, v: bool, f: string, o: nat)
    requires NamedSoFar(recv, prefix, ok, valid, file, offset) && |valid| < |recv|
    requires if ok' then NamedBy(Abs(recv[|valid|]), prefix, v, f, o) else NamedBadly(Abs(recv[|valid|]))
    ensures NamedSoFar(recv, prefix, ok && ok', valid + [v], file + [f], offset + [o])
  {
    if !ok {
      var i :| 0 <= i < |valid| && NamedBadly(Abs(recv[i]));
    }
  }

  method NextFiles(recv: seq<Hash>, prefix: string, ghost valid: seq<bool>, ghost table: seq<nat>, ghost level: nat)
    returns (ok: bool, newValid: seq<bool>, newFile: seq<string>, newOffset: seq<nat>)
    requires AllTrees(recv)
    ensures |newValid| == |newFile| == |newOffset| == |recv|
    ensures Told(recv, valid, table, level) ==>
              ok && AllKnown(newValid, newFile, newOffset, prefix, valid, level)
    ensures NamedSoFar(recv, prefix, ok, newValid, newFile, newOffset)
  {
    ok, newValid, newFile, newOffset := true, [], [], [];
    ghost var told := Told(recv, valid, table, level);
    for q := 0 to |recv|
      invariant |newValid| == |newFile| == |newOffset| == q
      invariant NamedSoFar(recv, prefix, ok, newValid, newFile, newOffset)
      invariant told ==> ok && forall i :: 0 <= i < q ==>
                  NextKnown(newValid[i], newFile[i], newOffset[i], prefix, valid[i], level, i)
    {
      ghost var from := if told then Dec(table[q]) else "";
      var rankOk, v, f, o := NextFile(recv[q], prefix, from, Name(level, q));
      NamedNext(recv, prefix, ok, newValid, newFile, newOffset, rankOk, v, f, o);
      if told {
        assert NextKnown(v, f, o, prefix, valid[q], level, q);
      }
      ok, newValid, newFile, newOffset := ok && rankOk, newValid + [v], newFile + [f], newOffset + [o];
    }
  }

  /** Has every reader a LEVEL? */
  method LevelsSet(hashes: seq<Hash>, valid: seq<bool>) returns (ok: bool)
    requires |hashes| == |valid|
    ensures ok <==> forall r :: 0 <= r < |valid| && valid[r] ==> GetInt(hashes[r], "LEVEL").Some?
  {
    for r := 0 to |valid|
      invariant forall i :: 0 <= i < r && valid[i] ==> GetInt(hashes[i], "LEVEL").Some?
    {
      if valid[r] && GetInt(hashes[r], "LEVEL").None? {
        return false;
      }
    }
    return true;
  }

  /** Every rank that gave an item at this level has it back, under its writer's rank. */
  ghost predicate Returned(recv: seq<Hash>, data: seq<Tree>, tables: seq<seq<nat>>, level: nat)
    requires level < |tables| && forall l :: 0 <= l < |tables| ==> |tables[l]| == |data|
  {
    && |recv| == |data|
    && forall q :: 0 <= q < |recv| ==>
         Abs(recv[q]) == if ValidAt(tables, level, |data|)[q] then
             Single(Dec(tables[level][q]), ItemsAt(data, level)[q]) else EMPTY
  }

  /** A message of this level is too large on the way down. */
  ghost predicate PassTooBig(data: seq<Tree>, tables: seq<seq<nat>>, level: nat) {
    && level < |tables| && (forall l :: 0 <= l < |tables| ==> |tables[l]| == |data|)
    && Oversize(Passed(data, tables, level), Right, Bits.Rounds(|data|))
  }

  /** A message of one of the levels from this one down to level 1 is. */
  ghost predicate NamesTooBigToPass(data: seq<Tree>, tables: seq<seq<nat>>, level: nat) {
    level > 0 && (PassTooBig(data, tables, level) || NamesTooBigToPass(data, tables, level - 1))
  }

  lemma OneLevelLower(data: seq<Tree>, tables: seq<seq<nat>>, level: nat)
    requires level > 0
    ensures NamesTooBigToPass(data, tables, level) ==
            (PassTooBig(data, tables, level) || (level > 1 && NamesTooBigToPass(data, tables, level - 1)))
  {
  }

  /** A message of some level is. */
  ghost predicate TooBigToPass(data: seq<Tree>, tables: seq<seq<nat>>)
    requires |tables| > 0
  {
    PassTooBig(data, tables, 0) || NamesTooBigToPass(data, tables, |tables| - 1)
  }

  /** The exchange of one level of the way down. */
  method PassLevel(hashes: seq<Hash>, n: nat, ghost data: seq<Tree>, ghost tables: seq<seq<nat>>, ghost level: nat)
    returns (outcome: Outcome, recv: seq<Hash>)
    requires n > 0 && |hashes| == n == |data| && AllTrees(hashes)
    requires level < |tables| && (forall l :: 0 <= l < |tables| ==> |tables[l]| == n) && Table(tables[level], n)
    ensures |recv| == n && AllTrees(recv)
    ensures outcome == Success ==> Received(recv, hashes)
    ensures outcome == Aborted ==> Oversize(Sends(hashes), Right, Bits.Rounds(n))
    ensures outcome == Unmodelled ==> SomeKeyNoRank(hashes)
    ensures outcome != Failure
    ensures AbsAll(hashes) == TreesAt(data, tables, level) ==>
              if PassTooBig(data, tables, level) then outcome == Aborted
              else outcome == Success && Returned(recv, data, tables, level)
  {
    var empties := Empties(n);
    recv := empties;
    var send := PassOn(hashes, n);
    ghost var good := AbsAll(hashes) == TreesAt(data, tables, level);
    if good {
      PassedKeys(hashes, data, tables, level);
    }
    if send.None? {
      return Unmodelled, recv;
    }
    var r := ExchangeDirection(send.value, empties, n, Right);
    assert AbsAll(send.value) == Sends(hashes);
    if good {
      assert AbsAll(send.value) == Passed(data, tables, level);
    }
    if r.None? {
      return Aborted, recv;
    }
    recv := r.value;
    outcome := Success;
    ReceivedAll(recv, empties, hashes);
    if good {
      forall q | 0 <= q < n
        ensures Abs(recv[q]) == if ValidAt(tables, level, n)[q] then
                  Single(Dec(tables[level][q]), ItemsAt(data, level)[q]) else EMPTY
      {
        ScatterUndoesGather(ItemsAt(data, level), ValidAt(tables, level, n), tables[level],
            Passed(data, tables, level), AbsAll(recv), AbsAll(empties), q);
      }
    }
  }

  lemma ReceivedAll(recv: seq<Hash>, empties: seq<Hash>, hashes: seq<Hash>)
    requires Delivered(AbsAll(recv), AbsAll(empties), Sends(hashes))
    requires forall q :: 0 <= q < |empties| ==> Abs(empties[q]) == EMPTY
    ensures Received(recv, hashes)
  {
    forall q: nat, sk | q < |recv|
      ensures Child(Abs(recv[q]), sk) == Due(Sends(hashes), q, sk)
    {
      assert Child(AbsAll(recv)[q], sk) == JoinOpt(Child(AbsAll(empties)[q], sk), Due(Sends(hashes), q, sk));
    }
  }

  lemma PassedKeys(hashes: seq<Hash>, data: seq<Tree>, tables: seq<seq<nat>>, level: nat)
    requires level < |tables| && forall l :: 0 <= l < |tables| ==> |tables[l]| == |data|
    requires AbsAll(hashes) == TreesAt(data, tables, level)
    ensures forall r :: 0 <= r < |data| ==> Kid(Abs(hashes[r]), "RANK") == Passed(data, tables, level)[r]
    ensures forall r :: 0 <= r < |data| ==> RankKeys(Kid(Abs(hashes[r]), "RANK"), |data|)
  {
    forall r | 0 <= r < |data|
      ensures Kid(Abs(hashes[r]), "RANK") == Passed(data, tables, level)[r]
                && RankKeys(Kid(Abs(hashes[r]), "RANK"), |data|)
    {
      assert Abs(hashes[r]) == TreesAt(data, tables, level)[r];
      GatheredHasRankKeys(ItemsAt(data, level), ValidAt(tables, level, |data|), tables[level], r);
    }
  }

  /** The level number rank 0 read and broadcasts, -1 if it found none. */
  method LevelOfRankZero(hashes: seq<Hash>, valid: seq<bool>) returns (levelId: int)
    requires |hashes| == |valid| > 0
    ensures levelId == if valid[0] && GetInt(hashes[0], "LEVEL").Some? then GetInt(hashes[0], "LEVEL").value else -1
  {
    levelId := -1;
    if valid[0] && GetInt(hashes[0], "LEVEL").Some? {
      levelId := GetInt(hashes[0], "LEVEL").value;
    }
  }

  lemma ReturnedIsTold(recv: seq<Hash>, data: seq<Tree>, tables: seq<seq<nat>>, level: nat)
    requires 1 <= level < |tables| && forall l :: 0 <= l < |tables| ==> |tables[l]| == |data|
    requires Returned(recv, data, tables, level)
    ensures Told(recv, ValidAt(tables, level, |data|), tables[level], level - 1)
  {
  }

  /** The readers of a level have read their files and passed them on. */
  ghost predicate Passing(hashes: seq<Hash>, recv: seq<Hash>, valid: seq<bool>, data: seq<Tree>,
                          tables: seq<seq<nat>>, level: nat)
    requires level < |tables| && forall l :: 0 <= l < |tables| ==> |tables[l]| == |data|
  {
    AbsAll(hashes) == TreesAt(data, tables, level) && Returned(recv, data, tables, level)
        && valid == Selfs(tables[level])
  }

  lemma PassingTells(hashes: seq<Hash>, recv: seq<Hash>, valid: seq<bool>, n: nat, data: seq<Tree>,
                     tables: seq<seq<nat>>, level: nat)
    requires Ladder(tables, n) && n == |data| && AllTrees(hashes)
    requires 1 <= level < |tables| && forall l :: 0 <= l < |tables| ==> |tables[l]| == n
    requires Passing(hashes, recv, valid, data, tables, level)
    ensures Told(recv, Selfs(tables[level - 1]), tables[level], level - 1)
    ensures |valid| == n && n > 0 && valid[0]
    ensures forall r :: 0 <= r < n && valid[r] ==> GetInt(hashes[r], "LEVEL") == Some(level)
  {
    BelowTop(tables, n, level);
    LevelsAreThere(hashes, data, tables, level);
    ReturnedIsTold(recv, data, tables, level);
  }

  /** After the exchange of a level: the next files, and the level number rank 0 read. */
  method Announce(hashes: seq<Hash>, recv: seq<Hash>, valid: seq<bool>, prefix: string, n: nat,
                  ghost data: seq<Tree>, ghost tables: seq<seq<nat>>, ghost level: nat)
    returns (ok: bool, levelId: int, valid': seq<bool>, file': seq<string>, offset': seq<nat>)
    requires n > 0 && |hashes| == |recv| == |valid| == n == |data| && AllTrees(hashes) && AllTrees(recv)
    requires 1 <= level < |tables| && Ladder(tables, n)
    requires forall l :: 0 <= l < |tables| ==> |tables[l]| == n
    ensures |valid'| == |file'| == |offset'| == n
    ensures Received(recv, hashes) && ok ==>
              LevelsThere(hashes, valid) && NextFrom(hashes, prefix, valid', file', offset')
    ensures Received(recv, hashes) && !ok ==> !LevelsThere(hashes, valid) || HasBadRecord(hashes)
    ensures levelId > 1 <==> Deep(hashes, valid)
    ensures Passing(hashes, recv, valid, data, tables, level) ==>
              ok && levelId == level && AtLevel(prefix, tables, n, level - 1, valid', file', offset')
  {
    ghost var good := Passing(hashes, recv, valid, data, tables, level);
    LadderLengths(tables, n, level);
    if good {
      PassingTells(hashes, recv, valid, n, data, tables, level);
    }
    var named, levels;
    named, valid', file', offset' := NamesBelow(recv, prefix, n, tables, level);
    levels := LevelsSet(hashes, valid);
    levelId := LevelOfRankZero(hashes, valid);
    ok := named && levels;
    if Received(recv, hashes) {
      if named {
        NextFromRecords(hashes, recv, prefix, valid', file', offset');
      } else {
        BadRecordSent(hashes, recv);
      }
    }
  }

  lemma WhatIsGot(hashes: seq<Hash>, recv: seq<Hash>, q: nat, k: string)
    requires Received(recv, hashes) && q < |recv| && k in Abs(recv[q]).kids
    ensures IsRank(k, |hashes|) && HasRecord(hashes, Atoi(k), q)
    ensures Abs(recv[q]).kids[k] == RecordFor(hashes, Atoi(k), q)
  {
    assert Child(Abs(recv[q]), k) == Due(Sends(hashes), q, k);
  }

  lemma WhatIsSent(hashes: seq<Hash>, recv: seq<Hash>, w: nat, q: nat)
    requires Received(recv, hashes) && q < |recv| && w < |hashes| && HasRecord(hashes, w, q)
    ensures Dec(w) in Abs(recv[q]).kids && Abs(recv[q]).kids[Dec(w)] == RecordFor(hashes, w, q)
  {
    assert Child(Abs(recv[q]), Dec(w)) == Due(Sends(hashes), q, Dec(w));
  }

  lemma NextFromRecords(hashes: seq<Hash>, recv: seq<Hash>, prefix: string, valid: seq<bool>, file: seq<string>,
                        offset: seq<nat>)
    requires Received(recv, hashes) && |valid| == |file| == |offset| == |recv|
    requires forall q :: 0 <= q < |recv| ==> NamedBy(Abs(recv[q]), prefix, valid[q], file[q], offset[q])
    ensures NextFrom(hashes, prefix, valid, file, offset)
  {
    forall q: nat | q < |valid|
      ensures NextOf(hashes, prefix, q, valid[q], file[q], offset[q])
    {
      NextOfRecords(hashes, recv, prefix, q, valid[q], file[q], offset[q]);
    }
  }

  lemma NextOfRecords(hashes: seq<Hash>, recv: seq<Hash>, prefix: string, q: nat, valid: bool, file: string,
                      offset: nat)
    requires Received(recv, hashes) && q < |recv| && NamedBy(Abs(recv[q]), prefix, valid, file, offset)
    ensures NextOf(hashes, prefix, q, valid, file, offset)
  {
    if w: nat :| w < |hashes| && HasRecord(hashes, w, q) {
      WhatIsSent(hashes, recv, w, q);
    }
    if valid {
      var k :| k in Abs(recv[q]).kids && RecordNames(Abs(recv[q]).kids[k], prefix, file, offset);
      WhatIsGot(hashes, recv, q, k);
    }
  }

  lemma BadRecordSent(hashes: seq<Hash>, recv: seq<Hash>)
    requires Received(recv, hashes) && exists q :: 0 <= q < |recv| && NamedBadly(Abs(recv[q]))
    ensures HasBadRecord(hashes)
  {
    var q :| 0 <= q < |recv| && NamedBadly(Abs(recv[q]));
    var k :| k in Abs(recv[q]).kids && BadRecord(Abs(recv[q]).kids[k]);
    WhatIsGot(hashes, recv, q, k);
  }

  /** The files of the next level, as the readers are told. */
  method NamesBelow(recv: seq<Hash>, prefix: string, n: nat, ghost tables: seq<seq<nat>>, ghost level: nat)
    returns (ok: bool, valid: seq<bool>, file: seq<string>, offset: seq<nat>)
    requires |recv| == n && AllTrees(recv)
    requires 1 <= level < |tables| && forall l :: 0 <= l < |tables| ==> |tables[l]| == n
    ensures |valid| == |file| == |offset| == n
    ensures ok ==> forall q :: 0 <= q < n ==> NamedBy(Abs(recv[q]), prefix, valid[q], file[q], offset[q])
    ensures !ok ==> exists q :: 0 <= q < n && NamedBadly(Abs(recv[q]))
    ensures Told(recv, Selfs(tables[level - 1]), tables[level], level - 1) ==>
              ok && AtLevel(prefix, tables, n, level - 1, valid, file, offset)
  {
    ghost var expected := Selfs(tables[level - 1]);
    ok, valid, file, offset := NextFiles(recv, prefix, expected, tables[level], level - 1);
    if Told(recv, expected, tables[level], level - 1) {
      LevelBelow(prefix, tables, n, level, valid, file, offset);
    }
  }

  lemma LevelBelow(prefix: string, tables: seq<seq<nat>>, n: nat, level: nat, valid: seq<bool>, file: seq<string>,
                   offset: seq<nat>)
    requires 1 <= level < |tables| && (forall l :: 0 <= l < |tables| ==> |tables[l]| == n)
    requires AllKnown(valid, file, offset, prefix, Selfs(tables[level - 1]), level - 1)
    ensures AtLevel(prefix, tables, n, level - 1, valid, file, offset)
  {
    assert valid == Selfs(tables[level - 1]);
  }

  /** What is known when reading a complete set of files. */
  ghost predicate OnTrack(crc: Checksum, prefix: string, fs: FS, data: seq<Tree>, tables: seq<seq<nat>>, level: nat,
                          valid: seq<bool>, file: seq<string>, offset: seq<nat>) {
    Stored(crc, fs, prefix, data, tables) && AtLevel(prefix, tables, |data|, level, valid, file, offset)
  }

  /** What the outcome of one level tells of the files read there. */
  ghost predicate StepTold(crc: Checksum, fs: FS, valid: seq<bool>, file: seq<string>, offset: seq<nat>,
                           found: seq<Hash>, outcome: Outcome)
    requires |found| == |valid|
  {
    && (outcome != Failure ==> AllShow(crc, fs, valid, file, offset, found))
    && (outcome == Failure ==>
          || SomeUnreadable(crc, fs, valid, file, offset)
          || (AllShow(crc, fs, valid, file, offset, found) && (!LevelsThere(found, valid) || HasBadRecord(found))))
    && (outcome == Aborted ==> Oversize(Sends(found), Right, Bits.Rounds(|found|)))
    && (outcome == Unmodelled ==> SomeKeyNoRank(found))
  }

  /** One level down: read, pass on, find the next files. */
  method StepDown(crc: Checksum, prefix: string, fs: FS, valid: seq<bool>, file: seq<string>, offset: seq<nat>, n: nat,
                  ghost data: seq<Tree>, ghost tables: seq<seq<nat>>, ghost level: nat)
    returns (outcome: Outcome, levelId: int, valid': seq<bool>, file': seq<string>, offset': seq<nat>,
             ghost found: seq<Hash>)
    requires n > 0 && |valid| == |file| == |offset| == n == |data|
    requires 1 <= level < |tables| && Ladder(tables, n)
    ensures |valid'| == |file'| == |offset'| == |found| == n
    ensures StepTold(crc, fs, valid, file, offset, found, outcome)
    ensures outcome == Success ==>
              && LevelsThere(found, valid) && NextFrom(found, prefix, valid', file', offset')
              && (levelId > 1 <==> Deep(found, valid))
    ensures OnTrack(crc, prefix, fs, data, tables, level, valid, file, offset) ==>
              if PassTooBig(data, tables, level) then outcome == Aborted
              else
                && outcome == Success && levelId == level
                && AtLevel(prefix, tables, n, level - 1, valid', file', offset')
  {
    valid', file', offset', levelId := valid, file, offset, -1;
    LadderLengths(tables, n, level);
    ghost var good := OnTrack(crc, prefix, fs, data, tables, level, valid, file, offset);
    var ok, hashes := ReadAll(crc, fs, valid, file, offset, TreesAt(data, tables, level));
    found := hashes;
    if good {
      LevelOpens(crc, fs, prefix, data, tables, level, valid, file, offset);
    }
    if !ok {
      return Failure, levelId, valid', file', offset', found;
    }
    var recv;
    outcome, recv := PassLevel(hashes, n, data, tables, level);
    if outcome != Success {
      return;
    }
    ok, levelId, valid', file', offset' := Announce(hashes, recv, valid, prefix, n, data, tables, level);
    if !ok {
      return Failure, levelId, valid', file', offset', found;
    }
  }

  lemma LadderLengths(tables: seq<seq<nat>>, n: nat, level: nat)
    requires Ladder(tables, n) && level < |tables|
    ensures forall l :: 0 <= l < |tables| ==> |tables[l]| == n
    ensures Table(tables[level], n)
  {
  }

  lemma LevelOpens(crc: Checksum, fs: FS, prefix: string, data: seq<Tree>, tables: seq<seq<nat>>, level: nat,
                   valid: seq<bool>, file: seq<string>, offset: seq<nat>)
    requires Stored(crc, fs, prefix, data, tables) && level < |tables|
    requires AtLevel(prefix, tables, |data|, level, valid, file, offset)
    ensures forall l :: 0 <= l < |tables| ==> |tables[l]| == |data|
    ensures forall r :: 0 <= r < |data| ==>
              if valid[r] then offset[r] == 0 && Opens(crc, fs, file[r], TreesAt(data, tables, level)[r])
              else TreesAt(data, tables, level)[r] == EMPTY
  {
    forall r | 0 <= r < |data|
      ensures if valid[r] then offset[r] == 0 && Opens(crc, fs, file[r], TreesAt(data, tables, level)[r])
              else TreesAt(data, tables, level)[r] == EMPTY
    {
      if valid[r] {
        assert tables[level][r] == r;
        assert Opens(crc, fs, prefix + SuffixAt(tables, level, r),
            FileOf(CollectedAt(data, tables, level, r), level, |data|));
      }
    }
  }

  lemma LevelsAreThere(hashes: seq<Hash>, data: seq<Tree>, tables: seq<seq<nat>>, level: nat)
    requires level < |tables| && (forall l :: 0 <= l < |tables| ==> |tables[l]| == |data|) && AllTrees(hashes)
    requires AbsAll(hashes) == TreesAt(data, tables, level)
    ensures forall r :: 0 <= r < |data| && tables[level][r] == r ==>
              GetInt(hashes[r], "LEVEL") == Some(level) && GetInt(hashes[r], "RANKS") == Some(|data|)
  {
    forall r | 0 <= r < |data| && tables[level][r] == r
      ensures GetInt(hashes[r], "LEVEL") == Some(level) && GetInt(hashes[r], "RANKS") == Some(|data|)
    {
      assert Abs(hashes[r]) == TreesAt(data, tables, level)[r];
      FileFields(hashes[r], CollectedAt(data, tables, level, r), level, |data|);
    }
  }

  lemma BelowTop(tables: seq<seq<nat>>, n: nat, level: nat)
    requires Ladder(tables, n) && 1 <= level < |tables|
    ensures Selfs(tables[level - 1]) == ValidAt(tables, level, n)
    ensures Selfs(tables[level])[0]
  {
  }

  // ---------- the way down, file by file ----------

  /** The readers at one step, where they read, and what they found. */
  datatype Stage = Stage(valid: seq<bool>, file: seq<string>, offset: seq<nat>, found: seq<Hash>)

  ghost predicate Sized(s: Stage, n: nat) {
    |s.valid| == |s.file| == |s.offset| == |s.found| == n
  }

  ghost predicate StageShows(crc: Checksum, fs: FS, s: Stage) {
    AllShow(crc, fs, s.valid, s.file, s.offset, s.found)
  }

  /** The second stage is where the files of the first one lead, and there is another level of names to read there. */
  ghost predicate LeadsTo(crc: Checksum, fs: FS, prefix: string, s: Stage, t: Stage) {
    && |s.found| == |s.valid| && StageShows(crc, fs, s) && LevelsThere(s.found, s.valid) && Deep(s.found, s.valid)
    && NextFrom(s.found, prefix, t.valid, t.file, t.offset)
  }

  ghost predicate Descent(crc: Checksum, fs: FS, prefix: string, n: nat, trace: seq<Stage>) {
    && (forall i :: 0 <= i < |trace| ==> Sized(trace[i], n))
    && forall i, j :: 0 <= i < |trace| && j == i + 1 < |trace| ==> LeadsTo(crc, fs, prefix, trace[i], trace[j])
  }

  /** How the way down through the levels of names ended, at the last stage of the trace. */
  ghost predicate EndsAt(crc: Checksum, fs: FS, prefix: string, s: Stage, outcome: Outcome, valid: seq<bool>,
                         file: seq<string>, offset: seq<nat>, exhausted: bool)
    requires |s.found| == |s.valid|
  {
    && (outcome == Success ==>
          && StageShows(crc, fs, s) && LevelsThere(s.found, s.valid) && !Deep(s.found, s.valid)
          && NextFrom(s.found, prefix, valid, file, offset))
    && (outcome == Failure ==>
          || SomeUnreadable(crc, fs, s.valid, s.file, s.offset)
          || (StageShows(crc, fs, s) && (!LevelsThere(s.found, s.valid) || HasBadRecord(s.found))))
    && (outcome == Aborted ==> StageShows(crc, fs, s) && Oversize(Sends(s.found), Right, Bits.Rounds(|s.found|)))
    && (outcome == Unmodelled ==> StageShows(crc, fs, s) && (exhausted || SomeKeyNoRank(s.found)))
  }

  /** What the outcome of the descent tells of the files read on the way. */
  ghost predicate MapTold(crc: Checksum, fs: FS, prefix: string, n: nat, depth: nat, first: Stage, trace: seq<Stage>,
                          outcome: Outcome, valid: seq<bool>, file: seq<string>, offset: seq<nat>) {
    && |trace| <= depth && Descent(crc, fs, prefix, n, trace)
    && (if depth == 0 then outcome == Unmodelled
        else
          && |trace| > 0 && trace[0].(found := first.found) == first
          && EndsAt(crc, fs, prefix, trace[|trace| - 1], outcome, valid, file, offset, |trace| == depth))
  }

  lemma OneStage(crc: Checksum, fs: FS, prefix: string, n: nat, depth: nat, s: Stage, outcome: Outcome,
                 valid: seq<bool>,
                 file: seq<string>, offset: seq<nat>)
    requires depth > 0 && Sized(s, n) && StepTold(crc, fs, s.valid, s.file, s.offset, s.found, outcome)
    requires outcome == Success ==>
               LevelsThere(s.found, s.valid) && !Deep(s.found, s.valid)
                   && NextFrom(s.found, prefix, valid, file, offset)
    ensures MapTold(crc, fs, prefix, n, depth, s, [s], outcome, valid, file, offset)
  {
  }

  lemma StageBefore(crc: Checksum, fs: FS, prefix: string, n: nat, depth: nat, s: Stage, next: Stage, rest: seq<Stage>,
                    outcome: Outcome, valid: seq<bool>, file: seq<string>, offset: seq<nat>, trace: seq<Stage>)
    requires depth > 0 && Sized(s, n) && LeadsTo(crc, fs, prefix, s, next) && trace == [s] + rest
    requires MapTold(crc, fs, prefix, n, depth - 1, next, rest, outcome, valid, file, offset)
    ensures MapTold(crc, fs, prefix, n, depth, s, trace, outcome, valid, file, offset)
  {
    DescentBefore(crc, fs, prefix, n, s, next, rest, trace);
    if rest == [] {
      assert trace == [s];
    } else {
      assert trace[|trace| - 1] == rest[|rest| - 1];
    }
  }

  lemma DescentBefore(crc: Checksum, fs: FS, prefix: string, n: nat, s: Stage, next: Stage, rest: seq<Stage>,
                      trace: seq<Stage>)
    requires Sized(s, n) && LeadsTo(crc, fs, prefix, s, next) && trace == [s] + rest
    requires Descent(crc, fs, prefix, n, rest) && (rest != [] ==> rest[0].(found := next.found) == next)
    ensures Descent(crc, fs, prefix, n, trace)
  {
    forall i, j | 0 <= i < |trace| && j == i + 1 < |trace|
      ensures LeadsTo(crc, fs, prefix, trace[i], trace[j])
    {
      if i > 0 {
        assert trace[i] == rest[i - 1] && trace[j] == rest[i];
        assert LeadsTo(crc, fs, prefix, rest[i - 1], rest[i]);
      } else {
        assert trace[j] == rest[0];
      }
    }
  }

  /** kvtree_read_scatter_map: down from the files of one level to those of level 0. */
  method ReadScatterMap(crc: Checksum, prefix: string, fs: FS, valid: seq<bool>, file: seq<string>, offset: seq<nat>,
                        n: nat, depth: nat,
                        ghost data: seq<Tree>, ghost tables: seq<seq<nat>>, ghost level: nat)
    returns (outcome: Outcome, valid': seq<bool>, file': seq<string>, offset': seq<nat>, ghost trace: seq<Stage>)
    requires n > 0 && |valid| == |file| == |offset| == n == |data|
    requires 1 <= level < |tables| && Ladder(tables, n)
    ensures |valid'| == |file'| == |offset'| == n
    ensures MapTold(crc, fs, prefix, n, depth, Stage(valid, file, offset, []), trace, outcome, valid', file', offset')
    ensures OnTrack(crc, prefix, fs, data, tables, level, valid, file, offset) && depth >= level ==>
              if NamesTooBigToPass(data, tables, level) then outcome == Aborted
              else outcome == Success && AtLevel(prefix, tables, n, 0, valid', file', offset')
    decreases depth
  {
    if depth == 0 {
      return Unmodelled, valid, file, offset, [];
    }
    OneLevelLower(data, tables, level);
    var levelId;
    ghost var found;
    outcome, levelId, valid', file', offset', found :=
      StepDown(crc, prefix, fs, valid, file, offset, n, data, tables, level);
    ghost var s := Stage(valid, file, offset, found);
    trace := [s];
    if outcome == Success && levelId > 1 {
      ghost var below := if level > 1 then level - 1 else level;
      ghost var next, rest := Stage(valid', file', offset', []), [];
      outcome, valid', file', offset', rest :=
        ReadScatterMap(crc, prefix, fs, valid', file', offset', n, depth - 1, data, tables, below);
      trace := [s] + rest;
      StageBefore(crc, fs, prefix, n, depth, s, next, rest, outcome, valid', file', offset', trace);
    } else {
      OneStage(crc, fs, prefix, n, depth, s, outcome, valid', file', offset');
    }
  }

  // ---------- the whole scatter ----------

  /** Merging what each source sent, one after the other. */
  ghost function JoinAll(t: Tree, es: seq<Elem>): Tree {
    if es == [] then t else Join(JoinAll(t, es[..|es| - 1]), Abs(es[|es| - 1].hash))
  }

  lemma {:induction false} JoinAllPaths(t: Tree, es: seq<Elem>, p: seq<string>)
    ensures HasPath(JoinAll(t, es), p) <==>
            HasPath(t, p) || exists i :: 0 <= i < |es| && HasPath(Abs(es[i].hash), p)
    decreases |es|
  {
    if es != [] {
      var last := |es| - 1;
      JoinAllPaths(t, es[..last], p);
      JoinIsUnionOfPaths(JoinAll(t, es[..last]), Abs(es[last].hash), p);
      if i :| 0 <= i < |es| && HasPath(Abs(es[i].hash), p) {
        assert i < last ==> es[..last][i] == es[i];
      }
    }
  }

  /** Every rank has, besides what it passed in, the paths of all records there are for it in the files read. */
  ghost predicate DataArrives(hashes: seq<Hash>, into: seq<Hash>, out: seq<Hash>) {
    && |hashes| == |into| == |out|
    && forall q: nat, p: seq<string> :: q < |out| ==>
         (HasPath(Abs(out[q]), p) <==> HasPath(Abs(into[q]), p) || SomeRecordHas(hashes, q, p))
  }

  ghost predicate SomeRecordHas(hashes: seq<Hash>, q: nat, p: seq<string>) {
    exists w: nat :: w < |hashes| && HasRecord(hashes, w, q) && HasPath(RecordFor(hashes, w, q), p)
  }

  lemma RecordsArrive(hashes: seq<Hash>, recv: seq<Hash>, q: nat, into: Tree, p: seq<string>)
    requires Received(recv, hashes) && q < |recv| && WF(recv[q])
    ensures HasPath(JoinAll(into, Elems(recv[q])), p) <==> HasPath(into, p) || SomeRecordHas(hashes, q, p)
  {
    var es := Elems(recv[q]);
    JoinAllPaths(into, es, p);
    if i :| 0 <= i < |es| && HasPath(Abs(es[i].hash), p) {
      AbsAt(es, i);
      WhatIsGot(hashes, recv, q, es[i].key);
    }
    if w: nat :| w < |hashes| && HasRecord(hashes, w, q) && HasPath(RecordFor(hashes, w, q), p) {
      WhatIsSent(hashes, recv, w, q);
      AbsLookup(es, Dec(w));
      assert HasPath(Abs(es[IndexOf(es, Dec(w))].hash), p);
    }
  }

  method MergeAll(data: Hash, recv: Hash) returns (r: Hash)
    requires data.Hash? && WF(data) && WF(recv)
    ensures r.Hash? && WF(r) && Abs(r) == JoinAll(Abs(data), Elems(recv))
  {
    r := data;
    var es := Elems(recv);
    for i := 0 to |es|
      invariant r.Hash? && WF(r) && Abs(r) == JoinAll(Abs(data), es[..i])
    {
      var _, merged := Merge(r, es[i].hash);
      assert es[..i + 1][..i] == es[..i];
      r := merged;
    }
    assert es[..|es|] == es;
  }

  ghost predicate RanksAre(hashes: seq<Hash>, valid: seq<bool>, n: nat)
    requires |hashes| == |valid|
  {
    forall r :: 0 <= r < |valid| && valid[r] ==> GetInt(hashes[r], "RANKS") == Some(n)
  }

  /** Are the numbers of ranks right? A missing number reads as 0. */
  method RanksMatch(hashes: seq<Hash>, valid: seq<bool>, n: nat) returns (ok: bool)
    requires |hashes| == |valid|
    ensures (forall r :: 0 <= r < |valid| && valid[r] ==> GetInt(hashes[r], "RANKS") == Some(n)) ==> ok
    ensures ok && n > 0 ==> RanksAre(hashes, valid, n)
  {
    for r := 0 to |valid|
      invariant n > 0 ==> forall i :: 0 <= i < r && valid[i] ==> GetInt(hashes[i], "RANKS") == Some(n)
    {
      var ranks := 0;
      if GetInt(hashes[r], "RANKS").Some? {
        ranks := GetInt(hashes[r], "RANKS").value;
      }
      if valid[r] && ranks != n {
        return false;
      }
    }
    return true;
  }

  /** Every rank has its own tree merged into what it passed in. */
  ghost predicate Merged(out: seq<Hash>, into: seq<Hash>, data: seq<Tree>) {
    && |out| == |into| == |data|
    && forall q :: 0 <= q < |data| ==> Abs(out[q]) == Join(Abs(into[q]), data[q])
  }

  /** Every reader reads its level 0 file, and checks its number of ranks. */
  method ReadLevelZero(crc: Checksum, prefix: string, fs: FS, valid: seq<bool>, file: seq<string>, offset: seq<nat>,
                       n: nat,
                       ghost data: seq<Tree>, ghost tables: seq<seq<nat>>)
    returns (ok: bool, hashes: seq<Hash>)
    requires n > 0 && |valid| == |file| == |offset| == n == |data|
    requires |tables| > 0 && forall l :: 0 <= l < |tables| ==> |tables[l]| == n
    ensures |hashes| == n && AllTrees(hashes)
    ensures ok ==> AllShow(crc, fs, valid, file, offset, hashes) && RanksAre(hashes, valid, n)
    ensures !ok ==> SomeUnreadable(crc, fs, valid, file, offset)
                    || (AllShow(crc, fs, valid, file, offset, hashes) && !RanksAre(hashes, valid, n))
    ensures OnTrack(crc, prefix, fs, data, tables, 0, valid, file, offset) ==>
              ok && AbsAll(hashes) == TreesAt(data, tables, 0)
  {
    ok, hashes := ReadAll(crc, fs, valid, file, offset, TreesAt(data, tables, 0));
    var match' := RanksMatch(hashes, valid, n);
    if OnTrack(crc, prefix, fs, data, tables, 0, valid, file, offset) {
      LevelOpens(crc, fs, prefix, data, tables, 0, valid, file, offset);
      LevelsAreThere(hashes, data, tables, 0);
    }
    ok := ok && match';
  }

  /** What the outcome of the last step tells of the level 0 files. */
  ghost predicate DataTold(crc: Checksum, fs: FS, n: nat, s: Stage, outcome: Outcome, into: seq<Hash>, out: seq<Hash>)
    requires |s.found| == |s.valid|
  {
    && (outcome == Success ==>
          StageShows(crc, fs, s) && RanksAre(s.found, s.valid, n) && DataArrives(s.found, into, out))
    && (outcome == Failure ==>
          || SomeUnreadable(crc, fs, s.valid, s.file, s.offset)
          || (StageShows(crc, fs, s) && !RanksAre(s.found, s.valid, n)))
    && (outcome == Aborted ==> StageShows(crc, fs, s) && Oversize(Sends(s.found), Right, Bits.Rounds(|s.found|)))
    && (outcome == Unmodelled ==> StageShows(crc, fs, s) && SomeKeyNoRank(s.found))
  }

  /** The last step: level 0 files to data. */
  method ReadData(crc: Checksum, prefix: string, fs: FS, valid: seq<bool>, file: seq<string>, offset: seq<nat>, n: nat,
                  into: seq<Hash>,
                  ghost data: seq<Tree>, ghost tables: seq<seq<nat>>)
    returns (outcome: Outcome, out: seq<Hash>, ghost found: seq<Hash>)
    requires n > 0 && |valid| == |file| == |offset| == n == |data| == |into| && AllTrees(into)
    requires Ladder(tables, n)
    ensures |out| == n == |found| && AllTrees(out)
    ensures outcome != Success ==> out == into
    ensures DataTold(crc, fs, n, Stage(valid, file, offset, found), outcome, into, out)
    ensures OnTrack(crc, prefix, fs, data, tables, 0, valid, file, offset) ==>
              if PassTooBig(data, tables, 0) then outcome == Aborted
              else outcome == Success && Merged(out, into, data)
  {
    out := into;
    LadderLengths(tables, n, 0);
    ghost var good := OnTrack(crc, prefix, fs, data, tables, 0, valid, file, offset);
    var ok, hashes := ReadLevelZero(crc, prefix, fs, valid, file, offset, n, data, tables);
    found := hashes;
    if !ok {
      return Failure, into, found;
    }
    var recv;
    outcome, recv := PassLevel(hashes, n, data, tables, 0);
    if outcome != Success {
      return;
    }
    out := MergeEach(into, recv, n, if good then data else AbsAll(recv), tables[0], good, hashes);
  }

  method MergeEach(into: seq<Hash>, recv: seq<Hash>, n: nat, ghost data: seq<Tree>, ghost table: seq<nat>,
                   ghost good: bool, ghost hashes: seq<Hash>) returns (out: seq<Hash>)
    requires |into| == |recv| == n == |data| == |table| && AllTrees(into) && AllTrees(recv)
    requires good ==> forall q :: 0 <= q < n ==> Abs(recv[q]) == Single(Dec(table[q]), data[q])
    requires Received(recv, hashes)
    ensures |out| == n && AllTrees(out)
    ensures DataArrives(hashes, into, out)
    ensures good ==> Merged(out, into, data)
  {
    out := [];
    for q := 0 to n
      invariant |out| == q && AllTrees(out)
      invariant forall i :: 0 <= i < q ==> Abs(out[i]) == JoinAll(Abs(into[i]), Elems(recv[i]))
      invariant good ==> forall i :: 0 <= i < q ==> Abs(out[i]) == Join(Abs(into[i]), data[i])
    {
      var r := MergeAll(into[q], recv[q]);
      if good {
        OneKidOneElem(recv[q], Dec(table[q]), data[q]);
        var es := Elems(recv[q]);
        assert es[..0] == [];
        assert JoinAll(Abs(into[q]), es) == Join(JoinAll(Abs(into[q]), es[..0]), Abs(es[0].hash));
      }
      out := out + [r];
    }
    AllRecordsArrive(hashes, recv, into, out);
  }

  lemma AllRecordsArrive(hashes: seq<Hash>, recv: seq<Hash>, into: seq<Hash>, out: seq<Hash>)
    requires Received(recv, hashes) && |recv| == |into| == |out| && AllTrees(recv)
    requires forall q :: 0 <= q < |out| ==> Abs(out[q]) == JoinAll(Abs(into[q]), Elems(recv[q]))
    ensures DataArrives(hashes, into, out)
  {
    forall q: nat, p: seq<string> | q < |out|
      ensures HasPath(Abs(out[q]), p) <==> HasPath(Abs(into[q]), p) || SomeRecordHas(hashes, q, p)
    {
      RecordsArrive(hashes, recv, q, Abs(into[q]), p);
    }
  }

  /** What the outcome of kvtree_read_scatter tells of the files. The way down begins with rank 0 at the prefix and goes
      from each level to where its files lead. It ends in a failure only where a file cannot be read, lacks its level,
      has a bad record or, at level 0, another number of ranks; it succeeds only if none of that is so anywhere on the
      way, and then every rank has exactly what the level 0 files have for it. */
  ghost predicate ScatterTold(crc: Checksum, fs: FS, prefix: string, n: nat, depth: nat, trace: seq<Stage>, last: Stage,
                              outcome: Outcome, into: seq<Hash>, out: seq<Hash>) {
    && Sized(last, n) && Descent(crc, fs, prefix, n, trace)
    && (depth > 0 ==> |trace| > 0 && StartsAtRoot(trace[0], prefix))
    && if |trace| == 0 then outcome == Unmodelled
       else
         var end := trace[|trace| - 1];
         || (EndsAt(crc, fs, prefix, end, Success, last.valid, last.file, last.offset, |trace| == depth)
             && DataTold(crc, fs, n, last, outcome, into, out))
         || (outcome != Success
             && EndsAt(crc, fs, prefix, end, outcome, last.valid, last.file, last.offset, |trace| == depth))
  }

  /** Rank 0 reads at the prefix, nobody else reads. */
  ghost predicate StartsAtRoot(s: Stage, prefix: string) {
    && |s.valid| > 0 && |s.file| > 0 && |s.offset| > 0
    && (forall q :: 0 <= q < |s.valid| ==> (s.valid[q] <==> q == 0)) && s.file[0] == prefix && s.offset[0] == 0
  }

  /** A file that is there, and whose bytes from the offset on are none or are intact. */
  ghost predicate GoodFile(crc: Checksum, fs: FS, path: string, offset: nat) {
    path in fs && (FromOffset(fs[path], offset) == ""
        || exists size: nat :: Intact(crc, FromOffset(fs[path], offset), size))
  }

  lemma ReadsGoodFiles(crc: Checksum, fs: FS, path: string, offset: nat)
    requires CanRead(crc, fs, path, offset)
    ensures GoodFile(crc, fs, path, offset)
  {
    ReadsOnlyIntact(crc, FromOffset(fs[path], offset));
  }

  /** If kvtree_read_scatter succeeds, every file read on the way was there and good, and says its level. */
  lemma WayReadsGoodFiles(crc: Checksum, fs: FS, prefix: string, n: nat, depth: nat, trace: seq<Stage>, last: Stage,
                          into: seq<Hash>, out: seq<Hash>, i: nat, r: nat)
    requires ScatterTold(crc, fs, prefix, n, depth, trace, last, Success, into, out)
    requires i < |trace| && r < n && |trace[i].valid| == n && trace[i].valid[r]
    ensures Sized(trace[i], n) && GoodFile(crc, fs, trace[i].file[r], trace[i].offset[r])
    ensures GetInt(trace[i].found[r], "LEVEL").Some?
  {
    if i + 1 < |trace| {
      assert LeadsTo(crc, fs, prefix, trace[i], trace[i + 1]);
    }
    assert StageShows(crc, fs, trace[i]) && LevelsThere(trace[i].found, trace[i].valid);
    ReadsGoodFiles(crc, fs, trace[i].file[r], trace[i].offset[r]);
  }

  /** And every level 0 file was there and good, and says the right number of ranks. */
  lemma DataReadsGoodFiles(crc: Checksum, fs: FS, prefix: string, n: nat, depth: nat, trace: seq<Stage>, last: Stage,
                           into: seq<Hash>, out: seq<Hash>, r: nat)
    requires ScatterTold(crc, fs, prefix, n, depth, trace, last, Success, into, out)
    requires r < n && |last.valid| == n && last.valid[r]
    ensures Sized(last, n) && GoodFile(crc, fs, last.file[r], last.offset[r])
    ensures GetInt(last.found[r], "RANKS") == Some(n)
  {
    assert StageShows(crc, fs, last);
    ReadsGoodFiles(crc, fs, last.file[r], last.offset[r]);
  }

  /** Whatever does not end in a failure has read the root. */
  lemma RootFirst(crc: Checksum, fs: FS, prefix: string, n: nat, depth: nat, start: Stage, trace: seq<Stage>,
                  outcome: Outcome, valid: seq<bool>, file: seq<string>, offset: seq<nat>)
    requires depth > 0 ==> StartsAtRoot(start, prefix)
    requires MapTold(crc, fs, prefix, n, depth, start, trace, outcome, valid, file, offset)
    ensures depth > 0 ==> |trace| > 0 && StartsAtRoot(trace[0], prefix)
    ensures depth > 0 && !CanRead(crc, fs, prefix, 0) ==> outcome == Failure
  {
    if depth > 0 && outcome != Failure {
      if |trace| > 1 {
        assert LeadsTo(crc, fs, prefix, trace[0], trace[1]);
      }
      assert StageShows(crc, fs, trace[0]);
    }
  }

  /** kvtree_read_scatter on all ranks: from a complete set of files, every rank gets its own tree merged into
      what it passed in, unless a message is too large. */
  method ReadScatter(crc: Checksum, prefix: string, fs: FS, into: seq<Hash>, n: nat, depth: nat,
                     ghost data: seq<Tree>, ghost tables: seq<seq<nat>>)
    returns (outcome: Outcome, out: seq<Hash>, ghost trace: seq<Stage>, ghost last: Stage)
    requires n > 0 && |into| == n == |data| && AllTrees(into)
    requires Ladder(tables, n)
    ensures |out| == n && AllTrees(out)
    ensures outcome != Success ==> out == into
    ensures ScatterTold(crc, fs, prefix, n, depth, trace, last, outcome, into, out)
    ensures depth > 0 && !CanRead(crc, fs, prefix, 0) ==> outcome == Failure
    ensures depth > 0 && prefix !in fs ==> outcome == Failure
    ensures depth > 0 && prefix in fs && fs[prefix] != "" && (forall size: nat :: !Intact(crc, fs[prefix], size)) ==>
              outcome == Failure
    ensures Stored(crc, fs, prefix, data, tables) && depth >= |tables| - 1 ==>
              if TooBigToPass(data, tables) then outcome == Aborted
              else outcome == Success && Merged(out, into, data)
  {
    ghost var top := |tables| - 1;
    var valid, file, offset := StartAtTop(prefix, n, tables);
    ghost var start := Stage(valid, file, offset, []);
    outcome, valid, file, offset, trace :=
      ReadScatterMap(crc, prefix, fs, valid, file, offset, n, depth, data, tables, top);
    ghost var way, v, f, o := outcome, valid, file, offset;
    out, last := into, Stage(valid, file, offset, seq(n, _ => Null));
    ghost var found;
    if outcome == Success {
      outcome, out, found := ReadData(crc, prefix, fs, valid, file, offset, n, into, data, tables);
      last := Stage(valid, file, offset, found);
    }
    RootFirst(crc, fs, prefix, n, depth, start, trace, way, v, f, o);
    if CanRead(crc, fs, prefix, 0) {
      ReadsGoodFiles(crc, fs, prefix, 0);
    }
  }

  /** Rank 0 is the only reader to start with. */
  method StartAtTop(prefix: string, n: nat, ghost tables: seq<seq<nat>>)
    returns (valid: seq<bool>, file: seq<string>, offset: seq<nat>)
    requires Ladder(tables, n)
    ensures |valid| == |file| == |offset| == n
    ensures n > 0 ==> StartsAtRoot(Stage(valid, file, offset, []), prefix)
    ensures AtLevel(prefix, tables, n, |tables| - 1, valid, file, offset)
  {
    valid := seq(n, q => q == 0);
    file := seq(n, q => prefix);
    offset := seq(n, q => 0);
    TopIsRankZero(tables, n);
    assert valid == Selfs(tables[|tables| - 1]);
    assert prefix + "" == prefix;
  }

  lemma TopIsRankZero(tables: seq<seq<nat>>, n: nat)
    requires Ladder(tables, n)
    ensures |tables[|tables| - 1]| == n && OnlyRankZero(tables[|tables| - 1])
  {
  }

  lemma {:induction false} LightScatterFits(items: seq<Tree>, valid: seq<bool>, table: seq<nat>, sent: seq<Tree>,
                                            rounds: nat)
    requires |items| == |valid| == |table| == |sent| <= INT_MAX && Room(items, 42, |items|) <= INT_MAX
    requires forall q :: 0 <= q < |table| ==> table[q] < |table|
    requires forall w :: 0 <= w < |sent| ==> sent[w] == Gathered(items, valid, table, w) || sent[w] == EMPTY
    ensures !Oversize(sent, Right, rounds)
  {
    var ps := seq(|items|, q requires 0 <= q < |items| => Parcel(Dec(q), Dec(table[q]), items[q]));
    forall q | 0 <= q < |items|
      ensures |ps[q].dest| <= 10 && |ps[q].source| <= 10
    {
      DecIsShort(table[q]);
      DecIsShort(q);
    }
    forall r, dk | 0 <= r < |sent| && dk in sent[r].kids
      ensures Parcel(dk, Dec(r), sent[r].kids[dk]) in ps
    {
      assert IsRank(dk, |items|) && ps[Atoi(dk)] == Parcel(dk, Dec(r), sent[r].kids[dk]);
    }
    LightFits(items, ps, sent, Right, rounds);
  }

  lemma LightPassFits(data: seq<Tree>, tables: seq<seq<nat>>, l: nat)
    requires Light(data) && 0 < |data| <= INT_MAX && Ladder(tables, |data|) && l < |tables| <= |data| + 2
    ensures !PassTooBig(data, tables, l)
  {
    LadderLengths(tables, |data|, l);
    if l > 0 { LightNames(data, l - 1); } else { LightData(data); }
    LightLevelPasses(data, tables, l, ItemsAt(data, l));
  }

  lemma LightLevelPasses(data: seq<Tree>, tables: seq<seq<nat>>, l: nat, items: seq<Tree>)
    requires l < |tables| && (forall i :: 0 <= i < |tables| ==> |tables[i]| == |data|) && |data| <= INT_MAX
    requires items == ItemsAt(data, l) && Room(items, 42, |items|) <= INT_MAX
    requires forall q :: 0 <= q < |data| ==> tables[l][q] < |data|
    ensures !Oversize(Passed(data, tables, l), Right, Bits.Rounds(|data|))
  {
    LightScatterFits(items, ValidAt(tables, l, |data|), tables[l], Passed(data, tables, l), Bits.Rounds(|data|));
  }

  lemma {:induction false} LightNamesPass(data: seq<Tree>, tables: seq<seq<nat>>, l: nat)
    requires Light(data) && 0 < |data| <= INT_MAX && Ladder(tables, |data|) && l < |tables| <= |data| + 2
    ensures !NamesTooBigToPass(data, tables, l)
  {
    if l > 0 {
      LightPassFits(data, tables, l);
      LightNamesPass(data, tables, l - 1);
    }
  }

  /** With all data together well below the largest message, a scatter does not give up. */
  lemma LightScatterSucceeds(data: seq<Tree>, tables: seq<seq<nat>>)
    requires Light(data) && 0 < |data| <= INT_MAX && Ladder(tables, |data|) && |tables| <= |data| + 2
    ensures !TooBigToPass(data, tables)
  {
    LightPassFits(data, tables, 0);
    LightNamesPass(data, tables, |tables| - 1);
  }

  /** Gather, then scatter into empty trees: every rank gets back exactly its own tree, whatever the number of
      ranks, the trees and the number of levels. It cannot fail; it gives up exactly when a message or a file is
      too large, and never when all data together is well below the largest message. */
  method GatherThenScatter(crc: Checksum, prefix: string, data: seq<Hash>, fs: FS)
    returns (outcome: Outcome, out: seq<Hash>, ghost tables: seq<seq<nat>>)
    requires 0 < |data| <= INT_MAX && AllWF(data)
    requires forall r :: 0 <= r < |data| ==> CountsOk(data[r])
    ensures outcome == Success || outcome == Aborted
    ensures outcome == Success ==> |out| == |data| && AllWF(out) && AbsAll(out) == AbsAll(data)
    ensures TablesFor(AbsAll(data), tables)
    ensures outcome == Aborted <==>
            || DataTooBig(AbsAll(data), tables[0])
            || SomeMapTooBig(tables, 0)
            || TooBigToPass(AbsAll(data), tables)
    ensures Light(AbsAll(data)) ==> outcome == Success
  {
    var written;
    written, tables := WriteGather(crc, prefix, data, fs);
    ghost var light := Light(AbsAll(data));
    if light {
      LightGatherSucceeds(AbsAll(data), tables);
    }
    if written.None? {
      return Aborted, [], tables;
    }
    var n := |data|;
    var empties := Empties(n);
    DepthWithinRanks(tables, n);
    if light {
      LightScatterSucceeds(AbsAll(data), tables);
    }
    ghost var trace, last;
    outcome, out, trace, last := ReadScatter(crc, prefix, written.value, empties, n, n + 1, AbsAll(data), tables);
    if outcome == Success {
      MergedIntoEmpty(out, empties, data);
    }
  }

  lemma MergedIntoEmpty(out: seq<Hash>, into: seq<Hash>, data: seq<Hash>)
    requires |data| == |into| && Merged(out, into, AbsAll(data))
    requires forall q :: 0 <= q < |into| ==> Abs(into[q]) == EMPTY
    ensures AbsAll(out) == AbsAll(data)
  {
    forall q | 0 <= q < |data|
      ensures AbsAll(out)[q] == AbsAll(data)[q]
    {
      JoinEmpty(Abs(data[q]));
    }
  }

  lemma DepthWithinRanks(tables: seq<seq<nat>>, n: nat)
    requires Ladder(tables, n)
    ensures |tables| - 1 <= n + 1
  {
    DepthIsLogarithmic(tables, n);
    if Bits.Rounds(n) > 0 {
      assert Bits.Pow2(Bits.Rounds(n) - 1) < n;
    }
  }
}
