/** pick_writer: which rank writes for which, from the byte counts of all ranks. */
module Writers {
  import opened Trees
  import opened Bits

  const SEGSIZE: nat := 1024 * 1024

  /** The bytes of the first r ranks: the exclusive MPI_Scan. */
  function Offset(counts: seq<nat>, r: nat): nat
    requires r <= |counts|
  {
    if r == 0 then 0 else Offset(counts, r - 1) + counts[r - 1]
  }

  /** Rank r starts a segment: it is rank 0, or its bytes run over the end of the segment they begin in. */
  predicate StartsNew(counts: seq<nat>, r: nat)
    requires r < |counts|
  {
    r == 0 || (counts[r] > 0 && Offset(counts, r) + counts[r] - 1 > (Offset(counts, r) / SEGSIZE + 1) * SEGSIZE - 1)
  }

  /** The triple a rank passes on: starts seen, ranks since the nearest start (inclusive), that start. */
  datatype Triple = Triple(count: nat, ranks: nat, rank: Option<nat>)

  // ---------- windows of ranks ----------

  /** The last start in [lo, hi]. */
  function LastStart(starts: seq<bool>, lo: nat, hi: nat): (r: Option<nat>)
    requires lo <= hi < |starts|
    ensures r.Some? ==> lo <= r.value <= hi && starts[r.value] && forall j :: r.value < j <= hi ==> !starts[j]
    ensures r.None? ==> forall j :: lo <= j <= hi ==> !starts[j]
    decreases hi - lo
  {
    if starts[hi] then Some(hi) else if lo == hi then None else LastStart(starts, lo, hi - 1)
  }

  function CountStarts(starts: seq<bool>, lo: nat, hi: nat): nat
    requires lo <= hi < |starts|
    decreases hi - lo
  {
    (if starts[hi] then 1 else 0) + (if lo == hi then 0 else CountStarts(starts, lo, hi - 1))
  }

  /** What the triple of rank hi says about the window [lo, hi]. */
  function Window(starts: seq<bool>, lo: nat, hi: nat): Triple
    requires lo <= hi < |starts|
  {
    var last := LastStart(starts, lo, hi);
    Triple(CountStarts(starts, lo, hi), if last.Some? then hi - last.value + 1 else hi - lo + 1, last)
  }

  /** Merging the data of a left partner into ours. */
  function Absorb(mine: Triple, left: Triple): Triple {
    if mine.rank.None? then Triple(mine.count + left.count, mine.ranks + left.ranks, left.rank)
    else mine.(count := mine.count + left.count)
  }

  /** Two adjacent windows make one. */
  lemma {:induction false} WindowsJoin(starts: seq<bool>, lo: nat, mid: nat, hi: nat)
    requires lo <= mid < hi < |starts|
    ensures Absorb(Window(starts, mid + 1, hi), Window(starts, lo, mid)) == Window(starts, lo, hi)
    decreases hi
  {
    if mid + 1 < hi {
      WindowsJoin(starts, lo, mid, hi - 1);
    }
  }

  /** The first rank a rank has heard of after k doublings. */
  function Reach(r: nat, k: nat): nat {
    if r + 1 < Pow2(k) then 0 else r + 1 - Pow2(k)
  }

  lemma DoublingStep(starts: seq<bool>, r: nat, k: nat)
    requires r < |starts|
    ensures Window(starts, Reach(r, k + 1), r) ==
            if r >= Pow2(k) then
                Absorb(Window(starts, Reach(r, k), r), Window(starts, Reach(r - Pow2(k), k), r - Pow2(k)))
            else Window(starts, Reach(r, k), r)
  {
    if r >= Pow2(k) {
      WindowsJoin(starts, Reach(r, k + 1), r - Pow2(k), r);
    }
  }

  ghost function Starts(counts: seq<nat>): (s: seq<bool>)
    ensures |s| == |counts| && forall r :: 0 <= r < |s| ==> s[r] == StartsNew(counts, r)
  {
    seq(|counts|, r requires 0 <= r < |counts| => StartsNew(counts, r))
  }

  /** w is the greatest start not after r. */
  ghost predicate WritesFor(counts: seq<nat>, w: nat, r: nat) {
    && w <= r < |counts|
    && StartsNew(counts, w)
    && forall j :: w < j <= r ==> !StartsNew(counts, j)
  }

  /** Every rank has its writer. */
  ghost predicate AllWriters(counts: seq<nat>, writer: seq<nat>) {
    |writer| == |counts| && forall r :: 0 <= r < |counts| ==> WritesFor(counts, writer[r], r)
  }

  /** MPI_Scan with MPI_SUM, then the start test, on every rank. */
  method FindStarts(counts: seq<nat>) returns (starts: seq<bool>)
    ensures starts == Starts(counts)
  {
    starts := [];
    var offset := 0;
    for rank := 0 to |counts|
      invariant |starts| == rank && offset == Offset(counts, rank)
      invariant forall r :: 0 <= r < rank ==> starts[r] == StartsNew(counts, r)
    {
      var startsNew := false;
      if rank == 0 {
        startsNew := true;
      } else if counts[rank] > 0 {
        var segIndex := offset / SEGSIZE;
        var segLastByte := (segIndex + 1) * SEGSIZE - 1;
        var myLastByte := offset + counts[rank] - 1;
        if myLastByte > segLastByte {
          startsNew := true;
        }
      }
      starts := starts + [startsNew];
      offset := offset + counts[rank];
    }
  }

  /** One round of the scan on all ranks: everyone hears from the rank `step` to the left. */
  method ScanRound(send: seq<Triple>, step: nat, ghost starts: seq<bool>, ghost k: nat) returns (next: seq<Triple>)
    requires |send| == |starts| && step == Pow2(k)
    requires forall r :: 0 <= r < |starts| ==> send[r] == Window(starts, Reach(r, k), r)
    ensures |next| == |starts|
    ensures forall r :: 0 <= r < |starts| ==> next[r] == Window(starts, Reach(r, k + 1), r)
  {
    next := [];
    for rank := 0 to |send|
      invariant |next| == rank
      invariant forall r :: 0 <= r < rank ==> next[r] == Window(starts, Reach(r, k + 1), r)
    {
      var mine := send[rank];
      if rank >= step {
        var recv := send[rank - step];
        mine := mine.(count := mine.count + recv.count);
        if mine.rank.None? {
          mine := mine.(ranks := mine.ranks + recv.ranks, rank := recv.rank);
        }
      }
      DoublingStep(starts, rank, k);
      next := next + [mine];
    }
  }

  /** The segmented scan by pointer doubling, on all ranks. */
  method Scan(starts: seq<bool>) returns (send: seq<Triple>)
    ensures |send| == |starts|
    ensures forall r :: 0 <= r < |starts| ==> send[r] == Window(starts, 0, r)
  {
    var n := |starts|;
    send := seq(n, r requires 0 <= r < n => Triple(if starts[r] then 1 else 0, 1, if starts[r] then Some(r) else None));
    var step := 1;
    ghost var k := 0;
    while step < n
      invariant step == Pow2(k) && |send| == n
      invariant forall r :: 0 <= r < n ==> send[r] == Window(starts, Reach(r, k), r)
      decreases n - step
    {
      send := ScanRound(send, step, starts, k);
      step, k := step * 2, k + 1;
    }
    assert forall r :: 0 <= r < n ==> Reach(r, k) == 0;
  }

  /** pick_writer on all ranks: everyone's writer is the greatest start not after it, and the flag the last
      rank broadcasts says whether rank 0 writes for all. */
  method PickWriter(counts: seq<nat>) returns (writer: seq<nat>, allRanks: bool)
    requires |counts| > 0
    ensures AllWriters(counts, writer)
    ensures allRanks <==> forall r :: 0 <= r < |counts| ==> writer[r] == 0
  {
    var starts := FindStarts(counts);
    var send := Scan(starts);
    var n := |counts|;
    forall r | 0 <= r < n
      ensures send[r].rank.Some? && WritesFor(counts, send[r].rank.value, r)
      ensures send[r].ranks == r - send[r].rank.value + 1
    {
      WindowFromZero(counts, r);
    }
    writer := seq(n, r requires 0 <= r < n => send[r].rank.value);
    allRanks := send[n - 1].ranks == n;
    LastDecides(counts, writer);
  }

  lemma WindowFromZero(counts: seq<nat>, r: nat)
    requires r < |counts|
    ensures var t := Window(Starts(counts), 0, r);
            t.rank.Some? && WritesFor(counts, t.rank.value, r) && t.ranks == r - t.rank.value + 1
  {
    var s := Starts(counts);
    assert s[0];
  }

  /** Writers never decrease with rank, so the last rank's writer being 0 settles it for all. */
  lemma LastDecides(counts: seq<nat>, writer: seq<nat>)
    requires |counts| > 0 && AllWriters(counts, writer)
    ensures writer[|counts| - 1] == 0 <==> forall r :: 0 <= r < |counts| ==> writer[r] == 0
  {
    var last := |counts| - 1;
    assert WritesFor(counts, writer[last], last);
    if writer[last] == 0 {
      forall r | 0 <= r < |counts|
        ensures writer[r] == 0
      {
        assert WritesFor(counts, writer[r], r);
      }
    }
  }

  /** A rank's writer is its own writer: writers are exactly the starts. */
  lemma WriterWritesForItself(counts: seq<nat>, writer: seq<nat>, r: nat)
    requires AllWriters(counts, writer) && r < |counts|
    ensures writer[r] <= r && writer[writer[r]] == writer[r]
    ensures writer[r] == r <==> StartsNew(counts, r)
    ensures writer[0] == 0
  {
    assert WritesFor(counts, writer[r], r);
    var w := writer[r];
    assert WritesFor(counts, writer[w], w);
    assert WritesFor(counts, writer[0], 0);
  }

  // ---------- how many writers, how much per writer ----------

  function Total(counts: seq<nat>): nat {
    Offset(counts, |counts|)
  }

  function NumStarts(counts: seq<nat>, r: nat): nat
    requires r <= |counts|
  {
    if r == 0 then 0 else NumStarts(counts, r - 1) + (if StartsNew(counts, r - 1) then 1 else 0)
  }

  function Boundaries(bytes: nat): nat {
    if bytes == 0 then 0 else (bytes - 1) / SEGSIZE
  }

  /** Each writer after the first uses up a segment boundary of its own. */
  lemma {:induction false} WritersUseBoundaries(counts: seq<nat>, r: nat)
    requires 0 < r <= |counts|
    ensures NumStarts(counts, r) <= 1 + Boundaries(Offset(counts, r))
  {
    if r > 1 {
      WritersUseBoundaries(counts, r - 1);
      BoundaryStep(Offset(counts, r - 1), counts[r - 1]);
    } else {
      assert NumStarts(counts, 0) == 0;
    }
  }

  lemma BoundaryStep(offset: nat, count: nat)
    ensures Boundaries(offset) <= Boundaries(offset + count)
    ensures count > 0 && offset + count - 1 > (offset / SEGSIZE + 1) * SEGSIZE - 1 ==>
              Boundaries(offset) + 1 <= Boundaries(offset + count)
  {
  }

  /** With T > 0 bytes in all there are at most 1 + (T - 1) / segsize writers. */
  lemma WriterCount(counts: seq<nat>)
    requires |counts| > 0 && Total(counts) > 0
    ensures NumStarts(counts, |counts|) <= 1 + (Total(counts) - 1) / SEGSIZE
  {
    WritersUseBoundaries(counts, |counts|);
  }

  function NumNonEmpty(counts: seq<nat>, r: nat): nat
    requires r <= |counts|
  {
    if r == 0 then 0 else NumNonEmpty(counts, r - 1) + (if counts[r - 1] > 0 then 1 else 0)
  }

  lemma {:induction false} SmallTotal(counts: seq<nat>, r: nat)
    requires r <= |counts| && forall i :: 0 <= i < |counts| ==> counts[i] <= SEGSIZE / 2
    ensures Offset(counts, r) <= NumNonEmpty(counts, r) * (SEGSIZE / 2)
  {
    if r > 0 {
      SmallTotal(counts, r - 1);
    }
  }

  /** When no rank has more than half a segment, m non-empty ranks (rank 0 among them) get at most ceil(m/2) writers. */
  lemma WritersHalve(counts: seq<nat>)
    requires |counts| > 0 && counts[0] > 0
    requires forall i :: 0 <= i < |counts| ==> counts[i] <= SEGSIZE / 2
    ensures NumStarts(counts, |counts|) <= (NumNonEmpty(counts, |counts|) + 1) / 2
  {
    WritersUseBoundaries(counts, |counts|);
    SmallTotal(counts, |counts|);
    SomeNonEmpty(counts, |counts|);
  }

  lemma {:induction false} SomeNonEmpty(counts: seq<nat>, r: nat)
    requires 0 < r <= |counts| && counts[0] > 0
    ensures NumNonEmpty(counts, r) > 0 && Offset(counts, r) > 0
  {
    if r > 1 {
      SomeNonEmpty(counts, r - 1);
    } else {
      assert NumNonEmpty(counts, 0) == 0;
    }
  }

  /** Non-empty ranks in (head, r] whose bytes begin exactly on a positive multiple of the segment size. */
  function Aligned(counts: seq<nat>, head: nat, r: nat): nat
    requires head <= r < |counts|
    decreases r
  {
    if r == head then 0
    else Aligned(counts, head, r - 1)
         + (if counts[r] > 0 && Offset(counts, r) > 0 && Offset(counts, r) % SEGSIZE == 0 then 1 else 0)
  }

  lemma {:induction false} GroupEnd(counts: seq<nat>, head: nat, r: nat)
    requires WritesFor(counts, head, r)
    ensures var x, y := Offset(counts, head + 1), Offset(counts, r + 1);
            x <= y && (x < y ==> y <= (x / SEGSIZE + 1 + Aligned(counts, head, r)) * SEGSIZE)
    decreases r
  {
    if r > head {
      GroupEnd(counts, head, r - 1);
      assert !StartsNew(counts, r);
      StaysInSegment(Offset(counts, head + 1), Offset(counts, r), counts[r], Aligned(counts, head, r - 1));
    }
  }

  /** The bytes a writer takes on for others grow past a segment only at ranks that begin on a boundary. */
  lemma GroupSize(counts: seq<nat>, head: nat, r: nat)
    requires WritesFor(counts, head, r)
    ensures Offset(counts, head + 1) <= Offset(counts, r + 1)
    ensures Offset(counts, r + 1) - Offset(counts, head + 1) <= (1 + Aligned(counts, head, r)) * SEGSIZE
  {
    GroupEnd(counts, head, r);
  }

  lemma StaysInSegment(x: nat, offset: nat, count: nat, aligned: nat)
    requires x <= offset && (x < offset ==> offset <= (x / SEGSIZE + 1 + aligned) * SEGSIZE)
    requires count > 0 ==> offset + count <= (offset / SEGSIZE + 1) * SEGSIZE
    ensures var a := if count > 0 && offset > 0 && offset % SEGSIZE == 0 then aligned + 1 else aligned;
            x < offset + count ==> offset + count <= (x / SEGSIZE + 1 + a) * SEGSIZE
  {
  }

  // ---------- equal sizes ----------

  function Uniform(n: nat, c: nat): (s: seq<nat>)
    ensures |s| == n
  {
    seq(n, _ => c)
  }

  lemma {:induction false} UniformOffset(n: nat, c: nat, r: nat)
    requires r <= n
    ensures Offset(Uniform(n, c), r) == r * c
  {
    if r > 0 {
      UniformOffset(n, c, r - 1);
    }
  }

  /** What a writer takes on for others, its own bytes left out, stays within a segment. */
  ghost predicate OthersWithin(counts: seq<nat>, head: nat, r: nat)
    requires head <= r < |counts|
  {
    Offset(counts, r + 1) - Offset(counts, head + 1) <= SEGSIZE
  }

  ghost predicate UniformOthersWithin(c: nat) {
    forall n: nat, head: nat, r: nat :: WritesFor(Uniform(n, c), head, r) ==> OthersWithin(Uniform(n, c), head, r)
  }

  /** With equal non-empty sizes, what writers take on for others stays within a segment for every number of ranks if
      and only if one rank alone is larger than a segment: then no rank has another to write for. */
  lemma UniformOthersExact(c: nat)
    requires c > 0
    ensures UniformOthersWithin(c) <==> c > SEGSIZE
  {
    if c > SEGSIZE {
      forall n: nat, head: nat, r: nat | WritesFor(Uniform(n, c), head, r)
        ensures OthersWithin(Uniform(n, c), head, r)
      {
        LargeStandAlone(n, c, r);
      }
    } else {
      var n, head, r := Overloaded(c);
      assert WritesFor(Uniform(n, c), head, r) && !OthersWithin(Uniform(n, c), head, r);
    }
  }

  lemma LargeStandAlone(n: nat, c: nat, r: nat)
    requires r < n && c > SEGSIZE
    ensures StartsNew(Uniform(n, c), r)
  {
    UniformOffset(n, c, r);
    PastSegment(r * c, c);
  }

  lemma PastSegment(x: nat, c: nat)
    requires c > SEGSIZE
    ensures x + c - 1 > (x / SEGSIZE + 1) * SEGSIZE - 1
  {
  }

  /** Ranks that end or begin near the boundary at 2c segments start no segment of their own. */
  lemma NearBoundary(c: nat, x: nat)
    requires 0 < c && (2 * SEGSIZE * c <= x || x + c <= 2 * SEGSIZE * c)
    requires 2 * SEGSIZE * c <= x + SEGSIZE && x + c <= 2 * SEGSIZE * c + SEGSIZE
    ensures x + c - 1 <= (x / SEGSIZE + 1) * SEGSIZE - 1
  {
    var b := 2 * c;
    assert 2 * SEGSIZE * c == SEGSIZE * b;
    if SEGSIZE * b <= x {
      QuotientAtLeast(x, b);
    } else {
      QuotientAtLeast(x, b - 1);
    }
  }

  lemma QuotientAtLeast(x: nat, b: nat)
    requires SEGSIZE * b <= x
    ensures (x / SEGSIZE + 1) * SEGSIZE >= SEGSIZE * b + SEGSIZE
  {
  }

  /** A group that takes on more than a segment, for any size up to a segment: the ranks before and after the
      boundary at 2c segments, which falls between two ranks. */
  lemma Overloaded(c: nat) returns (n: nat, head: nat, r: nat)
    requires 0 < c <= SEGSIZE
    ensures WritesFor(Uniform(n, c), head, r) && !OthersWithin(Uniform(n, c), head, r)
  {
    var m := HowMany(c);
    n, r := 2 * SEGSIZE + m, 2 * SEGSIZE + m - 1;
    var counts := Uniform(n, c);
    assert Starts(counts)[0];
    head := LastStart(Starts(counts), 0, r).value;
    forall j | 2 * SEGSIZE - m <= j <= r
      ensures !StartsNew(counts, j)
    {
      NoStartNear(n, c, m, j);
    }
    assert head < 2 * SEGSIZE - m;
    UniformOffset(n, c, r + 1);
    UniformOffset(n, c, head + 1);
    FarApart(c, m, head, r);
  }

  lemma HowMany(c: nat) returns (m: nat)
    requires 0 < c <= SEGSIZE
    ensures m * c <= SEGSIZE < m * c + c && 1 <= m <= SEGSIZE
  {
    m := SEGSIZE / c;
    assert SEGSIZE == m * c + SEGSIZE % c;
    TimesOrder(1, c, m);
  }

  lemma NoStartNear(n: nat, c: nat, m: nat, j: nat)
    requires 0 < c && m * c <= SEGSIZE && m <= SEGSIZE && 2 * SEGSIZE - m <= j < 2 * SEGSIZE + m && j < n
    ensures !StartsNew(Uniform(n, c), j)
  {
    UniformOffset(n, c, j);
    NearMiddle(c, m, j);
    NearBoundary(c, j * c);
  }

  lemma NearMiddle(c: nat, m: nat, j: nat)
    requires 0 < c && m * c <= SEGSIZE && m <= SEGSIZE && 2 * SEGSIZE - m <= j < 2 * SEGSIZE + m
    ensures 2 * SEGSIZE * c <= j * c || j * c + c <= 2 * SEGSIZE * c
    ensures 2 * SEGSIZE * c <= j * c + SEGSIZE && j * c + c <= 2 * SEGSIZE * c + SEGSIZE
  {
    if j < 2 * SEGSIZE {
      var d := 2 * SEGSIZE - j;
      assert 1 <= d <= m;
      TimesOrder(1, d, c);
      TimesOrder(d, m, c);
      assert (j + d) * c == j * c + d * c;
    } else {
      var d := j - 2 * SEGSIZE;
      TimesOrder(d + 1, m, c);
      assert (2 * SEGSIZE + d) * c == 2 * SEGSIZE * c + d * c;
      assert (d + 1) * c == d * c + c;
    }
  }

  lemma TimesOrder(a: nat, b: nat, c: nat)
    requires a <= b
    ensures a * c <= b * c
  {
  }

  lemma FarApart(c: nat, m: nat, head: nat, r: nat)
    requires 0 < c && SEGSIZE < m * c + c && 1 <= m <= SEGSIZE
    requires head + 1 <= 2 * SEGSIZE - m && r + 1 == 2 * SEGSIZE + m
    ensures (r + 1) * c - (head + 1) * c > SEGSIZE
  {
    var d := r - head;
    assert (head + 1 + d) * c == (head + 1) * c + d * c;
    TimesOrder(2 * m, d, c);
    TimesOrder(1, m, c);
    assert 2 * m * c == m * c + m * c;
  }

  /** n ranks of 512KB each, for any n, all have rank 0 as writer. */
  lemma HalfMegabyteRanksShareOneWriter(n: nat, r: nat)
    requires r < n
    ensures WritesFor(Uniform(n, 512 * 1024), 0, r)
    ensures Offset(Uniform(n, 512 * 1024), r + 1) == (r + 1) * (512 * 1024)
  {
    forall j | 0 < j <= r
      ensures !StartsNew(Uniform(n, 512 * 1024), j)
    {
      UniformOffset(n, 512 * 1024, j);
    }
    UniformOffset(n, 512 * 1024, r + 1);
  }

  // ---------- what the aligned members add ----------

  /** Every aligned member after the first adds a whole segment. */
  lemma {:induction false} AlignedAddUp(counts: seq<nat>, head: nat, r: nat) returns (b: nat)
    requires head <= r < |counts| && Aligned(counts, head, r) > 0
    ensures Offset(counts, head + 1) + (Aligned(counts, head, r) - 1) * SEGSIZE <= b < Offset(counts, r + 1)
    ensures b % SEGSIZE == 0 && b > 0
    decreases r
  {
    var x, y := Offset(counts, head + 1), Offset(counts, r);
    if counts[r] > 0 && y > 0 && y % SEGSIZE == 0 {
      b := y;
      if Aligned(counts, head, r - 1) > 0 {
        var before := AlignedAddUp(counts, head, r - 1);
        NextMultiple(before, y);
      } else {
        OffsetGrows(counts, head + 1, r);
      }
    } else {
      b := AlignedAddUp(counts, head, r - 1);
    }
  }

  lemma NextMultiple(a: nat, b: nat)
    requires a < b && a % SEGSIZE == 0 && b % SEGSIZE == 0
    ensures a + SEGSIZE <= b
  {
  }

  lemma {:induction false} OffsetGrows(counts: seq<nat>, a: nat, b: nat)
    requires a <= b <= |counts|
    ensures Offset(counts, a) <= Offset(counts, b)
    decreases b
  {
    if a < b {
      OffsetGrows(counts, a, b - 1);
    }
  }

  /** With no aligned member a writer takes on at most a segment for others, and with two or more always more. */
  lemma AlignedDecide(counts: seq<nat>, head: nat, r: nat)
    requires WritesFor(counts, head, r)
    ensures Aligned(counts, head, r) == 0 ==> OthersWithin(counts, head, r)
    ensures Aligned(counts, head, r) >= 2 ==> !OthersWithin(counts, head, r)
  {
    GroupSize(counts, head, r);
    if Aligned(counts, head, r) >= 2 {
      var b := AlignedAddUp(counts, head, r);
    }
  }

  /** With one aligned member it can go either way. */
  lemma OneAlignedEitherWay()
    ensures var c := [SEGSIZE / 2, SEGSIZE / 2, SEGSIZE / 2];
            WritesFor(c, 0, 2) && Aligned(c, 0, 2) == 1 && OthersWithin(c, 0, 2)
    ensures var c := [SEGSIZE / 2, SEGSIZE / 2, SEGSIZE];
            WritesFor(c, 0, 2) && Aligned(c, 0, 2) == 1 && !OthersWithin(c, 0, 2)
  {
    ThreeOffsets([SEGSIZE / 2, SEGSIZE / 2, SEGSIZE / 2]);
    ThreeOffsets([SEGSIZE / 2, SEGSIZE / 2, SEGSIZE]);
  }

  lemma ThreeOffsets(c: seq<nat>)
    requires |c| == 3 && c[0] == SEGSIZE / 2 && c[1] == SEGSIZE / 2 && 0 < c[2] <= SEGSIZE
    ensures WritesFor(c, 0, 2) && Aligned(c, 0, 2) == 1
    ensures Offset(c, 1) == SEGSIZE / 2 && Offset(c, 3) == SEGSIZE + c[2]
  {
    assert Offset(c, 1) == SEGSIZE / 2 && Offset(c, 2) == SEGSIZE;
    assert Aligned(c, 0, 0) == 0 && Aligned(c, 0, 1) == 0;
  }

  // ---------- the documented limit: what one process reads in one step ----------

  /** The reader of a group's file reads the bytes of all its members, the head's included. */
  ghost predicate ReadsWithin(counts: seq<nat>, head: nat, r: nat)
    requires head <= r < |counts|
  {
    Offset(counts, r + 1) - Offset(counts, head) <= SEGSIZE
  }

  /** The documented limit: no process reads more than a segment. */
  ghost predicate Limited(counts: seq<nat>) {
    forall head: nat, r: nat :: WritesFor(counts, head, r) ==> ReadsWithin(counts, head, r)
  }

  /** What a rank can tell from its offset and its writer's: it has at most a segment; and unless it is its own
      writer, it does not begin on a boundary, and its last byte lies less far into its segment than its writer's first
      byte does into the one before. */
  ghost predicate KeepsLimit(counts: seq<nat>, w: nat, r: nat)
    requires w <= r < |counts|
  {
    && counts[r] <= SEGSIZE
    && (r == w || Offset(counts, r) == 0 || Offset(counts, r) % SEGSIZE != 0)
    && (r == w || w == 0 || (Offset(counts, r + 1) - 1) % SEGSIZE < Offset(counts, w) % SEGSIZE)
  }

  /** The exact condition for the documented limit: every non-empty rank passes that test. */
  lemma LimitExact(counts: seq<nat>)
    ensures Limited(counts) <==>
            forall w: nat, r: nat :: WritesFor(counts, w, r) && counts[r] > 0 ==> KeepsLimit(counts, w, r)
  {
    if Limited(counts) {
      forall w: nat, r: nat | WritesFor(counts, w, r) && counts[r] > 0
        ensures KeepsLimit(counts, w, r)
      {
        assert ReadsWithin(counts, w, r);
        GroupExact(counts, w, r);
        OffsetGrows(counts, w, r);
      }
    }
    if forall w: nat, r: nat :: WritesFor(counts, w, r) && counts[r] > 0 ==> KeepsLimit(counts, w, r) {
      forall w: nat, r: nat | WritesFor(counts, w, r)
        ensures ReadsWithin(counts, w, r)
      {
        AllKeepLimit(counts, w, r);
      }
    }
  }

  lemma {:induction false} AllKeepLimit(counts: seq<nat>, w: nat, r: nat)
    requires WritesFor(counts, w, r)
    requires forall j: nat :: WritesFor(counts, w, j) && counts[j] > 0 ==> KeepsLimit(counts, w, j)
    ensures Aligned(counts, w, r) == 0 && ReadsWithin(counts, w, r)
    decreases r
  {
    assert WritesFor(counts, w, w);
    if r > w {
      AllKeepLimit(counts, w, r - 1);
    }
    if counts[r] > 0 {
      assert KeepsLimit(counts, w, r);
      GroupExact(counts, w, r);
    }
  }

  /** One group, up to a non-empty member: it keeps to the limit exactly when the head does, no member is aligned, and
      the last byte lies less far into its segment than the head's first byte. */
  lemma GroupExact(counts: seq<nat>, head: nat, r: nat)
    requires WritesFor(counts, head, r) && counts[r] > 0
    ensures ReadsWithin(counts, head, r) <==>
            && counts[head] <= SEGSIZE && Aligned(counts, head, r) == 0
            && (r == head || head == 0 || (Offset(counts, r + 1) - 1) % SEGSIZE < Offset(counts, head) % SEGSIZE)
  {
    OffsetGrows(counts, head + 1, r + 1);
    if Aligned(counts, head, r) > 0 {
      AlignedExceeds(counts, head, r);
    } else if counts[head] <= SEGSIZE && r > head {
      var x, y := Offset(counts, head), Offset(counts, r + 1);
      OffsetGrows(counts, head + 1, r);
      if head == 0 {
        EndsBefore(counts, head, r, SEGSIZE);
      } else {
        var q := x / SEGSIZE;
        EndsBefore(counts, head, r, (q + 2) * SEGSIZE);
        PositionTells(x, y, q);
      }
    }
  }

  lemma PositionTells(x: nat, y: nat, q: nat)
    requires q == x / SEGSIZE && (q + 1) * SEGSIZE < y <= (q + 2) * SEGSIZE
    ensures y - x <= SEGSIZE <==> (y - 1) % SEGSIZE < x % SEGSIZE
  {
  }

  /** An aligned member always takes its group past the limit. */
  lemma AlignedExceeds(counts: seq<nat>, head: nat, r: nat)
    requires WritesFor(counts, head, r) && Aligned(counts, head, r) > 0
    ensures !ReadsWithin(counts, head, r)
  {
    var b := AlignedAddUp(counts, head, r);
    var x, next := Offset(counts, head), Offset(counts, head + 1);
    if head == 0 {
      NextMultiple(0, b);
    } else {
      NextMultiple((x / SEGSIZE + 1) * SEGSIZE, b);
    }
  }

  /** Without aligned members a group does not pass the boundary its head's end has not passed. */
  lemma {:induction false} EndsBefore(counts: seq<nat>, head: nat, r: nat, b: nat)
    requires WritesFor(counts, head, r) && Aligned(counts, head, r) == 0
    requires b > 0 && b % SEGSIZE == 0 && Offset(counts, head + 1) <= b
    ensures Offset(counts, r + 1) <= b
    decreases r
  {
    if r > head {
      EndsBefore(counts, head, r - 1, b);
      assert !StartsNew(counts, r);
      StaysBefore(Offset(counts, r), counts[r], b);
    }
  }

  lemma StaysBefore(offset: nat, count: nat, b: nat)
    requires offset <= b && b % SEGSIZE == 0
    requires count > 0 ==> offset + count <= (offset / SEGSIZE + 1) * SEGSIZE && offset != b
    ensures offset + count <= b
  {
  }

  /** For rank 0 as writer: the limit holds exactly when rank 0 alone keeps it and no member is aligned. */
  lemma RankZeroExact(counts: seq<nat>, r: nat)
    requires WritesFor(counts, 0, r)
    ensures ReadsWithin(counts, 0, r) <==> counts[0] <= SEGSIZE && Aligned(counts, 0, r) == 0
  {
    OffsetGrows(counts, 1, r + 1);
    if Aligned(counts, 0, r) > 0 {
      AlignedExceeds(counts, 0, r);
    } else if counts[0] <= SEGSIZE {
      EndsBefore(counts, 0, r, SEGSIZE);
    }
  }

  /** For any writer: with its own bytes within a segment and no aligned member, its reader reads at most two. */
  lemma AtMostTwoSegments(counts: seq<nat>, head: nat, r: nat)
    requires WritesFor(counts, head, r) && counts[head] <= SEGSIZE && Aligned(counts, head, r) == 0
    ensures Offset(counts, r + 1) - Offset(counts, head) <= 2 * SEGSIZE
  {
    AlignedDecide(counts, head, r);
  }

  /** And it can be more than one: of ranks with 768KB each, rank 2 writes for rank 3, with 1.5MB to read. */
  lemma MoreThanOneSegment()
    ensures var c := Uniform(4, 768 * 1024);
            WritesFor(c, 2, 3) && Aligned(c, 2, 3) == 0 && Offset(c, 4) - Offset(c, 2) == 1536 * 1024
    ensures !Limited(Uniform(4, 768 * 1024))
  {
    var c := Uniform(4, 768 * 1024);
    UniformOffset(4, 768 * 1024, 2);
    UniformOffset(4, 768 * 1024, 3);
    UniformOffset(4, 768 * 1024, 4);
    assert Aligned(c, 2, 2) == 0;
    assert WritesFor(c, 2, 3) && !ReadsWithin(c, 2, 3);
  }

  /** For ranks of equal non-empty size the documented limit fails for some number of ranks, whatever the size. */
  lemma UniformLimitFails(c: nat) returns (n: nat)
    requires c > 0
    ensures !Limited(Uniform(n, c))
  {
    if c > SEGSIZE {
      n := 1;
      UniformOffset(1, c, 1);
      assert WritesFor(Uniform(1, c), 0, 0) && !ReadsWithin(Uniform(1, c), 0, 0);
    } else {
      var head, r;
      n, head, r := Overloaded(c);
      OffsetGrows(Uniform(n, c), head, head + 1);
      assert WritesFor(Uniform(n, c), head, r) && !ReadsWithin(Uniform(n, c), head, r);
    }
  }
}
