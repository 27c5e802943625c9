/** Processes that read, write and update one kvtree file under locks, in small reads and writes that interleave
    in any way: they act as if one after another. */
module Locking {
  import opened Trees
  import opened Hashes
  import opened Packing
  import opened Files

  /** What a process does: kvtree_read_with_lock, kvtree_write_with_lock, or kvtree_lock_open_read followed by
      kvtree_write_close_unlock with a tree that depends on what was read. */
  datatype Job = ReadJob | WriteJob(tree: Hash) | UpdateJob(change: Tree -> Hash)

  /** What reading a file shows. */
  datatype Sight = Nothing | Found(tree: Tree) | Broken

  datatype Phase =
    | Before
    | Reading(got: string)
    | Writing(seen: Sight, h: Hash, bytes: string, n: nat)
    | Truncated(seen: Sight, h: Hash)
    | After

  datatype Proc = Proc(job: Job, phase: Phase)

  /** What a process did, recorded when it gives up its lock. */
  datatype Event = DidRead(who: nat, seen: Sight) | DidWrite(who: nat, h: Hash)
      | DidUpdate(who: nat, seen: Sight, h: Hash)

  datatype State = State(file: string, procs: seq<Proc>, log: seq<Event>)

  /** A tree that can be persisted. */
  ghost predicate Storable(h: Hash) {
    WF(h) && CountsOk(h) && Persistable(h)
  }

  ghost predicate GoodJob(job: Job) {
    match job
    case ReadJob => true
    case WriteJob(h) => Storable(h)
    case UpdateJob(change) => forall t :: Storable(change(t))
  }

  ghost function SightOf(r: ReadResult): Sight {
    match r
    case Failed => Broken
    case EmptyFile => Nothing
    case Read(_, h) => Found(Abs(h))
  }

  ghost function See(crc: Checksum, file: string): Sight {
    SightOf(ReadFd(crc, file))
  }

  /** The caller's tree after a read into an empty one; a failed read leaves it empty and goes unnoticed in
      kvtree_lock_open_read. */
  function TreeSeen(s: Sight): Tree {
    if s.Found? then s.tree else EMPTY
  }

  // ---------- locks ----------

  predicate Holds(p: Proc) {
    p.phase.Reading? || p.phase.Writing? || p.phase.Truncated?
  }

  predicate Exclusive(p: Proc) {
    Holds(p) && !p.job.ReadJob?
  }

  /** Has it started to change the file? */
  predicate Changing(p: Proc) {
    p.phase.Writing? || p.phase.Truncated?
  }

  /** An exclusive lock excludes every other lock. */
  ghost predicate LocksOk(procs: seq<Proc>) {
    forall i, j :: 0 <= i < |procs| && 0 <= j < |procs| && i != j && Exclusive(procs[i]) ==> !Holds(procs[j])
  }

  /** May process i get its lock now? */
  ghost predicate CanLock(procs: seq<Proc>, i: nat)
    requires i < |procs|
  {
    forall j :: 0 <= j < |procs| && j != i && Holds(procs[j]) ==> procs[i].job.ReadJob? && !Exclusive(procs[j])
  }

  /** Readers share the file with readers; a writer or updater waits for everyone. */
  lemma LockRule(procs: seq<Proc>, i: nat)
    requires i < |procs|
    ensures procs[i].job.ReadJob? ==>
              (CanLock(procs, i) <==>
               forall j :: 0 <= j < |procs| && j != i && Holds(procs[j]) ==> procs[j].job.ReadJob?)
    ensures !procs[i].job.ReadJob? ==>
              (CanLock(procs, i) <==> forall j :: 0 <= j < |procs| && j != i ==> !Holds(procs[j]))
  {
  }

  // ---------- steps ----------

  /** How many bytes the reader wants in all, given what it has: the header first, then the size the header tells. */
  function Target(got: string): (n: nat)
    ensures n >= HEADER_SIZE
  {
    if |got| < HEADER_SIZE then HEADER_SIZE
    else
      var size := ReadBig(got[8..16]);
      if HeaderMatches(got) && size >= HEADER_SIZE then size else HEADER_SIZE
  }

  predicate HeaderMatches(s: string)
    requires |s| >= HEADER_SIZE
  {
    ReadBig(s[0..4]) == MAGIC && ReadBig(s[4..6]) == TYPE_HASH && ReadBig(s[6..8]) == VERSION_HASH_1
  }

  /** Writing a piece at a position inside the file, or at its end. */
  function Overwrite(file: string, n: nat, piece: string): string
    requires n <= |file|
  {
    file[..n] + piece + (if n + |piece| < |file| then file[n + |piece|..] else "")
  }

  datatype Action = Lock(i: nat) | ReadSome(i: nat, k: nat) | EndRead(i: nat) | WriteSome(i: nat, k: nat)
      | Truncate(i: nat) | Unlock(i: nat)

  ghost predicate Enabled(s: State, a: Action) {
    && a.i < |s.procs|
    && var p := s.procs[a.i];
    match a
    case Lock(i) => p.phase.Before? && CanLock(s.procs, i)
    case ReadSome(_, k) => p.phase.Reading? && k > 0 && |p.phase.got| + k <= Target(p.phase.got)
        && |p.phase.got| + k <= |s.file|
    case EndRead(_) => p.phase.Reading? && (|p.phase.got| == |s.file| || |p.phase.got| == Target(p.phase.got))
    case WriteSome(_, k) => p.phase.Writing? && k > 0 && p.phase.n + k <= |p.phase.bytes| && p.phase.n <= |s.file|
    case Truncate(_) => p.job.UpdateJob? && p.phase.Writing? && p.phase.n == |p.phase.bytes| <= |s.file|
    case Unlock(_) => (p.job.WriteJob? && p.phase.Writing? && p.phase.n == |p.phase.bytes|) || p.phase.Truncated?
  }

  function Next(s: State, i: nat, phase: Phase, file: string, log: seq<Event>): State
    requires i < |s.procs|
  {
    State(file, s.procs[i := Proc(s.procs[i].job, phase)], log)
  }

  /** The record of a completed write or update. */
  function Done(w: Phase, i: nat): Event
    requires w.Writing? || w.Truncated?
  {
    if w.Truncated? then DidUpdate(i, w.seen, w.h) else DidWrite(i, w.h)
  }

  function MoreRead(s: State, i: nat, k: nat): Phase
    requires i < |s.procs| && s.procs[i].phase.Reading? && |s.procs[i].phase.got| + k <= |s.file|
  {
    var got := s.procs[i].phase.got;
    Reading(got + s.file[|got|..|got| + k])
  }

  ghost function Apply(crc: Checksum, s: State, a: Action): State
    requires Enabled(s, a)
  {
    var p := s.procs[a.i];
    match a
    case Lock(i) =>
      Next(s, i, if p.job.WriteJob? then Writing(Nothing, p.job.tree, Persist(crc, p.job.tree), 0)
          else Reading(""), s.file, s.log)
    case ReadSome(i, k) => Next(s, i, MoreRead(s, i, k), s.file, s.log)
    case EndRead(i) =>
      var seen := See(crc, p.phase.got);
      if p.job.UpdateJob? then
        var h := p.job.change(TreeSeen(seen)); Next(s, i, Writing(seen, h, Persist(crc, h), 0), s.file, s.log)
      else Next(s, i, After, s.file, s.log + [DidRead(i, seen)])
    case WriteSome(i, k) =>
      var n := p.phase.n;
      Next(s, i, Writing(p.phase.seen, p.phase.h, p.phase.bytes, n + k), Overwrite(s.file, n, p.phase.bytes[n..n + k]),
          s.log)
    case Truncate(i) => Next(s, i, Truncated(p.phase.seen, p.phase.h), s.file[..|p.phase.bytes|], s.log)
    case Unlock(i) => Next(s, i, After, s.file, s.log + [Done(p.phase, i)])
  }

  // ---------- acting one after another ----------

  /** What is in the file after the events, run one by one. */
  ghost function Replay(v0: Sight, log: seq<Event>): Sight {
    if log == [] then v0
    else match log[|log| - 1]
         case DidRead(_, _) => Replay(v0, log[..|log| - 1])
         case DidWrite(_, h) => Found(Abs(h))
         case DidUpdate(_, _, h) => Found(Abs(h))
  }

  /** The event is what the process does when it finds v in the file and nobody else is there. */
  ghost predicate Fits(e: Event, v: Sight, jobs: seq<Job>) {
    && e.who < |jobs| && v != Broken
    && match jobs[e.who]
       case ReadJob => e == DidRead(e.who, v)
       case WriteJob(h) => e == DidWrite(e.who, h)
       case UpdateJob(change) => e == DidUpdate(e.who, v, change(TreeSeen(v)))
  }

  ghost predicate Serial(v0: Sight, log: seq<Event>, jobs: seq<Job>) {
    forall k :: 0 <= k < |log| ==> Fits(log[k], Replay(v0, log[..k]), jobs)
  }

  // ---------- the invariant ----------

  /** The tree being written is the one the job makes of what is in the file. */
  ghost predicate JobMade(job: Job, seen: Sight, h: Hash, v: Sight) {
    match job
    case ReadJob => false
    case WriteJob(tree) => h == tree
    case UpdateJob(change) => seen == v && h == change(TreeSeen(v))
  }

  ghost predicate PhaseOk(crc: Checksum, file: string, v: Sight, p: Proc) {
    match p.phase
    case Before => true
    case Reading(got) => !p.job.WriteJob? && got <= file && |got| <= Target(got)
    case Writing(seen, h, bytes, n) =>
      && Storable(h) && JobMade(p.job, seen, h, v) && bytes == Persist(crc, h)
      && n <= |bytes| && bytes[..n] <= file
    case Truncated(seen, h) => p.job.UpdateJob? && Storable(h) && JobMade(p.job, seen, h, v) && file == Persist(crc, h)
    case After => true
  }

  ghost predicate JobsOk(procs: seq<Proc>, jobs: seq<Job>) {
    |procs| == |jobs| && forall i :: 0 <= i < |jobs| ==> procs[i].job == jobs[i] && GoodJob(jobs[i])
  }

  ghost predicate PhasesOk(crc: Checksum, file: string, v: Sight, procs: seq<Proc>) {
    forall i :: 0 <= i < |procs| ==> PhaseOk(crc, file, v, procs[i])
  }

  /** Unless somebody is in the middle of changing it, the file holds what the events so far, run one by one, leave in
      it. */
  ghost predicate FileOk(crc: Checksum, file: string, v: Sight, procs: seq<Proc>) {
    v != Broken && ((forall i :: 0 <= i < |procs| ==> !Changing(procs[i])) ==> See(crc, file) == v)
  }

  ghost predicate Inv(crc: Checksum, v0: Sight, jobs: seq<Job>, s: State) {
    var v := Replay(v0, s.log);
    && JobsOk(s.procs, jobs) && LocksOk(s.procs) && Serial(v0, s.log, jobs)
    && FileOk(crc, s.file, v, s.procs) && PhasesOk(crc, s.file, v, s.procs)
  }

  /** What has been read is enough to tell what reading the whole file shows. */
  lemma PrefixTells(crc: Checksum, file: string, got: string)
    requires got <= file && (|got| == |file| || |got| == Target(got))
    ensures ReadFd(crc, got) == ReadFd(crc, file)
  {
    if |got| == |file| {
      assert got == file;
    } else {
      assert got[0..4] == file[0..4] && got[4..6] == file[4..6] && got[6..8] == file[6..8];
      assert got[8..16] == file[8..16] && got[16..20] == file[16..20];
      var size := ReadBig(got[8..16]);
      if HeaderMatches(got) && size >= HEADER_SIZE {
        assert size == |got| && file[..size] == got[..size];
        assert ReadFd(crc, got) == ReadBody(crc, got[..size], ReadBig(got[16..20]) % 2 == FLAG_CRC32);
        assert ReadFd(crc, file) == ReadBody(crc, file[..size], ReadBig(file[16..20]) % 2 == FLAG_CRC32);
      } else {
        assert ReadFd(crc, got) == Failed;
        assert ReadFd(crc, file) == Failed;
      }
    }
  }

  /** A reader never has more than it wants. */
  lemma TargetStays(got: string, more: string)
    requires got <= more && |more| <= Target(got)
    ensures |more| <= Target(more)
  {
    if |got| >= HEADER_SIZE {
      assert got[0..4] == more[0..4] && got[4..6] == more[4..6] && got[6..8] == more[6..8] && got[8..16] == more[8..16];
    }
  }

  lemma PieceRead(file: string, got: string, k: nat)
    requires got <= file && |got| + k <= |file| && |got| + k <= Target(got)
    ensures var more := got + file[|got|..|got| + k]; more <= file && |more| <= Target(more)
  {
    var more := got + file[|got|..|got| + k];
    assert more == file[..|got| + k];
    TargetStays(got, more);
  }

  /** Another piece written: the prefix that is new grows by it. */
  lemma PieceExtends(file: string, bytes: string, n: nat, k: nat)
    requires n + k <= |bytes| && bytes[..n] <= file
    ensures bytes[..n + k] <= Overwrite(file, n, bytes[n..n + k])
  {
    assert bytes[..n + k] == file[..n] + bytes[n..n + k];
  }

  /** A completely written file shows the tree, whatever stale bytes follow. */
  lemma WrittenShows(crc: Checksum, file: string, h: Hash)
    requires Storable(h) && Persist(crc, h) <= file
    ensures See(crc, file) == Found(Abs(h))
  {
    var bytes := Persist(crc, h);
    PersistRoundTrip(crc, h, file[|bytes|..]);
    PrefixAndRest(bytes, file);
  }

  lemma PrefixAndRest(a: string, s: string)
    requires a <= s
    ensures s == a + s[|a|..]
  {
  }

  lemma SerialGrows(v0: Sight, log: seq<Event>, e: Event, jobs: seq<Job>)
    requires Serial(v0, log, jobs) && Fits(e, Replay(v0, log), jobs)
    ensures Serial(v0, log + [e], jobs)
    ensures Replay(v0, log + [e]) ==
            match e case DidRead(_, _) => Replay(v0, log) case DidWrite(_, h) => Found(Abs(h))
                case DidUpdate(_, _, h) => Found(Abs(h))
  {
    var more := log + [e];
    assert more[..|log|] == log;
    forall k | 0 <= k < |more|
      ensures Fits(more[k], Replay(v0, more[..k]), jobs)
    {
      if k < |log| {
        assert more[..k] == log[..k];
        assert Fits(log[k], Replay(v0, log[..k]), jobs);
      }
    }
  }

  lemma LocksKept(procs: seq<Proc>, i: nat, p': Proc)
    requires LocksOk(procs) && i < |procs| && p'.job == procs[i].job
    requires Holds(p') ==> Holds(procs[i]) || CanLock(procs, i)
    ensures LocksOk(procs[i := p'])
  {
  }

  /** A reader or updater that has seen enough has seen what the events so far leave. */
  lemma SawIt(crc: Checksum, v0: Sight, jobs: seq<Job>, s: State, i: nat)
    requires Inv(crc, v0, jobs, s) && Enabled(s, EndRead(i))
    ensures See(crc, s.procs[i].phase.got) == Replay(v0, s.log)
  {
    var p := s.procs[i];
    assert PhaseOk(crc, s.file, Replay(v0, s.log), p);
    PrefixTells(crc, s.file, p.phase.got);
    forall j | 0 <= j < |s.procs|
      ensures !Changing(s.procs[j])
    {
      if j != i && Changing(s.procs[j]) {
        assert PhaseOk(crc, s.file, Replay(v0, s.log), s.procs[j]);
        assert Exclusive(s.procs[j]);
      }
    }
  }

  // ---------- every step keeps it ----------

  /** Process i becomes p', the others stay as they are. */
  ghost predicate Steps(s: State, i: nat, p': Proc, s': State) {
    i < |s.procs| && p'.job == s.procs[i].job && s'.procs == s.procs[i := p']
  }

  /** A step of process i that leaves the file and the events' outcome alone. */
  lemma QuietStep(crc: Checksum, v0: Sight, jobs: seq<Job>, s: State, i: nat, p': Proc, s': State)
    requires Inv(crc, v0, jobs, s) && Steps(s, i, p', s') && s'.file == s.file
    requires Holds(p') ==> Holds(s.procs[i]) || CanLock(s.procs, i)
    requires Changing(s.procs[i]) ==> Changing(p')
    requires Serial(v0, s'.log, jobs) && Replay(v0, s'.log) == Replay(v0, s.log)
    requires PhaseOk(crc, s.file, Replay(v0, s.log), p')
    ensures Inv(crc, v0, jobs, s')
  {
    LocksKept(s.procs, i, p');
    if forall j :: 0 <= j < |s'.procs| ==> !Changing(s'.procs[j]) {
      forall j | 0 <= j < |s.procs|
        ensures !Changing(s.procs[j])
      {
        assert !Changing(s'.procs[j]);
      }
    }
  }

  /** A step of a process that is alone with the file. */
  lemma LoudStep(crc: Checksum, v0: Sight, jobs: seq<Job>, s: State, i: nat, p': Proc, s': State)
    requires Inv(crc, v0, jobs, s) && Steps(s, i, p', s') && Exclusive(s.procs[i])
    requires Serial(v0, s'.log, jobs) && Replay(v0, s'.log) != Broken
    requires PhaseOk(crc, s'.file, Replay(v0, s'.log), p')
    requires !Changing(p') ==> See(crc, s'.file) == Replay(v0, s'.log)
    ensures Inv(crc, v0, jobs, s')
  {
    LocksKept(s.procs, i, p');
    forall j | 0 <= j < |s'.procs|
      ensures PhaseOk(crc, s'.file, Replay(v0, s'.log), s'.procs[j])
    {
      if j != i {
        assert !Holds(s'.procs[j]);
      }
    }
    if forall j :: 0 <= j < |s'.procs| ==> !Changing(s'.procs[j]) {
      assert s'.procs[i] == p';
    }
  }

  lemma ProcIsOk(crc: Checksum, v0: Sight, jobs: seq<Job>, s: State, i: nat)
    requires Inv(crc, v0, jobs, s) && i < |s.procs|
    ensures PhaseOk(crc, s.file, Replay(v0, s.log), s.procs[i])
    ensures i < |jobs| && s.procs[i].job == jobs[i] && GoodJob(jobs[i])
  {
  }

  lemma LockKeeps(crc: Checksum, v0: Sight, jobs: seq<Job>, s: State, i: nat, s': State)
    requires Inv(crc, v0, jobs, s) && Enabled(s, Lock(i)) && s' == Apply(crc, s, Lock(i))
    ensures Inv(crc, v0, jobs, s')
  {
    ProcIsOk(crc, v0, jobs, s, i);
    QuietStep(crc, v0, jobs, s, i, s'.procs[i], s');
  }

  lemma ReadApplies(crc: Checksum, s: State, i: nat, k: nat, s': State)
    requires Enabled(s, ReadSome(i, k)) && s' == Apply(crc, s, ReadSome(i, k))
    ensures |s'.procs| == |s.procs| && Steps(s, i, s'.procs[i], s') && s'.file == s.file && s'.log == s.log
    ensures s'.procs[i].phase == MoreRead(s, i, k)
  {
  }

  lemma ReadIsOk(crc: Checksum, file: string, v: Sight, p: Proc, k: nat, p': Proc)
    requires PhaseOk(crc, file, v, p) && p.phase.Reading?
    requires |p.phase.got| + k <= |file| && |p.phase.got| + k <= Target(p.phase.got)
    requires p'.job == p.job
    requires p'.phase == Reading(p.phase.got + file[|p.phase.got|..|p.phase.got| + k])
    ensures PhaseOk(crc, file, v, p')
  {
    PieceRead(file, p.phase.got, k);
  }

  lemma ReadKeeps(crc: Checksum, v0: Sight, jobs: seq<Job>, s: State, i: nat, k: nat, s': State)
    requires Inv(crc, v0, jobs, s) && Enabled(s, ReadSome(i, k)) && s' == Apply(crc, s, ReadSome(i, k))
    ensures Inv(crc, v0, jobs, s')
  {
    ReadApplies(crc, s, i, k, s');
    ProcIsOk(crc, v0, jobs, s, i);
    ReadIsOk(crc, s.file, Replay(v0, s.log), s.procs[i], k, s'.procs[i]);
    QuietStep(crc, v0, jobs, s, i, s'.procs[i], s');
  }

  lemma UpdateBegins(crc: Checksum, v0: Sight, jobs: seq<Job>, s: State, i: nat, s': State)
    requires Inv(crc, v0, jobs, s) && Enabled(s, EndRead(i)) && s' == Apply(crc, s, EndRead(i))
               && s.procs[i].job.UpdateJob?
    ensures Inv(crc, v0, jobs, s')
  {
    SawIt(crc, v0, jobs, s, i);
    ProcIsOk(crc, v0, jobs, s, i);
    LoudStep(crc, v0, jobs, s, i, s'.procs[i], s');
  }

  lemma ReaderEnds(crc: Checksum, v0: Sight, jobs: seq<Job>, s: State, i: nat, s': State)
    requires Inv(crc, v0, jobs, s) && Enabled(s, EndRead(i)) && s' == Apply(crc, s, EndRead(i))
               && !s.procs[i].job.UpdateJob?
    ensures Inv(crc, v0, jobs, s')
  {
    SawIt(crc, v0, jobs, s, i);
    ProcIsOk(crc, v0, jobs, s, i);
    SerialGrows(v0, s.log, DidRead(i, Replay(v0, s.log)), jobs);
    QuietStep(crc, v0, jobs, s, i, s'.procs[i], s');
  }

  lemma EndReadKeeps(crc: Checksum, v0: Sight, jobs: seq<Job>, s: State, i: nat, s': State)
    requires Inv(crc, v0, jobs, s) && Enabled(s, EndRead(i)) && s' == Apply(crc, s, EndRead(i))
    ensures Inv(crc, v0, jobs, s')
  {
    if s.procs[i].job.UpdateJob? {
      UpdateBegins(crc, v0, jobs, s, i, s');
    } else {
      ReaderEnds(crc, v0, jobs, s, i, s');
    }
  }

  lemma WriteApplies(crc: Checksum, s: State, i: nat, k: nat, s': State)
    requires Enabled(s, WriteSome(i, k)) && s' == Apply(crc, s, WriteSome(i, k))
    ensures |s'.procs| == |s.procs| && Steps(s, i, s'.procs[i], s') && s'.log == s.log
    ensures var w := s.procs[i].phase;
            && s'.procs[i].phase == Writing(w.seen, w.h, w.bytes, w.n + k)
            && s'.file == Overwrite(s.file, w.n, w.bytes[w.n..w.n + k])
  {
  }

  lemma WriteIsOk(crc: Checksum, file: string, v: Sight, p: Proc, k: nat, file': string, p': Proc)
    requires PhaseOk(crc, file, v, p) && p.phase.Writing? && p.phase.n + k <= |p.phase.bytes| && p'.job == p.job
    requires var w := p.phase;
             && p'.phase == Writing(w.seen, w.h, w.bytes, w.n + k)
             && file' == Overwrite(file, w.n, w.bytes[w.n..w.n + k])
    ensures PhaseOk(crc, file', v, p')
  {
    PieceExtends(file, p.phase.bytes, p.phase.n, k);
  }

  lemma WriterIsOk(crc: Checksum, v0: Sight, jobs: seq<Job>, s: State, i: nat, k: nat, s': State)
    requires Inv(crc, v0, jobs, s) && Enabled(s, WriteSome(i, k)) && s' == Apply(crc, s, WriteSome(i, k))
    ensures |s'.procs| == |s.procs| && PhaseOk(crc, s'.file, Replay(v0, s.log), s'.procs[i])
    ensures Exclusive(s.procs[i])
  {
    WriteApplies(crc, s, i, k, s');
    ProcIsOk(crc, v0, jobs, s, i);
    WriteIsOk(crc, s.file, Replay(v0, s.log), s.procs[i], k, s'.file, s'.procs[i]);
  }

  lemma WriteKeeps(crc: Checksum, v0: Sight, jobs: seq<Job>, s: State, i: nat, k: nat, s': State)
    requires Inv(crc, v0, jobs, s) && Enabled(s, WriteSome(i, k)) && s' == Apply(crc, s, WriteSome(i, k))
    ensures Inv(crc, v0, jobs, s')
  {
    WriteApplies(crc, s, i, k, s');
    WriterIsOk(crc, v0, jobs, s, i, k, s');
    LoudStep(crc, v0, jobs, s, i, s'.procs[i], s');
  }

  lemma TruncateKeeps(crc: Checksum, v0: Sight, jobs: seq<Job>, s: State, i: nat, s': State)
    requires Inv(crc, v0, jobs, s) && Enabled(s, Truncate(i)) && s' == Apply(crc, s, Truncate(i))
    ensures Inv(crc, v0, jobs, s')
  {
    ProcIsOk(crc, v0, jobs, s, i);
    var w := s.procs[i].phase;
    assert w.bytes[..w.n] == w.bytes;
    assert s.file[..|w.bytes|] == w.bytes;
    LoudStep(crc, v0, jobs, s, i, s'.procs[i], s');
  }

  /** The record of a completed write or update is what the job alone would have done. */
  lemma UnlockFits(crc: Checksum, v0: Sight, jobs: seq<Job>, s: State, i: nat)
    requires Inv(crc, v0, jobs, s) && Enabled(s, Unlock(i))
    ensures Fits(Done(s.procs[i].phase, i), Replay(v0, s.log), jobs)
    ensures See(crc, s.file) == Found(Abs(s.procs[i].phase.h))
  {
    ProcIsOk(crc, v0, jobs, s, i);
    var p := s.procs[i];
    if p.phase.Writing? {
      assert p.phase.bytes[..p.phase.n] == p.phase.bytes;
    }
    WrittenShows(crc, s.file, p.phase.h);
  }

  lemma UnlockKeeps(crc: Checksum, v0: Sight, jobs: seq<Job>, s: State, i: nat, s': State)
    requires Inv(crc, v0, jobs, s) && Enabled(s, Unlock(i)) && s' == Apply(crc, s, Unlock(i))
    ensures Inv(crc, v0, jobs, s')
  {
    UnlockFits(crc, v0, jobs, s, i);
    SerialGrows(v0, s.log, Done(s.procs[i].phase, i), jobs);
    LoudStep(crc, v0, jobs, s, i, s'.procs[i], s');
  }

  lemma StepKeeps(crc: Checksum, v0: Sight, jobs: seq<Job>, s: State, a: Action, s': State)
    requires Inv(crc, v0, jobs, s) && Enabled(s, a) && s' == Apply(crc, s, a)
    ensures Inv(crc, v0, jobs, s')
  {
    match a
    case Lock(i) => LockKeeps(crc, v0, jobs, s, i, s');
    case ReadSome(i, k) => ReadKeeps(crc, v0, jobs, s, i, k, s');
    case EndRead(i) => EndReadKeeps(crc, v0, jobs, s, i, s');
    case WriteSome(i, k) => WriteKeeps(crc, v0, jobs, s, i, k, s');
    case Truncate(i) => TruncateKeeps(crc, v0, jobs, s, i, s');
    case Unlock(i) => UnlockKeeps(crc, v0, jobs, s, i, s');
  }

  // ---------- runs ----------

  ghost predicate Init(crc: Checksum, jobs: seq<Job>, s: State) {
    && JobsOk(s.procs, jobs) && s.log == [] && See(crc, s.file) != Broken
    && forall i :: 0 <= i < |s.procs| ==> s.procs[i].phase.Before?
  }

  ghost predicate Follows(crc: Checksum, s: State, s': State) {
    exists a :: Enabled(s, a) && s' == Apply(crc, s, a)
  }

  ghost predicate IsRun(crc: Checksum, jobs: seq<Job>, run: seq<State>) {
    && |run| > 0 && Init(crc, jobs, run[0])
    && forall k :: 0 < k < |run| ==> Follows(crc, run[k - 1], run[k])
  }

  /** A run in which two readers hold the lock at once. */
  lemma TwoReadersAtOnce(crc: Checksum) returns (run: seq<State>)
    ensures IsRun(crc, [ReadJob, ReadJob], run)
    ensures var last := run[|run| - 1]; |last.procs| == 2 && Holds(last.procs[0]) && Holds(last.procs[1])
  {
    var out, on := Proc(ReadJob, Before), Proc(ReadJob, Reading(""));
    var s0, s1, s2 := State("", [out, out], []), State("", [on, out], []), State("", [on, on], []);
    run := [s0, s1, s2];
    assert Enabled(s0, Lock(0)) && s1 == Apply(crc, s0, Lock(0));
    assert Enabled(s1, Lock(1)) && s2 == Apply(crc, s1, Lock(1));
    assert Follows(crc, s0, s1) && Follows(crc, s1, s2);
  }

  /** However the small reads and writes interleave, the completed operations act as if run one after another in
      the order in which they gave up their locks: every reader and updater saw exactly what the writers before
      it left (nothing, if the file was empty), and whenever nobody is writing the file holds the last tree written. */
  lemma {:induction false} RunsAreSerial(crc: Checksum, jobs: seq<Job>, run: seq<State>)
    requires IsRun(crc, jobs, run)
    ensures var v0 := See(crc, run[0].file); var last := run[|run| - 1];
            && Serial(v0, last.log, jobs)
            && ((forall i :: 0 <= i < |last.procs| ==> !Changing(last.procs[i])) ==>
                 See(crc, last.file) == Replay(v0, last.log))
            && Inv(crc, v0, jobs, last)
    decreases |run|
  {
    var last := |run| - 1;
    if last > 0 {
      var front := run[..last];
      forall k | 0 < k < |front|
        ensures Follows(crc, front[k - 1], front[k])
      {
        assert Follows(crc, run[k - 1], run[k]);
      }
      RunsAreSerial(crc, jobs, front);
      assert Follows(crc, run[last - 1], run[last]);
      var a :| Enabled(run[last - 1], a) && run[last] == Apply(crc, run[last - 1], a);
      StepKeeps(crc, See(crc, run[0].file), jobs, run[last - 1], a, run[last]);
    }
  }

  /** Nobody waits for ever on somebody who waits: unless all are done, some process can act. */
  lemma SomeoneCanAct(crc: Checksum, v0: Sight, jobs: seq<Job>, s: State) returns (a: Action)
    requires Inv(crc, v0, jobs, s) && exists i :: 0 <= i < |s.procs| && !s.procs[i].phase.After?
    ensures Enabled(s, a)
  {
    if i :| 0 <= i < |s.procs| && Holds(s.procs[i]) {
      assert PhaseOk(crc, s.file, Replay(v0, s.log), s.procs[i]);
      a := HolderCanAct(crc, s, Replay(v0, s.log), i);
    } else {
      var i :| 0 <= i < |s.procs| && !s.procs[i].phase.After?;
      a := Lock(i);
    }
  }

  lemma HolderCanAct(crc: Checksum, s: State, v: Sight, i: nat) returns (a: Action)
    requires i < |s.procs| && Holds(s.procs[i]) && PhaseOk(crc, s.file, v, s.procs[i])
    ensures Enabled(s, a)
  {
    var p := s.procs[i];
    match p.phase
    case Reading(got) =>
      a := if |got| == |s.file| || |got| >= Target(got) then EndRead(i) else ReadSome(i, 1);
    case Writing(_, _, bytes, n) =>
      a := if n < |bytes| then WriteSome(i, 1) else if p.job.UpdateJob? then Truncate(i) else Unlock(i);
    case Truncated(_, _) => a := Unlock(i);
  }
}
