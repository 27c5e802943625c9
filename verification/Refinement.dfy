/** Any program of rounds, each a size exchange and then a data exchange with the partners of a plan, ends in
    its lockstep result however the ranks interleave, and never gets stuck. */
module Refinement {
  import opened Text
  import opened Trees
  import opened Hashes
  import opened Packing
  import opened Network

  /** A program with local states L, and the lockstep meaning of its local states and messages. */
  datatype Program<!L(!new)> = Program(
    plan: Plan,
    ghost begin: (nat, L) -> bool,                        // rank, its first local state
    ghost start: (nat, nat, L, L) -> bool,                // rank, round, before and after computing what to send
    ghost finish: (L, Hash, L) -> bool,                   // before, tree received, after
    ghost tidy: (nat, nat, L, L) -> bool,                 // rank, round, computing between rounds
    send: L -> Hash,                                      // what the rank has decided to send
    ghost atRound: (nat, nat, L) -> bool,                 // lockstep meaning of a local state before a round
    ghost inRound: (nat, nat, L) -> bool,                 // lockstep meaning of a local state during a round
    ghost message: (nat, nat, Hash) -> bool,              // lockstep meaning of what a rank sends in a round
    ghost done: (nat, L) -> bool,                         // nothing left to compute
    ghost tooBig: bool,                                   // some message of the lockstep run exceeds INT_MAX bytes
    tidied: L -> nat)                                     // how many computations between rounds are behind it

  /** Where a rank stands in kvtree_sendrecv: not in it; size sent, size maybe received; data sent, data maybe
      received. */
  datatype Stage = Ready | Sizes(size: Option<nat>) | Datas(room: nat, recv: Option<Hash>)

  datatype Rank<L> = Rank(round: nat, local: L, stage: Stage)

  /** All ranks and channels. `log` records what each rank sent in each round; no rank looks at it. */
  datatype State<L> = State(ranks: seq<Rank<L>>, chan: Channels, log: map<(nat, nat), Hash>, aborted: bool)

  function SentCount<L>(r: Rank<L>): nat {
    2 * r.round + (match r.stage case Ready => 0 case Sizes(_) => 1 case Datas(_, _) => 2)
  }

  function GotCount<L>(r: Rank<L>): nat {
    2 * r.round + (match r.stage
                   case Ready => 0
                   case Sizes(size) => if size.Some? then 1 else 0
                   case Datas(_, recv) => if recv.Some? then 2 else 1)
  }

  function SentCounts<L>(ranks: seq<Rank<L>>): (c: seq<nat>)
    ensures |c| == |ranks|
  {
    seq(|ranks|, i requires 0 <= i < |ranks| => SentCount(ranks[i]))
  }

  function GotCounts<L>(ranks: seq<Rank<L>>): (c: seq<nat>)
    ensures |c| == |ranks|
  {
    seq(|ranks|, i requires 0 <= i < |ranks| => GotCount(ranks[i]))
  }

  // ---------- the steps ----------

  datatype Action<L> =
    | Start(i: nat, local: L)
    | Abort(i: nat, local: L)
    | RecvSize(i: nat)
    | PostData(i: nat)
    | RecvData(i: nat)
    | Finish(i: nat, local: L)
    | Tidy(i: nat, local: L)

  function Incoming<L>(plan: Plan, s: State<L>, i: nat, p: nat): seq<Env>
    requires plan.Valid() && i < plan.n && p < 2 * plan.Total()
  {
    Queue(s.chan, Src(plan, p, i), i)
  }

  /** A data message that fits the buffer allocated for it and unpacks. */
  predicate Readable(m: Msg, room: nat) {
    m.Data? && |m.packed| <= room && Unpack(m.packed, 0).Some?
  }

  ghost predicate Shape<L(!new)>(prog: Program<L>, s: State<L>) {
    prog.plan.Valid() && |s.ranks| == prog.plan.n
  }

  /** May the rank act? A send may complete at any time, as MPI allows. */
  ghost predicate Enabled<L(!new)>(prog: Program<L>, s: State<L>, a: Action<L>)
    requires Shape(prog, s)
  {
    && !s.aborted && a.i < prog.plan.n
    && var r := s.ranks[a.i];
    match a
    case Start(i, l) => r.stage.Ready? && r.round < prog.plan.Total() && prog.start(i, r.round, r.local, l)
        && PackSize(prog.send(l)) <= INT_MAX
    case Abort(i, l) => r.stage.Ready? && r.round < prog.plan.Total() && prog.start(i, r.round, r.local, l)
        && PackSize(prog.send(l)) > INT_MAX
    case RecvSize(i) =>
      && r.stage.Sizes? && r.stage.size.None? && r.round < prog.plan.Total()
      && var q := Incoming(prog.plan, s, i, 2 * r.round); q != [] && q[0].msg.Size?
    case PostData(i) => r.stage.Sizes? && r.stage.size.Some? && r.round < prog.plan.Total()
    case RecvData(i) =>
      && r.stage.Datas? && r.stage.recv.None? && r.round < prog.plan.Total()
      && var q := Incoming(prog.plan, s, i, 2 * r.round + 1); q != [] && Readable(q[0].msg, r.stage.room)
    case Finish(i, l) => r.stage.Datas? && r.stage.recv.Some? && prog.finish(r.local, r.stage.recv.value, l)
    case Tidy(i, l) => r.stage.Ready? && prog.tidy(i, r.round, r.local, l)
  }

  /** As Enabled, but a wait completes only when the rank's own message has been received: the least help MPI may
      give. */
  ghost predicate StrictlyEnabled<L(!new)>(prog: Program<L>, s: State<L>, a: Action<L>)
    requires Shape(prog, s)
  {
    && Enabled(prog, s, a)
    && (a.PostData? ==> SendDone(prog.plan, GotCounts(s.ranks), a.i, 2 * s.ranks[a.i].round))
    && (a.Finish? ==>
         s.ranks[a.i].round < prog.plan.Total()
             && SendDone(prog.plan, GotCounts(s.ranks), a.i, 2 * s.ranks[a.i].round + 1))
  }

  function Moved<L>(s: State<L>, i: nat, r: Rank<L>): State<L>
    requires i < |s.ranks|
  {
    State(s.ranks[i := r], s.chan, s.log, s.aborted)
  }

  /** Rank i becomes r, having sent the message of phase p. */
  function Pushed<L>(plan: Plan, s: State<L>, i: nat, r: Rank<L>, p: nat, msg: Msg,
                     log: map<(nat, nat), Hash>): State<L>
    requires plan.Valid() && i < plan.n == |s.ranks| && p < 2 * plan.Total()
  {
    State(s.ranks[i := r], Push(s.chan, i, Dst(plan, p, i), Env(p, msg)), log, s.aborted)
  }

  /** Rank i becomes r, having received the message of phase p. */
  function Popped<L>(plan: Plan, s: State<L>, i: nat, r: Rank<L>, p: nat): State<L>
    requires plan.Valid() && i < plan.n == |s.ranks| && p < 2 * plan.Total() && Incoming(plan, s, i, p) != []
  {
    State(s.ranks[i := r], Pop(s.chan, Src(plan, p, i), i), s.log, s.aborted)
  }

  ghost function Apply<L(!new)>(prog: Program<L>, s: State<L>, a: Action<L>): State<L>
    requires Shape(prog, s) && Enabled(prog, s, a)
  {
    var r := s.ranks[a.i];
    match a
    case Start(i, l) =>
      Pushed(prog.plan, s, i, Rank(r.round, l, Sizes(None)), 2 * r.round, Size(PackSize(prog.send(l))),
          s.log[(i, r.round) := prog.send(l)])
    case Abort(_, _) => State(s.ranks, s.chan, s.log, true)
    case RecvSize(i) =>
      Popped(prog.plan, s, i, Rank(r.round, r.local, Sizes(Some(Incoming(prog.plan, s, i, 2 * r.round)[0].msg.bytes))),
          2 * r.round)
    case PostData(i) =>
      Pushed(prog.plan, s, i, Rank(r.round, r.local, Datas(r.stage.size.value, None)), 2 * r.round + 1,
          Data(Pack(prog.send(r.local))), s.log)
    case RecvData(i) =>
      var h := Unpack(Incoming(prog.plan, s, i, 2 * r.round + 1)[0].msg.packed, 0).value.0;
      Popped(prog.plan, s, i, Rank(r.round, r.local, Datas(r.stage.room, Some(h))), 2 * r.round + 1)
    case Finish(i, l) => Moved(s, i, Rank(r.round + 1, l, Ready))
    case Tidy(i, l) => Moved(s, i, Rank(r.round, l, Ready))
  }

  ghost predicate Init<L(!new)>(prog: Program<L>, s: State<L>) {
    && Shape(prog, s) && s.chan == map[] && s.log == map[] && !s.aborted
    && forall i :: 0 <= i < prog.plan.n ==>
         s.ranks[i].round == 0 && s.ranks[i].stage.Ready? && prog.begin(i, s.ranks[i].local)
  }

  // ---------- what is asked of the program ----------

  function Partner<L(!new)>(prog: Program<L>, i: nat, round: nat): nat
    requires prog.plan.Valid() && i < prog.plan.n && round < prog.plan.Total()
  {
    Src(prog.plan, 2 * round, i)
  }

  /** The program's computations respect the lockstep meanings. */
  ghost predicate Sound<L(!new)>(prog: Program<L>) {
    && prog.plan.Valid()
    && BeginSound(prog) && StartSound(prog) && FinishSound(prog) && TidySound(prog) && MeaningsSound(prog)
  }

  ghost predicate BeginSound<L(!new)>(prog: Program<L>) {
    forall i: nat, l :: i < prog.plan.n && prog.begin(i, l) ==> prog.atRound(i, 0, l) && prog.tidied(l) == 0
  }

  ghost predicate StartSound<L(!new)>(prog: Program<L>) {
    forall i: nat, round: nat, l, l' ::
      (i < prog.plan.n && round < prog.plan.Total() && prog.atRound(i, round, l) && prog.start(i, round, l, l')) ==>
      prog.inRound(i, round, l') && prog.tidied(l') == prog.tidied(l)
      && (if PackSize(prog.send(l')) <= INT_MAX then prog.message(i, round, prog.send(l')) else prog.tooBig)
  }

  ghost predicate FinishSound<L(!new)>(prog: Program<L>)
    requires prog.plan.Valid()
  {
    forall i: nat, round: nat, l, h, h', l' :: FinishOk(prog, i, round, l, h, h', l')
  }

  ghost predicate FinishOk<L(!new)>(prog: Program<L>, i: nat, round: nat, l: L, h: Hash, h': Hash, l': L)
    requires prog.plan.Valid()
  {
    Receives(prog, i, round, l, h, h') && prog.finish(l, h', l') ==>
      prog.atRound(i, round + 1, l') && prog.tidied(l') == prog.tidied(l)
  }

  ghost predicate TidySound<L(!new)>(prog: Program<L>) {
    forall i: nat, round: nat, l, l' ::
      (i < prog.plan.n && round <= prog.plan.Total() && prog.atRound(i, round, l) && prog.tidy(i, round, l, l')) ==>
      prog.atRound(i, round, l') && prog.tidied(l') == prog.tidied(l) + 1
  }

  ghost predicate MeaningsSound<L(!new)>(prog: Program<L>) {
    && (forall i: nat, round: nat, h: Hash :: prog.message(i, round, h) ==> h.Hash? && WF(h) && PackSize(h) <= INT_MAX)
    && (forall i: nat, round: nat, l :: i < prog.plan.n && prog.atRound(i, round, l) ==> prog.tidied(l) <= 2)
    && (forall i: nat, round: nat, l :: prog.inRound(i, round, l) ==> prog.tidied(l) <= 2)
  }

  /** In this round the rank holds h', a copy of the message h of its partner. */
  ghost predicate Receives<L(!new)>(prog: Program<L>, i: nat, round: nat, l: L, h: Hash, h': Hash)
    requires prog.plan.Valid()
  {
    && i < prog.plan.n && round < prog.plan.Total() && prog.inRound(i, round, l)
    && prog.message(Partner(prog, i, round), round, h)
    && h'.Hash? && WF(h') && Abs(h') == Abs(h)
  }

  ghost predicate Live<L(!new)>(prog: Program<L>) {
    && (forall i: nat, round: nat, l :: i < prog.plan.n && round <= prog.plan.Total() && prog.atRound(i, round, l) ==>
          || (round == prog.plan.Total() && prog.done(i, l))
          || CanStart(prog, i, round, l) || CanTidy(prog, i, round, l))
    && (forall i: nat, round: nat, l, h: Hash ::
          (i < prog.plan.n && round < prog.plan.Total() && prog.inRound(i, round, l) && h.Hash? && WF(h)) ==>
          CanFinish(prog, i, round, l, h))
  }

  ghost predicate CanStart<L(!new)>(prog: Program<L>, i: nat, round: nat, l: L) {
    round < prog.plan.Total() && exists l' :: prog.start(i, round, l, l')
  }

  ghost predicate CanTidy<L(!new)>(prog: Program<L>, i: nat, round: nat, l: L) {
    exists l' :: prog.tidy(i, round, l, l')
  }

  ghost predicate CanFinish<L(!new)>(prog: Program<L>, i: nat, round: nat, l: L, h: Hash) {
    exists l' :: prog.finish(l, h, l')
  }

  // ---------- the invariant ----------

  /** What the source of this round sent in it. */
  function FromPartner<L(!new)>(prog: Program<L>, i: nat, round: nat, log: map<(nat, nat), Hash>): Hash
    requires prog.plan.Valid() && i < prog.plan.n && round < prog.plan.Total()
  {
    if (Partner(prog, i, round), round) in log then log[(Partner(prog, i, round), round)] else Null
  }

  /** The size a rank has received is the size of the data its source sends in the same round. */
  ghost predicate SizeKnown<L(!new)>(prog: Program<L>, i: nat, round: nat, size: nat, log: map<(nat, nat), Hash>)
    requires prog.plan.Valid() && i < prog.plan.n
  {
    && round < prog.plan.Total() && (Partner(prog, i, round), round) in log
    && size == PackSize(FromPartner(prog, i, round, log))
  }

  ghost predicate Sending<L(!new)>(prog: Program<L>, i: nat, r: Rank<L>, log: map<(nat, nat), Hash>) {
    r.round < prog.plan.Total() && prog.inRound(i, r.round, r.local) && (i, r.round) in log
        && log[(i, r.round)] == prog.send(r.local)
  }

  ghost predicate RankOk<L(!new)>(prog: Program<L>, i: nat, r: Rank<L>, log: map<(nat, nat), Hash>)
    requires prog.plan.Valid() && i < prog.plan.n
  {
    match r.stage
    case Ready => r.round <= prog.plan.Total() && prog.atRound(i, r.round, r.local)
    case Sizes(size) => Sending(prog, i, r, log) && (size.Some? ==> SizeKnown(prog, i, r.round, size.value, log))
    case Datas(room, recv) =>
      && Sending(prog, i, r, log) && SizeKnown(prog, i, r.round, room, log)
      && (recv.Some? ==>
           recv.value.Hash? && WF(recv.value) && Abs(recv.value) == Abs(FromPartner(prog, i, r.round, log)))
  }

  ghost predicate RanksOk<L(!new)>(prog: Program<L>, ranks: seq<Rank<L>>, log: map<(nat, nat), Hash>)
    requires prog.plan.Valid()
  {
    |ranks| == prog.plan.n && forall i :: 0 <= i < prog.plan.n ==> RankOk(prog, i, ranks[i], log)
  }

  ghost predicate NetOk(plan: Plan, sent: seq<nat>, got: seq<nat>, chan: Channels) {
    Counters(plan, sent, got) && InFlight(plan, sent, got, chan) && Causal(plan, sent, got)
  }

  /** A message in flight is the size, or the packed bytes, of what its sender sent in the round it is tagged with. */
  ghost predicate EnvOk(i: nat, e: Env, log: map<(nat, nat), Hash>) {
    && (i, RoundOf(e.phase)) in log
    && e.msg == if IsSizePhase(e.phase) then Size(PackSize(log[(i, RoundOf(e.phase))]))
         else Data(Pack(log[(i, RoundOf(e.phase))]))
  }

  ghost predicate QueuesOk(chan: Channels, log: map<(nat, nat), Hash>) {
    forall i, j, a :: 0 <= a < |Queue(chan, i, j)| ==> EnvOk(i, Queue(chan, i, j)[a], log)
  }

  /** Exactly the rounds a rank has started are in the log, each with its lockstep message. */
  ghost predicate LogOk<L(!new)>(prog: Program<L>, sent: seq<nat>, log: map<(nat, nat), Hash>) {
    && (forall i: nat, j: nat :: (i, j) in log <==> i < |sent| && 2 * j < sent[i])
    && (forall i: nat, j: nat :: (i, j) in log ==> prog.message(i, j, log[(i, j)]))
  }

  ghost predicate Inv<L(!new)>(prog: Program<L>, s: State<L>) {
    && prog.plan.Valid()
    && RanksOk(prog, s.ranks, s.log)
    && NetOk(prog.plan, SentCounts(s.ranks), GotCounts(s.ranks), s.chan)
    && LogOk(prog, SentCounts(s.ranks), s.log)
    && QueuesOk(s.chan, s.log)
  }

  ghost predicate Extends(log: map<(nat, nat), Hash>, log': map<(nat, nat), Hash>) {
    forall key :: key in log ==> key in log' && log'[key] == log[key]
  }

  lemma RankOkLater<L(!new)>(prog: Program<L>, i: nat, r: Rank<L>, log: map<(nat, nat), Hash>,
                             log': map<(nat, nat), Hash>)
    requires prog.plan.Valid() && i < prog.plan.n && RankOk(prog, i, r, log) && Extends(log, log')
    ensures RankOk(prog, i, r, log')
  {
    if r.stage.Datas? || (r.stage.Sizes? && r.stage.size.Some?) {
      assert FromPartner(prog, i, r.round, log') == FromPartner(prog, i, r.round, log);
    }
  }

  /** A step of rank i leaves the other ranks as they should be. */
  lemma OthersStayOk<L(!new)>(prog: Program<L>, ranks: seq<Rank<L>>, i: nat, r: Rank<L>, log: map<(nat, nat), Hash>,
                              log': map<(nat, nat), Hash>)
    requires prog.plan.Valid() && RanksOk(prog, ranks, log) && i < prog.plan.n && Extends(log, log')
    requires RankOk(prog, i, r, log')
    ensures RanksOk(prog, ranks[i := r], log')
  {
    var ranks' := ranks[i := r];
    forall j | 0 <= j < prog.plan.n
      ensures RankOk(prog, j, ranks'[j], log')
    {
      if j != i {
        RankOkLater(prog, j, ranks[j], log, log');
      }
    }
  }

  lemma CountsUpdate<L>(ranks: seq<Rank<L>>, i: nat, r: Rank<L>)
    requires i < |ranks|
    ensures SentCounts(ranks[i := r]) == SentCounts(ranks)[i := SentCount(r)]
    ensures GotCounts(ranks[i := r]) == GotCounts(ranks)[i := GotCount(r)]
    ensures SentCounts(ranks)[i] == SentCount(ranks[i]) && GotCounts(ranks)[i] == GotCount(ranks[i])
  {
  }

  lemma SameEntry(c: seq<nat>, i: nat)
    requires i < |c|
    ensures c[i := c[i]] == c
  {
  }

  lemma QueuesLater(chan: Channels, log: map<(nat, nat), Hash>, log': map<(nat, nat), Hash>)
    requires QueuesOk(chan, log) && Extends(log, log')
    ensures QueuesOk(chan, log')
  {
    forall i, j, a | 0 <= a < |Queue(chan, i, j)|
      ensures EnvOk(i, Queue(chan, i, j)[a], log')
    {
      assert EnvOk(i, Queue(chan, i, j)[a], log);
    }
  }

  lemma PushOk(chan: Channels, log: map<(nat, nat), Hash>, i: nat, j: nat, e: Env)
    requires QueuesOk(chan, log) && EnvOk(i, e, log)
    ensures QueuesOk(Push(chan, i, j, e), log)
  {
    var chan' := Push(chan, i, j, e);
    forall x, y, a | 0 <= a < |Queue(chan', x, y)|
      ensures EnvOk(x, Queue(chan', x, y)[a], log)
    {
      if x == i && y == j && a == |Queue(chan, i, j)| {
      } else {
        assert Queue(chan', x, y)[a] == Queue(chan, x, y)[a];
      }
    }
  }

  lemma PopOk(chan: Channels, log: map<(nat, nat), Hash>, i: nat, j: nat)
    requires QueuesOk(chan, log) && Queue(chan, i, j) != []
    ensures QueuesOk(Pop(chan, i, j), log)
  {
    var chan' := Pop(chan, i, j);
    forall x, y, a | 0 <= a < |Queue(chan', x, y)|
      ensures EnvOk(x, Queue(chan', x, y)[a], log)
    {
      assert Queue(chan', x, y)[a] == Queue(chan, x, y)[if x == i && y == j then a + 1 else a];
    }
  }

  // ---------- the three kinds of step ----------

  lemma NetAfterPush<L>(plan: Plan, ranks: seq<Rank<L>>, chan: Channels, i: nat, r: Rank<L>, p: nat, msg: Msg)
    requires |ranks| == plan.n && NetOk(plan, SentCounts(ranks), GotCounts(ranks), chan) && i < plan.n
    requires SentCount(ranks[i]) == GotCount(ranks[i]) == GotCount(r) == p < 2 * plan.Total() && SentCount(r) == p + 1
    ensures NetOk(plan, SentCounts(ranks[i := r]), GotCounts(ranks[i := r]),
              Push(chan, i, Dst(plan, p, i), Env(p, msg)))
  {
    CountsUpdate(ranks, i, r);
    SameEntry(GotCounts(ranks), i);
    PushKeeps(plan, SentCounts(ranks), GotCounts(ranks), chan, i, p, msg);
  }

  lemma NetAfterPop<L>(plan: Plan, ranks: seq<Rank<L>>, chan: Channels, i: nat, r: Rank<L>, p: nat)
    requires |ranks| == plan.n && NetOk(plan, SentCounts(ranks), GotCounts(ranks), chan) && i < plan.n
               && p < 2 * plan.Total()
    requires GotCount(ranks[i]) == p < SentCount(ranks[i]) == SentCount(r) && GotCount(r) == p + 1
    requires Queue(chan, Src(plan, p, i), i) != []
    ensures NetOk(plan, SentCounts(ranks[i := r]), GotCounts(ranks[i := r]), Pop(chan, Src(plan, p, i), i))
  {
    CountsUpdate(ranks, i, r);
    SameEntry(SentCounts(ranks), i);
    PopKeeps(plan, SentCounts(ranks), GotCounts(ranks), chan, i, p);
  }

  lemma PushStep<L(!new)>(prog: Program<L>, s: State<L>, i: nat, r: Rank<L>, p: nat, msg: Msg,
                          log: map<(nat, nat), Hash>)
    requires Inv(prog, s) && i < prog.plan.n
    requires SentCount(s.ranks[i]) == GotCount(s.ranks[i]) == GotCount(r) == p < 2 * prog.plan.Total()
               && SentCount(r) == p + 1
    requires Extends(s.log, log) && LogOk(prog, SentCounts(s.ranks)[i := p + 1], log)
    requires EnvOk(i, Env(p, msg), log) && RankOk(prog, i, r, log)
    ensures Inv(prog, Pushed(prog.plan, s, i, r, p, msg, log))
  {
    CountsUpdate(s.ranks, i, r);
    NetAfterPush(prog.plan, s.ranks, s.chan, i, r, p, msg);
    QueuesLater(s.chan, s.log, log);
    PushOk(s.chan, log, i, Dst(prog.plan, p, i), Env(p, msg));
    OthersStayOk(prog, s.ranks, i, r, s.log, log);
  }

  lemma PopStep<L(!new)>(prog: Program<L>, s: State<L>, i: nat, r: Rank<L>, p: nat)
    requires Inv(prog, s) && i < prog.plan.n && p < 2 * prog.plan.Total()
    requires GotCount(s.ranks[i]) == p < SentCount(s.ranks[i]) == SentCount(r) && GotCount(r) == p + 1
    requires Incoming(prog.plan, s, i, p) != [] && RankOk(prog, i, r, s.log)
    ensures Inv(prog, Popped(prog.plan, s, i, r, p))
  {
    CountsUpdate(s.ranks, i, r);
    SameEntry(SentCounts(s.ranks), i);
    NetAfterPop(prog.plan, s.ranks, s.chan, i, r, p);
    PopOk(s.chan, s.log, Src(prog.plan, p, i), i);
    OthersStayOk(prog, s.ranks, i, r, s.log, s.log);
  }

  lemma MoveStep<L(!new)>(prog: Program<L>, s: State<L>, i: nat, r: Rank<L>, s': State<L>)
    requires Inv(prog, s) && i < prog.plan.n && s' == Moved(s, i, r)
    requires SentCount(r) == SentCount(s.ranks[i]) && GotCount(r) == GotCount(s.ranks[i]) && RankOk(prog, i, r, s.log)
    ensures Inv(prog, s')
  {
    CountsUpdate(s.ranks, i, r);
    SameEntry(SentCounts(s.ranks), i);
    SameEntry(GotCounts(s.ranks), i);
    OthersStayOk(prog, s.ranks, i, r, s.log, s.log);
  }

  // ---------- every action keeps the invariant ----------

  lemma RankIsOk<L(!new)>(prog: Program<L>, s: State<L>, i: nat)
    requires Inv(prog, s) && i < prog.plan.n
    ensures RankOk(prog, i, s.ranks[i], s.log)
    ensures GotCount(s.ranks[i]) <= SentCount(s.ranks[i]) <= 2 * prog.plan.Total()
  {
    CountsUpdate(s.ranks, i, s.ranks[i]);
  }

  lemma LogGrows<L(!new)>(prog: Program<L>, sent: seq<nat>, log: map<(nat, nat), Hash>, i: nat, round: nat, h: Hash)
    requires i < |sent| && LogOk(prog, sent, log) && sent[i] == 2 * round && prog.message(i, round, h)
    ensures LogOk(prog, sent[i := 2 * round + 1], log[(i, round) := h]) && Extends(log, log[(i, round) := h])
  {
    assert (i, round) !in log;
  }

  /** Sending the data of a round starts no new round. */
  lemma LogSame<L(!new)>(prog: Program<L>, sent: seq<nat>, log: map<(nat, nat), Hash>, i: nat, round: nat)
    requires i < |sent| && LogOk(prog, sent, log) && sent[i] == 2 * round + 1
    ensures LogOk(prog, sent[i := 2 * round + 2], log)
  {
  }

  lemma StartKeeps<L(!new)>(prog: Program<L>, s: State<L>, i: nat, r: Rank<L>, l: L)
    requires Inv(prog, s) && StartSound(prog) && i < prog.plan.n && s.ranks[i] == r
    requires r.stage.Ready? && r.round < prog.plan.Total() && prog.start(i, r.round, r.local, l)
               && PackSize(prog.send(l)) <= INT_MAX
    ensures Inv(prog,
              Pushed(prog.plan, s, i, Rank(r.round, l, Sizes(None)), 2 * r.round, Size(PackSize(prog.send(l))),
                  s.log[(i, r.round) := prog.send(l)]))
  {
    var h := prog.send(l);
    RankIsOk(prog, s, i);
    CountsUpdate(s.ranks, i, r);
    LogGrows(prog, SentCounts(s.ranks), s.log, i, r.round, h);
    StartedOk(prog, i, r, l, s.log[(i, r.round) := h]);
    PushStep(prog, s, i, Rank(r.round, l, Sizes(None)), 2 * r.round, Size(PackSize(h)), s.log[(i, r.round) := h]);
  }

  lemma StartedOk<L(!new)>(prog: Program<L>, i: nat, r: Rank<L>, l: L, log: map<(nat, nat), Hash>)
    requires prog.plan.Valid() && i < prog.plan.n && r.round < prog.plan.Total()
    requires prog.inRound(i, r.round, l) && (i, r.round) in log && log[(i, r.round)] == prog.send(l)
    ensures RankOk(prog, i, Rank(r.round, l, Sizes(None)), log)
    ensures EnvOk(i, Env(2 * r.round, Size(PackSize(prog.send(l)))), log)
  {
    PhasesOfRound(r.round);
  }

  lemma PostKeeps<L(!new)>(prog: Program<L>, s: State<L>, i: nat, r: Rank<L>)
    requires Inv(prog, s) && i < prog.plan.n && s.ranks[i] == r
    requires r.stage.Sizes? && r.stage.size.Some? && r.round < prog.plan.Total()
    ensures Inv(prog,
              Pushed(prog.plan, s, i, Rank(r.round, r.local, Datas(r.stage.size.value, None)), 2 * r.round + 1,
                  Data(Pack(prog.send(r.local))), s.log))
  {
    RankIsOk(prog, s, i);
    CountsUpdate(s.ranks, i, r);
    LogSame(prog, SentCounts(s.ranks), s.log, i, r.round);
    PostedOk(prog, i, r, s.log);
    PushStep(prog, s, i, Rank(r.round, r.local, Datas(r.stage.size.value, None)), 2 * r.round + 1,
        Data(Pack(prog.send(r.local))), s.log);
  }

  lemma PostedOk<L(!new)>(prog: Program<L>, i: nat, r: Rank<L>, log: map<(nat, nat), Hash>)
    requires prog.plan.Valid() && i < prog.plan.n && RankOk(prog, i, r, log)
    requires r.stage.Sizes? && r.stage.size.Some?
    ensures RankOk(prog, i, Rank(r.round, r.local, Datas(r.stage.size.value, None)), log)
    ensures EnvOk(i, Env(2 * r.round + 1, Data(Pack(prog.send(r.local)))), log)
  {
    PhasesOfRound(r.round);
  }

  /** What a rank finds when it waits for a message: the one its source sent in the same phase, of the right
      kind, telling or holding what the source sent in that round. */
  lemma PairsWithItsOwn<L(!new)>(prog: Program<L>, s: State<L>, i: nat, p: nat)
    requires Inv(prog, s) && i < prog.plan.n && p < 2 * prog.plan.Total()
    requires GotCount(s.ranks[i]) == p < SentCount(s.ranks[i]) && Incoming(prog.plan, s, i, p) != []
    ensures var e := Incoming(prog.plan, s, i, p)[0]; var src := Src(prog.plan, p, i);
            && e.phase == p && EnvOk(src, e, s.log)
            && prog.message(src, RoundOf(p), s.log[(src, RoundOf(p))])
  {
    CountsUpdate(s.ranks, i, s.ranks[i]);
    HeadIsMine(prog.plan, SentCounts(s.ranks), GotCounts(s.ranks), s.chan, i);
    assert EnvOk(Src(prog.plan, p, i), Queue(s.chan, Src(prog.plan, p, i), i)[0], s.log);
  }

  lemma RecvSizeKeeps<L(!new)>(prog: Program<L>, s: State<L>, i: nat, r: Rank<L>, e: Env)
    requires Inv(prog, s) && i < prog.plan.n && s.ranks[i] == r
    requires r.stage.Sizes? && r.stage.size.None? && r.round < prog.plan.Total()
    requires Incoming(prog.plan, s, i, 2 * r.round) != [] && Incoming(prog.plan, s, i, 2 * r.round)[0] == e
               && e.msg.Size?
    ensures Inv(prog, Popped(prog.plan, s, i, Rank(r.round, r.local, Sizes(Some(e.msg.bytes))), 2 * r.round))
  {
    RankIsOk(prog, s, i);
    PairsWithItsOwn(prog, s, i, 2 * r.round);
    SizedOk(prog, i, r, e, s.log);
    PopStep(prog, s, i, Rank(r.round, r.local, Sizes(Some(e.msg.bytes))), 2 * r.round);
  }

  lemma SizedOk<L(!new)>(prog: Program<L>, i: nat, r: Rank<L>, e: Env, log: map<(nat, nat), Hash>)
    requires prog.plan.Valid() && i < prog.plan.n && RankOk(prog, i, r, log) && r.stage.Sizes?
               && r.round < prog.plan.Total()
    requires e.msg.Size? && e.phase == 2 * r.round && EnvOk(Partner(prog, i, r.round), e, log)
    ensures RankOk(prog, i, Rank(r.round, r.local, Sizes(Some(e.msg.bytes))), log)
  {
    PhasesOfRound(r.round);
  }

  /** Packed data unpacks to the same map. */
  lemma DataUnpacks(h: Hash)
    requires WF(h) && PackSize(h) <= INT_MAX
    ensures Readable(Data(Pack(h)), PackSize(h))
    ensures var g := Unpack(Pack(h), 0).value.0; g.Hash? && WF(g) && Abs(g) == Abs(h)
  {
    SmallMeansCountsOk(h);
    PackFillsSize(h);
    assert At(Pack(h), 0, Pack(h));
    PackRoundTrip(Pack(h), 0, h);
  }

  lemma RecvDataKeeps<L(!new)>(prog: Program<L>, s: State<L>, i: nat, r: Rank<L>, e: Env)
    requires Inv(prog, s) && MeaningsSound(prog) && i < prog.plan.n && s.ranks[i] == r
    requires r.stage.Datas? && r.stage.recv.None? && r.round < prog.plan.Total()
    requires Incoming(prog.plan, s, i, 2 * r.round + 1) != [] && Incoming(prog.plan, s, i, 2 * r.round + 1)[0] == e
               && Readable(e.msg, r.stage.room)
    ensures Inv(prog,
              Popped(prog.plan, s, i,
                  Rank(r.round, r.local, Datas(r.stage.room, Some(Unpack(e.msg.packed, 0).value.0))), 2 * r.round + 1))
  {
    RankIsOk(prog, s, i);
    PairsWithItsOwn(prog, s, i, 2 * r.round + 1);
    SamePartner(prog.plan, i, r.round);
    FilledOk(prog, i, r, e, s.log);
    PopStep(prog, s, i, Rank(r.round, r.local, Datas(r.stage.room, Some(Unpack(e.msg.packed, 0).value.0))),
        2 * r.round + 1);
  }

  lemma FilledOk<L(!new)>(prog: Program<L>, i: nat, r: Rank<L>, e: Env, log: map<(nat, nat), Hash>)
    requires prog.plan.Valid() && i < prog.plan.n && RankOk(prog, i, r, log) && r.stage.Datas?
               && r.round < prog.plan.Total()
    requires e.phase == 2 * r.round + 1 && EnvOk(Partner(prog, i, r.round), e, log)
    requires WF(FromPartner(prog, i, r.round, log)) && PackSize(FromPartner(prog, i, r.round, log)) <= INT_MAX
    ensures Readable(e.msg, r.stage.room)
    ensures RankOk(prog, i, Rank(r.round, r.local, Datas(r.stage.room, Some(Unpack(e.msg.packed, 0).value.0))), log)
  {
    PhasesOfRound(r.round);
    DataUnpacks(FromPartner(prog, i, r.round, log));
  }

  /** Rank i finishes its round: what Apply makes of it. */
  ghost predicate FinishStep<L(!new)>(prog: Program<L>, s: State<L>, i: nat, r': Rank<L>, s': State<L>)
    requires Shape(prog, s)
  {
    && i < prog.plan.n
    && var r := s.ranks[i];
    && r.stage.Datas? && r.stage.recv.Some? && prog.finish(r.local, r.stage.recv.value, r'.local)
    && r'.round == r.round + 1 && r'.stage.Ready? && s' == Moved(s, i, r')
  }

  lemma FinishApplies<L(!new)>(prog: Program<L>, s: State<L>, i: nat, l: L, s': State<L>)
    requires Shape(prog, s) && Enabled(prog, s, Finish(i, l)) && s' == Apply(prog, s, Finish(i, l))
    ensures FinishStep(prog, s, i, Rank(s.ranks[i].round + 1, l, Ready), s')
  {
  }

  /** In a sound program merging what has been received gives the lockstep state before the next round. */
  lemma FinishedOk<L(!new)>(prog: Program<L>, i: nat, r: Rank<L>, r': Rank<L>, log: map<(nat, nat), Hash>)
    requires prog.plan.Valid() && FinishSound(prog) && i < prog.plan.n && RankOk(prog, i, r, log)
    requires r.stage.Datas? && r.stage.recv.Some? && prog.finish(r.local, r.stage.recv.value, r'.local)
    requires r'.round == r.round + 1 && r'.stage.Ready?
    requires r.round < prog.plan.Total() ==>
               prog.message(Partner(prog, i, r.round), r.round, FromPartner(prog, i, r.round, log))
    ensures RankOk(prog, i, r', log) && prog.tidied(r'.local) == prog.tidied(r.local)
  {
    assert FinishOk(prog, i, r.round, r.local, FromPartner(prog, i, r.round, log), r.stage.recv.value, r'.local);
  }

  lemma FinishIsOk<L(!new)>(prog: Program<L>, s: State<L>, i: nat, r': Rank<L>, s': State<L>)
    requires Inv(prog, s) && FinishSound(prog) && FinishStep(prog, s, i, r', s')
    ensures RankOk(prog, i, r', s.log) && prog.tidied(r'.local) == prog.tidied(s.ranks[i].local)
    ensures GotCount(s.ranks[i]) == SentCount(s.ranks[i]) == GotCount(r') == SentCount(r')
  {
    RankIsOk(prog, s, i);
    PartnerSent(prog, s, i, s.ranks[i]);
    FinishedOk(prog, i, s.ranks[i], r', s.log);
  }

  /** What a rank has received the data of is a lockstep message. */
  lemma PartnerSent<L(!new)>(prog: Program<L>, s: State<L>, i: nat, r: Rank<L>)
    requires Inv(prog, s) && i < prog.plan.n && r == s.ranks[i] && r.stage.Datas?
    ensures r.round < prog.plan.Total()
              && prog.message(Partner(prog, i, r.round), r.round, FromPartner(prog, i, r.round, s.log))
  {
    RankIsOk(prog, s, i);
  }

  lemma FinishMoves<L(!new)>(prog: Program<L>, s: State<L>, i: nat, r': Rank<L>, s': State<L>)
    requires Inv(prog, s) && FinishSound(prog) && FinishStep(prog, s, i, r', s')
    ensures Inv(prog, s')
  {
    FinishIsOk(prog, s, i, r', s');
    MoveStep(prog, s, i, r', s');
  }

  lemma TidyKeeps<L(!new)>(prog: Program<L>, s: State<L>, i: nat, l: L)
    requires Inv(prog, s) && TidySound(prog) && i < prog.plan.n
    requires s.ranks[i].stage.Ready? && prog.tidy(i, s.ranks[i].round, s.ranks[i].local, l)
    ensures Inv(prog, Moved(s, i, Rank(s.ranks[i].round, l, Ready)))
  {
    RankIsOk(prog, s, i);
    MoveStep(prog, s, i, Rank(s.ranks[i].round, l, Ready), Moved(s, i, Rank(s.ranks[i].round, l, Ready)));
  }

  // Each of the following moves from the named successor state to what Apply makes.

  lemma StartActionKeeps<L(!new)>(prog: Program<L>, s: State<L>, i: nat, l: L, s': State<L>)
    requires Inv(prog, s) && StartSound(prog) && Enabled(prog, s, Start(i, l)) && s' == Apply(prog, s, Start(i, l))
    ensures Inv(prog, s')
  {
    StartKeeps(prog, s, i, s.ranks[i], l);
  }

  lemma PostDataActionKeeps<L(!new)>(prog: Program<L>, s: State<L>, i: nat, s': State<L>)
    requires Inv(prog, s) && Enabled(prog, s, PostData(i)) && s' == Apply(prog, s, PostData(i))
    ensures Inv(prog, s')
  {
    PostApplies(prog, s, i);
    PostKeeps(prog, s, i, s.ranks[i]);
  }

  lemma RecvSizeActionKeeps<L(!new)>(prog: Program<L>, s: State<L>, i: nat, s': State<L>)
    requires Inv(prog, s) && Enabled(prog, s, RecvSize(i)) && s' == Apply(prog, s, RecvSize(i))
    ensures Inv(prog, s')
  {
    RecvSizeKeeps(prog, s, i, s.ranks[i], Incoming(prog.plan, s, i, 2 * s.ranks[i].round)[0]);
  }

  lemma RecvDataActionKeeps<L(!new)>(prog: Program<L>, s: State<L>, i: nat, s': State<L>)
    requires Inv(prog, s) && MeaningsSound(prog) && Enabled(prog, s, RecvData(i)) && s' == Apply(prog, s, RecvData(i))
    ensures Inv(prog, s')
  {
    RecvDataKeeps(prog, s, i, s.ranks[i], Incoming(prog.plan, s, i, 2 * s.ranks[i].round + 1)[0]);
  }

  lemma PostApplies<L(!new)>(prog: Program<L>, s: State<L>, i: nat)
    requires Shape(prog, s) && Enabled(prog, s, PostData(i))
    ensures var r := s.ranks[i];
            && r.stage.Sizes? && r.stage.size.Some? && r.round < prog.plan.Total()
            && Apply(prog, s, PostData(i)) ==
                 Pushed(prog.plan, s, i, Rank(r.round, r.local, Datas(r.stage.size.value, None)), 2 * r.round + 1,
                     Data(Pack(prog.send(r.local))), s.log)
  {
  }

  lemma TidyActionKeeps<L(!new)>(prog: Program<L>, s: State<L>, i: nat, l: L, s': State<L>)
    requires Inv(prog, s) && TidySound(prog) && Enabled(prog, s, Tidy(i, l)) && s' == Apply(prog, s, Tidy(i, l))
    ensures Inv(prog, s')
  {
    TidyKeeps(prog, s, i, l);
  }

  lemma AbortActionKeeps<L(!new)>(prog: Program<L>, s: State<L>, i: nat, l: L, s': State<L>)
    requires Inv(prog, s) && Enabled(prog, s, Abort(i, l)) && s' == Apply(prog, s, Abort(i, l))
    ensures Inv(prog, s')
  {
  }

  /** The invariant is inductive. */
  lemma StepKeeps<L(!new)>(prog: Program<L>, s: State<L>, a: Action<L>, s': State<L>)
    requires Sound(prog) && Inv(prog, s) && Enabled(prog, s, a) && s' == Apply(prog, s, a)
    ensures Inv(prog, s')
  {
    match a
    case Start(i, l) => StartActionKeeps(prog, s, i, l, s');
    case Abort(i, l) => AbortActionKeeps(prog, s, i, l, s');
    case RecvSize(i) => RecvSizeActionKeeps(prog, s, i, s');
    case PostData(i) => PostDataActionKeeps(prog, s, i, s');
    case RecvData(i) => RecvDataActionKeeps(prog, s, i, s');
    case Finish(i, l) =>
      FinishApplies(prog, s, i, l, s');
      FinishMoves(prog, s, i, Rank(s.ranks[i].round + 1, l, Ready), s');
    case Tidy(i, l) => TidyActionKeeps(prog, s, i, l, s');
  }

  lemma InitHolds<L(!new)>(prog: Program<L>, s: State<L>)
    requires Sound(prog) && Init(prog, s)
    ensures Inv(prog, s)
  {
    forall i | 0 <= i < prog.plan.n
      ensures RankOk(prog, i, s.ranks[i], s.log) && SentCounts(s.ranks)[i] == GotCounts(s.ranks)[i] == 0
    {
    }
  }

  // ---------- runs ----------

  ghost predicate Follows<L(!new)>(prog: Program<L>, s: State<L>, s': State<L>) {
    Shape(prog, s) && exists a :: Enabled(prog, s, a) && s' == Apply(prog, s, a)
  }

  ghost predicate IsRun<L(!new)>(prog: Program<L>, run: seq<State<L>>) {
    && |run| > 0 && Init(prog, run[0])
    && forall k :: 0 < k < |run| ==> Follows(prog, run[k - 1], run[k])
  }

  /** Work a rank has done: five steps a round, and the computations between rounds. */
  function RankWork<L(!new)>(prog: Program<L>, r: Rank<L>): nat {
    5 * r.round + prog.tidied(r.local)
    + (match r.stage
       case Ready => 0
       case Sizes(size) => if size.Some? then 2 else 1
       case Datas(_, recv) => if recv.Some? then 4 else 3)
  }

  function Work<L(!new)>(prog: Program<L>, ranks: seq<Rank<L>>): nat {
    if ranks == [] then 0 else Work(prog, ranks[..|ranks| - 1]) + RankWork(prog, ranks[|ranks| - 1])
  }

  lemma {:induction false} WorkUpdate<L(!new)>(prog: Program<L>, ranks: seq<Rank<L>>, i: nat, r: Rank<L>)
    requires i < |ranks|
    ensures Work(prog, ranks[i := r]) == Work(prog, ranks) - RankWork(prog, ranks[i]) + RankWork(prog, r)
  {
    var last := |ranks| - 1;
    if i == last {
      assert ranks[i := r][..last] == ranks[..last];
    } else {
      WorkUpdate(prog, ranks[..last], i, r);
      assert ranks[i := r][..last] == ranks[..last][i := r];
    }
  }

  lemma {:induction false} WorkBound<L(!new)>(prog: Program<L>, ranks: seq<Rank<L>>, each: nat)
    requires forall i :: 0 <= i < |ranks| ==> RankWork(prog, ranks[i]) <= each
    ensures Work(prog, ranks) <= |ranks| * each
  {
    if ranks != [] {
      WorkBound(prog, ranks[..|ranks| - 1], each);
      assert |ranks| * each == (|ranks| - 1) * each + each;
    }
  }

  lemma FinishTidiesNothing<L(!new)>(prog: Program<L>, s: State<L>, i: nat, r': Rank<L>, s': State<L>)
    requires Inv(prog, s) && FinishSound(prog) && FinishStep(prog, s, i, r', s')
    ensures RankWork(prog, r') == RankWork(prog, s.ranks[i]) + 1
  {
    FinishIsOk(prog, s, i, r', s');
  }

  lemma OnlyActorMoves<L(!new)>(prog: Program<L>, s: State<L>, a: Action<L>, s': State<L>)
    requires Shape(prog, s) && Enabled(prog, s, a) && !a.Abort? && s' == Apply(prog, s, a)
    ensures |s'.ranks| == |s.ranks| && s'.ranks == s.ranks[a.i := s'.ranks[a.i]]
  {
  }

  lemma MessageWorks<L(!new)>(prog: Program<L>, s: State<L>, a: Action<L>, s': State<L>)
    requires Shape(prog, s) && Enabled(prog, s, a) && s' == Apply(prog, s, a)
    requires a.RecvSize? || a.PostData? || a.RecvData?
    ensures |s'.ranks| == |s.ranks| && RankWork(prog, s'.ranks[a.i]) == RankWork(prog, s.ranks[a.i]) + 1
  {
  }

  lemma StartWorks<L(!new)>(prog: Program<L>, s: State<L>, i: nat, l: L, s': State<L>)
    requires Inv(prog, s) && StartSound(prog) && Enabled(prog, s, Start(i, l)) && s' == Apply(prog, s, Start(i, l))
    ensures |s'.ranks| == |s.ranks| && RankWork(prog, s'.ranks[i]) == RankWork(prog, s.ranks[i]) + 1
  {
    RankIsOk(prog, s, i);
  }

  lemma TidyWorks<L(!new)>(prog: Program<L>, s: State<L>, i: nat, l: L, s': State<L>)
    requires Inv(prog, s) && TidySound(prog) && Enabled(prog, s, Tidy(i, l)) && s' == Apply(prog, s, Tidy(i, l))
    ensures |s'.ranks| == |s.ranks| && RankWork(prog, s'.ranks[i]) == RankWork(prog, s.ranks[i]) + 1
  {
    RankIsOk(prog, s, i);
  }

  lemma FinishWorks<L(!new)>(prog: Program<L>, s: State<L>, i: nat, l: L, s': State<L>)
    requires Inv(prog, s) && FinishSound(prog) && Enabled(prog, s, Finish(i, l)) && s' == Apply(prog, s, Finish(i, l))
    ensures |s'.ranks| == |s.ranks| && RankWork(prog, s'.ranks[i]) == RankWork(prog, s.ranks[i]) + 1
  {
    FinishApplies(prog, s, i, l, s');
    FinishTidiesNothing(prog, s, i, Rank(s.ranks[i].round + 1, l, Ready), s');
  }

  lemma ActorWorks<L(!new)>(prog: Program<L>, s: State<L>, a: Action<L>, s': State<L>)
    requires Sound(prog) && Inv(prog, s) && Enabled(prog, s, a) && !a.Abort? && s' == Apply(prog, s, a)
    ensures |s'.ranks| == |s.ranks| && RankWork(prog, s'.ranks[a.i]) == RankWork(prog, s.ranks[a.i]) + 1
  {
    match a
    case Start(i, l) => StartWorks(prog, s, i, l, s');
    case Tidy(i, l) => TidyWorks(prog, s, i, l, s');
    case Finish(i, l) => FinishWorks(prog, s, i, l, s');
    case RecvSize(_) => MessageWorks(prog, s, a, s');
    case PostData(_) => MessageWorks(prog, s, a, s');
    case RecvData(_) => MessageWorks(prog, s, a, s');
  }

  /** Every action but an abort does one unit of work. */
  lemma StepWorks<L(!new)>(prog: Program<L>, s: State<L>, a: Action<L>, s': State<L>)
    requires Sound(prog) && Inv(prog, s) && Enabled(prog, s, a) && !a.Abort? && s' == Apply(prog, s, a)
    ensures Work(prog, s'.ranks) == Work(prog, s.ranks) + 1
  {
    ActorWorks(prog, s, a, s');
    OnlyActorMoves(prog, s, a, s');
    WorkUpdate(prog, s.ranks, a.i, s'.ranks[a.i]);
  }

  function MaxWork(plan: Plan): nat {
    plan.n * (5 * plan.Total() + 2)
  }

  lemma AbortIsDue<L(!new)>(prog: Program<L>, s: State<L>, a: Action<L>)
    requires Sound(prog) && Inv(prog, s) && Enabled(prog, s, a) && a.Abort?
    ensures prog.tooBig
  {
    RankIsOk(prog, s, a.i);
  }

  lemma WorkIsBounded<L(!new)>(prog: Program<L>, s: State<L>)
    requires Sound(prog) && Inv(prog, s)
    ensures Work(prog, s.ranks) <= MaxWork(prog.plan)
  {
    forall i | 0 <= i < |s.ranks|
      ensures RankWork(prog, s.ranks[i]) <= 5 * prog.plan.Total() + 2
    {
      RankIsOk(prog, s, i);
    }
    WorkBound(prog, s.ranks, 5 * prog.plan.Total() + 2);
  }

  /** Every reachable state satisfies the invariant, and a run's length is its work: every run ends. */
  lemma {:induction false} RunsEnd<L(!new)>(prog: Program<L>, run: seq<State<L>>)
    requires Sound(prog) && IsRun(prog, run)
    ensures var last := run[|run| - 1];
            Inv(prog, last) && |run| - 1 == Work(prog, last.ranks) + (if last.aborted then 1 else 0)
    ensures |run| - 1 <= MaxWork(prog.plan) + 1
    ensures run[|run| - 1].aborted ==> prog.tooBig
    decreases |run|
  {
    var last := |run| - 1;
    if last == 0 {
      InitHolds(prog, run[0]);
      NoWorkYet(prog, run[0].ranks);
    } else {
      var front := run[..last];
      RunPrefix(prog, run);
      RunsEnd(prog, front);
      assert Follows(prog, run[last - 1], run[last]);
      var s := front[last - 1];
      var a :| Enabled(prog, s, a) && run[last] == Apply(prog, s, a);
      StepKeeps(prog, s, a, run[last]);
      if a.Abort? {
        AbortIsDue(prog, s, a);
      } else {
        StepWorks(prog, s, a, run[last]);
      }
    }
    WorkIsBounded(prog, run[last]);
  }

  lemma RunPrefix<L(!new)>(prog: Program<L>, run: seq<State<L>>)
    requires IsRun(prog, run) && |run| > 1
    ensures IsRun(prog, run[..|run| - 1])
  {
    var front := run[..|run| - 1];
    forall k | 0 < k < |front|
      ensures Follows(prog, front[k - 1], front[k])
    {
      assert Follows(prog, run[k - 1], run[k]);
    }
  }

  lemma {:induction false} NoWorkYet<L(!new)>(prog: Program<L>, ranks: seq<Rank<L>>)
    requires forall i :: 0 <= i < |ranks| ==> RankWork(prog, ranks[i]) == 0
    ensures Work(prog, ranks) == 0
    decreases |ranks|
  {
    if ranks != [] {
      NoWorkYet(prog, ranks[..|ranks| - 1]);
    }
  }

  // ---------- no deadlock ----------

  ghost predicate RankDone<L(!new)>(prog: Program<L>, i: nat, r: Rank<L>) {
    r.stage.Ready? && r.round == prog.plan.Total() && prog.done(i, r.local)
  }

  ghost predicate AllDone<L(!new)>(prog: Program<L>, s: State<L>) {
    forall i :: 0 <= i < |s.ranks| ==> RankDone(prog, i, s.ranks[i])
  }

  /** A rank between rounds that has something left to compute can act. */
  lemma ReadyCanAct<L(!new)>(prog: Program<L>, s: State<L>, i: nat) returns (a: Action<L>)
    requires Live(prog) && Inv(prog, s) && !s.aborted && i < prog.plan.n
    requires s.ranks[i].stage.Ready? && !RankDone(prog, i, s.ranks[i])
    ensures StrictlyEnabled(prog, s, a)
  {
    var r := s.ranks[i];
    RankIsOk(prog, s, i);
    if CanTidy(prog, i, r.round, r.local) {
      var l :| prog.tidy(i, r.round, r.local, l);
      a := Tidy(i, l);
    } else {
      assert CanStart(prog, i, r.round, r.local);
      var l :| prog.start(i, r.round, r.local, l);
      a := if PackSize(prog.send(l)) <= INT_MAX then Start(i, l) else Abort(i, l);
    }
  }

  /** A rank with all its messages received can finish the round once its own data has been received. */
  lemma ReceivedCanAct<L(!new)>(prog: Program<L>, s: State<L>, i: nat) returns (a: Action<L>)
    requires Live(prog) && Inv(prog, s) && !s.aborted && i < prog.plan.n
    requires s.ranks[i].stage.Datas? && s.ranks[i].stage.recv.Some?
    requires s.ranks[i].round < prog.plan.Total() ==>
               SendDone(prog.plan, GotCounts(s.ranks), i, 2 * s.ranks[i].round + 1)
    ensures StrictlyEnabled(prog, s, a)
  {
    var r := s.ranks[i];
    RankIsOk(prog, s, i);
    assert CanFinish(prog, i, r.round, r.local, r.stage.recv.value);
    var l :| prog.finish(r.local, r.stage.recv.value, l);
    a := Finish(i, l);
  }

  /** A rank whose size message has arrived can take it. */
  lemma SizeCanBeTaken<L(!new)>(prog: Program<L>, s: State<L>, i: nat, r: Rank<L>)
    requires Inv(prog, s) && !s.aborted && i < prog.plan.n && s.ranks[i] == r
    requires r.stage.Sizes? && r.stage.size.None? && r.round < prog.plan.Total()
               && Incoming(prog.plan, s, i, 2 * r.round) != []
    ensures Enabled(prog, s, RecvSize(i))
  {
    PairsWithItsOwn(prog, s, i, 2 * r.round);
    PhasesOfRound(r.round);
  }

  /** A rank whose data has arrived can take it. */
  lemma DataCanBeTaken<L(!new)>(prog: Program<L>, s: State<L>, i: nat, r: Rank<L>)
    requires Sound(prog) && Inv(prog, s) && !s.aborted && i < prog.plan.n && s.ranks[i] == r
    requires r.stage.Datas? && r.stage.recv.None? && r.round < prog.plan.Total()
               && Incoming(prog.plan, s, i, 2 * r.round + 1) != []
    ensures Enabled(prog, s, RecvData(i))
  {
    RankIsOk(prog, s, i);
    PairsWithItsOwn(prog, s, i, 2 * r.round + 1);
    SamePartner(prog.plan, i, r.round);
    FilledOk(prog, i, r, Incoming(prog.plan, s, i, 2 * r.round + 1)[0], s.log);
  }

  lemma WaitingCanAct<L(!new)>(prog: Program<L>, s: State<L>, i: nat, r: Rank<L>) returns (a: Action<L>)
    requires Sound(prog) && Inv(prog, s) && !s.aborted && i < prog.plan.n && s.ranks[i] == r
    requires GotCount(r) < SentCount(r) && r.round < prog.plan.Total() && Incoming(prog.plan, s, i, GotCount(r)) != []
    ensures Enabled(prog, s, a) && (a.RecvSize? || a.RecvData?)
  {
    if r.stage.Sizes? {
      assert GotCount(r) == 2 * r.round;
      SizeCanBeTaken(prog, s, i, r);
      return RecvSize(i);
    }
    assert GotCount(r) == 2 * r.round + 1;
    DataCanBeTaken(prog, s, i, r);
    return RecvData(i);
  }

  /** Whatever has happened, unless everything is done or the job has aborted, some rank can act, even when
      sends complete only on receipt: there is no deadlock. */
  lemma NeverStuck<L(!new)>(prog: Program<L>, s: State<L>) returns (a: Action<L>)
    requires Sound(prog) && Live(prog) && Inv(prog, s) && !s.aborted && !AllDone(prog, s)
    ensures StrictlyEnabled(prog, s, a)
  {
    var sent, got := SentCounts(s.ranks), GotCounts(s.ranks);
    var i := SomeoneCanAct(prog.plan, sent, got, s.chan);
    RankIsOk(prog, s, i);
    CountsUpdate(s.ranks, i, s.ranks[i]);
    var r := s.ranks[i];
    if got[i] < sent[i] {
      a := WaitingCanAct(prog, s, i, r);
    } else if r.stage.Sizes? {
      a := PostData(i);
    } else if r.stage.Datas? {
      a := ReceivedCanAct(prog, s, i);
    } else if !RankDone(prog, i, r) {
      a := ReadyCanAct(prog, s, i);
    } else {
      a := LastOnesCanAct(prog, s, i);
    }
  }

  /** When a furthest-behind rank is done, any rank that is not is only a computation away. */
  lemma LastOnesCanAct<L(!new)>(prog: Program<L>, s: State<L>, i: nat) returns (a: Action<L>)
    requires Sound(prog) && Live(prog) && Inv(prog, s) && !s.aborted && !AllDone(prog, s)
    requires i < prog.plan.n && RankDone(prog, i, s.ranks[i])
    requires forall j :: 0 <= j < prog.plan.n ==> GotCounts(s.ranks)[i] <= GotCounts(s.ranks)[j]
    ensures StrictlyEnabled(prog, s, a)
  {
    var j :| 0 <= j < |s.ranks| && !RankDone(prog, j, s.ranks[j]);
    CountsUpdate(s.ranks, i, s.ranks[i]);
    CountsUpdate(s.ranks, j, s.ranks[j]);
    RankIsOk(prog, s, j);
    if s.ranks[j].stage.Ready? {
      a := ReadyCanAct(prog, s, j);
    } else {
      a := ReceivedCanAct(prog, s, j);
    }
  }

  /** Nobody can act. */
  ghost predicate Stuck<L(!new)>(prog: Program<L>, s: State<L>)
    requires Shape(prog, s)
  {
    forall a: Action<L> :: !StrictlyEnabled(prog, s, a)
  }

  /** Everybody is done, with the lockstep result. */
  ghost predicate Ended<L(!new)>(prog: Program<L>, s: State<L>) {
    AllDone(prog, s) && forall i :: 0 <= i < |s.ranks| ==> prog.atRound(i, prog.plan.Total(), s.ranks[i].local)
  }

  /** A message within the bounds of an int was sent by rank i in this round. */
  ghost predicate WasSent<L(!new)>(prog: Program<L>, i: nat, round: nat) {
    exists h: Hash :: prog.message(i, round, h)
  }

  lemma AllWasSent<L(!new)>(prog: Program<L>, s: State<L>, i: nat, round: nat)
    requires Inv(prog, s) && AllDone(prog, s) && i < prog.plan.n && round < prog.plan.Total()
    ensures WasSent(prog, i, round)
  {
    assert RankDone(prog, i, s.ranks[i]);
    CountsUpdate(s.ranks, i, s.ranks[i]);
    assert (i, round) in s.log;
    assert prog.message(i, round, s.log[(i, round)]);
  }

  /** A state in which nobody can act is the end of a job that had to abort, or the lockstep result on every rank
      after every message has been sent. */
  lemma EndsInLockstep<L(!new)>(prog: Program<L>, run: seq<State<L>>)
    requires Sound(prog) && Live(prog) && IsRun(prog, run)
    requires Shape(prog, run[|run| - 1]) && Stuck(prog, run[|run| - 1])
    ensures var last := run[|run| - 1]; if last.aborted then prog.tooBig else Ended(prog, last)
    ensures !run[|run| - 1].aborted ==>
              forall i: nat, round: nat :: i < prog.plan.n && round < prog.plan.Total() ==> WasSent(prog, i, round)
  {
    var last := run[|run| - 1];
    RunsEnd(prog, run);
    if !last.aborted {
      if !AllDone(prog, last) {
        var _ := NeverStuck(prog, last);
        assert false;
      }
      forall i | 0 <= i < |last.ranks|
        ensures prog.atRound(i, prog.plan.Total(), last.ranks[i].local)
      {
        RankIsOk(prog, last, i);
      }
      forall i: nat, round: nat | i < prog.plan.n && round < prog.plan.Total()
        ensures WasSent(prog, i, round)
      {
        AllWasSent(prog, last, i, round);
      }
    }
  }
}
