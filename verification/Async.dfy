/** kvtree_exchange as it really runs: every rank at its own pace, a left run and then a right run over the
    same channels, each round a size message and a data message. */
module Async {
  import opened Bits
  import opened Text
  import opened Trees
  import opened Hashes
  import opened Packing
  import opened Routes
  import opened Exchange
  import opened TwoWay
  import opened Network
  import opened Refinement

  /** What the ranks have agreed on: the hop limits, each rank's items for each direction, and the outputs to begin
      with. */
  datatype Config = Config(plan: Plan, left: seq<Tree>, right: seq<Tree>, out0: seq<Tree>) {
    ghost predicate Valid() {
      && plan.Valid() && |left| == |right| == |out0| == plan.n
      && forall i :: 0 <= i < plan.n ==> Sendable(left[i], plan.n) && Sendable(right[i], plan.n)
    }

    function Items(run: Run): seq<Tree> {
      if run.GoingLeft? then left else right
    }

    function Limit(run: Run): nat {
      if run.GoingLeft? then plan.left else plan.right
    }
  }

  ghost predicate Sendable(t: Tree, n: nat) {
    RankKeys(t, n) && Clean(t)
  }

  datatype Run = GoingLeft | GoingRight | Finished

  function DirOf(run: Run): Direction {
    if run.GoingLeft? then Left else Right
  }

  /** One rank's trees. `before` records its output at the start of the current run. */
  datatype Local = Local(run: Run, cur: Hash, out: Hash, before: Hash, keep: Hash, send: Hash)

  /** The round of the plan is round K of the run it belongs to. */
  function K(cfg: Config, run: Run, round: nat): nat {
    if run.GoingLeft? then round else if round < cfg.plan.left then 0 else round - cfg.plan.left
  }

  /** The run has this round. */
  predicate Runs(cfg: Config, run: Run, round: nat) {
    !run.Finished? && (run.GoingRight? ==> cfg.plan.left <= round) && K(cfg, run, round) < cfg.Limit(run)
  }

  lemma RunsThePlan(cfg: Config, run: Run, round: nat)
    requires cfg.Valid() && Runs(cfg, run, round)
    ensures round < cfg.plan.Total()
    ensures DirOf(run) == cfg.plan.Dir(round) && K(cfg, run, round) == cfg.plan.BitOf(round)
    ensures Pow2(K(cfg, run, round)) < cfg.plan.n
  {
    StepInRange(cfg.plan, round);
  }

  // ---------- what every rank does ----------

  ghost predicate IsTree(h: Hash) {
    h.Hash? && WF(h)
  }

  /** Starting a run: the rank's own items, tagged. */
  ghost predicate Loads(n: nat, i: nat, items: Tree, cur: Hash) {
    IsTree(cur) && Proper(Abs(cur), n) && Tagged(Abs(cur), items, i)
  }

  ghost predicate Begins(cfg: Config, i: nat, l: Local) {
    && i < |cfg.left| && i < |cfg.out0|
    && l.run.GoingLeft? && l.before == l.out && IsTree(l.out) && Abs(l.out) == cfg.out0[i]
    && Loads(cfg.plan.n, i, cfg.left[i], l.cur)
  }

  /** The element loop at the start of a round. */
  ghost predicate Starts(cfg: Config, i: nat, round: nat, l: Local, l': Local) {
    && i < cfg.plan.n && Runs(cfg, l.run, round)
    && l' == Local(l.run, l.cur, l'.out, l.before, l'.keep, l'.send)
    && IsTree(l'.keep) && IsTree(l'.send) && IsTree(l'.out)
    && Splits(DirOf(l.run), i, cfg.plan.n, K(cfg, l.run, round), Abs(l.cur), Abs(l.out), Abs(l'.keep), Abs(l'.send),
         Abs(l'.out))
  }

  /** Merging what was received. */
  ghost predicate Finishes(l: Local, recv: Hash, l': Local) {
    l' == l.(cur := l'.cur) && IsTree(l'.cur) && Abs(l'.cur) == Join(Abs(l.keep), Abs(recv))
  }

  /** After the last round of a run: take what is left for this rank, and go on to the next run. */
  ghost predicate EndsRun(cfg: Config, i: nat, round: nat, l: Local, l': Local) {
    && i < |cfg.right|
    && IsTree(l'.out) && TookOwn(Abs(l.out), Abs(l'.out), Abs(l.cur), i)
    && ((l.run.GoingLeft? && round == cfg.plan.left
         && l' == l.(run := GoingRight, out := l'.out, before := l'.out, cur := l'.cur)
              && Loads(cfg.plan.n, i, cfg.right[i], l'.cur))
        || (l.run.GoingRight? && round == cfg.plan.Total() && l' == l.(run := Finished, out := l'.out)))
  }

  // ---------- lockstep meanings ----------

  /** The working tree before round k of a run. */
  ghost predicate CurIdeal(cfg: Config, run: Run, k: nat, i: nat, cur: Hash)
    requires cfg.Valid() && i < cfg.plan.n
  {
    && IsTree(cur) && Proper(Abs(cur), cfg.plan.n)
    && forall dk, sk :: Lookup(Abs(cur), dk, sk) == Expected(cfg.Items(run), DirOf(run), k, i, dk, sk)
  }

  /** What is kept in round k. */
  ghost predicate KeepIdeal(cfg: Config, run: Run, k: nat, i: nat, keep: Hash)
    requires cfg.Valid() && i < cfg.plan.n
  {
    && IsTree(keep) && Proper(Abs(keep), cfg.plan.n)
    && forall dk, sk :: Lookup(Abs(keep), dk, sk) ==
         if Keeps(DirOf(run), i, cfg.plan.n, k, dk) then Expected(cfg.Items(run), DirOf(run), k, i, dk, sk) else None
  }

  /** What is sent in round k. */
  ghost predicate SendIdeal(cfg: Config, run: Run, k: nat, i: nat, send: Hash)
    requires cfg.Valid() && i < cfg.plan.n
  {
    IsTree(send) && IsMessage(cfg.Items(run), DirOf(run), k, i, Abs(send))
  }

  /** An output: what was there before the run, and what has landed since. */
  ghost predicate OutIdeal(cfg: Config, run: Run, limit: nat, i: nat, before: Tree, out: Hash)
    requires cfg.Valid() && i < cfg.plan.n
  {
    && IsTree(out)
    && forall sk ::
         Child(Abs(out), sk) == JoinOpt(Child(before, sk), Received(cfg.Items(run), DirOf(run), limit, i, sk))
  }

  /** The output at the start of the run. */
  ghost predicate BeforeIdeal(cfg: Config, run: Run, i: nat, before: Hash)
    requires cfg.Valid() && i < cfg.plan.n
  {
    if run.GoingLeft? then Abs(before) == cfg.out0[i]
    else OutIdeal(cfg, GoingLeft, Pow2(cfg.plan.left), i, cfg.out0[i], before)
  }

  /** The round belongs to the run, or is the one after its last. */
  predicate Within(cfg: Config, run: Run, round: nat) {
    match run
    case GoingLeft => round <= cfg.plan.left
    case GoingRight => cfg.plan.left <= round <= cfg.plan.Total()
    case Finished => round == cfg.plan.Total()
  }

  ghost predicate AtRoundIdeal(cfg: Config, i: nat, round: nat, l: Local) {
    && cfg.Valid() && i < cfg.plan.n && Within(cfg, l.run, round) && BeforeIdeal(cfg, l.run, i, l.before)
    && if l.run.Finished? then OutIdeal(cfg, GoingRight, Pow2(cfg.plan.right), i, Abs(l.before), l.out)
       else CurIdeal(cfg, l.run, K(cfg, l.run, round), i, l.cur)
            && OutIdeal(cfg, l.run, LandedBelow(K(cfg, l.run, round)), i, Abs(l.before), l.out)
  }

  ghost predicate InRoundIdeal(cfg: Config, i: nat, round: nat, l: Local) {
    && cfg.Valid() && i < cfg.plan.n && Runs(cfg, l.run, round) && BeforeIdeal(cfg, l.run, i, l.before)
    && KeepIdeal(cfg, l.run, K(cfg, l.run, round), i, l.keep)
    && OutIdeal(cfg, l.run, LandedBelow(K(cfg, l.run, round) + 1), i, Abs(l.before), l.out)
  }

  function RunOf(cfg: Config, round: nat): Run {
    if round < cfg.plan.left then GoingLeft else GoingRight
  }

  ghost predicate MessageIdeal(cfg: Config, i: nat, round: nat, h: Hash) {
    && cfg.Valid() && i < cfg.plan.n && PackSize(h) <= INT_MAX
    && SendIdeal(cfg, RunOf(cfg, round), K(cfg, RunOf(cfg, round), round), i, h)
  }

  /** Some message of one of the two runs exceeds INT_MAX bytes. */
  ghost predicate TooBig(cfg: Config) {
    Oversize(cfg.left, Left, cfg.plan.left) || Oversize(cfg.right, Right, cfg.plan.right)
  }

  function RunsEnded(l: Local): nat {
    match l.run case GoingLeft => 0 case GoingRight => 1 case Finished => 2
  }

  ghost function Prog(cfg: Config): Program<Local> {
    Program(cfg.plan,
            (i: nat, l: Local) => Begins(cfg, i, l),
            (i: nat, round: nat, l: Local, l': Local) => Starts(cfg, i, round, l, l'),
            (l: Local, h: Hash, l': Local) => Finishes(l, h, l'),
            (i: nat, round: nat, l: Local, l': Local) => EndsRun(cfg, i, round, l, l'),
            (l: Local) => l.send,
            (i: nat, round: nat, l: Local) => AtRoundIdeal(cfg, i, round, l),
            (i: nat, round: nat, l: Local) => InRoundIdeal(cfg, i, round, l),
            (i: nat, round: nat, h: Hash) => MessageIdeal(cfg, i, round, h),
            (i: nat, l: Local) => l.run.Finished?,
            TooBig(cfg),
            (l: Local) => RunsEnded(l))
  }

  // ---------- one rank's computation keeps to the lockstep values ----------

  lemma LoadedIsIdeal(cfg: Config, run: Run, i: nat, cur: Hash, out: Hash)
    requires cfg.Valid() && i < cfg.plan.n && Loads(cfg.plan.n, i, cfg.Items(run)[i], cur) && IsTree(out)
    ensures CurIdeal(cfg, run, 0, i, cur) && OutIdeal(cfg, run, 0, i, Abs(out), out)
  {
    forall dk, sk
      ensures Lookup(Abs(cur), dk, sk) == Expected(cfg.Items(run), DirOf(run), 0, i, dk, sk)
    {
      LoadedAt(cfg.Items(run), DirOf(run), i, dk, sk);
    }
  }

  lemma LoadedAt(sent: seq<Tree>, dir: Direction, i: nat, dk: string, sk: string)
    requires i < |sent| && RankKeys(sent[i], |sent|)
    ensures Expected(sent, dir, 0, i, dk, sk) == if sk == Dec(i) then Child(sent[i], dk) else None
  {
  }

  lemma SplitKeeps(cfg: Config, run: Run, k: nat, i: nat, cur: Hash, out: Tree, keep: Hash, send: Hash, out': Tree)
    requires cfg.Valid() && i < cfg.plan.n && CurIdeal(cfg, run, k, i, cur) && IsTree(keep) && IsTree(send)
    requires Splits(DirOf(run), i, cfg.plan.n, k, Abs(cur), out, Abs(keep), Abs(send), out')
    ensures KeepIdeal(cfg, run, k, i, keep) && SendIdeal(cfg, run, k, i, send)
  {
  }

  lemma SplitDelivers(cfg: Config, run: Run, k: nat, i: nat, cur: Hash, before: Tree, out: Hash, keep: Tree,
                      send: Tree, out': Hash)
    requires cfg.Valid() && i < cfg.plan.n && Pow2(k) < cfg.plan.n && IsTree(out')
    requires CurIdeal(cfg, run, k, i, cur) && OutIdeal(cfg, run, LandedBelow(k), i, before, out)
    requires Splits(DirOf(run), i, cfg.plan.n, k, Abs(cur), Abs(out), keep, send, Abs(out'))
    ensures OutIdeal(cfg, run, LandedBelow(k + 1), i, before, out')
  {
    forall sk
      ensures Child(Abs(out'), sk) ==
                JoinOpt(Child(before, sk), Received(cfg.Items(run), DirOf(run), LandedBelow(k + 1), i, sk))
    {
      RoundDelivers(cfg.Items(run), DirOf(run), k, i, sk, before, Abs(out), Abs(out'));
    }
  }

  lemma MergeIsIdeal(cfg: Config, run: Run, k: nat, i: nat, keep: Hash, from: Hash, recv: Hash, cur: Hash)
    requires cfg.Valid() && i < cfg.plan.n && Pow2(k) < cfg.plan.n && KeepIdeal(cfg, run, k, i, keep)
    requires SendIdeal(cfg, run, k, Peer(Opposite(DirOf(run)), i, Pow2(k), cfg.plan.n), from)
    requires IsTree(cur) && Abs(recv) == Abs(from) && Abs(cur) == Join(Abs(keep), Abs(recv))
    ensures CurIdeal(cfg, run, k + 1, i, cur)
  {
    var items := cfg.Items(run);
    ProperJoin(Abs(keep), Abs(from), cfg.plan.n);
    forall dk, sk
      ensures Lookup(Abs(cur), dk, sk) == Expected(items, DirOf(run), k + 1, i, dk, sk)
    {
      RoundMoves(items, DirOf(run), k, i, dk, sk, Abs(keep), Abs(from));
    }
  }

  lemma EndIsIdeal(cfg: Config, run: Run, k: nat, i: nat, before: Tree, cur: Hash, out: Hash, out': Hash)
    requires cfg.Valid() && i < cfg.plan.n && IsTree(out')
    requires CurIdeal(cfg, run, k, i, cur) && OutIdeal(cfg, run, LandedBelow(k), i, before, out)
    requires TookOwn(Abs(out), Abs(out'), Abs(cur), i)
    ensures OutIdeal(cfg, run, Pow2(k), i, before, out')
  {
    forall sk
      ensures Child(Abs(out'), sk) == JoinOpt(Child(before, sk), Received(cfg.Items(run), DirOf(run), Pow2(k), i, sk))
    {
      FinishDelivers(cfg.Items(run), DirOf(run), k, i, sk, before, Abs(out), Abs(out'));
    }
  }

  // ---------- the program is sound ----------

  lemma BeginsSound(cfg: Config, i: nat, l: Local)
    requires cfg.Valid() && i < cfg.plan.n && Begins(cfg, i, l)
    ensures AtRoundIdeal(cfg, i, 0, l)
  {
    LoadedIsIdeal(cfg, GoingLeft, i, l.cur, l.out);
  }

  lemma StartsSound(cfg: Config, i: nat, round: nat, l: Local, l': Local)
    requires AtRoundIdeal(cfg, i, round, l) && Starts(cfg, i, round, l, l')
    ensures InRoundIdeal(cfg, i, round, l')
    ensures if PackSize(l'.send) <= INT_MAX then MessageIdeal(cfg, i, round, l'.send) else TooBig(cfg)
  {
    var k := K(cfg, l.run, round);
    RunsThePlan(cfg, l.run, round);
    SplitKeeps(cfg, l.run, k, i, l.cur, Abs(l.out), l'.keep, l'.send, Abs(l'.out));
    SplitDelivers(cfg, l.run, k, i, l.cur, Abs(l.before), l.out, Abs(l'.keep), Abs(l'.send), l'.out);
    LengthOfMessage(cfg.Items(l.run), DirOf(l.run), k, i, l'.send);
  }

  lemma PartnerOfRound(cfg: Config, run: Run, round: nat, k: nat, i: nat)
    requires cfg.Valid() && i < cfg.plan.n && Runs(cfg, run, round) && round < cfg.plan.Total()
               && k == K(cfg, run, round)
    ensures Pow2(k) < cfg.plan.n
    ensures SrcOfRound(cfg.plan, round, i) == Peer(Opposite(DirOf(run)), i, Pow2(k), cfg.plan.n)
  {
    RunsThePlan(cfg, run, round);
  }

  lemma NextRound(cfg: Config, run: Run, round: nat)
    requires cfg.Valid() && Runs(cfg, run, round)
    ensures Within(cfg, run, round + 1) && K(cfg, run, round + 1) == K(cfg, run, round) + 1
  {
  }

  lemma FinishesSound(cfg: Config, i: nat, round: nat, k: nat, l: Local, l': Local)
    requires InRoundIdeal(cfg, i, round, l) && k == K(cfg, l.run, round)
    requires l' == l.(cur := l'.cur) && CurIdeal(cfg, l.run, k + 1, i, l'.cur)
    ensures AtRoundIdeal(cfg, i, round + 1, l')
  {
    NextRound(cfg, l.run, round);
  }

  lemma SwitchSound(cfg: Config, i: nat, l: Local, l': Local)
    requires AtRoundIdeal(cfg, i, cfg.plan.left, l) && EndsRun(cfg, i, cfg.plan.left, l, l') && l.run.GoingLeft?
    ensures AtRoundIdeal(cfg, i, cfg.plan.left, l')
  {
    EndIsIdeal(cfg, GoingLeft, cfg.plan.left, i, Abs(l.before), l.cur, l.out, l'.out);
    LoadedIsIdeal(cfg, GoingRight, i, l'.cur, l'.out);
    assert K(cfg, GoingRight, cfg.plan.left) == 0;
  }

  lemma StopSound(cfg: Config, i: nat, l: Local, l': Local)
    requires AtRoundIdeal(cfg, i, cfg.plan.Total(), l) && EndsRun(cfg, i, cfg.plan.Total(), l, l') && l.run.GoingRight?
    ensures AtRoundIdeal(cfg, i, cfg.plan.Total(), l')
  {
    assert K(cfg, GoingRight, cfg.plan.Total()) == cfg.plan.right;
    EndIsIdeal(cfg, GoingRight, cfg.plan.right, i, Abs(l.before), l.cur, l.out, l'.out);
  }

  lemma EndsRunSound(cfg: Config, i: nat, round: nat, l: Local, l': Local)
    requires AtRoundIdeal(cfg, i, round, l) && EndsRun(cfg, i, round, l, l')
    ensures AtRoundIdeal(cfg, i, round, l')
  {
    if l.run.GoingLeft? {
      SwitchSound(cfg, i, l, l');
    } else {
      StopSound(cfg, i, l, l');
    }
  }

  lemma ProgramIsSound(cfg: Config)
    requires cfg.Valid()
    ensures Sound(Prog(cfg))
  {
    FirstStepsSound(cfg);
    StartStepsSound(cfg);
    FinishStepsSound(cfg);
    TidyStepsSound(cfg);
  }

  lemma FirstStepsSound(cfg: Config)
    requires cfg.Valid()
    ensures BeginSound(Prog(cfg))
  {
    var prog := Prog(cfg);
    forall i: nat, l | i < cfg.plan.n && prog.begin(i, l)
      ensures prog.atRound(i, 0, l) && prog.tidied(l) == 0
    {
      BeginsSound(cfg, i, l);
    }
  }

  lemma StartStepsSound(cfg: Config)
    requires cfg.Valid()
    ensures StartSound(Prog(cfg))
  {
    var prog := Prog(cfg);
    forall i: nat, round: nat, l, l' | prog.atRound(i, round, l) && prog.start(i, round, l, l')
      ensures prog.inRound(i, round, l') && prog.tidied(l') == prog.tidied(l)
      ensures if PackSize(prog.send(l')) <= INT_MAX then prog.message(i, round, prog.send(l')) else prog.tooBig
    {
      StartsSound(cfg, i, round, l, l');
    }
  }

  lemma FinishStepsSound(cfg: Config)
    requires cfg.Valid()
    ensures FinishSound(Prog(cfg))
  {
    forall i: nat, round: nat, l, h, h', l'
      ensures FinishOk(Prog(cfg), i, round, l, h, h', l')
    {
      FinishStepSound(cfg, i, round, l, h, h', l');
    }
  }

  lemma FinishStepSound(cfg: Config, i: nat, round: nat, l: Local, h: Hash, h': Hash, l': Local)
    requires cfg.Valid()
    ensures FinishOk(Prog(cfg), i, round, l, h, h', l')
  {
    if Receives(Prog(cfg), i, round, l, h, h') && Finishes(l, h', l') {
      ReceivedSound(cfg, i, round, l, h, h', l');
      SoFinishOk(Prog(cfg), i, round, l, h, h', l');
    }
  }

  lemma ReceivedSound(cfg: Config, i: nat, round: nat, l: Local, h: Hash, h': Hash, l': Local)
    requires cfg.Valid() && Receives(Prog(cfg), i, round, l, h, h') && Finishes(l, h', l')
    ensures Prog(cfg).atRound(i, round + 1, l') && RunsEnded(l') == RunsEnded(l)
  {
    var k := K(cfg, l.run, round);
    ReceivesIdeal(cfg, i, round, k, l, h, h');
    MergeIsIdeal(cfg, l.run, k, i, l.keep, h, h', l'.cur);
    FinishesSound(cfg, i, round, k, l, l');
    MeansAtRound(cfg, i, round + 1, l');
  }

  lemma ReceivesIdeal(cfg: Config, i: nat, round: nat, k: nat, l: Local, h: Hash, h': Hash)
    requires cfg.Valid() && Receives(Prog(cfg), i, round, l, h, h') && k == K(cfg, l.run, round)
    ensures InRoundIdeal(cfg, i, round, l) && KeepIdeal(cfg, l.run, k, i, l.keep) && Pow2(k) < cfg.plan.n
    ensures SendIdeal(cfg, l.run, k, Peer(Opposite(DirOf(l.run)), i, Pow2(k), cfg.plan.n), h)
    ensures Abs(h') == Abs(h)
  {
    SamePartner(cfg.plan, i, round);
    PartnerOfRound(cfg, l.run, round, k, i);
    assert RunOf(cfg, round) == l.run;
  }

  lemma MeansAtRound(cfg: Config, i: nat, round: nat, l: Local)
    requires AtRoundIdeal(cfg, i, round, l)
    ensures Prog(cfg).atRound(i, round, l)
  {
  }

  lemma SoFinishOk(prog: Program<Local>, i: nat, round: nat, l: Local, h: Hash, h': Hash, l': Local)
    requires prog.plan.Valid()
    requires prog.atRound(i, round + 1, l') && prog.tidied(l') == prog.tidied(l)
    ensures FinishOk(prog, i, round, l, h, h', l')
  {
  }

  lemma TidyStepsSound(cfg: Config)
    requires cfg.Valid()
    ensures TidySound(Prog(cfg))
  {
    var prog := Prog(cfg);
    forall i: nat, round: nat, l, l' | prog.atRound(i, round, l) && prog.tidy(i, round, l, l')
      ensures prog.atRound(i, round, l') && prog.tidied(l') == prog.tidied(l) + 1
    {
      EndsRunSound(cfg, i, round, l, l');
    }
  }

  // ---------- there is always a next computation ----------

  /** Keys a C string can hold, at every level. */
  predicate Clean(t: Tree) {
    forall k :: k in t.kids ==> NoNul(k) && Clean(t.kids[k])
  }

  lemma {:induction false} HashesAreClean(h: Hash)
    ensures Clean(Abs(h))
    decreases h
  {
    forall k | k in Abs(h).kids
      ensures NoNul(k) && Clean(Abs(h).kids[k])
    {
      AbsLookup(h.elems, k);
      HashesAreClean(h.elems[IndexOf(h.elems, k)].hash);
    }
  }

  lemma {:induction false} JoinIsClean(a: Tree, b: Tree)
    requires Clean(a) && Clean(b)
    ensures Clean(Join(a, b))
    decreases a
  {
    forall k | k in a.kids && k in b.kids
      ensures Clean(Join(a.kids[k], b.kids[k]))
    {
      JoinIsClean(a.kids[k], b.kids[k]);
    }
  }

  /** Every tree with such keys is the meaning of some list. */
  lemma {:induction false} SomeHashFor(t: Tree) returns (h: Hash)
    requires Clean(t)
    ensures IsTree(h) && Abs(h) == t
    decreases t
  {
    h := Hash([]);
    var rest := t.kids.Keys;
    while rest != {}
      invariant rest <= t.kids.Keys && IsTree(h)
      invariant Abs(h).kids == t.kids - rest
      decreases rest
    {
      var k :| k in rest;
      var child := SomeHashFor(t.kids[k]);
      SetUpdates(h, k, child);
      h := Set(h, k, child);
      rest := rest - {k};
    }
    assert Abs(h).kids == t.kids;
  }

  function TaggedItems(items: Tree, i: nat): Tree {
    if items.kids == map[] then EMPTY
    else Single("D", Tree(map dk | dk in items.kids :: Single("S", Single(Dec(i), items.kids[dk]))))
  }

  lemma TaggedLookup(items: Tree, i: nat, dk: string, sk: string)
    ensures Lookup(TaggedItems(items, i), dk, sk) == if sk == Dec(i) then Child(items, dk) else None
  {
    if items.kids != map[] && dk in items.kids {
      assert Kid(Kid(TaggedItems(items, i), "D"), dk) == Single("S", Single(Dec(i), items.kids[dk]));
    }
  }

  lemma OneSource(i: nat, t: Tree)
    ensures HasSources(Single("S", Single(Dec(i), t)))
  {
    assert Dec(i) in Single(Dec(i), t).kids;
  }

  lemma TaggedIsProper(items: Tree, i: nat, n: nat)
    requires RankKeys(items, n)
    ensures Proper(TaggedItems(items, i), n) && Tagged(TaggedItems(items, i), items, i)
  {
    forall dk, sk
      ensures Lookup(TaggedItems(items, i), dk, sk) == if sk == Dec(i) then Child(items, dk) else None
    {
      TaggedLookup(items, i, dk, sk);
    }
    if items.kids != map[] {
      var d := Kid(TaggedItems(items, i), "D");
      forall dk | dk in d.kids
        ensures IsRank(dk, n) && HasSources(d.kids[dk])
      {
        OneSource(i, items.kids[dk]);
      }
      var k :| k in items.kids;
      assert k in d.kids;
    }
  }

  lemma TaggedIsClean(items: Tree, i: nat)
    requires Clean(items)
    ensures Clean(TaggedItems(items, i))
  {
    forall dk | dk in items.kids
      ensures Clean(Single("S", Single(Dec(i), items.kids[dk])))
    {
      SingleIsClean(Dec(i), items.kids[dk]);
      SingleIsClean("S", Single(Dec(i), items.kids[dk]));
    }
    SingleIsClean("D", Kid(TaggedItems(items, i), "D"));
  }

  lemma SingleIsClean(k: string, t: Tree)
    requires NoNul(k) && Clean(t)
    ensures Clean(Single(k, t))
  {
  }

  lemma KidIsClean(t: Tree, k: string)
    requires Clean(t)
    ensures Clean(Kid(t, k))
  {
  }

  /** The tagged form of any items. */
  lemma SomethingLoads(n: nat, i: nat, items: Tree) returns (cur: Hash)
    requires Sendable(items, n)
    ensures Loads(n, i, items, cur)
  {
    TaggedIsClean(items, i);
    TaggedIsProper(items, i, n);
    cur := SomeHashFor(TaggedItems(items, i));
  }

  /** The part of a working tree whose destinations satisfy a condition. */
  function Part(cur: Tree, pick: string -> bool): Tree {
    var dests := Kid(cur, "D").kids;
    var picked := map dk | dk in dests && pick(dk) :: dests[dk];
    if picked == map[] then EMPTY else Single("D", Tree(picked))
  }

  lemma PartLookup(cur: Tree, pick: string -> bool, dk: string, sk: string)
    ensures Lookup(Part(cur, pick), dk, sk) == if pick(dk) then Lookup(cur, dk, sk) else None
  {
    var dests := Kid(cur, "D").kids;
    var picked := map dk | dk in dests && pick(dk) :: dests[dk];
    assert picked == map[] ==> dk !in picked;
  }

  lemma PartIsProper(cur: Tree, n: nat, pick: string -> bool)
    requires Proper(cur, n) && Clean(cur)
    ensures Proper(Part(cur, pick), n) && Clean(Part(cur, pick))
  {
    KidIsClean(cur, "D");
  }

  lemma SomePart(cur: Hash, n: nat, pick: string -> bool) returns (part: Hash)
    requires Proper(Abs(cur), n)
    ensures IsTree(part) && Proper(Abs(part), n)
    ensures forall dk, sk :: Lookup(Abs(part), dk, sk) == if pick(dk) then Lookup(Abs(cur), dk, sk) else None
  {
    HashesAreClean(cur);
    PartIsProper(Abs(cur), n, pick);
    part := SomeHashFor(Part(Abs(cur), pick));
    forall dk, sk
      ensures Lookup(Abs(part), dk, sk) == if pick(dk) then Lookup(Abs(cur), dk, sk) else None
    {
      PartLookup(Abs(cur), pick, dk, sk);
    }
  }

  lemma SomeOutput(cur: Hash, out: Hash, i: nat) returns (out': Hash)
    ensures IsTree(out') && TookOwn(Abs(out), Abs(out'), Abs(cur), i)
  {
    HashesAreClean(cur);
    HashesAreClean(out);
    var mine := Kid(Kid(Kid(Abs(cur), "D"), Dec(i)), "S");
    KidIsClean(Abs(cur), "D");
    KidIsClean(Kid(Abs(cur), "D"), Dec(i));
    KidIsClean(Kid(Kid(Abs(cur), "D"), Dec(i)), "S");
    JoinIsClean(Abs(out), mine);
    out' := SomeHashFor(Join(Abs(out), mine));
    forall sk
      ensures Child(Abs(out'), sk) == JoinOpt(Child(Abs(out), sk), Lookup(Abs(cur), Dec(i), sk))
    {
      ChildJoin(Abs(out), mine, sk);
    }
  }

  lemma SomeSplit(cfg: Config, i: nat, round: nat, l: Local)
    requires cfg.Valid() && i < cfg.plan.n && Runs(cfg, l.run, round)
               && CurIdeal(cfg, l.run, K(cfg, l.run, round), i, l.cur)
    ensures exists l' :: Starts(cfg, i, round, l, l')
  {
    var n, k, dir := cfg.plan.n, K(cfg, l.run, round), DirOf(l.run);
    var keep := SomePart(l.cur, n, dk => Keeps(dir, i, n, k, dk));
    var send := SomePart(l.cur, n, dk => Forwards(dir, i, n, k, dk));
    var out := SomeOutput(l.cur, l.out, i);
    assert Splits(dir, i, n, k, Abs(l.cur), Abs(l.out), Abs(keep), Abs(send), Abs(out));
    assert Starts(cfg, i, round, l, Local(l.run, l.cur, out, l.before, keep, send));
  }

  lemma SomeEnd(cfg: Config, i: nat, round: nat, l: Local)
    requires cfg.Valid() && i < cfg.plan.n
    requires (l.run.GoingLeft? && round == cfg.plan.left) || (l.run.GoingRight? && round == cfg.plan.Total())
    ensures exists l' :: EndsRun(cfg, i, round, l, l')
  {
    var out := SomeOutput(l.cur, l.out, i);
    if l.run.GoingLeft? {
      var cur := SomethingLoads(cfg.plan.n, i, cfg.right[i]);
      assert EndsRun(cfg, i, round, l, l.(run := GoingRight, out := out, before := out, cur := cur));
    } else {
      assert EndsRun(cfg, i, round, l, l.(run := Finished, out := out));
    }
  }

  lemma SomeFinish(l: Local, recv: Hash)
    ensures exists l' :: Finishes(l, recv, l')
  {
    HashesAreClean(l.keep);
    HashesAreClean(recv);
    JoinIsClean(Abs(l.keep), Abs(recv));
    var cur := SomeHashFor(Join(Abs(l.keep), Abs(recv)));
    assert Finishes(l, recv, l.(cur := cur));
  }

  lemma ProgramIsLive(cfg: Config)
    requires cfg.Valid()
    ensures Live(Prog(cfg))
  {
    var prog := Prog(cfg);
    forall i: nat, round: nat, l | i < cfg.plan.n && round <= cfg.plan.Total() && prog.atRound(i, round, l)
      ensures || (round == cfg.plan.Total() && prog.done(i, l)) || CanStart(prog, i, round, l)
                || CanTidy(prog, i, round, l)
    {
      CanGoOn(cfg, i, round, l);
    }
    forall i: nat, round: nat, l, h: Hash | i < cfg.plan.n
      ensures CanFinish(prog, i, round, l, h)
    {
      SomeFinish(l, h);
      var l' :| Finishes(l, h, l');
      assert prog.finish(l, h, l');
    }
  }

  lemma CanGoOn(cfg: Config, i: nat, round: nat, l: Local)
    requires AtRoundIdeal(cfg, i, round, l)
    ensures var prog := Prog(cfg);
            || (round == cfg.plan.Total() && l.run.Finished?) || CanStart(prog, i, round, l)
                || CanTidy(prog, i, round, l)
  {
    var prog := Prog(cfg);
    if Runs(cfg, l.run, round) {
      SomeSplit(cfg, i, round, l);
      var l' :| Starts(cfg, i, round, l, l');
      assert prog.start(i, round, l, l');
    } else if !l.run.Finished? {
      SomeEnd(cfg, i, round, l);
      var l' :| EndsRun(cfg, i, round, l, l');
      assert prog.tidy(i, round, l, l');
    }
  }

  // ---------- what any run comes to ----------

  /** What the ranks of an exchange agree on after assigning directions and reducing the hop limits. */
  ghost function ConfigOf(send: seq<Hash>, recv: seq<Hash>, maxLeft: nat, maxRight: nat): Config {
    Config(Plan(|send|, maxLeft, maxRight), Shares(Left, AbsAll(send)), Shares(Right, AbsAll(send)), AbsAll(recv))
  }

  lemma ConfigIsValid(send: seq<Hash>, recv: seq<Hash>, maxLeft: nat, maxRight: nat)
    requires |send| > 0 && Addressed(send, |send|) && |recv| == |send|
    requires maxLeft <= Rounds(|send|) && maxRight <= Rounds(|send|)
    ensures ConfigOf(send, recv, maxLeft, maxRight).Valid()
  {
    forall i | 0 <= i < |send|
      ensures Sendable(Share(Left, i, |send|, Abs(send[i])), |send|)
                && Sendable(Share(Right, i, |send|, Abs(send[i])), |send|)
    {
      HashesAreClean(send[i]);
    }
  }

  ghost function Outputs(s: State<Local>): (ts: seq<Tree>)
    ensures |ts| == |s.ranks|
    ensures forall i :: 0 <= i < |ts| ==> ts[i] == Abs(s.ranks[i].local.out)
  {
    seq(|s.ranks|, i requires 0 <= i < |s.ranks| => Abs(s.ranks[i].local.out))
  }

  lemma EndedAt(cfg: Config, s: State<Local>, i: nat)
    requires Ended(Prog(cfg), s) && i < |s.ranks|
    ensures s.ranks[i].local.run.Finished? && AtRoundIdeal(cfg, i, cfg.plan.Total(), s.ranks[i].local)
  {
    assert RankDone(Prog(cfg), i, s.ranks[i]);
  }

  lemma EndedMeansDelivered(send: seq<Hash>, recv: seq<Hash>, maxLeft: nat, maxRight: nat, s: State<Local>)
    requires |send| == |recv| == |s.ranks| && Ended(Prog(ConfigOf(send, recv, maxLeft, maxRight)), s)
    requires AgreedLimits(AbsAll(send), maxLeft, maxRight)
    ensures Delivered(Outputs(s), AbsAll(recv), AbsAll(send))
  {
    var n := |send|;
    var mid := seq(n, i requires 0 <= i < n => Abs(s.ranks[i].local.before));
    var cfg := ConfigOf(send, recv, maxLeft, maxRight);
    forall i, sk | 0 <= i < n
      ensures Child(mid[i], sk) == JoinOpt(Child(cfg.out0[i], sk), Received(cfg.left, Left, Pow2(maxLeft), i, sk))
      ensures Child(Outputs(s)[i], sk) == JoinOpt(Child(mid[i], sk), Received(cfg.right, Right, Pow2(maxRight), i, sk))
    {
      EndedAt(cfg, s, i);
    }
    BothRunsDeliver(AbsAll(recv), mid, Outputs(s), AbsAll(send), maxLeft, maxRight);
  }

  /** Once every message has been sent, none was too long. */
  lemma SentMeansShort(cfg: Config, run: Run, k: nat, i: nat, round: nat)
    requires cfg.Valid() && i < cfg.plan.n && Runs(cfg, run, round) && k == K(cfg, run, round)
    requires exists h: Hash :: MessageIdeal(cfg, i, round, h)
    ensures !TooLong(cfg.Items(run), DirOf(run), k, i)
  {
    var h: Hash :| MessageIdeal(cfg, i, round, h);
    assert RunOf(cfg, round) == run;
    LengthOfMessage(cfg.Items(run), DirOf(run), k, i, h);
  }

  lemma EndedMeansShort(cfg: Config)
    requires cfg.Valid()
    requires forall i: nat, round: nat :: i < cfg.plan.n && round < cfg.plan.Total() ==> WasSent(Prog(cfg), i, round)
    ensures !TooBig(cfg)
  {
    forall k: nat, i: nat | k < cfg.plan.left && i < cfg.plan.n
      ensures !TooLong(cfg.left, Left, k, i)
    {
      SentInRound(cfg, i, k);
      SentMeansShort(cfg, GoingLeft, k, i, k);
    }
    forall k: nat, i: nat | k < cfg.plan.right && i < cfg.plan.n
      ensures !TooLong(cfg.right, Right, k, i)
    {
      SentInRound(cfg, i, cfg.plan.left + k);
      SentMeansShort(cfg, GoingRight, k, i, cfg.plan.left + k);
    }
  }

  lemma SentInRound(cfg: Config, i: nat, round: nat)
    requires cfg.Valid() && i < cfg.plan.n && round < cfg.plan.Total()
    requires WasSent(Prog(cfg), i, round)
    ensures exists h: Hash :: MessageIdeal(cfg, i, round, h)
  {
    var h: Hash :| Prog(cfg).message(i, round, h);
    assert MessageIdeal(cfg, i, round, h);
  }

  lemma ProgramIsGood(send: seq<Hash>, recv: seq<Hash>, maxLeft: nat, maxRight: nat)
    requires |send| > 0 && Addressed(send, |send|) && |recv| == |send|
    requires AgreedLimits(AbsAll(send), maxLeft, maxRight)
    ensures ConfigOf(send, recv, maxLeft, maxRight).Valid()
    ensures Sound(Prog(ConfigOf(send, recv, maxLeft, maxRight))) && Live(Prog(ConfigOf(send, recv, maxLeft, maxRight)))
  {
    CoverIsWithinRounds(maxLeft, Left, Shares(Left, AbsAll(send)));
    CoverIsWithinRounds(maxRight, Right, Shares(Right, AbsAll(send)));
    ConfigIsValid(send, recv, maxLeft, maxRight);
    ProgramIsSound(ConfigOf(send, recv, maxLeft, maxRight));
    ProgramIsLive(ConfigOf(send, recv, maxLeft, maxRight));
  }

  /** However the ranks interleave, an exchange that can go no further has aborted exactly when the lockstep one
      does, because of a message of more than INT_MAX bytes, and otherwise has delivered every item. */
  lemma EveryRunDelivers(send: seq<Hash>, recv: seq<Hash>, maxLeft: nat, maxRight: nat, run: seq<State<Local>>)
    requires |send| > 0 && Addressed(send, |send|) && |recv| == |send|
    requires AgreedLimits(AbsAll(send), maxLeft, maxRight)
    requires var prog := Prog(ConfigOf(send, recv, maxLeft, maxRight));
             IsRun(prog, run) && Shape(prog, run[|run| - 1]) && Stuck(prog, run[|run| - 1])
    ensures var last := run[|run| - 1];
            && (last.aborted <==> ExchangeTooLong(AbsAll(send)))
            && (!last.aborted ==> Delivered(Outputs(last), AbsAll(recv), AbsAll(send)))
  {
    var cfg := ConfigOf(send, recv, maxLeft, maxRight);
    var last := run[|run| - 1];
    ProgramIsGood(send, recv, maxLeft, maxRight);
    EndsInLockstep(Prog(cfg), run);
    LimitsDecide(AbsAll(send), maxLeft, maxRight);
    if !last.aborted {
      EndedMeansDelivered(send, recv, maxLeft, maxRight, last);
      EndedMeansShort(cfg);
    }
  }

  /** Every interleaving of an exchange ends, within a bound on its number of steps. */
  lemma EveryRunEnds(send: seq<Hash>, recv: seq<Hash>, maxLeft: nat, maxRight: nat, run: seq<State<Local>>)
    requires |send| > 0 && Addressed(send, |send|) && |recv| == |send|
    requires AgreedLimits(AbsAll(send), maxLeft, maxRight)
    requires IsRun(Prog(ConfigOf(send, recv, maxLeft, maxRight)), run)
    ensures |run| - 1 <= MaxWork(Plan(|send|, maxLeft, maxRight)) + 1
  {
    ProgramIsGood(send, recv, maxLeft, maxRight);
    RunsEnd(Prog(ConfigOf(send, recv, maxLeft, maxRight)), run);
  }
}
