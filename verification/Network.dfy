/** Ordered channels between ranks that all follow the same fixed plan of phases. In phase p every rank sends
    one message to its destination of that phase and receives one from its source of that phase; nothing else
    synchronises the ranks. */
module Network {
  import opened Bits
  import opened Routes

  /** The rounds of a left run followed by those of a right run, each round a size phase and a data phase. */
  datatype Plan = Plan(n: nat, left: nat, right: nat) {
    ghost predicate Valid() {
      n > 0 && left <= Rounds(n) && right <= Rounds(n)
    }

    function Total(): nat {
      left + right
    }

    function Dir(round: nat): Direction {
      if round < left then Left else Right
    }

    function BitOf(round: nat): nat {
      if round < left then round else round - left
    }
  }

  lemma StepInRange(plan: Plan, round: nat)
    requires plan.Valid() && round < plan.Total()
    ensures Pow2(plan.BitOf(round)) < plan.n
  {
    RoundsIsGuard(plan.n, plan.BitOf(round));
  }

  /** The round that phase p belongs to. */
  function RoundOf(p: nat): nat {
    if p < 2 then 0 else 1 + RoundOf(p - 2)
  }

  /** Is it the size phase of its round? */
  predicate IsSizePhase(p: nat) {
    p == 0 || (p > 1 && IsSizePhase(p - 2))
  }

  lemma {:induction false} PhasesOfRound(k: nat)
    ensures RoundOf(2 * k) == k && IsSizePhase(2 * k)
    ensures RoundOf(2 * k + 1) == k && !IsSizePhase(2 * k + 1)
  {
    if k > 0 {
      PhasesOfRound(k - 1);
    }
  }

  lemma {:induction false} RoundInRange(p: nat, rounds: nat)
    requires p < 2 * rounds
    ensures RoundOf(p) < rounds
  {
    if p >= 2 {
      RoundInRange(p - 2, rounds - 1);
    }
  }

  /** The rank that i sends to in phase p. */
  function Dst(plan: Plan, p: nat, i: nat): (d: nat)
    requires plan.Valid() && p < 2 * plan.Total() && i < plan.n
    ensures d < plan.n
  {
    RoundInRange(p, plan.Total());
    StepInRange(plan, RoundOf(p));
    Peer(plan.Dir(RoundOf(p)), i, Pow2(plan.BitOf(RoundOf(p))), plan.n)
  }

  /** The rank that i receives from in phase p. */
  function Src(plan: Plan, p: nat, i: nat): (s: nat)
    requires plan.Valid() && p < 2 * plan.Total() && i < plan.n
    ensures s < plan.n
  {
    RoundInRange(p, plan.Total());
    StepInRange(plan, RoundOf(p));
    Peer(Opposite(plan.Dir(RoundOf(p))), i, Pow2(plan.BitOf(RoundOf(p))), plan.n)
  }

  /** The rank that i receives from in both phases of a round. */
  function SrcOfRound(plan: Plan, round: nat, i: nat): (s: nat)
    requires plan.Valid() && round < plan.Total() && i < plan.n
    ensures s < plan.n
  {
    StepInRange(plan, round);
    Peer(Opposite(plan.Dir(round)), i, Pow2(plan.BitOf(round)), plan.n)
  }

  /** In round k of the left run a rank sends to the rank 2^k below it, in round k of the right run to the one 2^k
      above it, around the ring; the size and the data alike. */
  lemma DstIsNext(plan: Plan, round: nat, i: nat)
    requires plan.Valid() && round < plan.Total() && i < plan.n
    ensures Pow2(if round < plan.left then round else round - plan.left) < plan.n
    ensures Dst(plan, 2 * round, i) == Dst(plan, 2 * round + 1, i) ==
            if round < plan.left then (i + plan.n - Pow2(round)) % plan.n
            else (i + Pow2(round - plan.left)) % plan.n
  {
    PhasesOfRound(round);
    StepInRange(plan, round);
    PeerIsNext(plan.Dir(round), i, Pow2(plan.BitOf(round)), plan.n);
  }

  /** A size and its data come from the same rank. */
  lemma SamePartner(plan: Plan, i: nat, round: nat)
    requires plan.Valid() && i < plan.n && round < plan.Total()
    ensures Src(plan, 2 * round, i) == Src(plan, 2 * round + 1, i) == SrcOfRound(plan, round, i)
  {
    PhasesOfRound(round);
  }

  lemma SrcOfDst(plan: Plan, p: nat, i: nat, j: nat)
    requires plan.Valid() && p < 2 * plan.Total() && i < plan.n && j < plan.n
    ensures Dst(plan, p, i) == j <==> Src(plan, p, j) == i
  {
    RoundInRange(p, plan.Total());
    StepInRange(plan, RoundOf(p));
    PeerAndBack(plan.Dir(RoundOf(p)), i, Pow2(plan.BitOf(RoundOf(p))), plan.n);
    PeerAndBack(plan.Dir(RoundOf(p)), j, Pow2(plan.BitOf(RoundOf(p))), plan.n);
  }

  datatype Msg = Size(bytes: nat) | Data(packed: string)

  /** A message in flight. The phase it was sent in is recorded for the statements below; no rank looks at it. */
  datatype Env = Env(phase: nat, msg: Msg)

  type Channels = map<(nat, nat), seq<Env>>

  function Queue(chan: Channels, i: nat, j: nat): seq<Env> {
    if (i, j) in chan then chan[(i, j)] else []
  }

  /** The phases in [lo, hi) in which i sends to j, in order. */
  function PhasesTo(plan: Plan, i: nat, j: nat, lo: nat, hi: nat): seq<nat>
    requires plan.Valid() && hi <= 2 * plan.Total() && i < plan.n
  {
    if hi <= lo then []
    else PhasesTo(plan, i, j, lo, hi - 1) + (if Dst(plan, hi - 1, i) == j then [hi - 1] else [])
  }

  lemma {:induction false} FirstPhase(plan: Plan, i: nat, j: nat, lo: nat, hi: nat)
    requires plan.Valid() && lo < hi <= 2 * plan.Total() && i < plan.n
    ensures PhasesTo(plan, i, j, lo, hi) ==
              (if Dst(plan, lo, i) == j then [lo] else []) + PhasesTo(plan, i, j, lo + 1, hi)
    decreases hi
  {
    if lo + 1 < hi {
      FirstPhase(plan, i, j, lo, hi - 1);
    } else {
      assert PhasesTo(plan, i, j, lo, hi - 1) == [];
    }
  }

  function Tags(q: seq<Env>): (t: seq<nat>)
    ensures |t| == |q|
  {
    seq(|q|, a requires 0 <= a < |q| => q[a].phase)
  }

  /** How far every rank is: phases whose message it has sent, and phases whose message it has received. */
  ghost predicate Counters(plan: Plan, sent: seq<nat>, got: seq<nat>) {
    && plan.Valid() && |sent| == |got| == plan.n
    && forall i :: 0 <= i < plan.n ==> got[i] <= sent[i] <= got[i] + 1 && sent[i] <= 2 * plan.Total()
  }

  /** Every channel holds exactly the messages of the phases its sender has sent and its receiver not yet
      received, in phase order. */
  ghost predicate InFlight(plan: Plan, sent: seq<nat>, got: seq<nat>, chan: Channels)
    requires Counters(plan, sent, got)
  {
    forall i, j :: 0 <= i < plan.n && 0 <= j < plan.n ==>
      Tags(Queue(chan, i, j)) == PhasesTo(plan, i, j, got[j], sent[i])
  }

  /** Nothing is received before it is sent. */
  ghost predicate Causal(plan: Plan, sent: seq<nat>, got: seq<nat>)
    requires Counters(plan, sent, got)
  {
    forall j, p: nat :: 0 <= j < plan.n && p < got[j] ==> p < sent[Src(plan, p, j)]
  }

  function Push(chan: Channels, i: nat, j: nat, e: Env): Channels {
    chan[(i, j) := Queue(chan, i, j) + [e]]
  }

  function Pop(chan: Channels, i: nat, j: nat): Channels
    requires Queue(chan, i, j) != []
  {
    chan[(i, j) := Queue(chan, i, j)[1..]]
  }

  /** The receiver of a message not yet sent has not got as far as receiving it. */
  lemma NotYetReceived(plan: Plan, sent: seq<nat>, got: seq<nat>, i: nat, p: nat)
    requires Counters(plan, sent, got) && Causal(plan, sent, got)
    requires i < plan.n && sent[i] == p < 2 * plan.Total()
    ensures got[Dst(plan, p, i)] <= p
  {
    var d := Dst(plan, p, i);
    SrcOfDst(plan, p, i, d);
    assert Src(plan, p, d) == i;
  }

  lemma PushAt(plan: Plan, hi: nat, lo: nat, chan: Channels, a: nat, b: nat, i: nat, p: nat, msg: Msg)
    requires plan.Valid() && a < plan.n && b < plan.n && i < plan.n && p < 2 * plan.Total() && hi <= 2 * plan.Total()
    requires Tags(Queue(chan, a, b)) == PhasesTo(plan, a, b, lo, hi)
    requires a == i ==> hi == p && (b == Dst(plan, p, i) ==> lo <= p)
    ensures Tags(Queue(Push(chan, i, Dst(plan, p, i), Env(p, msg)), a, b)) ==
              PhasesTo(plan, a, b, lo, if a == i then p + 1 else hi)
  {
    var d := Dst(plan, p, i);
    if a == i && b == d {
      assert Tags(Queue(Push(chan, i, d, Env(p, msg)), a, b)) == Tags(Queue(chan, a, b)) + [p];
    }
  }

  lemma PushInFlight(plan: Plan, sent: seq<nat>, sent': seq<nat>, got: seq<nat>, chan: Channels, i: nat, p: nat,
                     msg: Msg)
    requires Counters(plan, sent, got) && InFlight(plan, sent, got, chan)
    requires i < plan.n && sent[i] == p < 2 * plan.Total() && got[Dst(plan, p, i)] <= p
    requires sent' == sent[i := p + 1] && Counters(plan, sent', got)
    ensures InFlight(plan, sent', got, Push(chan, i, Dst(plan, p, i), Env(p, msg)))
  {
    forall a, b | 0 <= a < plan.n && 0 <= b < plan.n
      ensures Tags(Queue(Push(chan, i, Dst(plan, p, i), Env(p, msg)), a, b)) == PhasesTo(plan, a, b, got[b], sent'[a])
    {
      PushAt(plan, sent[a], got[b], chan, a, b, i, p, msg);
    }
  }

  lemma PushKeeps(plan: Plan, sent: seq<nat>, got: seq<nat>, chan: Channels, i: nat, p: nat, msg: Msg)
    requires Counters(plan, sent, got) && InFlight(plan, sent, got, chan) && Causal(plan, sent, got)
    requires i < plan.n && sent[i] == got[i] == p < 2 * plan.Total()
    ensures Counters(plan, sent[i := p + 1], got)
    ensures InFlight(plan, sent[i := p + 1], got, Push(chan, i, Dst(plan, p, i), Env(p, msg)))
    ensures Causal(plan, sent[i := p + 1], got)
  {
    NotYetReceived(plan, sent, got, i, p);
    PushInFlight(plan, sent, sent[i := p + 1], got, chan, i, p, msg);
  }

  lemma TagsOfTail(q: seq<Env>, p: nat, rest: seq<nat>)
    requires Tags(q) == [p] + rest
    ensures q != [] && q[0].phase == p && Tags(q[1..]) == rest
  {
    assert Tags(q)[0] == p;
    assert Tags(q)[1..] == rest;
    assert Tags(q[1..]) == Tags(q)[1..];
  }

  /** A rank that waits for the message of its phase finds, if anything, exactly that message. */
  lemma HeadIsMine(plan: Plan, sent: seq<nat>, got: seq<nat>, chan: Channels, j: nat)
    requires Counters(plan, sent, got) && InFlight(plan, sent, got, chan)
    requires j < plan.n && got[j] < sent[j]
    ensures var p := got[j]; var s := Src(plan, p, j); var q := Queue(chan, s, j);
            && (q != [] <==> p < sent[s])
            && (q != [] ==> q[0].phase == p && Tags(q[1..]) == PhasesTo(plan, s, j, p + 1, sent[s]))
  {
    var p := got[j];
    var s := Src(plan, p, j);
    ChannelHead(plan, s, j, p, sent[s], Queue(chan, s, j));
  }

  lemma ChannelHead(plan: Plan, s: nat, j: nat, lo: nat, hi: nat, q: seq<Env>)
    requires plan.Valid() && s < plan.n && j < plan.n && lo < 2 * plan.Total() && hi <= 2 * plan.Total()
    requires s == Src(plan, lo, j) && Tags(q) == PhasesTo(plan, s, j, lo, hi)
    ensures q != [] <==> lo < hi
    ensures q != [] ==> q[0].phase == lo && Tags(q[1..]) == PhasesTo(plan, s, j, lo + 1, hi)
  {
    if lo < hi {
      SrcOfDst(plan, lo, s, j);
      FirstPhase(plan, s, j, lo, hi);
      TagsOfTail(q, lo, PhasesTo(plan, s, j, lo + 1, hi));
    } else {
      assert |Tags(q)| == 0;
    }
  }

  /** Other channels into j carry nothing of the phase j has just received. */
  lemma OtherChannel(plan: Plan, a: nat, j: nat, p: nat, hi: nat)
    requires plan.Valid() && a < plan.n && j < plan.n && p < 2 * plan.Total() && hi <= 2 * plan.Total()
    requires a != Src(plan, p, j)
    ensures PhasesTo(plan, a, j, p, hi) == PhasesTo(plan, a, j, p + 1, hi)
  {
    if p < hi {
      SrcOfDst(plan, p, a, j);
      FirstPhase(plan, a, j, p, hi);
    }
  }

  lemma PopInFlight(plan: Plan, sent: seq<nat>, got: seq<nat>, got': seq<nat>, chan: Channels, j: nat, p: nat)
    requires Counters(plan, sent, got) && InFlight(plan, sent, got, chan)
    requires j < plan.n && got[j] == p < sent[j] && Queue(chan, Src(plan, p, j), j) != []
    requires got' == got[j := p + 1] && Counters(plan, sent, got')
    ensures InFlight(plan, sent, got', Pop(chan, Src(plan, p, j), j))
  {
    HeadIsMine(plan, sent, got, chan, j);
    forall a, b | 0 <= a < plan.n && 0 <= b < plan.n
      ensures Tags(Queue(Pop(chan, Src(plan, p, j), j), a, b)) == PhasesTo(plan, a, b, got'[b], sent[a])
    {
      PopAt(plan, sent[a], got[b], chan, a, b, j, p, PhasesTo(plan, a, b, got[b], sent[a]));
    }
  }

  lemma PopKeeps(plan: Plan, sent: seq<nat>, got: seq<nat>, chan: Channels, j: nat, p: nat)
    requires Counters(plan, sent, got) && InFlight(plan, sent, got, chan) && Causal(plan, sent, got)
    requires j < plan.n && got[j] == p < sent[j] && Queue(chan, Src(plan, p, j), j) != []
    ensures Counters(plan, sent, got[j := p + 1])
    ensures InFlight(plan, sent, got[j := p + 1], Pop(chan, Src(plan, p, j), j))
    ensures Causal(plan, sent, got[j := p + 1])
  {
    HeadIsMine(plan, sent, got, chan, j);
    StillCausal(plan, sent, got, j);
    PopInFlight(plan, sent, got, got[j := p + 1], chan, j, p);
  }

  lemma PopAt(plan: Plan, hi: nat, lo: nat, chan: Channels, a: nat, b: nat, j: nat, p: nat, tags: seq<nat>)
    requires plan.Valid() && a < plan.n && b < plan.n && j < plan.n && p < 2 * plan.Total() && hi <= 2 * plan.Total()
    requires tags == PhasesTo(plan, a, b, lo, hi) && Tags(Queue(chan, a, b)) == tags
    requires b == j ==> lo == p
    requires Queue(chan, Src(plan, p, j), j) != []
    requires a == Src(plan, p, j) && b == j ==> Tags(Queue(chan, a, b)[1..]) == PhasesTo(plan, a, b, p + 1, hi)
    ensures Tags(Queue(Pop(chan, Src(plan, p, j), j), a, b)) == PhasesTo(plan, a, b, if b == j then p + 1 else lo, hi)
  {
    if b == j && a != Src(plan, p, j) {
      OtherChannel(plan, a, j, p, hi);
    }
  }

  lemma StillCausal(plan: Plan, sent: seq<nat>, got: seq<nat>, j: nat)
    requires Counters(plan, sent, got) && Causal(plan, sent, got)
    requires j < plan.n && got[j] < sent[j] && got[j] < sent[Src(plan, got[j], j)]
    ensures Counters(plan, sent, got[j := got[j] + 1]) && Causal(plan, sent, got[j := got[j] + 1])
  {
    var got' := got[j := got[j] + 1];
    forall b, p: nat | 0 <= b < plan.n && p < got'[b]
      ensures p < sent[Src(plan, p, b)]
    {
      if b == j && p == got[j] {
      } else {
        assert p < got[b];
      }
    }
  }

  /** Some rank that is furthest behind can act even when a send only completes once it has been received. */
  ghost predicate SendDone(plan: Plan, got: seq<nat>, i: nat, p: nat)
    requires plan.Valid() && |got| == plan.n && i < plan.n && p < 2 * plan.Total()
  {
    got[Dst(plan, p, i)] > p
  }

  function Least(xs: seq<nat>): (i: nat)
    requires |xs| > 0
    ensures i < |xs| && forall j :: 0 <= j < |xs| ==> xs[i] <= xs[j]
  {
    if |xs| == 1 then 0 else
      var i := Least(xs[..|xs| - 1]);
      if xs[i] <= xs[|xs| - 1] then i else |xs| - 1
  }

  /** Take a rank furthest behind in receiving. If it has a message outstanding, either that message is there
      or its source is as far behind and has nothing outstanding. */
  lemma SomeoneCanAct(plan: Plan, sent: seq<nat>, got: seq<nat>, chan: Channels) returns (i: nat)
    requires Counters(plan, sent, got) && InFlight(plan, sent, got, chan)
    ensures i < plan.n && forall j :: 0 <= j < plan.n ==> got[i] <= got[j]
    ensures got[i] == sent[i] || Queue(chan, Src(plan, got[i], i), i) != []
    ensures forall p: nat :: p < got[i] && p < 2 * plan.Total() ==> SendDone(plan, got, i, p)
  {
    i := Least(got);
    if got[i] < sent[i] {
      var s := Src(plan, got[i], i);
      HeadIsMine(plan, sent, got, chan, i);
      if sent[s] <= got[i] {
        i := s;
      }
    }
  }
}
