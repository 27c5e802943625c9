/** When no message of an exchange can be too long: bounds a caller can check beforehand. */
module Loads {
  import opened Text
  import opened Trees
  import opened Routes
  import opened Exchange
  import opened Sizes

  /** One item on its way. */
  datatype Parcel = Parcel(dest: string, source: string, item: Tree)

  /** The room one item takes in a message, with the keys around it. */
  ghost function Cost(p: Parcel): nat {
    TreeSize(p.item) + |p.dest| + |p.source| + 22
  }

  ghost function Costs(ps: seq<Parcel>, j: nat): nat
    requires j <= |ps|
  {
    if j == 0 then 4 else Costs(ps, j - 1) + Cost(ps[j - 1])
  }

  /** Every item sent is among the parcels. */
  ghost predicate Listed(sent: seq<Tree>, ps: seq<Parcel>) {
    forall r, dk :: 0 <= r < |sent| && dk in sent[r].kids ==> Parcel(dk, Dec(r), sent[r].kids[dk]) in ps
  }

  function Wrapped(p: Parcel): Tree {
    Single("D", Single(p.dest, Single("S", Single(p.source, p.item))))
  }

  lemma WrappedCosts(p: Parcel)
    ensures TreeSize(Wrapped(p)) == Cost(p)
    ensures Lookup(Wrapped(p), p.dest, p.source) == Some(p.item)
  {
    SingleSize(p.source, p.item);
    SingleSize("S", Single(p.source, p.item));
    SingleSize(p.dest, Single("S", Single(p.source, p.item)));
    SingleSize("D", Single(p.dest, Single("S", Single(p.source, p.item))));
  }

  ghost predicate Carries(all: Tree, p: Parcel) {
    var there := Lookup(all, p.dest, p.source);
    there.Some? && Within(p.item, there.value)
  }

  lemma StillCarries(a: Tree, b: Tree, p: Parcel)
    requires Carries(a, p) || Carries(b, p)
    ensures Carries(Join(a, b), p)
  {
    LookupJoin(a, b, p.dest, p.source);
    var x, y := Lookup(a, p.dest, p.source), Lookup(b, p.dest, p.source);
    if x.Some? && y.Some? {
      JoinCommutes(x.value, y.value);
      if Carries(a, p) { WithinJoin(p.item, x.value, y.value); } else { WithinJoin(p.item, y.value, x.value); }
    }
  }

  /** There is a tree that has all the parcels and costs no more than they do. */
  lemma {:induction false} SomeTreeCarries(ps: seq<Parcel>, j: nat) returns (all: Tree)
    requires j <= |ps|
    ensures TreeSize(all) <= Costs(ps, j) && forall i :: 0 <= i < j ==> Carries(all, ps[i])
  {
    if j == 0 {
      SingleSize("", EMPTY);
      return EMPTY;
    }
    var p := ps[j - 1];
    var front := SomeTreeCarries(ps, j - 1);
    all := Join(front, Wrapped(p));
    WrappedCosts(p);
    WithinItself(p.item);
    JoinIsSmaller(front, Wrapped(p));
    forall i | 0 <= i < j
      ensures Carries(all, ps[i])
    {
      StillCarries(front, Wrapped(p), ps[i]);
    }
  }

  /** If all items together fit in a message, no message is too long, in any direction and round. */
  lemma LightLoadFits(sent: seq<Tree>, ps: seq<Parcel>, dir: Direction, rounds: nat)
    requires Listed(sent, ps) && Costs(ps, |ps|) <= INT_MAX
    ensures !Oversize(sent, dir, rounds)
  {
    var all := SomeTreeCarries(ps, |ps|);
    forall k: nat, r: nat, t | r < |sent| && IsMessage(sent, dir, k, r, t)
      ensures TreeSize(t) <= INT_MAX
    {
      MessageWithin(sent, ps, dir, k, r, t, all);
      WithinIsSmaller(t, all);
    }
  }

  lemma MessageWithin(sent: seq<Tree>, ps: seq<Parcel>, dir: Direction, k: nat, r: nat, t: Tree, all: Tree)
    requires Listed(sent, ps) && r < |sent| && IsMessage(sent, dir, k, r, t)
    requires forall i :: 0 <= i < |ps| ==> Carries(all, ps[i])
    ensures Within(t, all)
  {
    forall dk, sk | Lookup(t, dk, sk).Some?
      ensures Lookup(all, dk, sk).Some? && Within(Lookup(t, dk, sk).value, Lookup(all, dk, sk).value)
    {
      var p := Parcel(dk, sk, Lookup(t, dk, sk).value);
      assert sk == Dec(Atoi(sk)) && p in ps;
      var i :| 0 <= i < |ps| && ps[i] == p;
      assert Carries(all, ps[i]);
    }
    ProperWithin(t, all, |sent|);
  }
}
