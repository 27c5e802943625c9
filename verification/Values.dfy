/** Paths of keys, key/value pairs, and numbers stored as keys. */
module Values {
  import opened Text
  import opened Trees
  import opened Hashes

  // ---------- key/value pairs ----------

  /** kvtree_unset. */
  function Unset(h: Hash, k: string): Hash {
    if h.Null? then h else Hash(Without(h.elems, k))
  }

  /** kvtree_set_kv: the pair is there afterwards; what was under it stays. */
  function SetKv(h: Hash, k: Key, v: Key): Hash
    requires h.Hash?
  {
    var kh := OrNew(Get(h, k));
    Put(h, k, Put(kh, v, OrNew(Get(kh, v))))
  }

  /** kvtree_unset_kv: drops the value, and the key with it when that was its only value. */
  function UnsetKv(h: Hash, k: Key, v: Key): Hash
    requires h.Hash?
  {
    var i := IndexOf(h.elems, k);
    var kh := Unset(Get(h, k), v);
    if Elems(kh) == [] then Unset(h, k)
    else if i < |h.elems| then Hash(h.elems[i := Elem(k, kh)]) else h
  }

  lemma UnsetRemoves(h: Hash, k: string)
    requires WF(h)
    ensures WF(Unset(h, k))
    ensures Abs(Unset(h, k)) == Tree(Abs(h).kids - {k})
  {
    if h.Hash? {
      WithoutKeeps(h.elems, k);
      WithoutRemoves(h.elems, k);
    }
  }

  lemma SetKvAdds(h: Hash, k: Key, v: Key)
    requires h.Hash? && WF(h)
    ensures SetKv(h, k, v).Hash? && WF(SetKv(h, k, v))
    ensures Abs(SetKv(h, k, v)) == Join(Abs(h), Single(k, Single(v, EMPTY)))
  {
    GetIsKid(h, k);
    var kh := OrNew(Get(h, k));
    GetIsKid(kh, v);
    var vh := OrNew(Get(kh, v));
    PutUpdates(kh, v, vh);
    PutUpdates(h, k, Put(kh, v, vh));
    JoinEmpty(Abs(vh));
    JoinSingle(Abs(kh), v, EMPTY);
    JoinSingle(Abs(h), k, Single(v, EMPTY));
  }

  /** The value goes, and the key goes with its last value. */
  lemma UnsetKvRemoves(h: Hash, k: Key, v: Key)
    requires h.Hash? && WF(h)
    ensures var left := Kid(Abs(h), k).kids - {v};
            Abs(UnsetKv(h, k, v)) == Tree(if left == map[] then Abs(h).kids - {k} else Abs(h).kids[k := Tree(left)])
  {
    var kh := Unset(Get(h, k), v);
    GetIsKid(h, k);
    UnsetRemoves(Get(h, k), v);
    NoKidsNoElems(kh);
    if Elems(kh) == [] {
      UnsetRemoves(h, k);
    } else {
      assert UnsetKv(h, k, v) == Put(h, k, kh);
      PutUpdates(h, k, kh);
    }
  }

  /** Setting a pair under a new key and unsetting it again restores the map. */
  lemma SetKvThenUnset(h: Hash, k: Key, v: Key)
    requires h.Hash? && WF(h) && k !in Abs(h).kids
    ensures Abs(UnsetKv(SetKv(h, k, v), k, v)) == Abs(h)
  {
    SetKvAdds(h, k, v);
    UnsetKvRemoves(SetKv(h, k, v), k, v);
    JoinSingle(Abs(h), k, Single(v, EMPTY));
    JoinEmpty(Single(v, EMPTY));
    assert Single(v, EMPTY).kids - {v} == map[];
    assert Abs(h).kids[k := Single(v, EMPTY)] - {k} == Abs(h).kids;
  }

  lemma NoKidsNoElems(h: Hash)
    requires WF(h)
    ensures Abs(h).kids == map[] <==> Elems(h) == []
  {
    if Elems(h) != [] {
      AbsAt(h.elems, 0);
    }
  }

  /** A map with one key is a list with one element. */
  lemma OneKidOneElem(h: Hash, k: string, t: Tree)
    requires WF(h) && Abs(h) == Single(k, t)
    ensures h.Hash? && |h.elems| == 1 && h.elems[0].key == k && Abs(h.elems[0].hash) == t
  {
    assert k in Abs(h).kids;
    assert |Single(k, t).kids| == 1;
    KidsCount(h.elems);
    AbsAt(h.elems, 0);
  }

  // ---------- single values ----------

  /** kvtree_elem_get_first_val. */
  function GetFirstVal(h: Hash, k: string): Option<Key> {
    var es := Elems(Get(h, k));
    if es == [] then None else Some(es[0].key)
  }

  /** kvtree_get_val: only when the key has exactly one value. */
  function GetVal(h: Hash, k: string): Option<Key> {
    var kh := Get(h, k);
    if kh.Hash? && |kh.elems| == 1 then Some(kh.elems[0].key) else None
  }

  /** kvtree_util_set_str: unset, then set the pair. */
  function SetStr(h: Hash, k: Key, v: Key): Hash
    requires h.Hash?
  {
    SetKv(Unset(h, k), k, v)
  }

  /** kvtree_util_set_bytecount and its like: unset, then kvtree_setf with a NULL hash for the value. */
  function SetText(h: Hash, k: Key, v: Key): Hash
    requires h.Hash?
  {
    SetPath(Unset(h, k), [k, v], Null)
  }

  /** kvtree_setf on the list of converted keys. */
  function SetPath(h: Hash, keys: seq<Key>, value: Hash): Hash
    requires h.Hash? && |keys| > 0
    decreases |keys|
  {
    if |keys| == 1 then Set(h, keys[0], value)
    else Put(h, keys[0], SetPath(OrNew(Get(h, keys[0])), keys[1..], value))
  }

  /** kvtree_getf on the list of converted keys. */
  function GetPath(h: Hash, keys: seq<Key>): Hash
    decreases |keys|
  {
    if keys == [] then h else GetPath(Get(h, keys[0]), keys[1..])
  }

  lemma {:induction false} SetPathUpdates(h: Hash, keys: seq<Key>, value: Hash)
    requires h.Hash? && |keys| > 0 && WF(h) && WF(value)
    ensures SetPath(h, keys, value).Hash? && WF(SetPath(h, keys, value))
    ensures Abs(SetPath(h, keys, value)) == Grafted(Abs(h), keys, Abs(value))
    decreases |keys|
  {
    if |keys| == 1 {
      SetUpdates(h, keys[0], value);
    } else {
      GetIsKid(h, keys[0]);
      var sub := OrNew(Get(h, keys[0]));
      SetPathUpdates(sub, keys[1..], value);
      PutUpdates(h, keys[0], SetPath(sub, keys[1..], value));
    }
  }

  /** A tree with another grafted in at the end of a path. */
  function Grafted(t: Tree, keys: seq<string>, value: Tree): Tree
    requires |keys| > 0
    decreases |keys|
  {
    Tree(t.kids[keys[0] := if |keys| == 1 then value else Grafted(Kid(t, keys[0]), keys[1..], value)])
  }

  /** What is at the end of a path, empty when the path is not there. */
  function Follow(t: Tree, keys: seq<string>): Tree
    decreases |keys|
  {
    if keys == [] then t else Follow(Kid(t, keys[0]), keys[1..])
  }

  lemma {:induction false} GetPathFollows(h: Hash, keys: seq<Key>)
    requires WF(h)
    ensures Abs(GetPath(h, keys)) == Follow(Abs(h), keys) && WF(GetPath(h, keys))
    decreases |keys|
  {
    if keys != [] {
      GetIsKid(h, keys[0]);
      GetPathFollows(Get(h, keys[0]), keys[1..]);
    }
  }

  /** What is stored under a path is what is found there. */
  lemma {:induction false} GetAfterSet(h: Hash, keys: seq<Key>, value: Hash)
    requires h.Hash? && |keys| > 0 && WF(h) && WF(value)
    ensures GetPath(SetPath(h, keys, value), keys) == value
    decreases |keys|
  {
    var s := SetPath(h, keys, value);
    if |keys| == 1 {
      assert s.elems[0].key == keys[0];
      assert GetPath(s, keys) == GetPath(value, keys[1..]);
    } else {
      GetIsKid(h, keys[0]);
      var sub := OrNew(Get(h, keys[0]));
      GetAfterSet(sub, keys[1..], value);
      SetPathUpdates(sub, keys[1..], value);
      PutThenGet(h, keys[0], SetPath(sub, keys[1..], value));
    }
  }

  lemma PutThenGet(h: Hash, k: Key, v: Hash)
    requires h.Hash? && WF(h)
    ensures Get(Put(h, k, v), k) == v
  {
    var i := IndexOf(h.elems, k);
    if i < |h.elems| && h.elems[i].hash.Hash? {
      var r := h.elems[i := Elem(k, v)];
      assert Unique(r);
      AbsAt(r, i);
    }
  }

  /** No path changes that is neither above nor below the one set. */
  lemma {:induction false} GraftKeepsOthers(t: Tree, keys: seq<string>, value: Tree, p: seq<string>)
    requires |keys| > 0 && !(keys <= p) && !(p <= keys)
    ensures HasPath(Grafted(t, keys, value), p) <==> HasPath(t, p)
    decreases |keys|
  {
    assert |keys| == 1 ==> keys == [keys[0]];
    if |keys| > 1 && p[0] == keys[0] {
      assert keys == [keys[0]] + keys[1..] && p == [p[0]] + p[1..];
      GraftKeepsOthers(Kid(t, keys[0]), keys[1..], value, p[1..]);
    }
  }

  /** Below the path set there is exactly the stored tree, and the path itself and all its prefixes exist. */
  lemma {:induction false} GraftIsThere(t: Tree, keys: seq<string>, value: Tree, q: seq<string>)
    requires |keys| > 0
    ensures HasPath(Grafted(t, keys, value), keys + q) <==> HasPath(value, q)
    ensures q <= keys ==> HasPath(Grafted(t, keys, value), q)
    decreases |keys|
  {
    var p := keys + q;
    assert p[1..] == keys[1..] + q;
    if |keys| == 1 {
      assert p[1..] == q;
      if q <= keys && q != [] {
        assert q[1..] == [];
      }
    } else {
      GraftIsThere(Kid(t, keys[0]), keys[1..], value, q);
      if q <= keys && q != [] {
        GraftIsThere(Kid(t, keys[0]), keys[1..], value, q[1..]);
      }
    }
  }

  // ---------- numbers ----------

  /** The key holds exactly the one value. */
  ghost predicate HoldsOnly(h: Hash, k: string, v: string) {
    && WF(h)
    && Kid(Abs(h), k) == Single(v, EMPTY)
    && GetVal(h, k) == Some(v)
    && GetFirstVal(h, k) == Some(v)
  }

  lemma ValueFromMap(h: Hash, k: string, v: string)
    requires WF(h) && Kid(Abs(h), k) == Single(v, EMPTY)
    ensures HoldsOnly(h, k, v)
  {
    GetIsKid(h, k);
    OneKidOneElem(Get(h, k), v, EMPTY);
  }

  lemma SetStrHolds(h: Hash, k: Key, v: Key)
    requires h.Hash? && WF(h)
    ensures SetStr(h, k, v).Hash? && WF(SetStr(h, k, v))
    ensures Abs(SetStr(h, k, v)) == Tree(Abs(h).kids[k := Single(v, EMPTY)])
    ensures HoldsOnly(SetStr(h, k, v), k, v)
  {
    UnsetRemoves(h, k);
    SetKvAdds(Unset(h, k), k, v);
    JoinSingle(Abs(Unset(h, k)), k, Single(v, EMPTY));
    JoinEmpty(Single(v, EMPTY));
    assert (Abs(h).kids - {k})[k := Single(v, EMPTY)] == Abs(h).kids[k := Single(v, EMPTY)];
    ValueFromMap(SetStr(h, k, v), k, v);
  }

  lemma SetTextHolds(h: Hash, k: Key, v: Key)
    requires h.Hash? && WF(h)
    ensures SetText(h, k, v).Hash? && WF(SetText(h, k, v))
    ensures Abs(SetText(h, k, v)) == Tree(Abs(h).kids[k := Single(v, EMPTY)])
    ensures HoldsOnly(SetText(h, k, v), k, v)
  {
    UnsetRemoves(h, k);
    var u := Unset(h, k);
    SetPathUpdates(u, [k, v], Null);
    var keys := [k, v];
    assert keys[1..] == [v];
    assert Grafted(Abs(u), keys, EMPTY) == Tree(Abs(u).kids[k := Grafted(Kid(Abs(u), k), [v], EMPTY)]);
    assert Grafted(EMPTY, [v], EMPTY) == Single(v, EMPTY);
    assert (Abs(h).kids - {k})[k := Single(v, EMPTY)] == Abs(h).kids[k := Single(v, EMPTY)];
    ValueFromMap(SetText(h, k, v), k, v);
  }

  /** An int goes in as `%d` and comes out through atoi. */
  function SetInt(h: Hash, k: Key, value: int): Hash
    requires h.Hash?
  {
    AtoiPrintInt(value);
    SetStr(h, k, PrintInt(value))
  }

  function GetInt(h: Hash, k: string): Option<int> {
    match GetFirstVal(h, k)
    case None => None
    case Some(v) => Some(Atoi(v))
  }

  function SetULong(h: Hash, k: Key, value: nat): Hash
    requires h.Hash?
  {
    DigitsArePlain(PrintNat(value, 10), 10);
    SetText(h, k, PrintNat(value, 10))
  }

  function GetULong(h: Hash, k: string): Option<nat> {
    match GetVal(h, k)
    case None => None
    case Some(v) => Some(Strtoul(v))
  }

  function SetInt64(h: Hash, k: Key, value: int): Hash
    requires h.Hash?
  {
    AtoiPrintInt(value);
    SetText(h, k, PrintInt(value))
  }

  function GetInt64(h: Hash, k: string): Option<int> {
    match GetVal(h, k)
    case None => None
    case Some(v) => Some(Strtoll(v))
  }

  /** Only the low 32 bits are kept. */
  function SetCrc(h: Hash, k: Key, crc: nat): Hash
    requires h.Hash?
  {
    Base0Print(crc % 0x1_0000_0000);
    SetText(h, k, PrintHex(crc % 0x1_0000_0000))
  }

  /** A number is read exactly when the key has a value, and then from the front one. */
  lemma GetIntReads(h: Hash, k: string, i: nat)
    requires i == IndexOf(Elems(h), k)
    ensures GetInt(h, k).None? <==> Kid(Abs(h), k).kids == map[]
    ensures GetInt(h, k).Some? ==>
              && i < |Elems(h)| && Elems(h)[i].key == k && (forall j :: 0 <= j < i ==> Elems(h)[j].key != k)
              && Elems(Elems(h)[i].hash) != []
              && GetInt(h, k) == Some(Atoi(Elems(Elems(h)[i].hash)[0].key))
  {
    GetIsKid(h, k);
    var es := Elems(Get(h, k));
    if es != [] {
      AbsLookup(es, es[0].key);
      assert es[0].key in Abs(Get(h, k)).kids;
    }
  }

  /** The key has exactly this one value. */
  ghost predicate OnlyValue(t: Tree, k: string, v: string) {
    Kid(t, k).kids.Keys == {v}
  }

  /** kvtree_get_val returns a value exactly when it is the only one. */
  lemma GetValOfMap(h: Hash, k: string, v: string)
    requires WF(h)
    ensures GetVal(h, k) == Some(v) <==> OnlyValue(Abs(h), k, v)
  {
    var kh := Get(h, k);
    GetIsKid(h, k);
    KidsCount(Elems(kh));
    assert |Abs(kh).kids| == |Abs(kh).kids.Keys|;
    if |Elems(kh)| == 1 {
      AbsAt(Elems(kh), 0);
      OneKey(Abs(kh).kids.Keys, Elems(kh)[0].key);
    }
    if OnlyValue(Abs(h), k, v) {
      assert |{v}| == 1;
    }
  }

  lemma OneKey(keys: set<string>, v: string)
    requires v in keys && |keys| == 1
    ensures keys == {v}
  {
    assert |keys - {v}| == 0;
  }

  /** The key has exactly one value, and it reads as this number. */
  ghost predicate ValueIs(t: Tree, k: string, n: nat) {
    exists v :: OnlyValue(t, k, v) && Strtoul(v) == n
  }

  lemma ValueOfMap(h: Hash, k: string, n: nat)
    requires WF(h)
    ensures GetULong(h, k) == Some(n) <==> ValueIs(Abs(h), k, n)
  {
    if ValueIs(Abs(h), k, n) {
      var v :| OnlyValue(Abs(h), k, v) && Strtoul(v) == n;
      GetValOfMap(h, k, v);
    }
    if GetVal(h, k).Some? {
      GetValOfMap(h, k, GetVal(h, k).value);
    }
  }

  lemma OneValue(t: Tree, k: string, n: nat)
    requires Kid(t, k) == Single(Dec(n), EMPTY) && n <= ULONG_MAX
    ensures forall m :: ValueIs(t, k, m) <==> m == n
  {
    StrtoulPrint(n);
    assert OnlyValue(t, k, Dec(n));
    forall m | ValueIs(t, k, m)
      ensures m == n
    {
      var v :| OnlyValue(t, k, v) && Strtoul(v) == m;
      assert v in {Dec(n)};
    }
  }

  lemma IntRoundTrip(h: Hash, k: Key, value: int)
    requires h.Hash? && WF(h)
    ensures HoldsOnly(SetInt(h, k, value), k, PrintInt(value))
    ensures GetInt(SetInt(h, k, value), k) == Some(value)
  {
    AtoiPrintInt(value);
    SetStrHolds(h, k, PrintInt(value));
  }

  lemma ULongRoundTrip(h: Hash, k: Key, value: nat)
    requires h.Hash? && WF(h) && value <= ULONG_MAX
    ensures HoldsOnly(SetULong(h, k, value), k, PrintNat(value, 10))
    ensures GetULong(SetULong(h, k, value), k) == Some(value)
  {
    StrtoulPrint(value);
    SetTextHolds(h, k, PrintNat(value, 10));
  }

  lemma Int64RoundTrip(h: Hash, k: Key, value: int)
    requires h.Hash? && WF(h) && -(LLONG_MAX + 1) <= value <= LLONG_MAX
    ensures HoldsOnly(SetInt64(h, k, value), k, PrintInt(value))
    ensures GetInt64(SetInt64(h, k, value), k) == Some(value)
  {
    AtoiPrintInt(value);
    StrtollPrint(value);
    SetTextHolds(h, k, PrintInt(value));
  }

  lemma CrcRoundTrip(h: Hash, k: Key, crc: nat)
    requires h.Hash? && WF(h) && crc < 0x1_0000_0000
    ensures HoldsOnly(SetCrc(h, k, crc), k, PrintHex(crc))
    ensures GetULong(SetCrc(h, k, crc), k) == Some(crc)
    ensures crc > 0 ==> PrintHex(crc)[..2] == "0x" && Numeral(PrintHex(crc)[2..], crc, 16)
  {
    var text := CrcText(crc);
    PrintsHex(crc);
    SetTextHolds(h, k, text);
  }

  lemma CrcText(crc: nat) returns (text: Key)
    requires crc < 0x1_0000_0000
    ensures text == PrintHex(crc) == PrintHex(crc % 0x1_0000_0000) && Strtoul(text) == crc
  {
    StrtoulPrint(crc);
    Base0Print(crc);
    assert crc % 0x1_0000_0000 == crc;
    text := PrintHex(crc);
  }
}
