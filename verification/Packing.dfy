/** Big-endian cursors and the packed form of a kvtree. */
module Packing {
  import opened Text
  import opened Trees
  import opened Hashes

  // ---------- integers in network order ----------

  function Pow256(w: nat): (p: nat)
    ensures p > 0
  {
    if w == 0 then 1 else 256 * Pow256(w - 1)
  }

  function ByteOf(c: char): nat {
    c as int % 256
  }

  /** The low w bytes of v, most significant first: the cast to uintN_t followed by hton. */
  function BigEndian(v: nat, w: nat): (s: string)
    ensures |s| == w
  {
    if w == 0 then "" else BigEndian(v / 256, w - 1) + [(v % 256) as char]
  }

  function ReadBig(s: string): (v: nat)
    ensures v < Pow256(|s|)
  {
    if s == "" then 0 else ReadBig(s[..|s| - 1]) * 256 + ByteOf(s[|s| - 1])
  }

  /** Reading back what was written, when the value fits. */
  lemma {:induction false} ReadBigEndian(v: nat, w: nat)
    requires v < Pow256(w)
    ensures ReadBig(BigEndian(v, w)) == v
  {
    if w > 0 {
      ReadBigEndian(v / 256, w - 1);
      var s := BigEndian(v, w);
      assert s[..|s| - 1] == BigEndian(v / 256, w - 1);
    }
  }

  /** Byte i of w bytes, the most significant first: the one worth 256 to the power w-1-i. */
  function NthByte(v: nat, w: nat, i: nat): (b: nat)
    requires i < w
    ensures b < 256
  {
    v / Pow256(w - 1 - i) % 256
  }

  lemma NthByteLower(v: nat, w: nat, i: nat)
    requires i + 1 < w
    ensures NthByte(v, w, i) == NthByte(v / 256, w - 1, i)
  {
    DivideTwice(v, 256, Pow256(w - 2 - i));
  }

  lemma LastByte(v: nat, w: nat)
    requires w > 0
    ensures NthByte(v, w, w - 1) == v % 256
  {
    assert Pow256(0) == 1;
  }

  /** What is written has its bytes in network order. */
  lemma {:induction false} BigEndianBytes(v: nat, w: nat)
    ensures forall i :: 0 <= i < w ==> BigEndian(v, w)[i] == NthByte(v, w, i) as char
  {
    if w > 0 {
      BigEndianBytes(v / 256, w - 1);
      LastByte(v, w);
      forall i | 0 <= i < w - 1
        ensures BigEndian(v, w)[i] == NthByte(v, w, i) as char
      {
        NthByteLower(v, w, i);
      }
    }
  }

  /** The w bytes of v, most significant first, have been written at this position. */
  ghost predicate WordAt(s: string, at: nat, w: nat, v: nat) {
    at + w <= |s| && forall i :: 0 <= i < w ==> s[at + i] == NthByte(v, w, i) as char
  }

  /** The w bytes at this position, most significant first, read as those of v. */
  ghost predicate WordIs(s: string, at: nat, w: nat, v: nat) {
    && at + w <= |s| && v < Pow256(w)
    && forall i :: 0 <= i < w ==> s[at + i] as int % 256 == NthByte(v, w, i)
  }

  /** Reading a word yields the one value with these bytes. */
  lemma {:induction false} WordIsRead(s: string, at: nat, w: nat, v: nat)
    requires at + w <= |s|
    ensures WordIs(s, at, w, v) <==> v == ReadBig(s[at..at + w])
    decreases w
  {
    if w > 0 {
      WordIsRead(s, at, w - 1, v / 256);
      WordSplits(s, at, w, v);
      var word := s[at..at + w];
      assert word[..w - 1] == s[at..at + (w - 1)] && word[w - 1] == s[at + w - 1];
    }
  }

  lemma WordSplits(s: string, at: nat, w: nat, v: nat)
    requires w > 0 && at + w <= |s|
    ensures WordIs(s, at, w, v) <==> WordIs(s, at, w - 1, v / 256) && s[at + w - 1] as int % 256 == v % 256
  {
    LastByte(v, w);
    forall i | 0 <= i < w - 1
      ensures NthByte(v, w, i) == NthByte(v / 256, w - 1, i)
    {
      NthByteLower(v, w, i);
    }
    assert v < Pow256(w) <==> v / 256 < Pow256(w - 1);
    if WordIs(s, at, w, v) {
      assert s[at + (w - 1)] as int % 256 == NthByte(v, w, w - 1);
      var rest, high := w - 1, v / 256;
      forall i | 0 <= i < rest
        ensures s[at + i] as int % 256 == NthByte(high, rest, i)
      {
        assert s[at + i] as int % 256 == NthByte(v, w, i);
      }
    }
    if WordIs(s, at, w - 1, v / 256) && s[at + w - 1] as int % 256 == v % 256 {
      forall i | 0 <= i < w
        ensures s[at + i] as int % 256 == NthByte(v, w, i)
      {
        assert i < w - 1 ==> s[at + i] as int % 256 == NthByte(v / 256, w - 1, i);
      }
    }
  }

  lemma Pow256Values()
    ensures Pow256(2) == 0x1_0000
    ensures Pow256(4) == 0x1_0000_0000
    ensures Pow256(8) == 0x1_0000_0000_0000_0000
  {
    assert Pow256(2) == 0x1_0000;
    assert Pow256(4) == 0x1_0000_0000;
    assert Pow256(6) == 0x1_0000_0000_0000;
  }

  /** memcpy of a string into a buffer. */
  method CopyInto(buf: array<char>, pos: nat, s: string)
    requires pos + |s| <= buf.Length
    modifies buf
    ensures buf[..] == old(buf[..pos]) + s + old(buf[pos + |s|..])
  {
    forall i | 0 <= i < |s| {
      buf[pos + i] := s[i];
    }
  }

  lemma Stands(s: string, pos: nat, piece: string)
    requires pos + |piece| <= |s| && s[pos..pos + |piece|] == piece
    ensures forall i :: 0 <= i < |piece| ==> s[pos + i] == piece[i]
  {
  }

  /** kvtree_pack_uintN_t: refuses to run over the end, otherwise writes w bytes and advances the cursor. */
  method PackUint(buf: array<char>, bufSize: nat, pos: nat, v: nat, w: nat) returns (rc: bool, pos': nat)
    requires bufSize <= buf.Length
    modifies buf
    ensures rc <==> pos + w <= bufSize
    ensures !rc ==> pos' == pos && buf[..] == old(buf[..])
    ensures rc ==> pos' == pos + w && buf[..] == old(buf[..pos]) + BigEndian(v, w) + old(buf[pos + w..])
    ensures rc ==> WordAt(buf[..], pos, w, v)
  {
    rc, pos' := pos + w <= bufSize, pos;
    if rc {
      CopyInto(buf, pos, BigEndian(v, w));
      BigEndianBytes(v, w);
      Stands(buf[..], pos, BigEndian(v, w));
      pos' := pos + w;
    }
  }

  /** kvtree_unpack_uintN_t. */
  method UnpackUint(buf: string, pos: nat, w: nat) returns (v: Option<nat>, pos': nat)
    ensures v.Some? <==> pos + w <= |buf|
    ensures v.None? ==> pos' == pos
    ensures v.Some? ==> pos' == pos + w && v.value == ReadBig(buf[pos..pos + w]) && WordIs(buf, pos, w, v.value)
  {
    if pos + w > |buf| {
      return None, pos;
    }
    WordIsRead(buf, pos, w, ReadBig(buf[pos..pos + w]));
    return Some(ReadBig(buf[pos..pos + w])), pos + w;
  }

  // ---------- packed trees ----------

  function Pack(h: Hash): string
    decreases h
  {
    if h.Null? then BigEndian(0, 4) else BigEndian(|h.elems|, 4) + PackElems(h.elems)
  }

  function PackElems(es: seq<Elem>): string
    decreases es
  {
    if es == [] then "" else PackElem(es[0]) + PackElems(es[1..])
  }

  function PackElem(e: Elem): string
    decreases e
  {
    e.key + ['\0'] + Pack(e.hash)
  }

  /** kvtree_pack_size. */
  function PackSize(h: Hash): (n: nat)
    ensures n >= 4
    decreases h
  {
    if h.Null? then 4 else 4 + ElemsSize(h.elems)
  }

  function ElemsSize(es: seq<Elem>): nat
    decreases es
  {
    if es == [] then 0 else |es[0].key| + 1 + PackSize(es[0].hash) + ElemsSize(es[1..])
  }

  lemma {:induction false} PackFillsSize(h: Hash)
    ensures |Pack(h)| == PackSize(h)
    decreases h
  {
    if h.Hash? {
      ElemsFillSize(h.elems);
    }
  }

  lemma {:induction false} ElemsFillSize(es: seq<Elem>)
    ensures |PackElems(es)| == ElemsSize(es)
    decreases es
  {
    if es != [] {
      PackFillsSize(es[0].hash);
      ElemsFillSize(es[1..]);
    }
  }

  /** Every node has few enough children for the `int` loop counter of kvtree_unpack. */
  ghost predicate CountsOk(h: Hash) {
    h.Null? || (|h.elems| <= INT_MAX && forall i :: 0 <= i < |h.elems| ==> CountsOk(h.elems[i].hash))
  }

  /** The tree kvtree_unpack rebuilds: children reversed at every level, NULL become empty. */
  function Rev(h: Hash): (r: Hash)
    ensures r.Hash?
    decreases h
  {
    if h.Null? then Hash([]) else Hash(RevElems(h.elems))
  }

  function RevElems(es: seq<Elem>): (r: seq<Elem>)
    ensures |r| == |es|
    ensures forall i :: 0 <= i < |r| ==> r[i].key == es[|es| - 1 - i].key && r[i].hash == Rev(es[|es| - 1 - i].hash)
    decreases es
  {
    if es == [] then [] else RevElems(es[1..]) + [Elem(es[0].key, Rev(es[0].hash))]
  }

  /** Where the C string at pos ends: its NUL, or the end of the buffer. */
  function StringEnd(buf: string, pos: nat): (z: nat)
    requires pos <= |buf|
    ensures pos <= z <= |buf|
    ensures z < |buf| ==> buf[z] == '\0'
    ensures forall i :: pos <= i < z ==> buf[i] != '\0'
    decreases |buf| - pos
  {
    if pos == |buf| || buf[pos] == '\0' then pos else StringEnd(buf, pos + 1)
  }

  /** What kvtree_unpack reads at pos: the tree and the position after it, None when it would run past the end. */
  function Unpack(buf: string, pos: nat): (r: Option<(Hash, nat)>)
    ensures r.Some? ==> pos < r.value.1 <= |buf|
    decreases |buf| - pos, 2
  {
    if pos + 4 > |buf| then None else
      match UnpackElems(buf, pos + 4, ReadBig(buf[pos..pos + 4]), [])
      case None => None
      case Some((es, end)) => Some((Hash(es), end))
  }

  function UnpackElems(buf: string, pos: nat, count: nat, acc: seq<Elem>): (r: Option<(seq<Elem>, nat)>)
    requires pos <= |buf|
    ensures r.Some? ==> pos <= r.value.1 <= |buf|
    decreases |buf| - pos, 1
  {
    if count == 0 then Some((acc, pos)) else
      match UnpackElem(buf, pos)
      case None => None
      case Some((e, end)) => UnpackElems(buf, end, count - 1, [e] + acc)
  }

  /** kvtree_elem_unpack. */
  function UnpackElem(buf: string, pos: nat): (r: Option<(Elem, nat)>)
    requires pos <= |buf|
    ensures r.Some? ==> pos < r.value.1 <= |buf|
    decreases |buf| - pos, 0
  {
    var z := StringEnd(buf, pos);
    if z == |buf| then None else
      match Unpack(buf, z + 1)
      case None => None
      case Some((h, end)) => Some((Elem(buf[pos..z], h), end))
  }

  /** The bytes of `piece` stand at pos. */
  ghost predicate At(buf: string, pos: nat, piece: string) {
    pos + |piece| <= |buf| && buf[pos..pos + |piece|] == piece
  }

  lemma AtSplit(buf: string, pos: nat, p: string, q: string)
    requires At(buf, pos, p + q)
    ensures At(buf, pos, p) && At(buf, pos + |p|, q)
  {
    assert (p + q)[..|p|] == p && (p + q)[|p|..] == q;
    var w := buf[pos..pos + |p + q|];
    assert w[..|p|] == buf[pos..pos + |p|];
    assert w[|p|..] == buf[pos + |p|..pos + |p| + |q|];
  }

  lemma StringEndOfKey(buf: string, pos: nat, key: string)
    requires NoNul(key) && At(buf, pos, key + ['\0'])
    ensures StringEnd(buf, pos) == pos + |key| < |buf| && buf[pos..pos + |key|] == key
  {
    AtSplit(buf, pos, key, ['\0']);
    var z := pos + |key|;
    assert buf[z] == buf[z..z + 1][0] == '\0';
    assert forall i :: pos <= i < z ==> buf[i] == buf[pos..z][i - pos] == key[i - pos];
  }

  /** Unpacking what was packed, whatever bytes stand around it, consumes exactly the packed bytes. */
  lemma {:induction false} UnpackPack(buf: string, pos: nat, h: Hash)
    requires CountsOk(h) && At(buf, pos, Pack(h))
    ensures Unpack(buf, pos) == Some((Rev(h), pos + PackSize(h)))
    decreases h, 1
  {
    CountStandsAt(buf, pos, h);
    if h.Null? {
      UnpackCounted(buf, pos, 0, [], pos + 4);
    } else {
      UnpackPackElems(buf, pos + 4, h.elems, []);
      assert RevElems(h.elems) + [] == RevElems(h.elems);
      UnpackCounted(buf, pos, |h.elems|, RevElems(h.elems), pos + PackSize(h));
    }
  }

  lemma CountStandsAt(buf: string, pos: nat, h: Hash)
    requires CountsOk(h) && At(buf, pos, Pack(h))
    ensures pos + 4 <= |buf| && ReadBig(buf[pos..pos + 4]) == |Elems(h)| && At(buf, pos + 4, PackElems(Elems(h)))
  {
    CountReads(|Elems(h)|);
    PackBegins(h);
    AtSplit(buf, pos, BigEndian(|Elems(h)|, 4), PackElems(Elems(h)));
  }

  lemma UnpackCounted(buf: string, pos: nat, n: nat, es: seq<Elem>, end: nat)
    requires pos + 4 <= |buf| && ReadBig(buf[pos..pos + 4]) == n && UnpackElems(buf, pos + 4, n, []) == Some((es, end))
    ensures Unpack(buf, pos) == Some((Hash(es), end))
  {
  }

  lemma CountReads(n: nat)
    requires n <= INT_MAX
    ensures ReadBig(BigEndian(n, 4)) == n
  {
    Pow256Values();
    ReadBigEndian(n, 4);
  }

  lemma {:induction false} UnpackPackElem(buf: string, pos: nat, e: Elem)
    requires CountsOk(e.hash) && At(buf, pos, PackElem(e))
    ensures UnpackElem(buf, pos) == Some((Elem(e.key, Rev(e.hash)), pos + |e.key| + 1 + PackSize(e.hash)))
    decreases e, 2
  {
    AtSplit(buf, pos, e.key + ['\0'], Pack(e.hash));
    StringEndOfKey(buf, pos, e.key);
    UnpackPack(buf, pos + |e.key| + 1, e.hash);
  }

  lemma RevElemsStep(es: seq<Elem>, acc: seq<Elem>)
    requires es != []
    ensures RevElems(es) + acc == RevElems(es[1..]) + ([Elem(es[0].key, Rev(es[0].hash))] + acc)
  {
  }

  lemma UnpackOne(buf: string, pos: nat, count: nat, acc: seq<Elem>, e: Elem, end: nat)
    requires count > 0 && pos <= |buf| && UnpackElem(buf, pos) == Some((e, end))
    ensures UnpackElems(buf, pos, count, acc) == UnpackElems(buf, end, count - 1, [e] + acc)
  {
  }

  lemma {:induction false} UnpackPackElems(buf: string, pos: nat, es: seq<Elem>, acc: seq<Elem>)
    requires forall e :: e in es ==> CountsOk(e.hash)
    requires At(buf, pos, PackElems(es))
    ensures UnpackElems(buf, pos, |es|, acc) == Some((RevElems(es) + acc, pos + ElemsSize(es)))
    decreases es, 0
  {
    if es == [] {
      assert RevElems(es) + acc == acc;
    } else {
      var e := es[0];
      PackFillsSize(e.hash);
      AtSplit(buf, pos, PackElem(e), PackElems(es[1..]));
      UnpackPackElem(buf, pos, e);
      var end := pos + |e.key| + 1 + PackSize(e.hash);
      assert end == pos + |PackElem(e)|;
      var acc' := [Elem(e.key, Rev(e.hash))] + acc;
      UnpackOne(buf, pos, |es|, acc, Elem(e.key, Rev(e.hash)), end);
      UnpackPackElems(buf, end, es[1..], acc');
      RevElemsStep(es, acc);
    }
  }

  /** Reversing keeps the meaning: the same map at every level. */
  lemma {:induction false} RevMeansSame(h: Hash)
    requires WF(h)
    ensures WF(Rev(h)) && Abs(Rev(h)) == Abs(h)
    decreases h
  {
    if h.Hash? {
      var es, r := h.elems, RevElems(h.elems);
      forall i | 0 <= i < |es|
        ensures WF(r[i].hash) && Abs(r[i].hash) == Abs(es[|es| - 1 - i].hash)
      {
        RevMeansSame(es[|es| - 1 - i].hash);
      }
      assert Unique(r);
      forall k
        ensures k in AbsElems(r) <==> k in AbsElems(es)
        ensures k in AbsElems(r) ==> AbsElems(r)[k] == AbsElems(es)[k]
      {
        AbsLookup(r, k);
        AbsLookup(es, k);
        var i, j := IndexOf(r, k), IndexOf(es, k);
        if i < |r| { AbsAt(es, |es| - 1 - i); }
        if j < |es| { AbsAt(r, |es| - 1 - j); }
      }
    }
  }

  /** NULL children replaced by empty ones. */
  function Filled(h: Hash): Hash
    decreases h
  {
    if h.Null? then Hash([]) else Hash(FilledElems(h.elems))
  }

  function FilledElems(es: seq<Elem>): (r: seq<Elem>)
    ensures |r| == |es|
    ensures forall i :: 0 <= i < |r| ==> r[i] == Elem(es[i].key, Filled(es[i].hash))
    decreases es
  {
    if es == [] then [] else [Elem(es[0].key, Filled(es[0].hash))] + FilledElems(es[1..])
  }

  /** A second round trip restores the order. */
  lemma {:induction false} RevTwice(h: Hash)
    ensures Rev(Rev(h)) == Filled(h)
    decreases h
  {
    if h.Hash? {
      var es := h.elems;
      var rr, f := RevElems(RevElems(es)), FilledElems(es);
      forall i | 0 <= i < |es|
        ensures rr[i] == f[i]
      {
        RevTwice(es[i].hash);
      }
      assert rr == f;
    }
  }

  /** Packing then unpacking gives back the same map. */
  lemma PackRoundTrip(buf: string, pos: nat, h: Hash)
    requires WF(h) && CountsOk(h) && At(buf, pos, Pack(h))
    ensures Unpack(buf, pos).Some?
    ensures var (g, end) := Unpack(buf, pos).value;
            end == pos + |Pack(h)| && g.Hash? && WF(g) && Abs(g) == Abs(h)
  {
    UnpackPack(buf, pos, h);
    PackFillsSize(h);
    RevMeansSame(h);
  }

  // ---------- nothing but packed trees is unpacked ----------

  ghost predicate Bytes(s: string) {
    forall i :: 0 <= i < |s| ==> s[i] as int < 256
  }

  /** Whatever kvtree_unpack reads from a buffer stands there as the packed form of a tree, of which it returns the
      reverse; so bytes that are no packed tree are not read as one. */
  lemma {:induction false} UnpacksOnlyPacked(buf: string, pos: nat, h: Hash, end: nat) returns (g: Hash)
    requires Bytes(buf) && Unpack(buf, pos) == Some((h, end))
    ensures Rev(g) == h && At(buf, pos, Pack(g)) && end == pos + |Pack(g)|
    decreases |buf| - pos, 2
  {
    var count := ReadBig(buf[pos..pos + 4]);
    var stored := UnpacksOnlyElems(buf, pos + 4, count, [], h.elems, end);
    g := Hash(stored);
    assert RevElems(stored) + [] == RevElems(stored);
    WordIsRead(buf, pos, 4, count);
    WordStands(buf, pos, 4, count);
    AtJoins(buf, pos, BigEndian(count, 4), PackElems(stored));
  }

  lemma WordStands(buf: string, pos: nat, w: nat, v: nat)
    requires Bytes(buf) && WordIs(buf, pos, w, v)
    ensures At(buf, pos, BigEndian(v, w))
  {
    BigEndianBytes(v, w);
    forall i | 0 <= i < w
      ensures buf[pos + i] == BigEndian(v, w)[i]
    {
      assert buf[pos + i] as int % 256 == NthByte(v, w, i);
    }
    SameText(buf, pos, BigEndian(v, w));
  }

  lemma SameText(buf: string, pos: nat, piece: string)
    requires pos + |piece| <= |buf| && forall i :: 0 <= i < |piece| ==> buf[pos + i] == piece[i]
    ensures At(buf, pos, piece)
  {
    var found := buf[pos..pos + |piece|];
    assert forall i :: 0 <= i < |piece| ==> found[i] == buf[pos + i];
  }

  lemma AtJoins(buf: string, pos: nat, p: string, q: string)
    requires At(buf, pos, p) && At(buf, pos + |p|, q)
    ensures At(buf, pos, p + q)
  {
    assert buf[pos..pos + |p + q|] == buf[pos..pos + |p|] + buf[pos + |p|..pos + |p| + |q|];
  }

  lemma {:induction false} UnpacksOnlyElems(buf: string, pos: nat, count: nat, acc: seq<Elem>, es: seq<Elem>, end: nat)
    returns (stored: seq<Elem>)
    requires Bytes(buf) && pos <= |buf| && UnpackElems(buf, pos, count, acc) == Some((es, end))
    ensures |stored| == count && RevElems(stored) + acc == es
    ensures At(buf, pos, PackElems(stored)) && end == pos + |PackElems(stored)|
    decreases |buf| - pos, 1
  {
    stored := [];
    if count > 0 {
      var e, mid := UnpackFirst(buf, pos, count, acc);
      var g := UnpacksOnlyElem(buf, pos, e, mid);
      var rest := UnpacksOnlyElems(buf, mid, count - 1, [e] + acc, es, end);
      stored := [g] + rest;
      OneElemBefore(buf, pos, acc, es, end, e, g, mid, rest, stored);
    }
  }

  lemma UnpackFirst(buf: string, pos: nat, count: nat, acc: seq<Elem>) returns (e: Elem, mid: nat)
    requires pos <= |buf| && count > 0 && UnpackElems(buf, pos, count, acc).Some?
    ensures UnpackElem(buf, pos) == Some((e, mid)) && pos < mid <= |buf|
    ensures UnpackElems(buf, mid, count - 1, [e] + acc) == UnpackElems(buf, pos, count, acc)
  {
    var first := UnpackElem(buf, pos);
    e, mid := first.value.0, first.value.1;
    UnpackOne(buf, pos, count, acc, e, mid);
  }

  lemma OneElemBefore(buf: string, pos: nat, acc: seq<Elem>, es: seq<Elem>, end: nat, e: Elem, g: Elem, mid: nat,
                      rest: seq<Elem>, stored: seq<Elem>)
    requires stored == [g] + rest && e == Elem(g.key, Rev(g.hash)) && RevElems(rest) + ([e] + acc) == es
    requires At(buf, pos, PackElem(g)) && mid == pos + |PackElem(g)|
    requires At(buf, mid, PackElems(rest)) && end == mid + |PackElems(rest)|
    ensures RevElems(stored) + acc == es
    ensures At(buf, pos, PackElems(stored)) && end == pos + |PackElems(stored)|
  {
    assert stored[1..] == rest;
    RevElemsStep(stored, acc);
    AtJoins(buf, pos, PackElem(g), PackElems(rest));
  }

  lemma {:induction false} UnpacksOnlyElem(buf: string, pos: nat, e: Elem, end: nat) returns (g: Elem)
    requires Bytes(buf) && pos <= |buf| && UnpackElem(buf, pos) == Some((e, end))
    ensures e == Elem(g.key, Rev(g.hash)) && At(buf, pos, PackElem(g)) && end == pos + |PackElem(g)|
    decreases |buf| - pos, 0
  {
    var z := StringEnd(buf, pos);
    var sub := UnpacksOnlyPacked(buf, z + 1, e.hash, end);
    g := Elem(e.key, sub);
    assert At(buf, pos, e.key) && At(buf, pos + |e.key|, ['\0']);
    AtJoins(buf, pos, e.key, ['\0']);
    AtJoins(buf, pos, e.key + ['\0'], Pack(sub));
  }

  /** A tree whose packed form has at most INT_MAX bytes has few enough children everywhere. */
  lemma {:induction false} SmallMeansCountsOk(h: Hash)
    requires PackSize(h) <= INT_MAX
    ensures CountsOk(h)
    decreases h
  {
    if h.Hash? {
      ElemsBound(h.elems);
      forall i | 0 <= i < |h.elems|
        ensures CountsOk(h.elems[i].hash)
      {
        ElemBound(h.elems, i);
        SmallMeansCountsOk(h.elems[i].hash);
      }
    }
  }

  lemma {:induction false} ElemsBound(es: seq<Elem>)
    ensures |es| <= ElemsSize(es)
    decreases |es|
  {
    if es != [] {
      ElemsBound(es[1..]);
    }
  }

  lemma {:induction false} ElemBound(es: seq<Elem>, i: nat)
    requires i < |es|
    ensures PackSize(es[i].hash) <= ElemsSize(es)
    decreases |es|
  {
    if i > 0 {
      ElemBound(es[1..], i - 1);
    }
  }

  // ---------- the loops of the code ----------

  lemma {:induction false} PackElemsSplit(es: seq<Elem>, i: nat)
    requires i < |es|
    ensures PackElems(es[..i + 1]) == PackElems(es[..i]) + PackElem(es[i])
    ensures ElemsSize(es[..i + 1]) == ElemsSize(es[..i]) + |es[i].key| + 1 + PackSize(es[i].hash)
    ensures ElemsSize(es[..i + 1]) <= ElemsSize(es)
    decreases |es|
  {
    var one := es[..i + 1];
    if i == 0 {
      assert one == [es[0]] && es[..0] == [];
      assert one[1..] == [];
    } else {
      PackElemsSplit(es[1..], i - 1);
      assert one[1..] == es[1..][..i] && es[..i][1..] == es[1..][..i - 1];
    }
  }

  /** Bytes `piece` written at `at`, everything else as in `before`. */
  ghost predicate Wrote(before: string, after: string, at: nat, piece: string) {
    && at + |piece| <= |before|
    && after == before[..at] + piece + before[at + |piece|..]
  }

  lemma WroteThenWrote(a: string, b: string, c: string, at: nat, p: string, q: string)
    requires Wrote(a, b, at, p) && Wrote(b, c, at + |p|, q)
    ensures Wrote(a, c, at, p + q)
  {
    assert b[..at + |p|] == a[..at] + p;
    assert b[at + |p| + |q|..] == a[at + |p| + |q|..];
    assert a[..at] + p + q == a[..at] + (p + q);
  }

  /** A packed tree begins with the count of its elements. */
  lemma CountStands(s: string, start: nat, h: Hash)
    requires At(s, start, Pack(h))
    ensures WordAt(s, start, 4, |Elems(h)|)
  {
    PackBegins(h);
    AtSplit(s, start, BigEndian(|Elems(h)|, 4), PackElems(Elems(h)));
    BigEndianBytes(|Elems(h)|, 4);
    Stands(s, start, BigEndian(|Elems(h)|, 4));
  }

  lemma PackBegins(h: Hash)
    ensures Pack(h) == BigEndian(|Elems(h)|, 4) + PackElems(Elems(h))
  {
  }

  /** After the count stand the elements in order: element i is its key, a NUL and its packed child. */
  lemma ElemsInOrder(h: Hash, i: nat)
    requires i < |Elems(h)|
    ensures var at, e := 4 + ElemsSize(Elems(h)[..i]), Elems(h)[i];
            && At(Pack(h), at, e.key)
            && At(Pack(h), at + |e.key|, ['\0'])
            && At(Pack(h), at + |e.key| + 1, Pack(e.hash))
            && ElemsSize(Elems(h)[..i + 1]) == ElemsSize(Elems(h)[..i]) + |e.key| + 1 + PackSize(e.hash)
  {
    var es, e := h.elems, h.elems[i];
    ElemAt(es, i);
    PackElemsSplit(es, i);
    var at := ElemsSize(es[..i]);
    AtAfter(BigEndian(|es|, 4), PackElems(es), at, PackElem(e));
    AtSplit(Pack(h), 4 + at, e.key + ['\0'], Pack(e.hash));
    AtSplit(Pack(h), 4 + at, e.key, ['\0']);
  }

  lemma AtAfter(front: string, s: string, at: nat, piece: string)
    requires At(s, at, piece)
    ensures At(front + s, |front| + at, piece)
  {
    var whole := front + s;
    assert whole[|front|..] == s;
    assert whole[|front| + at..|front| + at + |piece|] == whole[|front|..][at..at + |piece|];
  }

  lemma {:induction false} ElemAt(es: seq<Elem>, i: nat)
    requires i < |es|
    ensures At(PackElems(es), ElemsSize(es[..i]), PackElem(es[i]))
    decreases |es|
  {
    if i > 0 {
      ElemAt(es[1..], i - 1);
      assert es[..i][1..] == es[1..][..i - 1];
      var first, at := PackElem(es[0]), ElemsSize(es[1..][..i - 1]);
      PackFillsSize(es[0].hash);
      AtAfter(first, PackElems(es[1..]), at, PackElem(es[i]));
    } else {
      assert ElemsSize(es[..0]) == 0;
    }
  }

  /** kvtree_pack: writes the packed tree at `start`, leaves the other bytes alone, returns the byte count. */
  method PackInto(buf: array<char>, start: nat, h: Hash) returns (size: nat)
    requires start + PackSize(h) <= buf.Length
    modifies buf
    ensures size == PackSize(h) == |Pack(h)|
    ensures Wrote(old(buf[..]), buf[..], start, Pack(h))
    ensures WordAt(buf[..], start, 4, |Elems(h)|)
    decreases h
  {
    PackFillsSize(h);
    CopyInto(buf, start, BigEndian(|Elems(h)|, 4));
    if h.Null? {
      CountStands(buf[..], start, h);
      return 4;
    }
    ghost var mid := buf[..];
    size := PackElemsInto(buf, start + 4, h.elems);
    WroteThenWrote(old(buf[..]), mid, buf[..], start, BigEndian(|h.elems|, 4), PackElems(h.elems));
    size := 4 + size;
    CountStands(buf[..], start, h);
  }

  /** The element loop of kvtree_pack. */
  method PackElemsInto(buf: array<char>, start: nat, es: seq<Elem>) returns (size: nat)
    requires start + ElemsSize(es) <= buf.Length
    modifies buf
    ensures size == ElemsSize(es) == |PackElems(es)|
    ensures Wrote(old(buf[..]), buf[..], start, PackElems(es))
    decreases es, 1
  {
    size := 0;
    var i := 0;
    while i < |es|
      invariant 0 <= i <= |es|
      invariant size == ElemsSize(es[..i]) == |PackElems(es[..i])| && size <= ElemsSize(es)
      invariant Wrote(old(buf[..]), buf[..], start, PackElems(es[..i]))
    {
      PackElemsSplit(es, i);
      ghost var mid := buf[..];
      var n := PackElemInto(buf, start + size, es, i);
      WroteThenWrote(old(buf[..]), mid, buf[..], start, PackElems(es[..i]), PackElem(es[i]));
      size := size + n;
      i := i + 1;
    }
    assert es[..i] == es;
  }

  /** kvtree_elem_pack. */
  method PackElemInto(buf: array<char>, start: nat, es: seq<Elem>, i: nat) returns (size: nat)
    requires i < |es|
    requires start + |es[i].key| + 1 + PackSize(es[i].hash) <= buf.Length
    modifies buf
    ensures size == |es[i].key| + 1 + PackSize(es[i].hash) == |PackElem(es[i])|
    ensures Wrote(old(buf[..]), buf[..], start, PackElem(es[i]))
    decreases es, 0
  {
    var key := es[i].key + ['\0'];
    CopyInto(buf, start, key);
    ghost var mid := buf[..];
    PackFillsSize(es[i].hash);
    var n := PackInto(buf, start + |key|, es[i].hash);
    WroteThenWrote(old(buf[..]), mid, buf[..], start, key, Pack(es[i].hash));
    size := |key| + n;
  }

  /** kvtree_unpack: reads a count, then that many elements, inserting each at the head. */
  method UnpackFrom(buf: string, start: nat) returns (r: Option<(Hash, nat)>)
    ensures r == Unpack(buf, start)
    decreases |buf| - start, 2
  {
    var count, pos := UnpackUint(buf, start, 4);
    if count.None? {
      return None;
    }
    var es: seq<Elem> := [];
    var i := 0;
    while i < count.value
      invariant 0 <= i <= count.value && start + 4 <= pos <= |buf|
      invariant UnpackElems(buf, start + 4, count.value, []) == UnpackElems(buf, pos, count.value - i, es)
    {
      var elem := UnpackElemFrom(buf, pos);
      if elem.None? {
        return None;
      }
      es, pos := [elem.value.0] + es, elem.value.1;
      i := i + 1;
    }
    return Some((Hash(es), pos));
  }

  /** kvtree_elem_unpack. */
  method UnpackElemFrom(buf: string, pos: nat) returns (r: Option<(Elem, nat)>)
    requires pos <= |buf|
    ensures r == UnpackElem(buf, pos)
    decreases |buf| - pos, 0
  {
    var z := StringEnd(buf, pos);
    if z == |buf| {
      return None;
    }
    var sub := UnpackFrom(buf, z + 1);
    if sub.None? {
      return None;
    }
    return Some((Elem(buf[pos..z], sub.value.0), sub.value.1));
  }
}
