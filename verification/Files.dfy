/** The persisted form of a kvtree: header, packed tree, CRC32. The checksum function is a parameter. */
module Files {
  import opened Text
  import opened Trees
  import opened Hashes
  import opened Packing

  const MAGIC: nat := 0x951fc3f5
  const TYPE_HASH: nat := 1
  const VERSION_HASH_1: nat := 1
  const HEADER_SIZE: nat := 20
  const FLAG_CRC32: nat := 1
  const UINT_RANGE: nat := 0x1_0000_0000

  type Checksum = string -> nat

  function Header(fileSize: nat): (s: string)
    ensures |s| == HEADER_SIZE
  {
    BigEndian(MAGIC, 4) + BigEndian(TYPE_HASH, 2) + BigEndian(VERSION_HASH_1, 2)
    + BigEndian(fileSize, 8) + BigEndian(FLAG_CRC32, 4)
  }

  /** How every file begins: the magic number, the type and the version. */
  const PREAMBLE: string := [0x95 as char, 0x1f as char, 0xc3 as char, 0xf5 as char,
                             0 as char, 1 as char, 0 as char, 1 as char]

  /** crc32 takes its length as a uInt, so the range covered is the length modulo 2^32. */
  function CrcOf(crc: Checksum, s: string, n: nat): nat
    requires n <= |s|
  {
    crc(s[..n % UINT_RANGE]) % UINT_RANGE
  }

  function PersistSize(h: Hash): nat {
    HEADER_SIZE + PackSize(h) + 4
  }

  /** The bytes of a kvtree file. */
  function Persist(crc: Checksum, h: Hash): string {
    var body := Header(PersistSize(h)) + Pack(h);
    body + BigEndian(CrcOf(crc, body, |body|), 4)
  }

  datatype ReadResult = Failed | EmptyFile | Read(size: nat, hash: Hash)

  /** What kvtree_read_fd finds in the bytes from the file position on. Reading a packed tree past the
      end of the buffer is undefined in C; here it is a failure. */
  function ReadFd(crc: Checksum, file: string): ReadResult {
    if |file| == 0 then EmptyFile
    else if |file| < HEADER_SIZE then Failed
    else if ReadBig(file[0..4]) != MAGIC || ReadBig(file[4..6]) != TYPE_HASH || ReadBig(file[6..8]) != VERSION_HASH_1
      then Failed
    else
      var size := ReadBig(file[8..16]);
      if size < HEADER_SIZE || size > |file| then Failed
      else ReadBody(crc, file[..size], ReadBig(file[16..20]) % 2 == FLAG_CRC32)
  }

  function ReadBody(crc: Checksum, buf: string, crcSet: bool): ReadResult
    requires |buf| >= HEADER_SIZE
  {
    var n := |buf| - 4;
    if crcSet && CrcOf(crc, buf, n) != ReadBig(buf[n..]) then Failed
    else
      match Unpack(buf, HEADER_SIZE)
      case None => Failed
      case Some((h, _)) => Read(|buf|, h)
  }

  predicate Persistable(h: Hash) {
    h.Hash? && PersistSize(h) <= ULONG_MAX
  }

  // ---------- the bytes of a file ----------

  lemma PowersOf256()
    ensures Pow256(0) == 1 && Pow256(1) == 256 && Pow256(2) == 0x1_0000 && Pow256(3) == 0x100_0000
  {
  }

  lemma MagicBytes()
    ensures BigEndian(MAGIC, 4) == PREAMBLE[..4]
  {
    PowersOf256();
    BigEndianBytes(MAGIC, 4);
    var s := BigEndian(MAGIC, 4);
    assert s[0] == NthByte(MAGIC, 4, 0) as char && s[1] == NthByte(MAGIC, 4, 1) as char;
    assert s[2] == NthByte(MAGIC, 4, 2) as char && s[3] == NthByte(MAGIC, 4, 3) as char;
  }

  lemma OneBytes()
    ensures BigEndian(1, 2) == [0 as char, 1 as char]
    ensures BigEndian(1, 4) == [0 as char, 0 as char, 0 as char, 1 as char]
  {
    PowersOf256();
    BigEndianBytes(1, 2);
    BigEndianBytes(1, 4);
    assert BigEndian(1, 2)[0] == NthByte(1, 2, 0) as char && BigEndian(1, 2)[1] == NthByte(1, 2, 1) as char;
    assert BigEndian(1, 4)[0] == NthByte(1, 4, 0) as char && BigEndian(1, 4)[1] == NthByte(1, 4, 1) as char;
    assert BigEndian(1, 4)[2] == NthByte(1, 4, 2) as char && BigEndian(1, 4)[3] == NthByte(1, 4, 3) as char;
  }

  /** The header, byte by byte: the preamble, the size and the checksum flag, each in network order. */
  ghost predicate BeginsWithHeader(s: string, size: nat) {
    && |s| >= HEADER_SIZE && s[..8] == PREAMBLE && WordAt(s, 8, 8, size)
    && s[16..20] == [0 as char, 0 as char, 0 as char, 1 as char]
  }

  lemma HeaderBytes(size: nat, rest: string)
    ensures BeginsWithHeader(Header(size) + rest, size)
  {
    MagicBytes();
    OneBytes();
    BigEndianBytes(size, 8);
    var s := Header(size) + rest;
    assert s[..8] == BigEndian(MAGIC, 4) + BigEndian(TYPE_HASH, 2) + BigEndian(VERSION_HASH_1, 2);
    assert s[..8] == PREAMBLE;
    assert s[8..16] == BigEndian(size, 8);
    assert s[16..20] == BigEndian(FLAG_CRC32, 4);
  }

  /** A persisted tree, byte by byte: the header with the size of the whole, the packed tree, and the checksum of all
      before it. */
  lemma PersistBytes(crc: Checksum, h: Hash, p: string, size: nat)
    requires p == Persist(crc, h) && size == PersistSize(h)
    ensures |p| == size >= HEADER_SIZE && BeginsWithHeader(p, size) && At(p, HEADER_SIZE, Pack(h))
    ensures WordAt(p, size - 4, 4, CrcOf(crc, p, size - 4))
  {
    var body := Header(size) + Pack(h);
    PersistHasSize(crc, h);
    PackFillsSize(h);
    var sum := CrcOf(crc, body, |body|);
    BodyThenSum(Header(size), Pack(h), body, sum, p);
    HeaderBytes(size, Pack(h) + BigEndian(sum, 4));
    assert |p| == size && size - 4 == |body|;
    assert p[..|body| % UINT_RANGE] == body[..|body| % UINT_RANGE];
  }

  lemma BodyThenSum(header: string, packed: string, body: string, sum: nat, p: string)
    requires body == header + packed && p == body + BigEndian(sum, 4)
    ensures p == header + (packed + BigEndian(sum, 4))
    ensures At(p, |header|, packed) && WordAt(p, |body|, 4, sum)
  {
    BigEndianBytes(sum, 4);
    Follows(body, BigEndian(sum, 4));
    Stands(p, |body|, BigEndian(sum, 4));
    assert p[|header|..|header| + |packed|] == body[|header|..|header| + |packed|] == packed;
  }

  // ---------- which files are read ----------

  /** The stored checksum is that of the bytes before it. */
  ghost predicate ChecksumAgrees(crc: Checksum, c: string, size: nat)
    requires 4 <= size <= |c|
  {
    WordIs(c, size - 4, 4, crc(c[..(size - 4) % UINT_RANGE]) % UINT_RANGE)
  }

  ghost predicate HasPreamble(c: string) {
    |c| >= HEADER_SIZE && forall i :: 0 <= i < 8 ==> c[i] as int % 256 == PREAMBLE[i] as int
  }

  /** A whole file, told from its bytes: it begins as every file does, the size it names is at least a header and no
      more than there is, and if bit 0 of the flags is set the checksum agrees. */
  ghost predicate Intact(crc: Checksum, c: string, size: nat) {
    && HasPreamble(c) && WordIs(c, 8, 8, size) && HEADER_SIZE <= size <= |c|
    && (c[19] as int % 2 == 1 ==> ChecksumAgrees(crc, c, size))
  }

  lemma MagicIs(c: string)
    requires |c| >= 4
    ensures WordIs(c, 0, 4, MAGIC) <==>
            && c[0] as int % 256 == 0x95 && c[1] as int % 256 == 0x1f
            && c[2] as int % 256 == 0xc3 && c[3] as int % 256 == 0xf5
  {
    PowersOf256();
    Pow256Values();
    assert NthByte(MAGIC, 4, 0) == 0x95 && NthByte(MAGIC, 4, 1) == 0x1f;
    assert NthByte(MAGIC, 4, 2) == 0xc3 && NthByte(MAGIC, 4, 3) == 0xf5;
    assert c[0 + 0] == c[0] && c[0 + 1] == c[1] && c[0 + 2] == c[2] && c[0 + 3] == c[3];
  }

  lemma OneIs(c: string, at: nat)
    requires at + 2 <= |c|
    ensures WordIs(c, at, 2, 1) <==> c[at] as int % 256 == 0 && c[at + 1] as int % 256 == 1
  {
    Pow256Values();
    LastByte(1, 2);
    WordSplits(c, at, 2, 1);
    WordSplits(c, at, 1, 0);
  }

  lemma FirstWords(c: string)
    requires |c| >= HEADER_SIZE
    ensures HasPreamble(c) <==>
            ReadBig(c[0..4]) == MAGIC && ReadBig(c[4..6]) == TYPE_HASH && ReadBig(c[6..8]) == VERSION_HASH_1
  {
    WordIsRead(c, 0, 4, MAGIC);
    WordIsRead(c, 4, 2, TYPE_HASH);
    WordIsRead(c, 6, 2, VERSION_HASH_1);
    MagicIs(c);
    OneIs(c, 4);
    OneIs(c, 6);
    PreambleBytes(c);
  }

  lemma PreambleBytes(c: string)
    requires |c| >= HEADER_SIZE
    ensures HasPreamble(c) <==>
            && c[0] as int % 256 == 0x95 && c[1] as int % 256 == 0x1f
            && c[2] as int % 256 == 0xc3 && c[3] as int % 256 == 0xf5
            && c[4] as int % 256 == 0 && c[5] as int % 256 == 1
            && c[6] as int % 256 == 0 && c[7] as int % 256 == 1
  {
  }

  function Unpacked(c: string): ReadResult {
    match Unpack(c, HEADER_SIZE)
    case None => Failed
    case Some((h, _)) => Read(|c|, h)
  }

  lemma FlagBit(c: string)
    requires |c| >= HEADER_SIZE
    ensures ReadBig(c[16..20]) % 2 == c[19] as int % 2
  {
    LastBit(c[16..20]);
  }

  lemma LastBit(w: string)
    requires w != ""
    ensures ReadBig(w) % 2 == w[|w| - 1] as int % 2
  {
    Parity(ReadBig(w[..|w| - 1]), w[|w| - 1] as int);
  }

  lemma Parity(high: nat, low: nat)
    ensures (high * 256 + low % 256) % 2 == low % 2
  {
    assert low % 256 == low - 256 * (low / 256);
    assert high * 256 + low % 256 == 2 * (128 * high - 128 * (low / 256)) + low;
  }

  /** kvtree_read_fd takes nothing from an empty file, refuses every other file that is not intact, and unpacks the
      bytes after the header of one that is. */
  lemma ReadsOnlyIntact(crc: Checksum, c: string)
    ensures c == "" ==> ReadFd(crc, c) == EmptyFile
    ensures c != "" && (forall size: nat :: !Intact(crc, c, size)) ==> ReadFd(crc, c) == Failed
    ensures forall size: nat :: Intact(crc, c, size) ==> ReadFd(crc, c) == Unpacked(c[..size])
  {
    if |c| >= HEADER_SIZE {
      var size := ReadBig(c[8..16]);
      forall n: nat
        ensures WordIs(c, 8, 8, n) <==> n == size
      {
        WordIsRead(c, 8, 8, n);
      }
      ReadsBySize(crc, c, size);
    }
  }

  lemma ReadsBySize(crc: Checksum, c: string, size: nat)
    requires |c| >= HEADER_SIZE && size == ReadBig(c[8..16])
    ensures ReadFd(crc, c) == if Intact(crc, c, size) then Unpacked(c[..size]) else Failed
  {
    FirstWords(c);
    FlagBit(c);
    WordIsRead(c, 8, 8, size);
    if HEADER_SIZE <= size <= |c| {
      ChecksumTest(crc, c, size);
    }
  }

  /** What is read from a file of bytes stands in it: after the header, the packed form of a tree of which the one read
      is the reverse. */
  lemma ReadsOnlyStored(crc: Checksum, c: string, size: nat, h: Hash) returns (g: Hash)
    requires Bytes(c) && ReadFd(crc, c) == Read(size, h)
    ensures Intact(crc, c, size) && Rev(g) == h && At(c, HEADER_SIZE, Pack(g))
  {
    ReadsBySize(crc, c, ReadBig(c[8..16]));
    var buf := c[..size];
    var end := Unpack(buf, HEADER_SIZE).value.1;
    g := UnpacksOnlyPacked(buf, HEADER_SIZE, h, end);
    assert c[HEADER_SIZE..HEADER_SIZE + |Pack(g)|] == buf[HEADER_SIZE..HEADER_SIZE + |Pack(g)|];
  }

  lemma ChecksumTest(crc: Checksum, c: string, size: nat)
    requires HEADER_SIZE <= size <= |c|
    ensures ChecksumAgrees(crc, c, size) <==>
            CrcOf(crc, c[..size], size - 4) == ReadBig(c[..size][size - 4..])
  {
    var buf := c[..size];
    Pow256Values();
    assert buf[size - 4..] == c[size - 4..size - 4 + 4];
    assert buf[..(size - 4) % UINT_RANGE] == c[..(size - 4) % UINT_RANGE];
    WordIsRead(c, size - 4, 4, crc(c[..(size - 4) % UINT_RANGE]) % UINT_RANGE);
  }

  lemma PersistHasSize(crc: Checksum, h: Hash)
    ensures |Persist(crc, h)| == PersistSize(h)
  {
    PackFillsSize(h);
  }

  lemma FieldsApart(s: string, a: string, b: string, c: string, d: string, e: string)
    requires At(s, 0, a + b + c + d + e)
    requires |a| == 4 && |b| == 2 && |c| == 2 && |d| == 8 && |e| == 4
    ensures s[0..4] == a && s[4..6] == b && s[6..8] == c && s[8..16] == d && s[16..20] == e
  {
    AtSplit(s, 0, a + b + c + d, e);
    AtSplit(s, 0, a + b + c, d);
    AtSplit(s, 0, a + b, c);
    AtSplit(s, 0, a, b);
  }

  lemma FieldValues(n: nat)
    requires n <= ULONG_MAX
    ensures ReadBig(BigEndian(MAGIC, 4)) == MAGIC
    ensures ReadBig(BigEndian(TYPE_HASH, 2)) == TYPE_HASH
    ensures ReadBig(BigEndian(VERSION_HASH_1, 2)) == VERSION_HASH_1
    ensures ReadBig(BigEndian(n, 8)) == n
    ensures ReadBig(BigEndian(FLAG_CRC32, 4)) == FLAG_CRC32
  {
    Pow256Values();
    ReadBigEndian(MAGIC, 4);
    ReadBigEndian(TYPE_HASH, 2);
    ReadBigEndian(n, 8);
    ReadBigEndian(FLAG_CRC32, 4);
  }

  lemma HeaderFields(n: nat, s: string)
    requires n <= ULONG_MAX && |s| >= HEADER_SIZE && s[..HEADER_SIZE] == Header(n)
    ensures ReadBig(s[0..4]) == MAGIC && ReadBig(s[4..6]) == TYPE_HASH && ReadBig(s[6..8]) == VERSION_HASH_1
    ensures ReadBig(s[8..16]) == n && ReadBig(s[16..20]) == FLAG_CRC32
  {
    FieldValues(n);
    assert s[0..HEADER_SIZE] == s[..HEADER_SIZE];
    FieldsApart(s, BigEndian(MAGIC, 4), BigEndian(TYPE_HASH, 2), BigEndian(VERSION_HASH_1, 2),
                BigEndian(n, 8), BigEndian(FLAG_CRC32, 4));
  }

  lemma BodyReadsBack(crc: Checksum, body: string, h: Hash)
    requires WF(h) && CountsOk(h) && |body| >= HEADER_SIZE && At(body, HEADER_SIZE, Pack(h))
    ensures ReadBody(crc, body + BigEndian(CrcOf(crc, body, |body|), 4), true) == Read(|body| + 4, Rev(h))
  {
    var sum := CrcOf(crc, body, |body|);
    var p := body + BigEndian(sum, 4);
    var n := |body|;
    assert p[..n % UINT_RANGE] == body[..n % UINT_RANGE];
    assert p[n..] == BigEndian(sum, 4);
    Pow256Values();
    ReadBigEndian(sum, 4);
    assert p[HEADER_SIZE..HEADER_SIZE + |Pack(h)|] == body[HEADER_SIZE..HEADER_SIZE + |Pack(h)|];
    UnpackPack(p, HEADER_SIZE, h);
  }

  lemma HeaderReadsBack(crc: Checksum, file: string, size: nat)
    requires HEADER_SIZE <= size <= ULONG_MAX && size <= |file| && file[..HEADER_SIZE] == Header(size)
    ensures ReadFd(crc, file) == ReadBody(crc, file[..size], true)
  {
    HeaderFields(size, file);
  }

  /** Reading back a persisted tree, whatever stale bytes follow it in the file, gives the same map. */
  lemma PersistRoundTrip(crc: Checksum, h: Hash, stale: string)
    requires WF(h) && CountsOk(h) && Persistable(h)
    ensures ReadFd(crc, Persist(crc, h) + stale) == Read(PersistSize(h), Rev(h))
    ensures WF(Rev(h)) && Abs(Rev(h)) == Abs(h)
  {
    var file := Persist(crc, h) + stale;
    var size := PersistSize(h);
    var body := Header(size) + Pack(h);
    PersistHasSize(crc, h);
    PackFillsSize(h);
    assert file[..HEADER_SIZE] == Header(size);
    HeaderReadsBack(crc, file, size);
    assert file[..size] == Persist(crc, h);
    Follows(Header(size), Pack(h));
    BodyReadsBack(crc, body, h);
    RevMeansSame(h);
  }

  lemma Follows(a: string, b: string)
    ensures At(a + b, |a|, b)
  {
    assert (a + b)[|a|..|a| + |b|] == b;
  }

  /** kvtree_write_persist: fills a buffer of exactly the computed size; fails on a NULL tree. */
  method WritePersist(crc: Checksum, h: Hash) returns (buf: Option<string>)
    ensures buf.Some? <==> h.Hash?
    ensures buf.Some? ==> buf.value == Persist(crc, h) && BeginsWithHeader(buf.value, PersistSize(h))
  {
    if h.Null? {
      return None;
    }
    PackFillsSize(h);
    var size := PersistSize(h);
    var a := new char[size];
    var pos := WriteHeader(a, size);
    var n := PackInto(a, pos, h);
    pos := pos + n;
    ghost var whole := Header(size) + Pack(h);
    assert a[..pos] == whole;
    var rc;
    rc, pos := PackUint(a, size, pos, CrcOf(crc, a[..pos], pos), 4);
    assert a[..] == Persist(crc, h);
    PersistBytes(crc, h, a[..], size);
    return Some(a[..]);
  }

  /** The header fields, written one after another through the cursor. */
  method WriteHeader(a: array<char>, size: nat) returns (pos: nat)
    requires a.Length == size >= HEADER_SIZE
    modifies a
    ensures pos == HEADER_SIZE && a[..pos] == Header(size)
    ensures BeginsWithHeader(a[..], size)
  {
    var rc;
    rc, pos := PackUint(a, size, 0, MAGIC, 4);
    ghost var front := BigEndian(MAGIC, 4);
    assert a[..pos] == front;
    rc, pos := PackUint(a, size, pos, TYPE_HASH, 2);
    front := front + BigEndian(TYPE_HASH, 2);
    assert a[..pos] == front;
    rc, pos := PackUint(a, size, pos, VERSION_HASH_1, 2);
    front := front + BigEndian(VERSION_HASH_1, 2);
    assert a[..pos] == front;
    rc, pos := PackUint(a, size, pos, size, 8);
    front := front + BigEndian(size, 8);
    assert a[..pos] == front;
    rc, pos := PackUint(a, size, pos, FLAG_CRC32, 4);
    front := front + BigEndian(FLAG_CRC32, 4);
    assert a[..pos] == front;
    assert a[..] == Header(size) + a[pos..];
    HeaderBytes(size, a[pos..]);
  }
}
