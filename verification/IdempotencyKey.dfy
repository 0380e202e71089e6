/** The 16-byte idempotency key of one scheduled time of one schedule: what it keeps of the two, and its order. */
module IdempotencyKeys {
  import opened ByteStrings
  import opened Int64

  const TWO_48: int := 0x1_0000_0000_0000
  const TWO_63: int := 0x8000_0000_0000_0000

  /** The value of an int64 read as uint64. */
  function Unsigned(x: int): (u: int)
    ensures 0 <= u < TWO_64
  {
    x % TWO_64
  }

  /** byte(x) */
  function LowByte(x: nat): Byte {
    (x % 256) as Byte
  }

  /** x >> 8*n */
  function Shift(x: nat, n: nat): nat {
    if n == 0 then x else Shift(x / 256, n - 1)
  }

  /** The n low bytes of x, most significant first. */
  function BigEndian(x: nat, n: nat): (s: Bytes)
    ensures |s| == n
  {
    if n == 0 then [] else BigEndian(x / 256, n - 1) + [LowByte(x)]
  }

  /** The id's part of the layout: version 7 over the id's bits 63..52, the variant over a nibble of bits 51..48,
      the id's bits 47..0. */
  function IdPart(id: nat): (k: Bytes)
    ensures |k| == 10
  {
    BigEndian(0x7000 + Shift(id, 6) / 16, 2) + [0x80, (Shift(id, 6) % 16) as Byte] + BigEndian(id, 6)
  }

  /** The layout: 48 time bits, then the id's part. */
  function Key(ms: int, id: int): (k: Bytes)
    ensures |k| == 16
  {
    BigEndian(Unsigned(ms), 6) + IdPart(Unsigned(id))
  }

  /** Fills the key byte by byte from the two shifted words. Or-ing bits a byte does not have adds them, and a
      shift by 60 or 52 bits is one of 7 or 6 bytes and a nibble. */
  method IdempotencyKey(unixMilli: int, scheduleId: int) returns (k: array<Byte>)
    ensures k.Length == 16 && k[..] == Key(unixMilli, scheduleId)
  {
    k := new Byte[16](_ => 0);
    var ms := Unsigned(unixMilli);
    k[0] := LowByte(Shift(ms, 5));
    k[1] := LowByte(Shift(ms, 4));
    k[2] := LowByte(Shift(ms, 3));
    k[3] := LowByte(Shift(ms, 2));
    k[4] := LowByte(Shift(ms, 1));
    k[5] := LowByte(ms);
    var id := Unsigned(scheduleId);
    HighBits(id);
    k[6] := 0x70 + LowByte(Shift(id, 7) / 16);
    k[7] := LowByte(Shift(id, 6) / 16);
    k[8] := 0x80;
    k[9] := LowByte(Shift(id, 6)) % 16;
    k[10] := LowByte(Shift(id, 5));
    k[11] := LowByte(Shift(id, 4));
    k[12] := LowByte(Shift(id, 3));
    k[13] := LowByte(Shift(id, 2));
    k[14] := LowByte(Shift(id, 1));
    k[15] := LowByte(id);
    KeyOfBytes(unixMilli, scheduleId, k[..]);
  }

  lemma KeyOfBytes(unixMilli: int, scheduleId: int, k: Bytes)
    requires |k| == 16
    requires var ms := Unsigned(unixMilli);
             k[0] == LowByte(Shift(ms, 5)) && k[1] == LowByte(Shift(ms, 4)) && k[2] == LowByte(Shift(ms, 3)) &&
             k[3] == LowByte(Shift(ms, 2)) && k[4] == LowByte(Shift(ms, 1)) && k[5] == LowByte(ms)
    requires var id := Unsigned(scheduleId);
             Shift(id, 7) < 0x100 && k[6] == 0x70 + LowByte(Shift(id, 7) / 16) && k[7] == LowByte(Shift(id, 6) / 16) &&
             k[8] == 0x80 && k[9] == LowByte(Shift(id, 6)) % 16
    requires var id := Unsigned(scheduleId);
             k[10] == LowByte(Shift(id, 5)) && k[11] == LowByte(Shift(id, 4)) && k[12] == LowByte(Shift(id, 3)) &&
             k[13] == LowByte(Shift(id, 2)) && k[14] == LowByte(Shift(id, 1)) && k[15] == LowByte(id)
    ensures k == Key(unixMilli, scheduleId)
  {
    var ms, id := Unsigned(unixMilli), Unsigned(scheduleId);
    SixBytes(ms, k[0..6]);
    SixBytes(id, k[10..16]);
    HighBits(id);
    VersionBytes(id);
    assert k == k[0..6] + k[6..8] + [k[8], k[9]] + k[10..16];
    assert k[6..8] == [k[6], k[7]];
  }

  function Pow256(n: nat): nat {
    if n == 0 then 1 else Pow256(n - 1) * 256
  }

  lemma {:induction false} ShiftBelow(x: nat, n: nat, bound: nat)
    requires x < bound * Pow256(n)
    ensures Shift(x, n) < bound
  {
    if n > 0 {
      var p := bound * Pow256(n - 1);
      assert bound * Pow256(n) == p * 256;
      ShiftBelow(x / 256, n - 1, bound);
    }
  }

  lemma {:induction false} ShiftOnce(x: nat, n: nat)
    ensures Shift(x, n + 1) == Shift(x, n) / 256
  {
    if n > 0 {
      ShiftOnce(x / 256, n - 1);
    }
  }

  lemma Powers()
    ensures Pow256(3) == 0x100_0000 && Pow256(6) == TWO_48
  {
    assert Pow256(3) == 0x100_0000;
  }

  lemma RestOf16(high: int, rest: int)
    requires 0 <= rest < 16
    ensures (16 * high + rest) % 16 == rest
  {
  }

  lemma LowNibble(x: nat)
    ensures LowByte(x) % 16 == (x % 16) as Byte
  {
    var low := x % 256;
    RestOf16(16 * (x / 256) + low / 16, low % 16);
    assert x == 16 * (16 * (x / 256) + low / 16) + low % 16;
  }

  lemma HighBits(id: nat)
    requires id < TWO_64
    ensures Shift(id, 7) < 0x100 && Shift(id, 6) < 0x1_0000 && Shift(id, 7) == Shift(id, 6) / 256
    ensures LowByte(Shift(id, 6)) % 16 == (Shift(id, 6) % 16) as Byte
  {
    Powers();
    ShiftBelow(id, 6, 0x1_0000);
    ShiftOnce(id, 6);
    LowNibble(Shift(id, 6));
  }

  lemma TwoBytes(x: nat)
    ensures BigEndian(x, 2) == [LowByte(x / 256), LowByte(x)]
  {
    assert BigEndian(x / 256, 1) == BigEndian(x / 256 / 256, 0) + [LowByte(x / 256)];
  }

  /** Version 7 above twelve bits. */
  lemma VersionWord(high: nat)
    requires high < 0x1_0000
    ensures (0x7000 + high / 16) / 256 == 0x70 + high / 256 / 16 < 0x80
    ensures (0x7000 + high / 16) % 256 == high / 16 % 256
  {
    var word := high / 16;
    assert high / 256 / 16 == word / 256;
    assert 0x7000 + word == (0x70 + word / 256) * 256 + word % 256;
  }

  lemma VersionBytes(id: nat)
    requires id < TWO_64
    ensures Shift(id, 7) < 0x100
    ensures BigEndian(0x7000 + Shift(id, 6) / 16, 2) == [0x70 + LowByte(Shift(id, 7) / 16), LowByte(Shift(id, 6) / 16)]
  {
    HighBits(id);
    TwoBytes(0x7000 + Shift(id, 6) / 16);
    VersionWord(Shift(id, 6));
  }

  lemma {:induction false} BigEndianAt(x: nat, n: nat, i: nat)
    requires i < n
    ensures BigEndian(x, n)[i] == LowByte(Shift(x, n - 1 - i))
  {
    if i < n - 1 {
      BigEndianAt(x / 256, n - 1, i);
    }
  }

  lemma SixBytes(x: nat, s: Bytes)
    requires |s| == 6
    requires forall i :: 0 <= i < 6 ==> s[i] == LowByte(Shift(x, 5 - i))
    ensures s == BigEndian(x, 6)
  {
    forall i | 0 <= i < 6 ensures s[i] == BigEndian(x, 6)[i] {
      BigEndianAt(x, 6, i);
    }
  }

  // ---- Decoding ----

  /** Appends the bytes of s to a number. */
  function Join(high: nat, s: Bytes): nat {
    if s == [] then high else Join(high, s[..|s| - 1]) * 256 + s[|s| - 1] as nat
  }

  lemma JoinLast(high: nat, s: Bytes, x: nat)
    requires Join(high, s) == x / 256
    ensures Join(high, s + [LowByte(x)]) == x
  {
    assert (s + [LowByte(x)])[..|s|] == s;
  }

  lemma {:induction false} JoinShift(x: nat, n: nat)
    ensures Join(Shift(x, n), BigEndian(x, n)) == x
  {
    if n > 0 {
      var high, s := Shift(x / 256, n - 1), BigEndian(x / 256, n - 1);
      JoinShift(x / 256, n - 1);
      assert Join(high, s) == x / 256;
      JoinLast(high, s, x);
    }
  }

  function DecodeMilli(k: Bytes): nat
    requires |k| == 16
  {
    Join(0, k[..6])
  }

  function DecodeId(k: Bytes): int
    requires |k| == 16
  {
    DecodeIdPart(k[6..])
  }

  function DecodeIdPart(p: Bytes): int
    requires |p| == 10
  {
    Join((Join(0, p[..2]) - 0x7000) % 0x1000 * 16 + p[3] as int, p[4..])
  }

  lemma DecodeIdOfPart(id: nat)
    requires id < TWO_64
    ensures DecodeIdPart(IdPart(id)) == id
  {
    HighBits(id);
    var p, version := IdPart(id), 0x7000 + Shift(id, 6) / 16;
    TwoBytesHold(version);
    JoinShift(version, 2);
    assert p[..2] == BigEndian(version, 2);
    JoinShift(id, 6);
    assert p[4..] == BigEndian(id, 6);
  }

  /** The n low bytes do not see what is above them. */
  lemma {:induction false} LowBytes(x: nat, m: nat, n: nat)
    ensures BigEndian(x + m * Pow256(n), n) == BigEndian(x, n)
  {
    if n > 0 {
      var q := m * Pow256(n - 1);
      assert m * Pow256(n) == q * 256;
      assert (x + q * 256) / 256 == x / 256 + q;
      LowBytes(x / 256, m, n - 1);
    }
  }

  lemma Low48(x: nat, m: nat)
    ensures BigEndian(x + m * TWO_48, 6) == BigEndian(x, 6)
  {
    LowBytes(x, m, 6);
    Powers();
  }

  lemma RestOf48(high: int, rest: int)
    requires 0 <= rest < TWO_48
    ensures (TWO_48 * high + rest) % TWO_48 == rest
  {
  }

  lemma UnsignedLow(ms: int)
    ensures Unsigned(ms) == ms % TWO_48 + Unsigned(ms) / TWO_48 * TWO_48
  {
    var u := Unsigned(ms);
    var high := 0x1_0000 * (ms / TWO_64) + u / TWO_48;
    RestOf48(high, u % TWO_48);
    assert ms == TWO_48 * high + u % TWO_48;
  }

  lemma KeyParts(ms: int, id: int)
    ensures Key(ms, id) == BigEndian(ms % TWO_48, 6) + IdPart(Unsigned(id))
  {
    UnsignedLow(ms);
    Low48(ms % TWO_48, Unsigned(ms) / TWO_48);
  }

  /** The time and the id come back from the key made of them. */
  lemma DecodeKey(ms: int, id: int)
    requires 0 <= ms < TWO_48 && 0 <= id < TWO_63
    ensures DecodeMilli(Key(ms, id)) == ms && DecodeId(Key(ms, id)) == id
  {
    InRange(ms, id);
    KeyParts(ms, id);
    TimeRoundTrips(ms);
    DecodeIdOfPart(id);
    assert Key(ms, id)[..6] == BigEndian(ms, 6);
    assert Key(ms, id)[6..] == IdPart(id);
  }

  lemma TimeRoundTrips(ms: nat)
    requires ms < TWO_48
    ensures Join(0, BigEndian(ms, 6)) == ms
  {
    Below48(ms);
    JoinShift(ms, 6);
  }

  lemma Below48(ms: nat)
    requires ms < TWO_48
    ensures Shift(ms, 6) == 0
  {
    Powers();
    ShiftBelow(ms, 6, 1);
  }

  lemma TwoBytesHold(x: nat)
    requires x < 0x1_0000
    ensures Shift(x, 2) == 0
  {
    ShiftOnce(x, 1);
    ShiftOnce(x, 0);
  }

  /** The version and variant bits of a UUIDv7, section 5.7 of RFC 9562. */
  lemma VersionAndVariant(ms: int, id: int)
    ensures var k := Key(ms, id); k[6] / 16 == 7 && k[8] / 64 == 2
  {
    var u := Unsigned(id);
    HighBits(u);
    VersionBytes(u);
    assert Key(ms, id)[6] == 0x70 + LowByte(Shift(u, 7) / 16);
  }

  // ---- Order ----

  /** Of equally long heads the first difference decides, then the tails. */
  lemma {:induction false} AtMostJoined(a: Bytes, b: Bytes, c: Bytes, d: Bytes)
    requires |a| == |b|
    ensures AtMost(a + c, b + d) <==> Less(a, b) || (a == b && AtMost(c, d))
  {
    if a == [] {
      assert b == [] && a + c == c && b + d == d;
    } else {
      assert (a + c)[1..] == a[1..] + c && (b + d)[1..] == b[1..] + d;
      AtMostJoined(a[1..], b[1..], c, d);
      assert a == [a[0]] + a[1..] && b == [b[0]] + b[1..];
    }
  }

  /** Numbers that agree above their n low bytes compare as those bytes do. */
  lemma {:induction false} BigEndianOrder(x: nat, y: nat, n: nat)
    requires Shift(x, n) == Shift(y, n)
    ensures AtMost(BigEndian(x, n), BigEndian(y, n)) <==> x <= y
    ensures BigEndian(x, n) == BigEndian(y, n) <==> x == y
  {
    if n > 0 {
      var a, b := BigEndian(x / 256, n - 1), BigEndian(y / 256, n - 1);
      BigEndianOrder(x / 256, y / 256, n - 1);
      AtMostJoined(a, b, [LowByte(x)], [LowByte(y)]);
      assert BigEndian(x, n)[..n - 1] == a && BigEndian(y, n)[..n - 1] == b;
      assert BigEndian(x, n)[n - 1] == LowByte(x) && BigEndian(y, n)[n - 1] == LowByte(y);
    }
  }

  /** The part of a key that holds the id orders as the id does. */
  lemma IdPartOrder(x: nat, y: nat)
    requires x < TWO_64 && y < TWO_64
    ensures AtMost(IdPart(x), IdPart(y)) <==> x <= y
    ensures IdPart(x) == IdPart(y) <==> x == y
  {
    var h, g := Shift(x, 6), Shift(y, 6);
    HighBits(x);
    HighBits(y);
    var v, w := 0x7000 + h / 16, 0x7000 + g / 16;
    TwoBytesHold(v);
    TwoBytesHold(w);
    BigEndianOrder(v, w, 2);
    var a, b := [0x80 as Byte, (h % 16) as Byte], [0x80 as Byte, (g % 16) as Byte];
    assert IdPart(x) == BigEndian(v, 2) + (a + BigEndian(x, 6));
    assert IdPart(y) == BigEndian(w, 2) + (b + BigEndian(y, 6));
    AtMostJoined(BigEndian(v, 2), BigEndian(w, 2), a + BigEndian(x, 6), b + BigEndian(y, 6));
    AtMostJoined(a, b, BigEndian(x, 6), BigEndian(y, 6));
    NibbleOrder(h, g);
    if x <= y {
      ShiftGrows(x, y, 6);
    } else {
      ShiftGrows(y, x, 6);
    }
    if h == g {
      BigEndianOrder(x, y, 6);
    }
  }

  lemma NibbleOrder(h: nat, g: nat)
    ensures var a, b := [0x80 as Byte, (h % 16) as Byte], [0x80 as Byte, (g % 16) as Byte];
            (AtMost(a, b) <==> h % 16 <= g % 16) && (a == b <==> h % 16 == g % 16)
  {
    var a, b := [(h % 16) as Byte], [(g % 16) as Byte];
    assert [0x80 as Byte, (h % 16) as Byte] == [0x80] + a && [0x80 as Byte, (g % 16) as Byte] == [0x80] + b;
    AtMostJoined([0x80], [0x80], a, b);
    assert a[1..] == [] && a[0] == (h % 16) as Byte && b[0] == (g % 16) as Byte;
  }

  lemma {:induction false} ShiftGrows(x: nat, y: nat, n: nat)
    requires x <= y
    ensures Shift(x, n) <= Shift(y, n)
  {
    if n > 0 {
      ShiftGrows(x / 256, y / 256, n - 1);
    }
  }

  /** Byte order of any two keys: the low 48 bits of the times decide, then the ids as unsigned. */
  lemma KeyOrderAsStored(ms: int, id: int, ms': int, id': int)
    ensures AtMost(Key(ms, id), Key(ms', id')) <==>
            ms % TWO_48 < ms' % TWO_48 || (ms % TWO_48 == ms' % TWO_48 && Unsigned(id) <= Unsigned(id'))
    ensures Key(ms, id) == Key(ms', id') <==> ms % TWO_48 == ms' % TWO_48 && Unsigned(id) == Unsigned(id')
  {
    KeyParts(ms, id);
    KeyParts(ms', id');
    var t, t' := BigEndian(ms % TWO_48, 6), BigEndian(ms' % TWO_48, 6);
    Below48(ms % TWO_48);
    Below48(ms' % TWO_48);
    BigEndianOrder(ms % TWO_48, ms' % TWO_48, 6);
    IdPartOrder(Unsigned(id), Unsigned(id'));
    AtMostJoined(t, t', IdPart(Unsigned(id)), IdPart(Unsigned(id')));
    assert (t + IdPart(Unsigned(id)))[..6] == t && (t' + IdPart(Unsigned(id')))[..6] == t';
    assert (t + IdPart(Unsigned(id)))[6..] == IdPart(Unsigned(id));
    assert (t' + IdPart(Unsigned(id')))[6..] == IdPart(Unsigned(id'));
  }

  /** For times of 48 bits and ids that are not negative, byte order of the keys is the order of (time, id): so
      the keys of later times sort later, and two requests share a key only if they share both. */
  lemma KeyOrder(ms: int, id: int, ms': int, id': int)
    requires 0 <= ms < TWO_48 && 0 <= id < TWO_63 && 0 <= ms' < TWO_48 && 0 <= id' < TWO_63
    ensures AtMost(Key(ms, id), Key(ms', id')) <==> ms < ms' || (ms == ms' && id <= id')
    ensures Key(ms, id) == Key(ms', id') <==> ms == ms' && id == id'
  {
    InRange(ms, id);
    InRange(ms', id');
    KeyOrderAsStored(ms, id, ms', id');
  }

  lemma InRange(ms: int, id: int)
    requires 0 <= ms < TWO_48 && 0 <= id < TWO_63
    ensures ms % TWO_48 == ms && Unsigned(id) == id
  {
  }
}
