/**
 The three key encodings of trie/encoding.go: KEYBYTES (raw bytes), HEX (one nibble per
 element, optionally ended by the terminator 16) and COMPACT (the hex-prefix encoding of
 Appendix C of the Ethereum Yellow Paper).  The functions are the specifications of the
 buffer-filling loops below them.
 */
module Encoding {

  newtype byte = x: int | 0 <= x < 256

  type Bytes = seq<byte>

  /** A key in HEX encoding; TERMINATOR may occur as its last element only. */
  type Key = seq<int>

  const TERMINATOR: int := 16

  predicate Nibbles(k: Key) {
    forall i :: 0 <= i < |k| ==> 0 <= k[i] < 16
  }

  predicate HasTerm(k: Key) {
    |k| > 0 && k[|k| - 1] == TERMINATOR
  }

  /** Nibbles followed by the terminator: the path of a stored value. */
  predicate Terminated(k: Key) {
    HasTerm(k) && Nibbles(k[..|k| - 1])
  }

  /** Every key the hex encoding allows, with or without a terminator. */
  predicate HexKey(k: Key) {
    Nibbles(k) || Terminated(k)
  }

  function Hi(b: byte): int { b as int / 16 }

  function Lo(b: byte): int { b as int % 16 }

  /** `hi << 4 | lo` on bytes: the or is a sum because the low four bits of `hi << 4` are zero. */
  function Pack(hi: int, lo: int): byte
    requires 0 <= hi < 16 && 0 <= lo < 16
  {
    (hi * 16 + lo) as byte
  }

  function Unpack(bs: Bytes): Key {
    if bs == [] then [] else [Hi(bs[0]), Lo(bs[0])] + Unpack(bs[1..])
  }

  function PackAll(k: Key): Bytes
    requires Nibbles(k) && |k| % 2 == 0
  {
    if k == [] then [] else [Pack(k[0], k[1])] + PackAll(k[2..])
  }

  function KeybytesToHex(bs: Bytes): Key {
    Unpack(bs) + [TERMINATOR]
  }

  function StripTerm(k: Key): Key {
    if HasTerm(k) then k[..|k| - 1] else k
  }

  function HexToKeybytes(k: Key): Bytes
    requires HexKey(k) && |StripTerm(k)| % 2 == 0
  {
    PackAll(StripTerm(k))
  }

  /** The flag nibble: bit 1 says whether the key is terminated, bit 0 whether its length is odd. */
  function Flag(term: bool, odd: bool): int {
    (if term then 2 else 0) + (if odd then 1 else 0)
  }

  function HexToCompact(k: Key): Bytes
    requires HexKey(k)
  {
    var body := StripTerm(k);
    if |body| % 2 == 1 then
      [Pack(Flag(HasTerm(k), true), body[0])] + PackAll(body[1..])
    else
      [Pack(Flag(HasTerm(k), false), 0)] + PackAll(body)
  }

  function CompactToHex(c: Bytes): Key
    requires |c| > 0
  {
    var base := KeybytesToHex(c);
    var kept := if base[0] < 2 then base[..|base| - 1] else base;
    kept[2 - base[0] % 2..]
  }

  lemma {:induction false} UnpackShape(bs: Bytes)
    ensures |Unpack(bs)| == 2 * |bs| && Nibbles(Unpack(bs))
    ensures forall i :: 0 <= i < |bs| ==> Unpack(bs)[2 * i] == Hi(bs[i]) && Unpack(bs)[2 * i + 1] == Lo(bs[i])
  {
    if bs != [] {
      UnpackShape(bs[1..]);
      forall i | 0 <= i < |bs|
        ensures Unpack(bs)[2 * i] == Hi(bs[i]) && Unpack(bs)[2 * i + 1] == Lo(bs[i])
      {
        if i > 0 { assert bs[i] == bs[1..][i - 1]; }
      }
    }
  }

  lemma {:induction false} PackShape(k: Key)
    requires Nibbles(k) && |k| % 2 == 0
    ensures |PackAll(k)| == |k| / 2
    ensures forall i :: 0 <= i < |k| / 2 ==> PackAll(k)[i] == Pack(k[2 * i], k[2 * i + 1])
  {
    if k != [] {
      PackShape(k[2..]);
      forall i | 0 <= i < |k| / 2
        ensures PackAll(k)[i] == Pack(k[2 * i], k[2 * i + 1])
      {
        if i > 0 { assert PackAll(k)[i] == PackAll(k[2..])[i - 1]; }
      }
    }
  }

  lemma {:induction false} PackByte(b: byte)
    ensures 0 <= Hi(b) < 16 && 0 <= Lo(b) < 16 && Pack(Hi(b), Lo(b)) == b
  {
  }

  lemma {:induction false} UnpackEven(bs: Bytes)
    ensures Nibbles(Unpack(bs)) && |Unpack(bs)| % 2 == 0
  {
    UnpackShape(bs);
    assert |Unpack(bs)| == 2 * |bs|;
  }

  lemma {:induction false} PackUnpack(bs: Bytes)
    ensures Nibbles(Unpack(bs)) && |Unpack(bs)| % 2 == 0
    ensures PackAll(Unpack(bs)) == bs
  {
    UnpackEven(bs);
    if bs != [] {
      PackUnpack(bs[1..]);
      PackByte(bs[0]);
      assert Unpack(bs)[2..] == Unpack(bs[1..]);
      assert bs == [bs[0]] + bs[1..];
    }
  }

  lemma {:induction false} UnpackPack(k: Key)
    requires Nibbles(k) && |k| % 2 == 0
    ensures Unpack(PackAll(k)) == k
  {
    if k != [] {
      UnpackPack(k[2..]);
      assert PackAll(k)[1..] == PackAll(k[2..]);
    }
  }

  /** Raw keys survive the trip through HEX. */
  lemma {:induction false} KeybytesRoundTrip(bs: Bytes)
    ensures Terminated(KeybytesToHex(bs))
    ensures |StripTerm(KeybytesToHex(bs))| % 2 == 0
    ensures HexToKeybytes(KeybytesToHex(bs)) == bs
  {
    PackUnpack(bs);
    assert StripTerm(KeybytesToHex(bs)) == Unpack(bs);
  }

  /** The stored form, unpacked: flag, first odd nibble or 0, then the even rest. */
  lemma {:induction false} CompactBytes(flag: int, nib: int, even: Key)
    requires 0 <= flag < 16 && 0 <= nib < 16 && Nibbles(even) && |even| % 2 == 0
    ensures KeybytesToHex([Pack(flag, nib)] + PackAll(even)) == [flag, nib] + even + [TERMINATOR]
  {
    var c := [Pack(flag, nib)] + PackAll(even);
    assert c[1..] == PackAll(even);
    UnpackPack(even);
    assert Hi(c[0]) == flag && Lo(c[0]) == nib;
    assert Unpack(c) == [flag, nib] + even;
  }

  /** Dropping the flag, and the terminator when the flag says so, leaves the key. */
  lemma {:induction false} Chop(term: bool, odd: bool, nib: int, even: Key, c: Bytes)
    requires |c| > 0 && KeybytesToHex(c) == [Flag(term, odd), nib] + even + [TERMINATOR]
    ensures CompactToHex(c) == (if odd then [nib] else []) + even + (if term then [TERMINATOR] else [])
  {
  }

  /** Hex keys, with or without terminator, survive the trip through COMPACT. */
  lemma {:induction false} CompactRoundTrip(k: Key)
    requires HexKey(k)
    ensures |HexToCompact(k)| > 0
    ensures CompactToHex(HexToCompact(k)) == k
  {
    var body, term := StripTerm(k), HasTerm(k);
    assert k == body + (if term then [TERMINATOR] else []);
    if |body| % 2 == 1 {
      CompactBytes(Flag(term, true), body[0], body[1..]);
      Chop(term, true, body[0], body[1..], HexToCompact(k));
    } else {
      CompactBytes(Flag(term, false), 0, body);
      Chop(term, false, 0, body, HexToCompact(k));
    }
  }

  /** COMPACT is injective: two keys with the same stored form are the same key. */
  lemma {:induction false} CompactInjective(k: Key, k': Key)
    requires HexKey(k) && HexKey(k')
    requires HexToCompact(k) == HexToCompact(k')
    ensures k == k'
  {
    CompactRoundTrip(k);
    CompactRoundTrip(k');
  }

  /** The raw form in numbers: two nibbles a byte, the high one first, and the terminator. */
  lemma {:induction false} HexLayout(bs: Bytes)
    ensures var k := KeybytesToHex(bs);
            && |k| == 2 * |bs| + 1 && k[2 * |bs|] == 16
            && forall i :: 0 <= i < |bs| ==> k[2 * i] == bs[i] as int / 16 && k[2 * i + 1] == bs[i] as int % 16
  {
    UnpackShape(bs);
  }

  /** The packed form in numbers: 16 times the first nibble and the second. */
  ghost predicate Packed(bs: Bytes, k: Key) {
    |k| == 2 * |bs| && forall i :: 0 <= i < |bs| ==> bs[i] as int == 16 * k[2 * i] + k[2 * i + 1]
  }

  lemma {:induction false} PackLayout(k: Key)
    requires Nibbles(k) && |k| % 2 == 0
    ensures Packed(PackAll(k), k)
  {
    PackShape(k);
  }

  /**
   The stored form in numbers: the first byte is 0x20 for a terminated key, and 0x10 and the first nibble
   more for an odd one; the even rest of the nibbles is packed.
   */
  ghost predicate IsCompact(c: Bytes, k: Key)
    requires HexKey(k)
  {
    var body := StripTerm(k);
    && |c| == |body| / 2 + 1
    && c[0] as int == (if HasTerm(k) then 0x20 else 0x00) + (if |body| % 2 == 1 then 0x10 + body[0] else 0)
    && Packed(c[1..], body[|body| % 2..])
  }

  lemma {:induction false} CompactLayout(k: Key)
    requires HexKey(k)
    ensures IsCompact(HexToCompact(k), k)
  {
    var body, c := StripTerm(k), HexToCompact(k);
    var even := body[|body| % 2..];
    PackLayout(even);
    assert c[1..] == PackAll(even);
  }

  /** Reading any stored form: the flag nibble tells whether a nibble and a terminator belong to the key. */
  lemma {:induction false} HexOfCompact(c: Bytes)
    requires |c| > 0
    ensures CompactToHex(c) == (if c[0] as int / 16 % 2 == 1 then [c[0] as int % 16] else []) + Unpack(c[1..]) + (if c[0] as int >= 0x20 then [16] else [])
  {
    var first := [Hi(c[0]), Lo(c[0])];
    assert KeybytesToHex(c) == first + Unpack(c[1..]) + [TERMINATOR];
  }

  /** `prefixLen`: the length of the longest common prefix. */
  function PrefixLen(a: Key, b: Key): (n: nat)
    ensures n <= |a| && n <= |b| && a[..n] == b[..n]
    ensures forall i :: 0 <= i < n ==> a[i] == b[i]
    ensures n < |a| && n < |b| ==> a[n] != b[n]
  {
    if a == [] || b == [] || a[0] != b[0] then 0
    else
      var m := PrefixLen(a[1..], b[1..]);
      assert a[..m + 1] == [a[0]] + a[1..][..m];
      assert b[..m + 1] == [b[0]] + b[1..][..m];
      m + 1
  }

  lemma {:induction false} PrefixLenUnique(a: Key, b: Key, n: nat)
    requires n <= |a| && n <= |b| && forall i :: 0 <= i < n ==> a[i] == b[i]
    requires n < |a| && n < |b| ==> a[n] != b[n]
    ensures n == PrefixLen(a, b)
  {
    var m := PrefixLen(a, b);
    if m < n || n < m { assert false; }
  }

  // ---------------------------------------------------------------------------
  // The loops of the source
  // ---------------------------------------------------------------------------

  method KeybytesToHexLoop(str: Bytes) returns (nibbles: array<int>)
    ensures nibbles[..] == KeybytesToHex(str)
    ensures nibbles.Length == 2 * |str| + 1 && nibbles[2 * |str|] == 16
    ensures forall i :: 0 <= i < |str| ==> nibbles[2 * i] == str[i] as int / 16 && nibbles[2 * i + 1] == str[i] as int % 16
  {
    var l := |str| * 2 + 1;
    nibbles := new int[l];
    UnpackShape(str);
    for i := 0 to |str|
      invariant forall j :: 0 <= j < i ==> nibbles[2 * j] == Hi(str[j]) && nibbles[2 * j + 1] == Lo(str[j])
    {
      nibbles[i * 2] := Hi(str[i]);
      nibbles[i * 2 + 1] := Lo(str[i]);
    }
    nibbles[l - 1] := TERMINATOR;
    forall j | 0 <= j < l
      ensures nibbles[j] == KeybytesToHex(str)[j]
    {
      if j < l - 1 {
        var i := j / 2;
        assert j == 2 * i || j == 2 * i + 1;
        assert nibbles[2 * i] == Hi(str[i]) && nibbles[2 * i + 1] == Lo(str[i]);
      }
    }
  }

  /** Writes the packed nibbles into `bytes` from `start` on and nothing else. */
  method DecodeNibbles(nibbles: Key, bytes: array<byte>, start: nat)
    requires Nibbles(nibbles) && |nibbles| % 2 == 0
    requires start + |nibbles| / 2 == bytes.Length
    modifies bytes
    ensures bytes[..start] == old(bytes[..start])
    ensures bytes[start..] == PackAll(nibbles)
  {
    PackShape(nibbles);
    var bi, ni := 0, 0;
    while ni < |nibbles|
      invariant ni == 2 * bi && ni <= |nibbles|
      invariant bytes[..start] == old(bytes[..start])
      invariant forall j :: 0 <= j < bi ==> bytes[start + j] == Pack(nibbles[2 * j], nibbles[2 * j + 1])
    {
      bytes[start + bi] := Pack(nibbles[ni], nibbles[ni + 1]);
      bi, ni := bi + 1, ni + 2;
    }
  }

  method HexToCompactLoop(key: Key) returns (buf: array<byte>)
    requires HexKey(key)
    ensures buf[..] == HexToCompact(key) && IsCompact(buf[..], key)
  {
    CompactLayout(key);
    var terminator, hex := 0, key;
    if HasTerm(hex) {
      terminator := 1;
      hex := hex[..|hex| - 1];
    }
    buf := new byte[|hex| / 2 + 1];
    buf[0] := Pack(terminator * 2, 0);
    if |hex| % 2 == 1 {
      buf[0] := Pack(terminator * 2 + 1, hex[0]);
      hex := hex[1..];
    }
    DecodeNibbles(hex, buf, 1);
    assert buf[..] == buf[..1] + buf[1..];
  }

  method HexToKeybytesLoop(key: Key) returns (buf: array<byte>)
    requires HexKey(key) && |StripTerm(key)| % 2 == 0
    ensures buf[..] == HexToKeybytes(key) && Packed(buf[..], StripTerm(key))
  {
    PackLayout(StripTerm(key));
    var hex := StripTerm(key);
    buf := new byte[|hex| / 2];
    DecodeNibbles(hex, buf, 0);
  }

  method PrefixLenLoop(a: Key, b: Key) returns (i: nat)
    ensures i == PrefixLen(a, b)
  {
    i := 0;
    var length := if |b| < |a| then |b| else |a|;
    while i < length
      invariant 0 <= i <= length
      invariant forall j :: 0 <= j < i ==> a[j] == b[j]
    {
      if a[i] != b[i] { break; }
      i := i + 1;
    }
    PrefixLenUnique(a, b, i);
  }
}
