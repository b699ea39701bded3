/**
 DER encoding of a PKCS #1 key as a PrivateKeyInfo, with the 32-bit shifts of the length loop as
 JavaScript performs them, against an independent strict parser (sections 8.1.3 and 10.1 of ITU-T
 X.690, section 5 of RFC 5208).
 */
module Der {
  import opened Basics

  // ------------------------------------------------------------------ 32-bit arithmetic

  const TWO31: nat := 0x8000_0000
  const TWO32: nat := 0x1_0000_0000

  /** The signed 32-bit value a bitwise operator works on. */
  function ToInt32(x: nat): int {
    var m := x % TWO32;
    if m < TWO31 then m else m - TWO32
  }

  /** value >> 8, or 0 where that is negative: the loop stops on either. */
  function ShiftRight8(value: nat): (r: nat)
    ensures r < 0x80_0000 && (value > 0 ==> r < value)
  {
    Max(0, ToInt32(value) / 256)
  }

  /** value & 0xff */
  function LowByte(value: nat): Byte {
    (ToInt32(value) % 256) as Byte
  }

  // ------------------------------------------------------------------ encoding

  /** Low bytes put in front of each other until nothing positive is left. */
  function LengthOctets(value: nat): Bytes {
    if value == 0 then [] else LengthOctets(ShiftRight8(value)) + [LowByte(value)]
  }

  lemma {:induction false} OctetCount(value: nat, n: nat)
    requires value < Pow256(n)
    ensures |LengthOctets(value)| <= n
    decreases n
  {
    if value > 0 {
      ShiftedBelow(value, n);
      OctetCount(ShiftRight8(value), n - 1);
    }
  }

  function Pow256(n: nat): nat {
    if n == 0 then 1 else 256 * Pow256(n - 1)
  }

  lemma ShiftedBelow(value: nat, n: nat)
    requires 0 < value < Pow256(n)
    ensures n > 0 && ShiftRight8(value) < Pow256(n - 1)
  {
  }

  /** Never more than four octets, since one shift leaves less than 2^23. */
  lemma AtMostFour(value: nat)
    ensures |LengthOctets(value)| <= 4
  {
    if value > 0 {
      assert Pow256(0) == 1 && Pow256(1) == 256 && Pow256(2) == 0x1_0000 && Pow256(3) == 0x100_0000;
      OctetCount(ShiftRight8(value), 3);
    }
  }

  function DerLength(length: nat): Bytes {
    if length < 0x80 then [length as Byte]
    else
      AtMostFour(length);
      [(0x80 + |LengthOctets(length)|) as Byte] + LengthOctets(length)
  }

  function DerElement(tag: Byte, value: Bytes): Bytes {
    [tag] + DerLength(|value|) + value
  }

  const VERSION: Bytes := [0x02, 0x01, 0x00]
  const RSA_ENCRYPTION: Bytes := [0x06, 0x09, 0x2a, 0x86, 0x48, 0x86, 0xf7, 0x0d, 0x01, 0x01, 0x01, 0x05, 0x00]
  const ALGORITHM: Bytes := [0x30, 0x0d] + RSA_ENCRYPTION

  function Body(pkcs1: Bytes): Bytes {
    VERSION + ALGORITHM + DerElement(0x04, pkcs1)
  }

  function WrapPkcs1PrivateKey(pkcs1: Bytes): Bytes {
    DerElement(0x30, Body(pkcs1))
  }

  lemma OctetsStep(value: nat, bytes: Bytes)
    ensures LengthOctets(0) == []
    ensures value > 0 ==> LengthOctets(value) + bytes == LengthOctets(ShiftRight8(value)) + ([LowByte(value)] + bytes)
  {
  }

  /** The length loop. */
  method EncodeLength(length: nat) returns (octets: Bytes)
    ensures octets == DerLength(length)
  {
    hide LengthOctets, LowByte, ShiftRight8;
    if length < 0x80 {
      return [length as Byte];
    }
    var bytes: Bytes := [];
    var value := length;
    while value > 0
      invariant LengthOctets(value) + bytes == LengthOctets(length)
    {
      OctetsStep(value, bytes);
      bytes := [LowByte(value)] + bytes;
      value := ShiftRight8(value);
    }
    OctetsStep(0, bytes);
    AtMostFour(length);
    return [(0x80 + |bytes|) as Byte] + bytes;
  }

  function Flatten(parts: seq<Bytes>): Bytes {
    if parts == [] then [] else Flatten(parts[..|parts|-1]) + parts[|parts|-1]
  }

  /** Copies the parts behind each other into one buffer of their total size. */
  method ConcatBytes(parts: seq<Bytes>) returns (output: array<Byte>)
    ensures fresh(output) && output[..] == Flatten(parts)
  {
    var total := 0;
    for i := 0 to |parts|
      invariant total == |Flatten(parts[..i])|
    {
      assert parts[..i+1][..i] == parts[..i];
      total := total + |parts[i]|;
    }
    assert parts[..|parts|] == parts;
    output := new Byte[total];
    var offset := 0;
    for i := 0 to |parts|
      invariant offset == |Flatten(parts[..i])| <= total
      invariant output[..offset] == Flatten(parts[..i])
    {
      assert parts[..i+1][..i] == parts[..i];
      FlattenGrows(parts, i + 1);
      forall k | 0 <= k < |parts[i]| { output[offset + k] := parts[i][k]; }
      offset := offset + |parts[i]|;
      assert output[..offset] == Flatten(parts[..i]) + parts[i];
    }
  }

  lemma {:induction false} FlattenGrows(parts: seq<Bytes>, n: nat)
    requires n <= |parts|
    ensures |Flatten(parts[..n])| <= |Flatten(parts)|
    decreases |parts| - n
  {
    if n < |parts| {
      assert parts[..n+1][..n] == parts[..n];
      FlattenGrows(parts, n + 1);
    } else {
      assert parts[..n] == parts;
    }
  }

  /** The parts one after the other: an element is its three parts flattened. */
  lemma ElementIsFlattened(tag: Byte, value: Bytes)
    ensures Flatten([[tag], DerLength(|value|), value]) == DerElement(tag, value)
  {
    hide DerLength;
    var parts := [[tag], DerLength(|value|), value];
    assert parts[..2] == [[tag], DerLength(|value|)] && parts[..2][..1] == [[tag]] && [[tag]][..0] == [];
    assert Flatten([[tag]]) == [tag] && Flatten(parts[..2]) == [tag] + DerLength(|value|);
  }

  /** Flattening loses nothing and keeps the order, however the parts are grouped. */
  lemma {:induction false} FlattenConcat(a: seq<Bytes>, b: seq<Bytes>)
    ensures Flatten(a + b) == Flatten(a) + Flatten(b)
  {
    if b == [] {
      assert a + b == a;
    } else {
      FlattenConcat(a, b[..|b|-1]);
      assert (a + b)[..|a + b|-1] == a + b[..|b|-1];
    }
  }

  // ------------------------------------------------------------------ an independent parser

  function BigEndian(octets: Bytes): nat {
    if octets == [] then 0 else 256 * BigEndian(octets[..|octets|-1]) + octets[|octets|-1] as nat
  }

  /** Definite form only, and only in the fewest octets. */
  function ParseLength(bytes: Bytes): Option<(nat, Bytes)> {
    if bytes == [] then None
    else if bytes[0] < 0x80 then Some((bytes[0] as nat, bytes[1..]))
    else
      var n := bytes[0] as nat - 0x80;
      if n == 0 || |bytes| < 1 + n || bytes[1] == 0 || BigEndian(bytes[1..1+n]) < 0x80 then None
      else Some((BigEndian(bytes[1..1+n]), bytes[1+n..]))
  }

  function ParseElement(tag: Byte, bytes: Bytes): Option<(Bytes, Bytes)> {
    if bytes == [] || bytes[0] != tag then None else
    match ParseLength(bytes[1..])
    case None => None
    case Some((n, rest)) => if |rest| < n then None else Some((rest[..n], rest[n..]))
  }

  /** SEQUENCE { INTEGER 0, rsaEncryption, OCTET STRING key } with nothing behind it. */
  function ParsePrivateKeyInfo(bytes: Bytes): Option<Bytes> {
    var info := ParseElement(0x30, bytes);
    if info.None? || info.value.1 != [] then None else
    var version := ParseElement(0x02, info.value.0);
    if version.None? || version.value.0 != [0x00] then None else
    var algorithm := ParseElement(0x30, version.value.1);
    if algorithm.None? || algorithm.value.0 != RSA_ENCRYPTION then None else
    var key := ParseElement(0x04, algorithm.value.1);
    if key.None? || key.value.1 != [] then None else Some(key.value.0)
  }

  // ------------------------------------------------------------------ round trips

  /** Below 2^31 the octets are the value in base 256, without a leading zero. */
  lemma {:induction false} OctetsAreBase256(value: nat)
    requires value < TWO31
    ensures BigEndian(LengthOctets(value)) == value
    ensures value > 0 ==> |LengthOctets(value)| > 0 && LengthOctets(value)[0] != 0
  {
    if value > 0 {
      var rest, last := LengthOctets(ShiftRight8(value)), LowByte(value);
      OctetsAreBase256(ShiftRight8(value));
      assert (rest + [last])[..|rest|] == rest;
    }
  }

  /** From 2^31 on they are some smaller value's. */
  lemma OctetsOfLarge(value: nat)
    requires value >= TWO31
    ensures LengthOctets(value) != [] && BigEndian(LengthOctets(value)) < TWO31
  {
    var rest, last := LengthOctets(ShiftRight8(value)), LowByte(value);
    OctetsAreBase256(ShiftRight8(value));
    assert (rest + [last])[..|rest|] == rest;
  }

  lemma LengthLayout(length: nat, rest: Bytes)
    requires length >= 0x80
    ensures var bytes, n := DerLength(length) + rest, |LengthOctets(length)|;
      && n <= 4 && |bytes| >= 1 + n && bytes[0] as nat == 0x80 + n
      && bytes[1..1+n] == LengthOctets(length) && bytes[1+n..] == rest
  {
    AtMostFour(length);
  }

  /** A length is read back as written exactly below 2^31; the encoding is then the shortest. */
  lemma LengthRoundTrip(length: nat, rest: Bytes)
    ensures ParseLength(DerLength(length) + rest) == Some((length, rest)) <==> length < TWO31
    ensures length >= TWO31 ==>
      var parsed := ParseLength(DerLength(length) + rest);
      parsed.None? || (parsed.value.0 < TWO31 && parsed.value.1 == rest)
  {
    if length < 0x80 {
      assert (DerLength(length) + rest)[1..] == rest;
    } else {
      LengthLayout(length, rest);
      if length < TWO31 { OctetsAreBase256(length); } else { OctetsOfLarge(length); }
    }
  }

  lemma ElementRoundTrip(tag: Byte, value: Bytes, rest: Bytes)
    requires |value| < TWO31
    ensures ParseElement(tag, DerElement(tag, value) + rest) == Some((value, rest))
  {
    hide ParseLength, DerLength, DerElement;
    ElementLayout(tag, value, rest);
    LengthRoundTrip(|value|, value + rest);
    assert (value + rest)[..|value|] == value && (value + rest)[|value|..] == rest;
  }

  lemma ElementLayout(tag: Byte, value: Bytes, rest: Bytes)
    ensures var bytes := DerElement(tag, value) + rest;
      bytes != [] && bytes[0] == tag && bytes[1..] == DerLength(|value|) + (value + rest)
  {
    hide DerLength;
  }

  lemma BodyParses(pkcs1: Bytes)
    requires |pkcs1| < TWO31
    ensures var version := ParseElement(0x02, Body(pkcs1));
      && version == Some(([0x00], ALGORITHM + DerElement(0x04, pkcs1)))
      && ParseElement(0x30, version.value.1) == Some((RSA_ENCRYPTION, DerElement(0x04, pkcs1)))
      && ParseElement(0x04, DerElement(0x04, pkcs1)) == Some((pkcs1, []))
  {
    var key := DerElement(0x04, pkcs1);
    assert VERSION == DerElement(0x02, [0x00]) && ALGORITHM == DerElement(0x30, RSA_ENCRYPTION);
    assert Body(pkcs1) == DerElement(0x02, [0x00]) + (ALGORITHM + key);
    ElementRoundTrip(0x02, [0x00], ALGORITHM + key);
    ElementRoundTrip(0x30, RSA_ENCRYPTION, key);
    ElementRoundTrip(0x04, pkcs1, []);
    assert key + [] == key;
  }

  /** An element of 2^31 bytes or more does not parse as itself: something is left over. */
  lemma LongElementDoesNotParse(tag: Byte, value: Bytes)
    requires |value| >= TWO31
    ensures ParseElement(tag, DerElement(tag, value)).None? || ParseElement(tag, DerElement(tag, value)).value.1 != []
  {
    hide DerLength, ParseLength;
    LengthRoundTrip(|value|, value);
    assert DerElement(tag, value)[1..] == DerLength(|value|) + value;
  }

  /**
   The wrapped key parses as a PrivateKeyInfo whose octet string is exactly the input, if and only
   if the wrapped body is shorter than 2^31 bytes.
   */
  lemma WrapRoundTrip(pkcs1: Bytes)
    ensures ParsePrivateKeyInfo(WrapPkcs1PrivateKey(pkcs1)) == Some(pkcs1) <==> |Body(pkcs1)| < TWO31
  {
    hide ParseElement, DerElement;
    var body := Body(pkcs1);
    if |body| < TWO31 {
      ElementRoundTrip(0x30, body, []);
      assert WrapPkcs1PrivateKey(pkcs1) + [] == WrapPkcs1PrivateKey(pkcs1);
      KeyFitsBody(pkcs1);
      BodyParses(pkcs1);
    } else {
      LongElementDoesNotParse(0x30, body);
    }
  }

  lemma KeyFitsBody(pkcs1: Bytes)
    ensures |pkcs1| < |Body(pkcs1)|
  {
  }
}
