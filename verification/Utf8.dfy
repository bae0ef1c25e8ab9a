/** UTF-8, strictly: every scalar value has one encoding and nothing else
    decodes. */
module Utf8 {
  import opened Basics

  function Encode(c: char): (bytes: seq<Byte>)
    ensures 1 <= |bytes| <= 4
  {
    var n := c as int;
    if n < 0x80 then [n]
    else if n < 0x800 then [0xC0 + n / 64, 0x80 + n % 64]
    else if n < 0x10000 then [0xE0 + n / 4096, 0x80 + n / 64 % 64, 0x80 + n % 64]
    else [0xF0 + n / 262144, 0x80 + n / 4096 % 64, 0x80 + n / 64 % 64, 0x80 + n % 64]
  }

  function EncodeAll(s: string): seq<Byte> {
    if s == "" then [] else Encode(s[0]) + EncodeAll(s[1..])
  }

  /** How many bytes a sequence with this first byte has. */
  function Width(b: Byte): nat {
    if b < 0x80 then 1
    else if b < 0xC0 then 0
    else if b < 0xE0 then 2
    else if b < 0xF0 then 3
    else if b < 0xF8 then 4
    else 0
  }

  /** The payload bits of a sequence of the right width. */
  function Payload(bytes: seq<Byte>): int
    requires 1 <= |bytes| <= 4
  {
    match |bytes|
    case 1 => bytes[0]
    case 2 => (bytes[0] as int - 0xC0) * 64 + (bytes[1] as int - 0x80)
    case 3 => (bytes[0] as int - 0xE0) * 4096 + (bytes[1] as int - 0x80) * 64 + (bytes[2] as int - 0x80)
    case _ =>
      (bytes[0] as int - 0xF0) * 262144 + (bytes[1] as int - 0x80) * 4096
      + (bytes[2] as int - 0x80) * 64 + (bytes[3] as int - 0x80)
  }

  predicate IsScalar(n: int) { 0 <= n < 0xD800 || 0xE000 <= n < 0x11_0000 }

  /** The first character of a byte sequence, if it starts with a well-formed,
      shortest encoding. */
  function DecodeFirst(bytes: seq<Byte>): (c: Option<char>)
    requires bytes != []
    ensures c.Some? ==> |Encode(c.value)| <= |bytes| && bytes[..|Encode(c.value)|] == Encode(c.value)
  {
    var w := Width(bytes[0]);
    if w == 0 || |bytes| < w || !IsScalar(Payload(bytes[..w])) then None
    else
      var c := Payload(bytes[..w]) as char;
      if Encode(c) == bytes[..w] then Some(c) else None
  }

  function Decode(bytes: seq<Byte>): Option<string>
    decreases |bytes|
  {
    if bytes == [] then Some("") else
    var c := DecodeFirst(bytes);
    if c.None? then None else
    var rest := Decode(bytes[|Encode(c.value)|..]);
    if rest.None? then None else Some([c.value] + rest.value)
  }

  lemma PayloadOfEncode(c: char)
    ensures Width(Encode(c)[0]) == |Encode(c)| && Payload(Encode(c)) == c as int && IsScalar(c as int)
  {
    var n := c as int;
    assert n == 64 * (n / 64) + n % 64;
    assert n / 64 == 64 * (n / 4096) + n / 64 % 64;
    assert n / 4096 == 64 * (n / 262144) + n / 4096 % 64;
  }

  /** Decoding undoes encoding. */
  lemma {:induction false} DecodeEncode(s: string)
    ensures Decode(EncodeAll(s)) == Some(s)
  {
    if s != "" {
      var e, bytes := Encode(s[0]), EncodeAll(s);
      PayloadOfEncode(s[0]);
      assert bytes[0] == e[0] && bytes[..|e|] == e;
      assert DecodeFirst(bytes) == Some(s[0]);
      DecodeEncode(s[1..]);
      assert bytes[|e|..] == EncodeAll(s[1..]);
      assert s == [s[0]] + s[1..];
    }
  }

  /** Only encodings decode. */
  lemma {:induction false} EncodeDecode(bytes: seq<Byte>)
    ensures Decode(bytes).Some? ==> EncodeAll(Decode(bytes).value) == bytes
    decreases |bytes|
  {
    if bytes != [] && DecodeFirst(bytes).Some? {
      var e := Encode(DecodeFirst(bytes).value);
      EncodeDecode(bytes[|e|..]);
      assert bytes == e + bytes[|e|..];
    }
  }

  lemma {:induction false} EncodedSize(s: string)
    ensures |s| <= |EncodeAll(s)| <= 4 * |s|
  {
    if s != "" { EncodedSize(s[1..]); }
  }
}
