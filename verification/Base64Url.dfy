/** The unpadded base64url text of keys, nonces and signatures, and its strict decoding. */
module Base64Url {
  import opened Collections

  type Byte = x: int | 0 <= x < 256
  type Sextet = x: int | 0 <= x < 64

  // ---- the alphabet ---------------------------------------------------------------------------------

  function CharOf(v: Sextet): char {
    if v < 26 then 'A' + v as char
    else if v < 52 then 'a' + (v - 26) as char
    else if v < 62 then '0' + (v - 52) as char
    else if v == 62 then '-'
    else '_'
  }

  /** The decoder also takes the two characters of the standard alphabet that '-' and '_' stand for. */
  function ValueOf(c: char): Option<Sextet> {
    if 'A' <= c <= 'Z' then Some(c as int - 'A' as int)
    else if 'a' <= c <= 'z' then Some(c as int - 'a' as int + 26)
    else if '0' <= c <= '9' then Some(c as int - '0' as int + 52)
    else if c == '-' || c == '+' then Some(62)
    else if c == '_' || c == '/' then Some(63)
    else None
  }

  lemma CharRoundTrip(v: Sextet)
    ensures ValueOf(CharOf(v)) == Some(v)
  {
  }

  function TextOf(values: seq<Sextet>): string {
    seq(|values|, i requires 0 <= i < |values| => CharOf(values[i]))
  }

  predicate AllKnown(text: string) {
    forall i :: 0 <= i < |text| ==> ValueOf(text[i]).Some?
  }

  function ValuesOf(text: string): seq<Sextet>
    requires AllKnown(text)
  {
    seq(|text|, i requires 0 <= i < |text| => ValueOf(text[i]).value)
  }

  lemma TextRoundTrip(values: seq<Sextet>)
    ensures AllKnown(TextOf(values)) && ValuesOf(TextOf(values)) == values
  {
    forall i | 0 <= i < |values| ensures ValueOf(TextOf(values)[i]) == Some(values[i]) {
      CharRoundTrip(values[i]);
    }
  }

  // ---- bytes and sextets -------------------------------------------------------------------------------

  /** Three bytes make four sextets; a rest of one or two bytes is filled with zero bits. */
  function Pack(bytes: seq<Byte>): (r: seq<Sextet>)
    ensures |r| == (|bytes| * 8 + 5) / 6
  {
    if |bytes| == 0 then []
    else if |bytes| == 1 then [bytes[0] / 4, bytes[0] % 4 * 16]
    else if |bytes| == 2 then [bytes[0] / 4, bytes[0] % 4 * 16 + bytes[1] / 16, bytes[1] % 16 * 4]
    else [bytes[0] / 4, bytes[0] % 4 * 16 + bytes[1] / 16, bytes[1] % 16 * 4 + bytes[2] / 64, bytes[2] % 64] + Pack(bytes[3..])
  }

  function First(a: Sextet, b: Sextet): Byte { a * 4 + b / 16 }

  function Second(b: Sextet, c: Sextet): Byte { b % 16 * 16 + c / 4 }

  function Third(c: Sextet, d: Sextet): Byte { c % 4 * 64 + d }

  /** The bytes of whole groups; bits left over at the end are dropped, and one sextet alone is refused. */
  function Unpack(values: seq<Sextet>): Option<seq<Byte>> {
    if |values| == 0 then Some([])
    else if |values| == 1 then None
    else if |values| == 2 then Some([First(values[0], values[1])])
    else if |values| == 3 then Some([First(values[0], values[1]), Second(values[1], values[2])])
    else
      var rest := Unpack(values[4..]);
      if rest.None? then None
      else Some([First(values[0], values[1]), Second(values[1], values[2]), Third(values[2], values[3])] + rest.value)
  }

  lemma {:induction false} UnpackPack(bytes: seq<Byte>)
    ensures Unpack(Pack(bytes)) == Some(bytes)
  {
    if |bytes| >= 3 {
      UnpackPack(bytes[3..]);
      GroupBack(bytes[0], bytes[1], bytes[2]);
      GroupPacked(bytes);
      assert bytes == [bytes[0], bytes[1], bytes[2]] + bytes[3..];
    } else if |bytes| == 2 {
      assert bytes == [bytes[0], bytes[1]];
    } else if |bytes| == 1 {
      assert bytes == [bytes[0]];
    }
  }

  lemma GroupBack(x: Byte, y: Byte, z: Byte)
    ensures First(x / 4, x % 4 * 16 + y / 16) == x
    ensures Second(x % 4 * 16 + y / 16, y % 16 * 4 + z / 64) == y
    ensures Third(y % 16 * 4 + z / 64, z % 64) == z
  {
  }

  lemma GroupPacked(bytes: seq<Byte>)
    requires |bytes| >= 3
    ensures Pack(bytes)[..4] == [bytes[0] / 4, bytes[0] % 4 * 16 + bytes[1] / 16, bytes[1] % 16 * 4 + bytes[2] / 64, bytes[2] % 64]
    ensures Pack(bytes)[4..] == Pack(bytes[3..])
  {
  }

  // ---- the two operations ---------------------------------------------------------------------------------

  function Encode(bytes: seq<Byte>): string {
    TextOf(Pack(bytes))
  }

  function Decode(text: string, size: nat): Option<seq<Byte>> {
    if |text| != (size * 8 + 5) / 6 || !AllKnown(text) then None
    else
      var decoded := Unpack(ValuesOf(text));
      if decoded.None? || |decoded.value| != size || Encode(decoded.value) != text then None else decoded
  }

  /** Decoding accepts exactly the encodings of that many bytes and gives those bytes back: no other
      spelling of the same bytes gets through. */
  lemma DecodeIffEncoded(text: string, size: nat, bytes: seq<Byte>)
    ensures Decode(text, size) == Some(bytes) <==> |bytes| == size && text == Encode(bytes)
  {
    TextRoundTrip(Pack(bytes));
    UnpackPack(bytes);
  }

  /** So an encoding determines its bytes. */
  lemma EncodeInjective(a: seq<Byte>, b: seq<Byte>)
    ensures Encode(a) == Encode(b) <==> a == b
  {
    if Encode(a) == Encode(b) {
      TextRoundTrip(Pack(a));
      TextRoundTrip(Pack(b));
      UnpackPack(a);
      UnpackPack(b);
    }
  }

  /** The final comparison is what makes it strict: two characters that differ only in stray bits unpack
      to the same byte, and only the one without stray bits is accepted. */
  lemma StrayBitsRefused(a: Sextet, b: Sextet)
    ensures Unpack([a, b]) == Unpack([a, b - b % 16])
    ensures Decode(TextOf([a, b]), 1).Some? <==> b % 16 == 0
  {
    var clean := b - b % 16;
    FirstPacked(a, b);
    assert clean / 16 == b / 16;
    DecodeIffEncoded(TextOf([a, b]), 1, [First(a, b)]);
    TextRoundTrip([a, b]);
    TextRoundTrip([a, clean]);
    if Decode(TextOf([a, b]), 1).Some? {
      OnlyByte(a, b);
      assert [a, b] == [a, clean];
    }
  }

  /** Packing the byte of two sextets clears the stray bits. */
  lemma FirstPacked(a: Sextet, b: Sextet)
    ensures Pack([First(a, b)]) == [a, b - b % 16]
  {
    assert b == 16 * (b / 16) + b % 16;
    assert First(a, b) / 4 == a && First(a, b) % 4 == b / 16;
  }

  lemma OnlyByte(a: Sextet, b: Sextet)
    requires Decode(TextOf([a, b]), 1).Some?
    ensures TextOf([a, b]) == Encode([First(a, b)])
  {
    TextRoundTrip([a, b]);
  }
}
