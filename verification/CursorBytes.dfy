/** The byte-level encodings under the cursor tokens: big-endian integers, and unpadded base64url of section 5 of
    RFC 4648. */
module CursorBytes {
  import opened Entities

  type Byte = x: int | 0 <= x < 256

  const TWO_63: nat := 0x8000_0000_0000_0000
  const TWO_64: nat := 0x1_0000_0000_0000_0000

  // ---------- big-endian integers ----------

  function Power(width: nat): (r: nat)
    ensures r > 0
  {
    if width == 0 then 1 else 256 * Power(width - 1)
  }

  function BigEndian(n: nat, width: nat): (r: seq<Byte>)
    ensures |r| == width
  {
    if width == 0 then [] else BigEndian(n / 256, width - 1) + [n % 256]
  }

  function FromBigEndian(bytes: seq<Byte>): nat {
    if bytes == [] then 0 else 256 * FromBigEndian(bytes[..|bytes| - 1]) + bytes[|bytes| - 1]
  }

  lemma {:induction false} BigEndianRoundTrip(n: nat, width: nat)
    requires n < Power(width)
    ensures FromBigEndian(BigEndian(n, width)) == n
  {
    if width > 0 {
      BigEndianRoundTrip(n / 256, width - 1);
      assert BigEndian(n, width)[..width - 1] == BigEndian(n / 256, width - 1);
    }
  }

  lemma {:induction false} FromBigEndianRoundTrip(bytes: seq<Byte>)
    ensures FromBigEndian(bytes) < Power(|bytes|)
    ensures BigEndian(FromBigEndian(bytes), |bytes|) == bytes
  {
    if bytes != [] {
      FromBigEndianRoundTrip(bytes[..|bytes| - 1]);
    }
  }

  lemma PowerOfEight()
    ensures Power(8) == TWO_64
  {
    assert Power(1) == 256 && Power(2) == 0x1_0000 && Power(3) == 0x100_0000 && Power(4) == 0x1_0000_0000;
    assert Power(5) == 0x100_0000_0000 && Power(6) == 0x1_0000_0000_0000 && Power(7) == 0x100_0000_0000_0000;
  }

  /** Conversion of a 64-bit signed integer to unsigned. */
  function Unsigned(n: int): (r: nat)
    requires n + TWO_63 >= 0 && n < TWO_63
    ensures r < TWO_64 && (n >= 0 <==> r < TWO_63) && (n >= 0 ==> r == n)
  {
    if n >= 0 then n else n + TWO_64
  }

  method PutUint64(buffer: array<Byte>, offset: nat, value: nat)
    requires offset + 8 <= buffer.Length && value < TWO_64
    modifies buffer
    ensures buffer[offset..offset + 8] == BigEndian(value, 8)
    ensures buffer[..offset] == old(buffer[..offset]) && buffer[offset + 8..] == old(buffer[offset + 8..])
  {
    var rest, i := value, 8;
    while i > 0
      invariant 0 <= i <= 8
      invariant BigEndian(value, 8) == BigEndian(rest, i) + buffer[offset + i..offset + 8]
      invariant buffer[..offset] == old(buffer[..offset]) && buffer[offset + 8..] == old(buffer[offset + 8..])
    {
      i := i - 1;
      ghost var tail := buffer[offset + i + 1..offset + 8];
      buffer[offset + i] := rest % 256;
      assert buffer[offset + i..offset + 8] == [rest % 256] + tail;
      rest := rest / 256;
    }
  }

  // ---------- base64url ----------

  function CharOf(v: nat): (c: char)
    requires v < 64
  {
    if v < 26 then ('A' as int + v) as char
    else if v < 52 then ('a' as int + v - 26) as char
    else if v < 62 then ('0' as int + v - 52) as char
    else if v == 62 then '-' else '_'
  }

  function ValueOf(c: char): (r: Option<nat>)
    ensures r.Some? ==> r.value < 64
  {
    if 'A' <= c <= 'Z' then Some(c as int - 'A' as int)
    else if 'a' <= c <= 'z' then Some(c as int - 'a' as int + 26)
    else if '0' <= c <= '9' then Some(c as int - '0' as int + 52)
    else if c == '-' then Some(62) else if c == '_' then Some(63) else None
  }

  lemma CharRoundTrip(v: nat)
    requires v < 64
    ensures ValueOf(CharOf(v)) == Some(v) && CharOf(v) != '\n' && CharOf(v) != '\r'
  {
  }

  function Chars(values: seq<nat>): (r: string)
    requires forall i :: 0 <= i < |values| ==> values[i] < 64
    ensures |r| == |values| && forall i :: 0 <= i < |r| ==> r[i] == CharOf(values[i])
  {
    seq(|values|, i requires 0 <= i < |values| => CharOf(values[i]))
  }

  /** Three bytes become four sextets; a last one or two bytes become two or three. */
  function Sextets(bytes: seq<Byte>): (r: seq<nat>)
    ensures forall i :: 0 <= i < |r| ==> r[i] < 64
    ensures bytes == [] <==> r == []
    ensures |r| % 4 != 1
  {
    if |bytes| == 0 then []
    else if |bytes| == 1 then [bytes[0] / 4, bytes[0] % 4 * 16]
    else if |bytes| == 2 then [bytes[0] / 4, bytes[0] % 4 * 16 + bytes[1] / 16, bytes[1] % 16 * 4]
    else
      [bytes[0] / 4, bytes[0] % 4 * 16 + bytes[1] / 16, bytes[1] % 16 * 4 + bytes[2] / 64, bytes[2] % 64] + Sextets(bytes[3..])
  }

  /** The decoder ignores the spare bits of the last sextet; a single last sextet is an error. */
  function Bytes(values: seq<nat>): Option<seq<Byte>>
    requires forall i :: 0 <= i < |values| ==> values[i] < 64
  {
    if |values| == 0 then Some([])
    else if |values| == 1 then None
    else if |values| == 2 then Some([values[0] * 4 + values[1] / 16])
    else if |values| == 3 then Some([values[0] * 4 + values[1] / 16, values[1] % 16 * 16 + values[2] / 4])
    else
      match Bytes(values[4..])
      case None => None
      case Some(rest) => Some([values[0] * 4 + values[1] / 16, values[1] % 16 * 16 + values[2] / 4, values[2] % 4 * 64 + values[3]] + rest)
  }

  lemma TripleRoundTrip(a: Byte, b: Byte, c: Byte)
    ensures (a / 4) * 4 + (a % 4 * 16 + b / 16) / 16 == a
    ensures (a % 4 * 16 + b / 16) % 16 * 16 + (b % 16 * 4 + c / 64) / 4 == b
    ensures (b % 16 * 4 + c / 64) % 4 * 64 + c % 64 == c
  {
  }

  lemma {:induction false} SextetsRoundTrip(bytes: seq<Byte>)
    ensures Bytes(Sextets(bytes)) == Some(bytes)
  {
    if |bytes| == 1 {
      TripleRoundTrip(bytes[0], 0, 0);
      assert bytes == [bytes[0]];
    } else if |bytes| == 2 {
      TripleRoundTrip(bytes[0], bytes[1], 0);
      assert bytes == [bytes[0], bytes[1]];
    } else if |bytes| > 2 {
      SextetsRoundTrip(bytes[3..]);
      TripleRoundTrip(bytes[0], bytes[1], bytes[2]);
      FourSextets(bytes);
      assert bytes == [bytes[0], bytes[1], bytes[2]] + bytes[3..];
    }
  }

  lemma FourSextets(bytes: seq<Byte>)
    requires |bytes| > 2
    ensures Sextets(bytes)[4..] == Sextets(bytes[3..])
  {
  }

  /** Line breaks are skipped. */
  function WithoutBreaks(s: string): string {
    if s == [] then []
    else
      var init, last := WithoutBreaks(s[..|s| - 1]), s[|s| - 1];
      if last == '\n' || last == '\r' then init else init + [last]
  }

  function Values(s: string): (r: Option<seq<nat>>)
    ensures r.Some? ==> |r.value| == |s| && forall i :: 0 <= i < |s| ==> ValueOf(s[i]) == Some(r.value[i])
  {
    if s == [] then Some([])
    else
      match Values(s[..|s| - 1])
      case None => None
      case Some(init) =>
        match ValueOf(s[|s| - 1])
        case None => None
        case Some(v) => Some(init + [v])
  }

  function EncodeBase64(bytes: seq<Byte>): string {
    Chars(Sextets(bytes))
  }

  function DecodeBase64(s: string): Option<seq<Byte>> {
    match Values(WithoutBreaks(s))
    case None => None
    case Some(values) => Bytes(values)
  }

  lemma {:induction false} CharsRoundTrip(values: seq<nat>)
    requires forall i :: 0 <= i < |values| ==> values[i] < 64
    ensures WithoutBreaks(Chars(values)) == Chars(values)
    ensures Values(Chars(values)) == Some(values)
  {
    if values != [] {
      var n := |values| - 1;
      CharsRoundTrip(values[..n]);
      CharRoundTrip(values[n]);
      assert Chars(values)[..n] == Chars(values[..n]);
      assert values == values[..n] + [values[n]];
    }
  }

  /** Decoding inverts encoding, for every byte sequence. */
  lemma Base64RoundTrip(bytes: seq<Byte>)
    ensures DecodeBase64(EncodeBase64(bytes)) == Some(bytes)
  {
    CharsRoundTrip(Sextets(bytes));
    SextetsRoundTrip(bytes);
  }
}
