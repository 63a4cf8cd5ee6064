/** Unpadded base64url, and the numbers of a key in it (api/odm/oidc.py). */
module Base64Url {
  import opened Text

  type Byte = b: nat | b < 256
  type Sextet = v: nat | v < 64

  // The URL-safe alphabet of table 2 in section 5 of RFC 4648.
  function Letter(v: Sextet): char {
    if v < 26 then ('A' as int + v) as char
    else if v < 52 then ('a' as int + v - 26) as char
    else if v < 62 then ('0' as int + v - 52) as char
    else if v == 62 then '-'
    else '_'
  }

  function ValueOf(c: char): (r: Option<nat>)
    ensures r.Some? ==> r.value < 64
  {
    if 'A' <= c <= 'Z' then Some(c as int - 'A' as int)
    else if 'a' <= c <= 'z' then Some(c as int - 'a' as int + 26)
    else if '0' <= c <= '9' then Some(c as int - '0' as int + 52)
    else if c == '-' then Some(62)
    else if c == '_' then Some(63)
    else None
  }

  // The letters of three bytes.
  function Four(a: Byte, b: Byte, c: Byte): string {
    [Letter(a / 4), Letter(a % 4 * 16 + b / 16), Letter(b % 16 * 4 + c / 64), Letter(c % 64)]
  }

  // The bytes of four letters' values.
  function Three(v: nat, w: nat, x: nat, y: nat): seq<Byte>
    requires v < 64 && w < 64 && x < 64 && y < 64
  {
    [v * 4 + w / 16, w % 16 * 16 + x / 4, x % 4 * 64 + y]
  }

  // Three bytes become four letters; one or two at the end are padded.
  function Encode(raw: seq<Byte>): string {
    if |raw| == 0 then ""
    else if |raw| == 1 then Four(raw[0], 0, 0)[..2] + "=="
    else if |raw| == 2 then Four(raw[0], raw[1], 0)[..3] + "="
    else Four(raw[0], raw[1], raw[2]) + Encode(raw[3..])
  }

  // None when the text is not whole groups of letters, the last one padded.
  function Decode(text: string): Option<seq<Byte>> {
    if |text| == 0 then Some([])
    else if |text| < 4 then None
    else
      match (ValueOf(text[0]), ValueOf(text[1]), ValueOf(text[2]), ValueOf(text[3]))
      case (Some(v), Some(w), Some(x), Some(y)) =>
        var rest := Decode(text[4..]);
        if rest.Some? then Some(Three(v, w, x, y) + rest.value) else None
      case (Some(v), Some(w), Some(x), None) =>
        if text[3..] == "=" then Some(Three(v, w, x, 0)[..2]) else None
      case (Some(v), Some(w), None, None) =>
        if text[2..] == "==" then Some(Three(v, w, 0, 0)[..1]) else None
      case _ => None
  }

  function StripPadding(s: string): string {
    if |s| > 0 && s[|s| - 1] == '=' then StripPadding(s[..|s| - 1]) else s
  }

  function Padding(n: nat): string {
    if n == 0 then "" else Padding(n - 1) + "="
  }

  function B64(raw: seq<Byte>): string {
    StripPadding(Encode(raw))
  }

  function Unb64(text: string): Option<seq<Byte>> {
    Decode(text + Padding(-|text| % 4))
  }

  // The letters without the padding.
  function Bare(raw: seq<Byte>): string {
    if |raw| == 0 then ""
    else if |raw| == 1 then Four(raw[0], 0, 0)[..2]
    else if |raw| == 2 then Four(raw[0], raw[1], 0)[..3]
    else Four(raw[0], raw[1], raw[2]) + Bare(raw[3..])
  }

  lemma LetterValue(v: Sextet)
    ensures ValueOf(Letter(v)) == Some(v)
  {
  }

  lemma FourLetters(a: Byte, b: Byte, c: Byte)
    ensures forall i :: 0 <= i < 4 ==> ValueOf(Four(a, b, c)[i]).Some?
    ensures ValueOf(Four(a, b, c)[0]) == Some(a / 4)
    ensures ValueOf(Four(a, b, c)[1]) == Some(a % 4 * 16 + b / 16)
    ensures ValueOf(Four(a, b, c)[2]) == Some(b % 16 * 4 + c / 64)
    ensures ValueOf(Four(a, b, c)[3]) == Some(c % 64)
  {
    LetterValue(a / 4);
    LetterValue(a % 4 * 16 + b / 16);
    LetterValue(b % 16 * 4 + c / 64);
    LetterValue(c % 64);
  }

  lemma ThreeOfFour(a: Byte, b: Byte, c: Byte)
    ensures Three(a / 4, a % 4 * 16 + b / 16, b % 16 * 4 + c / 64, c % 64) == [a, b, c]
  {
  }

  lemma {:induction false} BareLength(raw: seq<Byte>)
    ensures |Bare(raw)| == (4 * |raw| + 2) / 3
  {
    if |raw| > 2 {
      BareLength(raw[3..]);
    }
  }

  lemma PadMore(head: string, bare: string, whole: string)
    requires |head| == 4
    requires whole == bare + Padding(-|bare| % 4)
    ensures head + whole == head + bare + Padding(-|head + bare| % 4)
  {
    assert -(|bare| + 4) % 4 == -|bare| % 4;
  }

  lemma ShortPadded(raw: seq<Byte>)
    requires 1 <= |raw| <= 2
    ensures Encode(raw) == Bare(raw) + Padding(-|Bare(raw)| % 4)
  {
    assert Padding(1) == "=";
    if |raw| == 1 {
      assert |Bare(raw)| == 2;
      assert Padding(2) == Padding(1) + "=" == "==";
    } else {
      assert |Bare(raw)| == 3;
    }
  }

  lemma {:induction false} BarePadded(raw: seq<Byte>)
    ensures Encode(raw) == Bare(raw) + Padding(-|Bare(raw)| % 4)
  {
    if |raw| == 0 {
      assert Padding(0) == "";
    } else if |raw| <= 2 {
      ShortPadded(raw);
    } else {
      BarePadded(raw[3..]);
      var head := LongEncoded(raw);
      PadMore(head, Bare(raw[3..]), Encode(raw[3..]));
    }
  }

  lemma LongEncoded(raw: seq<Byte>) returns (head: string)
    requires |raw| > 2
    ensures |head| == 4 && Encode(raw) == head + Encode(raw[3..]) && Bare(raw) == head + Bare(raw[3..])
  {
    head := Four(raw[0], raw[1], raw[2]);
  }

  lemma {:induction false} StripAll(s: string, n: nat)
    requires |s| > 0 ==> s[|s| - 1] != '='
    ensures StripPadding(s + Padding(n)) == s
  {
    if n > 0 {
      StripAll(s, n - 1);
      assert s + Padding(n) == s + Padding(n - 1) + "=";
      assert (s + Padding(n))[..|s + Padding(n)| - 1] == s + Padding(n - 1);
    } else {
      assert s + Padding(0) == s;
    }
  }

  lemma B64IsBare(raw: seq<Byte>)
    ensures B64(raw) == Bare(raw)
  {
    BarePadded(raw);
    if |Bare(raw)| > 0 {
      BareExactly(raw, |Bare(raw)| - 1);
    }
    StripAll(Bare(raw), -|Bare(raw)| % 4);
  }

  /** Stripping takes exactly the padding off, the length alone tells how much
      to put back, and what is left is URL-safe letters only. */
  lemma PaddingIsRestored(raw: seq<Byte>)
    ensures B64(raw) + Padding(-|B64(raw)| % 4) == Encode(raw)
    ensures |B64(raw)| == (4 * |raw| + 2) / 3
    ensures forall i :: 0 <= i < |B64(raw)| ==> ValueOf(B64(raw)[i]).Some?
  {
    B64IsBare(raw);
    BarePadded(raw);
    BareLength(raw);
    forall i | 0 <= i < |Bare(raw)| ensures ValueOf(Bare(raw)[i]).Some? {
      BareExactly(raw, i);
    }
  }

  lemma DecodeFour(a: Byte, b: Byte, c: Byte, rest: string)
    ensures Decode(Four(a, b, c) + rest)
      == if Decode(rest).Some? then Some([a, b, c] + Decode(rest).value) else None
  {
    FourLetters(a, b, c);
    ThreeOfFour(a, b, c);
    var text := Four(a, b, c) + rest;
    assert text[4..] == rest;
  }

  lemma DecodeOne(a: Byte)
    ensures Decode(Four(a, 0, 0)[..2] + "==") == Some([a])
  {
    FourLetters(a, 0, 0);
    ThreeOfFour(a, 0, 0);
    var text := Four(a, 0, 0)[..2] + "==";
    assert text[2..] == "==";
    assert Three(a / 4, a % 4 * 16, 0, 0)[..1] == [a];
  }

  lemma DecodeTwo(a: Byte, b: Byte)
    ensures Decode(Four(a, b, 0)[..3] + "=") == Some([a, b])
  {
    FourLetters(a, b, 0);
    ThreeOfFour(a, b, 0);
    var text := Four(a, b, 0)[..3] + "=";
    assert text[3..] == "=";
    assert Three(a / 4, a % 4 * 16 + b / 16, b % 16 * 4, 0)[..2] == [a, b];
  }

  lemma FirstThree(raw: seq<Byte>)
    requires |raw| > 2
    ensures raw == [raw[0], raw[1], raw[2]] + raw[3..]
  {
  }

  lemma {:induction false} DecodeEncode(raw: seq<Byte>)
    ensures Decode(Encode(raw)) == Some(raw)
  {
    if |raw| == 0 {
    } else if |raw| == 1 {
      DecodeOne(raw[0]);
      assert raw == [raw[0]];
    } else if |raw| == 2 {
      DecodeTwo(raw[0], raw[1]);
      assert raw == [raw[0], raw[1]];
    } else {
      DecodeEncode(raw[3..]);
      DecodeFour(raw[0], raw[1], raw[2], Encode(raw[3..]));
      FirstThree(raw);
    }
  }

  /** Every byte string comes back from its unpadded text. */
  lemma RoundTrip(raw: seq<Byte>)
    ensures Unb64(B64(raw)) == Some(raw)
  {
    PaddingIsRestored(raw);
    DecodeEncode(raw);
  }

  // ------------------------------------------------------------ numbers ----

  function BitLength(value: nat): nat {
    if value == 0 then 0 else 1 + BitLength(value / 2)
  }

  // Big-endian, in exactly n bytes; None when the value does not fit.
  function ToBytes(value: nat, n: nat): Option<seq<Byte>> {
    if n == 0 then (if value == 0 then Some([]) else None)
    else
      match ToBytes(value / 256, n - 1)
      case Some(high) => Some(high + [value % 256])
      case None => None
  }

  function FromBytes(raw: seq<Byte>): nat {
    if |raw| == 0 then 0 else FromBytes(raw[..|raw| - 1]) * 256 + raw[|raw| - 1]
  }

  function ByteLength(value: nat): nat {
    (BitLength(value) + 7) / 8
  }

  function IntB64(value: nat): Option<string> {
    match ToBytes(value, ByteLength(value))
    case Some(raw) => Some(B64(raw))
    case None => None
  }

  lemma HalfBits(v: nat)
    ensures BitLength(v) == if v == 0 then 0 else 1 + BitLength(v / 2)
  {
  }

  lemma FourBits(v: nat)
    requires v >= 8
    ensures BitLength(v) == (if v >= 16 then BitLength(v / 16) else 0) + 4
  {
    HalfBits(v);
    HalfBits(v / 2);
    HalfBits(v / 4);
    HalfBits(v / 8);
    assert v / 2 / 2 == v / 4 && v / 4 / 2 == v / 8 && v / 8 / 2 == v / 16;
  }

  lemma EightBits(v: nat)
    ensures v >= 256 ==> BitLength(v) == BitLength(v / 256) + 8
    ensures 0 < v < 256 ==> 1 <= BitLength(v) <= 8
  {
    if v >= 256 {
      FourBits(v);
      FourBits(v / 16);
      assert v / 16 / 16 == v / 256;
    } else if v >= 8 {
      FourBits(v);
      SmallBits(v / 16);
    } else {
      SmallBits(v);
    }
  }

  lemma SmallBits(v: nat)
    requires v < 16
    ensures BitLength(v) <= 4 && (v > 0 ==> BitLength(v) >= 1)
  {
    HalfBits(v);
    HalfBits(v / 2);
    HalfBits(v / 4);
    HalfBits(v / 8);
    assert v / 2 / 2 == v / 4 && v / 4 / 2 == v / 8 && v / 8 / 2 == 0;
  }

  lemma {:induction false} BytesOfNumber(value: nat)
    ensures var raw := ToBytes(value, ByteLength(value));
      && raw.Some? && |raw.value| == ByteLength(value) && FromBytes(raw.value) == value
      && (value > 0 ==> |raw.value| > 0 && raw.value[0] != 0)
  {
    if value > 0 {
      EightBits(value);
      BytesOfNumber(value / 256);
      var high := ToBytes(value / 256, ByteLength(value / 256)).value;
      assert ByteLength(value) == ByteLength(value / 256) + 1;
      assert (high + [value % 256])[..|high|] == high;
    }
  }

  /** A number fits the byte length computed for it, has no leading zero byte
      (section 2 of RFC 7518), and is what its text decodes to. */
  lemma NumberRoundTrip(value: nat)
    ensures IntB64(value).Some? && Unb64(IntB64(value).value).Some?
    ensures var raw := Unb64(IntB64(value).value).value;
      && |raw| == ByteLength(value) && FromBytes(raw) == value
      && (value > 0 ==> |raw| > 0 && raw[0] != 0)
  {
    BytesOfNumber(value);
    RoundTrip(ToBytes(value, ByteLength(value)).value);
  }

  // ------------------------------------------------------ in plain terms ----

  // Table 2 in section 5 of RFC 4648.
  const UPPER := "ABCDEFGHIJKLMNOPQRSTUVWXYZ"
  const LOWER := "abcdefghijklmnopqrstuvwxyz"
  const DIGITS := "0123456789"

  lemma AlphabetExactly(v: Sextet)
    ensures v < 26 ==> Letter(v) == UPPER[v]
    ensures 26 <= v < 52 ==> Letter(v) == LOWER[v - 26]
    ensures 52 <= v < 62 ==> Letter(v) == DIGITS[v - 52]
    ensures Letter(62) == '-' && Letter(63) == '_'
  {
  }

  // A byte, or nothing but zeros past the end.
  function ByteAt(raw: seq<Byte>, i: nat): Byte {
    if i < |raw| then raw[i] else 0
  }

  // Six bits, the k-th lot of them, from the highest bit of the first byte on.
  function SixBits(raw: seq<Byte>, k: nat): nat {
    var i := k / 4 * 3;
    if k % 4 == 0 then ByteAt(raw, i) / 4
    else if k % 4 == 1 then ByteAt(raw, i) % 4 * 16 + ByteAt(raw, i + 1) / 16
    else if k % 4 == 2 then ByteAt(raw, i + 1) % 16 * 4 + ByteAt(raw, i + 2) / 64
    else ByteAt(raw, i + 2) % 64
  }

  lemma SixBitsLater(raw: seq<Byte>, k: nat)
    requires |raw| >= 3
    ensures SixBits(raw, k + 4) == SixBits(raw[3..], k)
  {
    assert (k + 4) / 4 == k / 4 + 1;
  }

  lemma ShortExactly(raw: seq<Byte>, k: nat)
    requires 1 <= |raw| <= 2 && k < |Bare(raw)|
    ensures ValueOf(Bare(raw)[k]) == Some(SixBits(raw, k))
  {
    if |raw| == 1 {
      FourLetters(raw[0], 0, 0);
    } else {
      FourLetters(raw[0], raw[1], 0);
    }
  }

  lemma HeadExactly(raw: seq<Byte>, k: nat)
    requires |raw| >= 3 && k < 4
    ensures ValueOf(Four(raw[0], raw[1], raw[2])[k]) == Some(SixBits(raw, k))
  {
    FourLetters(raw[0], raw[1], raw[2]);
  }

  lemma {:induction false} BareExactly(raw: seq<Byte>, k: nat)
    requires k < |Bare(raw)|
    ensures ValueOf(Bare(raw)[k]) == Some(SixBits(raw, k))
  {
    if |raw| <= 2 {
      ShortExactly(raw, k);
    } else if k < 4 {
      HeadExactly(raw, k);
    } else {
      BareExactly(raw[3..], k - 4);
      SixBitsLater(raw, k - 4);
    }
  }

  /** The letters stand for the bits of the bytes, six at a time from the
      highest of the first byte on, with zeros past the last. */
  lemma LettersExactly(raw: seq<Byte>, k: nat)
    requires k < |B64(raw)|
    ensures ValueOf(B64(raw)[k]) == Some(SixBits(raw, k))
  {
    B64IsBare(raw);
    BareExactly(raw, k);
  }
}
