/** UUIDs as text (VESPA/ves-agent/go.uuid/codec.go and uuid.go; section 3 of RFC 4122).
    Texts are byte sequences, as in Go. */
module UuidText {
  import opened Prelude

  type byte = b: int | 0 <= b < 256

  type Text = seq<byte>

  const DASH: byte := '-' as int
  const OPEN_BRACE: byte := '{' as int
  const CLOSE_BRACE: byte := '}' as int

  const URN_PREFIX: Text := [117, 114, 110, 58, 117, 117, 105, 100, 58]

  lemma UrnPrefix()
    ensures |URN_PREFIX| == |"urn:uuid:"| && forall i | 0 <= i < |URN_PREFIX| :: URN_PREFIX[i] == "urn:uuid:"[i] as int
  {}

  /******* Hexadecimal *******/

  /** 0-9, a-f and A-F */
  predicate IsHex(c: byte) { 48 <= c <= 57 || 97 <= c <= 102 || 65 <= c <= 70 }

  function HexValue(c: byte): (v: int)
    requires IsHex(c)
    ensures 0 <= v < 16
  {
    if c <= 57 then c - 48 else if c <= 70 then c - 55 else c - 87
  }

  function HexDigit(v: int): (c: byte)
    requires 0 <= v < 16
    ensures IsHex(c) && HexValue(c) == v
  {
    if v < 10 then 48 + v else 87 + v
  }

  const LOWER_DIGITS := "0123456789abcdef"
  const UPPER_DIGITS := "0123456789ABCDEF"

  /** The sixteen digits by their places, for printing in lower case and for parsing in either. */
  lemma DigitsByPlace(v: int)
    requires 0 <= v < 16
    ensures HexDigit(v) == LOWER_DIGITS[v] as int
    ensures IsHex(LOWER_DIGITS[v] as int) && HexValue(LOWER_DIGITS[v] as int) == v
    ensures IsHex(UPPER_DIGITS[v] as int) && HexValue(UPPER_DIGITS[v] as int) == v
  {}

  /** No other character is a digit. */
  lemma OnlyDigits(c: byte)
    ensures IsHex(c) <==> exists v | 0 <= v < 16 :: c == LOWER_DIGITS[v] as int || c == UPPER_DIGITS[v] as int
  {
    if IsHex(c) {
      var v := HexValue(c);
      assert c == LOWER_DIGITS[v] as int || c == UPPER_DIGITS[v] as int;
    }
  }

  predicate AllHex(d: Text) { forall c <- d :: IsHex(c) }

  function Byte(hi: byte, lo: byte): byte
    requires IsHex(hi) && IsHex(lo)
  {
    HexValue(hi) * 16 + HexValue(lo)
  }

  /** The bytes that a text of hex digits writes out, two digits each. */
  function Decode(d: Text): (u: seq<byte>)
    requires AllHex(d) && |d| % 2 == 0
    ensures |u| == |d| / 2
  {
    seq(|d| / 2, i requires 0 <= i < |d| / 2 => Byte(d[2 * i], d[2 * i + 1]))
  }

  /** Lower-case digits, two per byte. */
  function Encode(u: seq<byte>): (d: Text)
    ensures |d| == 2 * |u| && AllHex(d)
  {
    seq(2 * |u|, i requires 0 <= i < 2 * |u| => HexDigit(if i % 2 == 0 then u[i / 2] / 16 else u[i / 2] % 16))
  }

  /** Every capital A to F in lower case. */
  function Lower(d: Text): Text {
    seq(|d|, i requires 0 <= i < |d| => if 'A' as int <= d[i] <= 'F' as int then d[i] + 32 else d[i])
  }

  lemma LowerDigit(c: byte)
    requires IsHex(c)
    ensures HexDigit(HexValue(c)) == if 'A' as int <= c <= 'F' as int then c + 32 else c
  {}

  lemma DecodeEncode(u: seq<byte>)
    ensures Decode(Encode(u)) == u
  {
    forall i | 0 <= i < |u| ensures Decode(Encode(u))[i] == u[i] {
      TwoDigits(u, i);
    }
  }

  lemma TwoDigits(u: seq<byte>, i: nat)
    requires i < |u|
    ensures Encode(u)[2 * i] == HexDigit(u[i] / 16) && Encode(u)[2 * i + 1] == HexDigit(u[i] % 16)
    ensures Byte(Encode(u)[2 * i], Encode(u)[2 * i + 1]) == u[i]
  {
    assert 2 * i / 2 == i && (2 * i + 1) / 2 == i;
  }

  lemma ByteParts(hi: byte, lo: byte)
    requires IsHex(hi) && IsHex(lo)
    ensures Byte(hi, lo) / 16 == HexValue(hi) && Byte(hi, lo) % 16 == HexValue(lo)
  {}

  lemma EncodeDecode(d: Text)
    requires AllHex(d) && |d| % 2 == 0
    ensures Encode(Decode(d)) == Lower(d)
  {
    var u := Decode(d);
    forall i | 0 <= i < |d| ensures Encode(u)[i] == Lower(d)[i] {
      var k := i / 2;
      ByteParts(d[2 * k], d[2 * k + 1]);
      LowerDigit(d[i]);
      assert u[k] == Byte(d[2 * k], d[2 * k + 1]);
      if i % 2 == 0 {
        assert i == 2 * k;
      } else {
        assert i == 2 * k + 1;
      }
    }
  }

  /******* Shapes *******/

  /** 8-4-4-4-12 */
  function Canonical(d: Text): (t: Text)
    requires |d| == 32
    ensures |t| == 36
  {
    d[..8] + [DASH] + d[8..12] + [DASH] + d[12..16] + [DASH] + d[16..20] + [DASH] + d[20..]
  }

  predicate Dashed(t: Text)
    requires |t| == 36
  {
    t[8] == DASH && t[13] == DASH && t[18] == DASH && t[23] == DASH
  }

  function Undash(t: Text): (d: Text)
    requires |t| == 36
    ensures |d| == 32
  {
    t[..8] + t[9..13] + t[14..18] + t[19..23] + t[24..]
  }

  lemma UndashCanonical(d: Text)
    requires |d| == 32
    ensures Dashed(Canonical(d)) && Undash(Canonical(d)) == d
  {
    var t := Canonical(d);
    assert t[..8] == d[..8] && t[9..13] == d[8..12] && t[14..18] == d[12..16];
    assert t[19..23] == d[16..20] && t[24..] == d[20..];
  }

  lemma CanonicalUndash(t: Text)
    requires |t| == 36 && Dashed(t)
    ensures Canonical(Undash(t)) == t
  {
    var d := Undash(t);
    assert d[..8] == t[..8] && d[8..12] == t[9..13] && d[12..16] == t[14..18];
    assert d[16..20] == t[19..23] && d[20..] == t[24..];
  }

  /** `UUID.String` */
  function String(u: seq<byte>): Text
    requires |u| == 16
  {
    Canonical(Encode(u))
  }

  /******* Parsing, as the code does it *******/

  function HexDecode(d: Text): Option<seq<byte>>
    requires |d| % 2 == 0
  {
    if AllHex(d) then Some(Decode(d)) else None
  }

  function DecodeCanonical(t: Text): Option<seq<byte>>
    requires |t| == 36
  {
    if Dashed(t) then HexDecode(Undash(t)) else None
  }

  function DecodePlain(t: Text): Option<seq<byte>> {
    if |t| == 32 then HexDecode(t) else if |t| == 36 then DecodeCanonical(t) else None
  }

  /** `UnmarshalText`: the length chooses the decoder. */
  function Parse(t: Text): Option<seq<byte>> {
    if |t| == 32 then HexDecode(t)
    else if |t| == 36 then DecodeCanonical(t)
    else if |t| == 38 then
      if t[0] == OPEN_BRACE && t[37] == CLOSE_BRACE then DecodePlain(t[1..37]) else None
    else if |t| == 41 || |t| == 45 then
      if t[..9] == URN_PREFIX then DecodePlain(t[9..]) else None
    else None
  }

  /** The five shapes in which 32 digits can be written. */
  predicate Writes(t: Text, d: Text)
    requires |d| == 32
  {
    || t == d
    || t == Canonical(d)
    || t == [OPEN_BRACE] + Canonical(d) + [CLOSE_BRACE]
    || t == URN_PREFIX + d
    || t == URN_PREFIX + Canonical(d)
  }

  /** A text in one of the shapes parses to the bytes of its digits, if they are hex digits. */
  lemma ShapesAreParsed(t: Text, d: Text)
    requires |d| == 32 && Writes(t, d)
    ensures Parse(t) == HexDecode(d)
  {
    UndashCanonical(d);
    var c := Canonical(d);
    if t == [OPEN_BRACE] + c + [CLOSE_BRACE] {
      assert t[1..37] == c;
    } else if t == URN_PREFIX + d {
      assert t[9..] == d && t[..9] == URN_PREFIX;
    } else if t == URN_PREFIX + c {
      assert t[9..] == c && t[..9] == URN_PREFIX;
    }
  }

  lemma PlainIsShaped(t: Text) returns (d: Text)
    requires DecodePlain(t).Some?
    ensures |d| == 32 && AllHex(d) && (t == d || t == Canonical(d))
  {
    if |t| == 32 {
      d := t;
    } else {
      d := Undash(t);
      CanonicalUndash(t);
    }
  }

  /** Nothing else is parsed. */
  lemma ParsedIsShaped(t: Text) returns (d: Text)
    requires Parse(t).Some?
    ensures |d| == 32 && AllHex(d) && Writes(t, d)
  {
    if |t| == 32 || |t| == 36 {
      d := PlainIsShaped(t);
    } else if |t| == 38 {
      d := PlainIsShaped(t[1..37]);
      assert t == [t[0]] + t[1..37] + [t[37]];
    } else {
      d := PlainIsShaped(t[9..]);
      assert t == t[..9] + t[9..];
    }
  }

  /** UnmarshalText accepts exactly the five shapes with hex digits of either case. */
  lemma AcceptedTexts(t: Text)
    ensures Parse(t).Some? <==> exists d: Text | |d| == 32 :: AllHex(d) && Writes(t, d)
  {
    if Parse(t).Some? {
      var d := ParsedIsShaped(t);
    }
    forall d: Text | |d| == 32 && AllHex(d) && Writes(t, d) ensures Parse(t).Some? {
      ShapesAreParsed(t, d);
    }
  }

  /** Parsing what String prints gives the UUID back. */
  lemma ParseString(u: seq<byte>)
    requires |u| == 16
    ensures Parse(String(u)) == Some(u)
  {
    ShapesAreParsed(String(u), Encode(u));
    DecodeEncode(u);
  }

  /** Printing what was parsed gives the lower-case canonical form of its digits. */
  lemma StringOfParsed(t: Text, d: Text)
    requires |d| == 32 && AllHex(d) && Writes(t, d)
    ensures Parse(t).Some? && String(Parse(t).value) == Canonical(Lower(d))
  {
    ShapesAreParsed(t, d);
    EncodeDecode(d);
  }

  /** Where the digits of byte k are printed: two each, and a dash after the fourth, sixth, eighth and
      tenth byte. */
  function Place(k: nat): nat {
    2 * k + if k < 4 then 0 else if k < 6 then 1 else if k < 8 then 2 else if k < 10 then 3 else 4
  }

  /** What String prints: for each byte its two digits in lower case, high one first, and four dashes. */
  lemma PrintedDigits(u: seq<byte>, k: nat)
    requires |u| == 16 && k < 16
    ensures |String(u)| == 36 && forall i <- [8, 13, 18, 23] :: String(u)[i] == '-' as int
    ensures String(u)[Place(k)] == LOWER_DIGITS[u[k] / 16] as int
    ensures String(u)[Place(k) + 1] == LOWER_DIGITS[u[k] % 16] as int
  {
    TwoDigits(u, k);
    DigitsByPlace(u[k] / 16);
    DigitsByPlace(u[k] % 16);
    DigitPlace(Encode(u), k);
  }

  lemma DigitPlace(d: Text, k: nat)
    requires |d| == 32 && k < 16
    ensures Canonical(d)[Place(k)] == d[2 * k] && Canonical(d)[Place(k) + 1] == d[2 * k + 1]
  {}

  /** The comment above UnmarshalText also allows hash-like digits in braces; the code does not. */
  lemma BracedHashLikeRejected(d: Text)
    requires |d| == 32
    ensures Parse([OPEN_BRACE] + d + [CLOSE_BRACE]) == None
  {}
}
