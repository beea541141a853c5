/** The decoders and the printer as the code runs them: on a 16-byte array, in place. */
module UuidCodec {
  import opened Prelude
  import opened UuidText

  /** Number of digit pairs before the first one that is not hex. */
  function GoodPairs(d: Text): (n: nat)
    ensures 2 * n <= |d| && forall k | 0 <= k < 2 * n :: IsHex(d[k])
  {
    if |d| < 2 || !IsHex(d[0]) || !IsHex(d[1]) then 0 else 1 + GoodPairs(d[2..])
  }

  /** From index `at` on, `now` holds the bytes of the first n pairs of d; all else is as it was. */
  ghost predicate PairsWritten(now: seq<byte>, was: seq<byte>, at: nat, d: Text, n: nat)
    requires 2 * n <= |d| && forall k | 0 <= k < 2 * n :: IsHex(d[k])
  {
    && |now| == |was|
    && forall k | 0 <= k < |now| ::
         now[k] == if at <= k < at + n then Byte(d[2 * (k - at)], d[2 * (k - at) + 1]) else was[k]
  }

  ghost predicate Written(now: seq<byte>, was: seq<byte>, at: nat, d: Text) {
    PairsWritten(now, was, at, d, GoodPairs(d))
  }

  lemma {:induction false} GoodPairsAfter(d: Text, n: nat)
    requires 2 * n <= |d| && forall k | 0 <= k < 2 * n :: IsHex(d[k])
    ensures GoodPairs(d) == n + GoodPairs(d[2 * n..])
  {
    if n > 0 {
      GoodPairsAfter(d[2..], n - 1);
      assert d[2..][2 * (n - 1)..] == d[2 * n..];
    }
  }

  /** A text of an even number of hex digits is good throughout, and no other. */
  lemma GoodIffAllHex(d: Text)
    requires |d| % 2 == 0
    ensures GoodPairs(d) == |d| / 2 <==> AllHex(d)
  {
    if AllHex(d) {
      GoodPairsAfter(d, |d| / 2);
    }
  }

  /** `hex.Decode(u[at:], src)`: stops at the first pair that is not hex. */
  method HexDecodeInto(u: array<byte>, at: nat, src: Text) returns (ok: bool)
    requires |src| % 2 == 0 && at + |src| / 2 <= u.Length
    modifies u
    ensures ok == AllHex(src)
    ensures Written(u[..], old(u[..]), at, src)
  {
    for i := 0 to |src| / 2
      invariant forall k | 0 <= k < 2 * i :: IsHex(src[k])
      invariant forall k | 0 <= k < i :: u[at + k] == Byte(src[2 * k], src[2 * k + 1])
      invariant forall k | 0 <= k < u.Length && !(at <= k < at + i) :: u[k] == old(u[k])
    {
      if !IsHex(src[2 * i]) || !IsHex(src[2 * i + 1]) {
        GoodPairsAfter(src, i);
        WrittenPairs(u[..], old(u[..]), at, src, i);
        return false;
      }
      u[at + i] := Byte(src[2 * i], src[2 * i + 1]);
    }
    GoodIffAllHex(src);
    WrittenPairs(u[..], old(u[..]), at, src, |src| / 2);
    ok := true;
  }

  lemma WrittenPairs(now: seq<byte>, was: seq<byte>, at: nat, d: Text, n: nat)
    requires |now| == |was| && n == GoodPairs(d) && at + n <= |now|
    requires forall k | 0 <= k < n :: now[at + k] == Byte(d[2 * k], d[2 * k + 1])
    requires forall k | 0 <= k < |now| && !(at <= k < at + n) :: now[k] == was[k]
    ensures Written(now, was, at, d)
  {
    forall k | at <= k < at + n ensures now[k] == Byte(d[2 * (k - at)], d[2 * (k - at) + 1]) {
      assert now[at + (k - at)] == now[k];
    }
  }

  /** Writing 32 good digits over 16 bytes is decoding them. */
  lemma WrittenWhole(now: seq<byte>, was: seq<byte>, d: Text)
    requires |d| == 32 && |was| == 16 && AllHex(d) && Written(now, was, 0, d)
    ensures now == Decode(d)
  {
    GoodIffAllHex(d);
    forall k | 0 <= k < 16 ensures now[k] == Decode(d)[k] {}
  }

  const GROUPS: seq<nat> := [8, 4, 4, 4, 12]

  /** Where each group starts in the 32 digits; the last entry is the end. */
  const STARTS: seq<nat> := [0, 8, 12, 16, 20, 32]

  /** Group i of a canonical text is the i-th stretch of its digits, i dashes further on. */
  lemma GroupDigits(t: Text, i: nat)
    requires |t| == 36 && i < 5
    ensures STARTS[i] + GROUPS[i] == STARTS[i + 1] && STARTS[i + 1] + i <= 36
    ensures GROUPS[i] % 2 == 0
    ensures t[STARTS[i] + i..][..GROUPS[i]] == Undash(t)[STARTS[i]..STARTS[i + 1]]
  {
    var d, g := Undash(t), t[STARTS[i] + i..][..GROUPS[i]];
    forall k | 0 <= k < GROUPS[i] ensures g[k] == d[STARTS[i] + k] {}
  }

  /** The good pairs of a text that goes on with r, or its stretch g, after good ones. */
  lemma {:induction false} GoodOn(p: Text, r: Text, g: Text)
    requires AllHex(p) && |p| % 2 == 0 && g <= r && |g| % 2 == 0 && (g == r || !AllHex(g))
    ensures GoodPairs(p) == |p| / 2 && GoodPairs(p + r) == |p| / 2 + GoodPairs(g)
    decreases |p|
  {
    if p == [] {
      assert p + r == r;
      GoodOfPrefix(r, g);
    } else {
      assert (p + r)[2..] == p[2..] + r;
      GoodOn(p[2..], r, g);
    }
  }

  /** Writing a text in two stretches, the first of them good. */
  lemma WrittenOn(now: seq<byte>, mid: seq<byte>, was: seq<byte>, e: Text, n: nat, g: Text)
    requires 2 * n + |g| <= |e| && |g| % 2 == 0 && g == e[2 * n..2 * n + |g|] && AllHex(e[..2 * n])
    requires 2 * n + |g| == |e| || !AllHex(g)
    requires Written(mid, was, 0, e[..2 * n]) && Written(now, mid, n, g)
    ensures Written(now, was, 0, e)
  {
    GoodOn(e[..2 * n], e[2 * n..], g);
    assert e == e[..2 * n] + e[2 * n..];
    PairsJoined(now, mid, was, e, n, g, GoodPairs(g));
  }

  lemma PairsJoined(now: seq<byte>, mid: seq<byte>, was: seq<byte>, e: Text, n: nat, g: Text, m: nat)
    requires 2 * n + |g| <= |e| && g == e[2 * n..2 * n + |g|] && 2 * m <= |g|
    requires (forall k | 0 <= k < 2 * n :: IsHex(e[..2 * n][k])) && (forall k | 0 <= k < 2 * m :: IsHex(g[k]))
    requires forall k | 0 <= k < 2 * (n + m) :: IsHex(e[k])
    requires PairsWritten(mid, was, 0, e[..2 * n], n) && PairsWritten(now, mid, n, g, m)
    ensures PairsWritten(now, was, 0, e, n + m)
  {
    forall k | 0 <= k < |now|
      ensures now[k] == if k < n + m then Byte(e[2 * k], e[2 * k + 1]) else was[k]
    {
      if n <= k < n + m {
        assert g[2 * (k - n)] == e[2 * k] && g[2 * (k - n) + 1] == e[2 * k + 1];
      }
    }
  }

  lemma {:induction false} GoodOfPrefix(d: Text, g: Text)
    requires g <= d && |g| % 2 == 0 && (g == d || !AllHex(g))
    ensures GoodPairs(d) == GoodPairs(g)
    decreases |g|
  {
    if |g| >= 2 && IsHex(g[0]) && IsHex(g[1]) {
      assert g == g[..2] + g[2..];
      GoodOfPrefix(d[2..], g[2..]);
    }
  }

  /** What a decoder gets to write: the bytes of the good pairs, all 16 exactly when it succeeds. */
  ghost predicate Decoded(now: seq<byte>, was: seq<byte>, d: Text, r: Option<seq<byte>>, ok: bool) {
    Written(now, was, 0, d) && ok == r.Some? && (ok ==> now == r.value)
  }

  method DecodeCanonicalInto(u: array<byte>, t: Text) returns (ok: bool)
    requires u.Length == 16 && |t| == 36
    modifies u
    ensures Decoded(u[..], old(u[..]), if Dashed(t) then Undash(t) else [], DecodeCanonical(t), ok)
  {
    if !Dashed(t) {
      return false;
    }
    ghost var d := Undash(t);
    var src, dst := t, 0;
    for i := 0 to 5
      invariant 2 * dst == STARTS[i]
      invariant src == if i == 0 then t else t[STARTS[i] + i - 1..]
      invariant AllHex(d[..2 * dst]) && Written(u[..], old(u[..]), 0, d[..2 * dst])
    {
      if i > 0 {
        src := src[1..];
      }
      GroupDigits(t, i);
      ghost var mid := u[..];
      ok := HexDecodeInto(u, dst, src[..GROUPS[i]]);
      GroupWritten(u[..], mid, old(u[..]), d, dst, src[..GROUPS[i]]);
      if !ok {
        return;
      }
      src := src[GROUPS[i]..];
      dst := dst + GROUPS[i] / 2;
    }
    assert d[..32] == d;
    WrittenWhole(u[..], old(u[..]), d);
    ok := true;
  }

  /** One group written after good ones: the whole text counts as written if the group is bad. */
  lemma GroupWritten(now: seq<byte>, mid: seq<byte>, was: seq<byte>, d: Text, n: nat, g: Text)
    requires 2 * n + |g| <= |d| && |g| % 2 == 0 && g == d[2 * n..2 * n + |g|] && AllHex(d[..2 * n])
    requires Written(mid, was, 0, d[..2 * n]) && Written(now, mid, n, g)
    ensures AllHex(g) ==> AllHex(d[..2 * n + |g|]) && Written(now, was, 0, d[..2 * n + |g|])
    ensures !AllHex(g) ==> !AllHex(d) && Written(now, was, 0, d)
  {
    if AllHex(g) {
      var e := d[..2 * n + |g|];
      assert e[..2 * n] == d[..2 * n] && e == d[..2 * n] + g;
      WrittenOn(now, mid, was, e, n, g);
    } else {
      BadGroup(d, 2 * n, |g|);
      WrittenOn(now, mid, was, d, n, g);
    }
  }

  lemma BadGroup(d: Text, at: nat, n: nat)
    requires at + n <= |d| && !AllHex(d[at..at + n])
    ensures !AllHex(d)
  {
    var k :| 0 <= k < n && !IsHex(d[at..at + n][k]);
    assert d[at + k] in d;
  }

  /** The digits that the plain decoder gets to look at. */
  function PlainDigits(t: Text): Text {
    if |t| == 32 then t else if |t| == 36 && Dashed(t) then Undash(t) else []
  }

  method DecodePlainInto(u: array<byte>, t: Text) returns (ok: bool)
    requires u.Length == 16
    modifies u
    ensures Decoded(u[..], old(u[..]), PlainDigits(t), DecodePlain(t), ok)
  {
    if |t| == 32 {
      ok := HexDecodeInto(u, 0, t);
      if ok {
        WrittenWhole(u[..], old(u[..]), t);
      }
    } else if |t| == 36 {
      ok := DecodeCanonicalInto(u, t);
    } else {
      ok := false;
    }
  }

  /** The digits that are looked at in a text of any shape; none if length, braces, prefix or
      dashes are wrong. */
  function DigitsOf(t: Text): Text {
    if |t| == 32 || |t| == 36 then PlainDigits(t)
    else if |t| == 38 && t[0] == OPEN_BRACE && t[37] == CLOSE_BRACE then PlainDigits(t[1..37])
    else if (|t| == 41 || |t| == 45) && t[..9] == URN_PREFIX then PlainDigits(t[9..])
    else []
  }

  method UnmarshalText(u: array<byte>, t: Text) returns (ok: bool)
    requires u.Length == 16
    modifies u
    ensures Decoded(u[..], old(u[..]), DigitsOf(t), Parse(t), ok)
  {
    if |t| == 32 || |t| == 36 {
      ok := DecodePlainInto(u, t);
    } else if |t| == 38 {
      ok := t[0] == OPEN_BRACE && t[37] == CLOSE_BRACE;
      if ok {
        ok := DecodePlainInto(u, t[1..37]);
      }
    } else if |t| == 41 || |t| == 45 {
      ok := t[..9] == URN_PREFIX;
      if ok {
        ok := DecodePlainInto(u, t[9..]);
      }
    } else {
      ok := false;
    }
  }

  /** `hex.Encode(buf[at:], src)` */
  method HexEncodeInto(buf: array<byte>, at: nat, src: seq<byte>)
    requires at + 2 * |src| <= buf.Length
    modifies buf
    ensures buf[..at + 2 * |src|] == old(buf[..at]) + Encode(src)
    ensures buf[at + 2 * |src|..] == old(buf[at + 2 * |src|..])
  {
    for i := 0 to |src|
      invariant forall k | 0 <= k < buf.Length ::
          buf[k] == if at <= k < at + 2 * i then Encode(src)[k - at] else old(buf[k])
    {
      buf[at + 2 * i] := HexDigit(src[i] / 16);
      buf[at + 2 * i + 1] := HexDigit(src[i] % 16);
    }
  }

  /** One group and the dash after it. */
  method EncodeGroup(buf: array<byte>, at: nat, src: seq<byte>)
    requires at + 2 * |src| < buf.Length
    modifies buf
    ensures buf[..at + 2 * |src| + 1] == old(buf[..at]) + Encode(src) + [DASH]
  {
    HexEncodeInto(buf, at, src);
    ghost var done := buf[..at + 2 * |src|];
    buf[at + 2 * |src|] := DASH;
    assert buf[..at + 2 * |src|] == done;
  }

  method ToString(u: seq<byte>) returns (s: Text)
    requires |u| == 16
    ensures s == String(u)
  {
    var buf := new byte[36];
    EncodeGroup(buf, 0, u[0..4]);
    EncodeGroup(buf, 9, u[4..6]);
    EncodeGroup(buf, 14, u[6..8]);
    EncodeGroup(buf, 19, u[8..10]);
    HexEncodeInto(buf, 24, u[10..16]);
    s := buf[..];
    assert s == buf[..36];
    Assembled(s, u);
  }

  lemma EncodeSlice(u: seq<byte>, a: nat, b: nat)
    requires a <= b <= |u|
    ensures Encode(u[a..b]) == Encode(u)[2 * a..2 * b]
  {
    forall i | 0 <= i < 2 * (b - a) ensures Encode(u[a..b])[i] == Encode(u)[2 * a + i] {
      assert (2 * a + i) / 2 == a + i / 2 && (2 * a + i) % 2 == i % 2;
    }
  }

  lemma Assembled(s: Text, u: seq<byte>)
    requires |u| == 16
    requires s == Encode(u[0..4]) + [DASH] + Encode(u[4..6]) + [DASH] + Encode(u[6..8]) + [DASH]
                  + Encode(u[8..10]) + [DASH] + Encode(u[10..16])
    ensures s == String(u)
  {
    EncodeSlice(u, 0, 4);
    EncodeSlice(u, 4, 6);
    EncodeSlice(u, 6, 8);
    EncodeSlice(u, 8, 10);
    EncodeSlice(u, 10, 16);
    var d := Encode(u);
    assert d[..8] == d[0..8] && d[20..] == d[20..32];
  }
}
