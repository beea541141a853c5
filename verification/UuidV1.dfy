/** Time-based UUIDs (VESPA/ves-agent/go.uuid/generator.go and uuid.go; sections 4.1 and 4.2.1 of
    RFC 4122): a generator whose clock may stall or step back, and the packing of its state. */
module UuidV1 {
  import opened Prelude
  import opened UuidText

  type uint16 = x: int | 0 <= x < 0x1_0000
  type uint64 = x: int | 0 <= x < 0x1_0000_0000_0000_0000

  /******* Version and variant bits *******/

  const V1: byte := 1

  const VARIANT_NCS: byte := 0
  const VARIANT_RFC4122: byte := 1
  const VARIANT_MICROSOFT: byte := 2
  const VARIANT_FUTURE: byte := 3

  /** The high nibble of byte 6. */
  function Version(u: seq<byte>): byte
    requires |u| == 16
  {
    u[6] / 16
  }

  function VersionByte(b: byte, v: byte): byte { b % 16 + v * 16 % 256 }

  function SetVersion(u: seq<byte>, v: byte): seq<byte>
    requires |u| == 16
  {
    u[6 := VersionByte(u[6], v)]
  }

  /** By the leading bits of byte 8. */
  function Variant(u: seq<byte>): byte
    requires |u| == 16
  {
    if u[8] / 128 == 0 then VARIANT_NCS
    else if u[8] / 64 == 2 then VARIANT_RFC4122
    else if u[8] / 32 == 6 then VARIANT_MICROSOFT
    else VARIANT_FUTURE
  }

  function VariantByte(b: byte, v: byte): byte {
    if v == VARIANT_NCS then b % 128
    else if v == VARIANT_RFC4122 then b % 64 + 0x80
    else if v == VARIANT_MICROSOFT then b % 32 + 0xc0
    else b % 32 + 0xe0
  }

  function SetVariant(u: seq<byte>, v: byte): seq<byte>
    requires |u| == 16
  {
    u[8 := VariantByte(u[8], v)]
  }

  lemma VersionBits(b: byte, v: byte)
    ensures VersionByte(b, v) / 16 == v % 16 && VersionByte(b, v) % 16 == b % 16
  {}

  /** 2 to the number of low bits of byte 8 that a variant leaves alone. */
  function FreeBits(v: byte): int {
    if v == VARIANT_NCS then 128 else if v == VARIANT_RFC4122 then 64 else 32
  }

  lemma VariantBits(b: byte, v: byte)
    ensures VariantByte(b, v) % FreeBits(v) == b % FreeBits(v)
    ensures v == VARIANT_NCS ==> VariantByte(b, v) / 128 == 0
    ensures v == VARIANT_RFC4122 ==> VariantByte(b, v) / 64 == 2
    ensures v == VARIANT_MICROSOFT ==> VariantByte(b, v) / 32 == 6
    ensures v >= VARIANT_FUTURE ==> VariantByte(b, v) / 32 == 7
  {}

  /** The stamps read back, a version in its low four bits and an unknown variant as the future
      one, and touch only their own bits. */
  lemma StampsReadBack(u: seq<byte>, version: byte, variant: byte)
    requires |u| == 16
    ensures var s := SetVariant(SetVersion(u, version), variant);
            && |s| == 16 && Version(s) == version % 16
            && Variant(s) == (if variant < VARIANT_FUTURE then variant else VARIANT_FUTURE)
            && s[6] % 16 == u[6] % 16 && s[8] % FreeBits(variant) == u[8] % FreeBits(variant)
            && forall i | 0 <= i < 16 && i != 6 && i != 8 :: s[i] == u[i]
  {
    VersionBits(u[6], version);
    VariantBits(u[8], variant);
  }

  /******* Packing *******/

  /** x in n bytes, most significant first: `binary.BigEndian.PutUint16` and `PutUint32`. */
  function BigEndian(x: nat, n: nat): (b: seq<byte>)
    ensures |b| == n
  {
    if n == 0 then [] else BigEndian(x / 256, n - 1) + [x % 256]
  }

  lemma TwoBytes(x: uint16)
    ensures BigEndian(x, 2) == [x / 256, x % 256]
  {
    assert BigEndian(x, 2) == BigEndian(x / 256, 1) + [x % 256];
    assert BigEndian(x / 256, 1) == BigEndian(x / 256 / 256, 0) + [x / 256 % 256];
  }

  function Pack(time: uint64, clockSeq: uint16, node: seq<byte>): (u: seq<byte>)
    requires |node| == 6
    ensures |u| == 16
  {
    SetVariant(SetVersion(Raw(BigEndian(time, 8), BigEndian(clockSeq, 2), node), V1), VARIANT_RFC4122)
  }

  /** The low four bytes of the time, the next two, the top two, the sequence and the node. */
  function Raw(t: seq<byte>, s: seq<byte>, node: seq<byte>): (u: seq<byte>)
    requires |t| == 8 && |s| == 2 && |node| == 6
    ensures |u| == 16
  {
    t[4..] + t[2..4] + t[..2] + s + node
  }

  /** The number that eight bytes write. */
  function Value8(b: seq<byte>): int
    requires |b| == 8
  {
    b[0] as int * 0x100_0000_0000_0000 + b[1] as int * 0x1_0000_0000_0000 + b[2] as int * 0x100_0000_0000
    + b[3] as int * 0x1_0000_0000 + b[4] as int * 0x100_0000 + b[5] as int * 0x1_0000 + b[6] as int * 0x100 + b[7]
  }

  lemma ValueOfBytes(x: uint64)
    ensures Value8(BigEndian(x, 8)) == x
  {
    var x1 := x / 256;
    var x2 := x1 / 256;
    var x3 := x2 / 256;
    var x4 := x3 / 256;
    var x5 := x4 / 256;
    var x6 := x5 / 256;
    var x7 := x6 / 256;
    assert BigEndian(x, 8) == BigEndian(x1, 7) + [x % 256];
    assert BigEndian(x1, 7) == BigEndian(x2, 6) + [x1 % 256];
    assert BigEndian(x2, 6) == BigEndian(x3, 5) + [x2 % 256];
    assert BigEndian(x3, 5) == BigEndian(x4, 4) + [x3 % 256];
    assert BigEndian(x4, 4) == BigEndian(x5, 3) + [x4 % 256];
    assert BigEndian(x5, 3) == BigEndian(x6, 2) + [x5 % 256];
    TwoBytes(x6);
    assert x6 / 256 == x7;
  }

  lemma LowShifts(x: uint64)
    ensures var y := x % 0x1_0000_0000;
            && y % 256 == x % 256 && y / 256 % 256 == x / 256 % 256
            && y / 256 / 256 % 256 == x / 256 / 256 % 256
            && y / 256 / 256 / 256 == x / 256 / 256 / 256 % 256
            && x / 256 / 256 / 256 / 256 == x / 0x1_0000_0000
  {
    var h, y := x / 0x1_0000_0000, x % 0x1_0000_0000;
    assert x == 0x1_0000_0000 * h + y;
    assert x / 256 == 0x100_0000 * h + y / 256;
    assert x / 256 / 256 == 0x1_0000 * h + y / 256 / 256;
    assert x / 256 / 256 / 256 == 0x100 * h + y / 256 / 256 / 256;
  }

  lemma FourBytes(x: nat)
    ensures BigEndian(x, 4) == [x / 256 / 256 / 256 % 256, x / 256 / 256 % 256, x / 256 % 256, x % 256]
  {
    assert BigEndian(x, 4) == BigEndian(x / 256, 3) + [x % 256];
    assert BigEndian(x / 256, 3) == BigEndian(x / 256 / 256, 2) + [x / 256 % 256];
    assert BigEndian(x / 256 / 256, 2) == BigEndian(x / 256 / 256 / 256, 1) + [x / 256 / 256 % 256];
    assert BigEndian(x / 256 / 256 / 256, 1) == BigEndian(x / 256 / 256 / 256 / 256, 0) + [x / 256 / 256 / 256 % 256];
  }

  lemma EightBytes(x: nat)
    ensures BigEndian(x, 8) == BigEndian(x / 256 / 256 / 256 / 256, 4) + BigEndian(x, 4)
  {
    var x1 := x / 256;
    var x2 := x1 / 256;
    var x3 := x2 / 256;
    FourBytes(x);
    assert BigEndian(x, 8) == BigEndian(x1, 7) + [x % 256];
    assert BigEndian(x1, 7) == BigEndian(x2, 6) + [x1 % 256];
    assert BigEndian(x2, 6) == BigEndian(x3, 5) + [x2 % 256];
    assert BigEndian(x3, 5) == BigEndian(x3 / 256, 4) + [x3 % 256];
  }

  /** The three numbers that the code writes are the stretches of the time's bytes. */
  lemma TimeFields(time: uint64)
    ensures BigEndian(time, 8)[4..] == BigEndian(time % 0x1_0000_0000, 4)
    ensures BigEndian(time, 8)[2..4] == BigEndian(time / 0x1_0000_0000 % 0x1_0000, 2)
    ensures BigEndian(time, 8)[..2] == BigEndian(time / 0x1_0000_0000_0000, 2)
  {
    EightBytes(time);
    LowShifts(time);
    FourBytes(time);
    FourBytes(time % 0x1_0000_0000);
    var h := time / 0x1_0000_0000;
    FourBytes(h);
    TwoBytes(h % 0x1_0000);
    TwoBytes(time / 0x1_0000_0000_0000);
    TopHalf(h);
    assert time / 0x1_0000_0000_0000 == h / 0x1_0000;
  }

  lemma TopHalf(h: nat)
    requires h < 0x1_0000_0000
    ensures h % 0x1_0000 / 256 == h / 256 % 256 && h % 0x1_0000 % 256 == h % 256
    ensures h / 0x1_0000 / 256 == h / 256 / 256 / 256 % 256 && h / 0x1_0000 % 256 == h / 256 / 256 % 256
  {
    var q, r := h / 0x1_0000, h % 0x1_0000;
    assert h == 0x1_0000 * q + r;
    assert h / 256 == 256 * q + r / 256;
    assert h / 256 / 256 == q;
  }

  /** What a version 1 UUID carries: the time without its top nibble, and 14 bits of sequence. */
  function TimeOf(u: seq<byte>): int
    requires |u| == 16
  {
    Value8([u[6] % 16, u[7], u[4], u[5], u[0], u[1], u[2], u[3]])
  }

  function SequenceOf(u: seq<byte>): int
    requires |u| == 16
  {
    (u[8] % 64) as int * 256 + u[9]
  }

  lemma SequenceBits(x: uint16)
    ensures (x / 256 % 64) as int * 256 + x % 256 == x % 0x4000
  {
    var q, r := x / 0x4000, x % 0x4000;
    assert x == 0x4000 * q + r;
    assert x / 256 == 64 * q + r / 256;
  }

  lemma TopNibble(b: seq<byte>)
    requires |b| == 8 && Value8(b) < 0x1000_0000_0000_0000
    ensures b[0] % 16 == b[0]
  {}

  /** A time of 60 bits and the low 14 bits of the sequence survive the stamping. */
  lemma PackedParts(time: uint64, clockSeq: uint16, node: seq<byte>)
    requires |node| == 6 && time < 0x1000_0000_0000_0000
    ensures var u := Pack(time, clockSeq, node);
            && TimeOf(u) == time && SequenceOf(u) == clockSeq % 0x4000 && u[10..] == node
  {
    var t := BigEndian(time, 8);
    ValueOfBytes(time);
    TopNibble(t);
    TwoBytes(clockSeq);
    SequenceBits(clockSeq);
    var raw := Raw(t, BigEndian(clockSeq, 2), node);
    StampsReadBack(raw, V1, VARIANT_RFC4122);
    var u := Pack(time, clockSeq, node);
    assert u[8] % 64 == raw[8] % 64;
    assert [u[6] % 16, u[7], u[4], u[5], u[0], u[1], u[2], u[3]] == t;
  }

  /** Version and variant cost the top bits of the sequence: what is packed is the rest. */
  lemma PackedAlike(time: uint64, a: uint16, b: uint16, node: seq<byte>)
    requires |node| == 6 && a % 0x4000 == b % 0x4000
    ensures Pack(time, a, node) == Pack(time, b, node)
  {
    TwoBytes(a);
    TwoBytes(b);
    SequenceBits(a);
    SequenceBits(b);
    var t := BigEndian(time, 8);
    var u, v := Raw(t, BigEndian(a, 2), node), Raw(t, BigEndian(b, 2), node);
    assert u[8] % 64 == v[8] % 64 && u[9] == v[9];
    assert forall i | 0 <= i < 16 && i != 8 && i != 9 :: u[i] == v[i];
    assert SetVariant(SetVersion(u, V1), VARIANT_RFC4122) == SetVariant(SetVersion(v, V1), VARIANT_RFC4122);
  }

  /******* The generator *******/

  /** Times that fit the 60-bit field. */
  type Ticks = t: int | 0 < t < 0x1000_0000_0000_0000 witness 1

  /** Hundreds of nanoseconds from 15 October 1582 to the Unix epoch. */
  const EPOCH_START := 122_192_928_000_000_000

  /** `getEpoch` of a clock in Unix nanoseconds; Go divides toward zero. Whatever the int64 of
      nanoseconds, the result fits the field. */
  function Epoch(nanos: int64): Ticks {
    EPOCH_START + if nanos >= 0 then nanos / 100 else -(-(nanos as int) / 100)
  }

  /** Days from 15 October 1582 to 1 January 1970. */
  const DAYS_1582_TO_1970 := 141_427

  /** The result counts tenths of microseconds from the one date, cut off toward the other. */
  lemma EpochCounts(nanos: int64)
    ensures var since := 100 * (Epoch(nanos) - DAYS_1582_TO_1970 * 86_400 * 10_000_000);
            if nanos >= 0 then since <= nanos < since + 100 else since - 100 < nanos <= since
  {}

  /** What one call reads: random bytes for the sequence, the clock, the hardware address if
      there is one, random bytes in its place. A read that comes up short has failed. */
  datatype Inputs = Inputs(seqBytes: seq<byte>, now: Ticks, hw: Option<seq<byte>>, nodeBytes: seq<byte>)

  /** The fields behind time and sequence, and those behind the node. `drawn` and `known` are the
      two sync.Once. */
  datatype Clock = Clock(drawn: bool, lastTime: uint64, sequence: uint16)

  datatype Node = Node(known: bool, addr: seq<byte>)

  datatype Generator = Generator(clock: Clock, node: Node)

  predicate Valid(n: Node) { |n.addr| == 6 }

  const NEW_CLOCK := Clock(false, 0, 0)
  const NEW_NODE := Node(false, [0, 0, 0, 0, 0, 0])

  /** Unless its first draw fails, the generator reads the clock. */
  predicate ReadsClock(c: Clock, x: Inputs) { c.drawn || |x.seqBytes| >= 2 }

  /** The clock has not advanced since the last call. */
  predicate Stalls(c: Clock, x: Inputs) { ReadsClock(c, x) && x.now <= c.lastTime }

  /** Go's `i++` on a uint16. */
  function Inc16(i: uint16): uint16 { if i == 0xffff then 0 else i + 1 }

  /** `getClockSequence`: a failed draw is not repeated. */
  function NextClock(c: Clock, x: Inputs): Clock {
    if !ReadsClock(c, x) then c.(drawn := true) else
    var first: uint16 := if c.drawn then c.sequence else x.seqBytes[0] as int * 256 + x.seqBytes[1];
    Clock(true, x.now, if Stalls(c, x) then Inc16(first) else first)
  }

  function Overlay(a: seq<byte>, b: seq<byte>): (r: seq<byte>)
    requires |a| == 6
    ensures |r| == 6
  {
    if |b| >= 6 then b[..6] else b + a[|b|..]
  }

  /** `getHardwareAddr`: the address, or random bytes with the multicast bit set; false if the
      random bytes could not be read. */
  function NextNode(n: Node, x: Inputs): (Node, bool)
    requires Valid(n)
  {
    if n.known then (n, true)
    else if x.hw.Some? then (Node(true, Overlay(n.addr, x.hw.value)), true)
    else
      var a := Overlay(n.addr, x.nodeBytes);
      if |x.nodeBytes| < 6 then (Node(true, a), false)
      else (Node(true, a[0 := a[0] / 2 * 2 + 1]), true)
  }

  /** What goes into a UUID. */
  datatype Stamp = Stamp(time: uint64, clockSeq: uint16, node: seq<byte>)

  function PackStamp(s: Stamp): seq<byte>
    requires |s.node| == 6
  {
    Pack(s.time, s.clockSeq, s.node)
  }

  /** `NewV1`: the node is looked up only after the clock. */
  function NewV1(g: Generator, x: Inputs): (Generator, Option<seq<byte>>)
    requires Valid(g.node)
  {
    var c := NextClock(g.clock, x);
    if !ReadsClock(g.clock, x) then (Generator(c, g.node), None) else
    var (n, ok) := NextNode(g.node, x);
    (Generator(c, n), if ok then Some(PackStamp(Stamp(c.lastTime, c.sequence, n.addr))) else None)
  }

  /******* Runs *******/

  function ClockAt(xs: seq<Inputs>, n: nat): Clock
    requires n <= |xs|
  {
    if n == 0 then NEW_CLOCK else NextClock(ClockAt(xs, n - 1), xs[n - 1])
  }

  function NodeAt(xs: seq<Inputs>, n: nat): (r: Node)
    requires n <= |xs|
    ensures Valid(r)
  {
    if n == 0 then NEW_NODE
    else if ReadsClock(ClockAt(xs, n - 1), xs[n - 1]) then NextNode(NodeAt(xs, n - 1), xs[n - 1]).0
    else NodeAt(xs, n - 1)
  }

  /** The generator before call n of a run. */
  function At(xs: seq<Inputs>, n: nat): (g: Generator)
    requires n <= |xs|
    ensures Valid(g.node)
  {
    Generator(ClockAt(xs, n), NodeAt(xs, n))
  }

  /** The run starts with a new generator and goes on from call to call. */
  lemma AtFollowsCalls(xs: seq<Inputs>, n: nat)
    requires n < |xs|
    ensures At(xs, 0) == Generator(NEW_CLOCK, NEW_NODE)
    ensures At(xs, n + 1) == NewV1(At(xs, n), xs[n]).0
  {}

  /** The UUID of call i, if the call succeeds. */
  function Made(xs: seq<Inputs>, i: nat): Option<seq<byte>>
    requires i < |xs|
  {
    NewV1(At(xs, i), xs[i]).1
  }

  /** Number of calls from i up to j that found the clock not advanced. */
  function StallCount(xs: seq<Inputs>, i: nat, j: nat): nat
    requires i <= j <= |xs|
    decreases j
  {
    if i == j then 0 else StallCount(xs, i, j - 1) + if Stalls(ClockAt(xs, j - 1), xs[j - 1]) then 1 else 0
  }

  lemma {:induction false} StallsAddUp(xs: seq<Inputs>, i: nat, j: nat, k: nat)
    requires i <= j <= k <= |xs|
    ensures StallCount(xs, i, k) == StallCount(xs, i, j) + StallCount(xs, j, k)
    decreases k
  {
    if j < k {
      StallsAddUp(xs, i, j, k - 1);
    }
  }

  /** Fewer than 2^14 stalls in any stretch of the run. */
  ghost predicate FewStalls(xs: seq<Inputs>) {
    forall i, j | 0 <= i <= j <= |xs| :: StallCount(xs, i, j) < 0x4000
  }

  /** That is, fewer than 2^14 in the whole run. */
  lemma FewStallsInAll(xs: seq<Inputs>)
    ensures FewStalls(xs) <==> StallCount(xs, 0, |xs|) < 0x4000
  {
    forall i, j | 0 <= i <= j <= |xs| ensures StallCount(xs, i, j) <= StallCount(xs, 0, |xs|) {
      StallsAddUp(xs, 0, j, |xs|);
      StallsAddUp(xs, 0, i, j);
    }
  }

  /** A sequence number incremented n times. */
  function Counted(a: uint16, n: nat): uint16 { if n == 0 then a else Inc16(Counted(a, n - 1)) }

  lemma ModStep(x: nat)
    ensures Inc16(x % 0x1_0000) == (x + 1) % 0x1_0000
  {}

  lemma {:induction false} CountedModulo(a: uint16, n: nat)
    ensures Counted(a, n) == (a + n) % 0x1_0000
  {
    if n > 0 {
      CountedModulo(a, n - 1);
      ModStep(a + (n - 1));
    }
  }

  /** Once drawn, the sequence counts the stalls, and without a stall the time goes up. */
  lemma {:induction false} ClockRuns(xs: seq<Inputs>, i: nat, j: nat)
    requires i <= j <= |xs| && ClockAt(xs, i).drawn
    ensures var c, d := ClockAt(xs, i), ClockAt(xs, j);
            && d.drawn && d.sequence == Counted(c.sequence, StallCount(xs, i, j))
            && (i < j && StallCount(xs, i, j) == 0 ==> c.lastTime < d.lastTime)
    decreases j
  {
    if i < j {
      ClockRuns(xs, i, j - 1);
    }
  }

  /** Once known, the node stays. */
  lemma {:induction false} NodeStays(xs: seq<Inputs>, i: nat, j: nat)
    requires i <= j <= |xs| && NodeAt(xs, i).known
    ensures NodeAt(xs, j) == NodeAt(xs, i)
    decreases j
  {
    if i < j {
      NodeStays(xs, i, j - 1);
    }
  }

  /** What a successful call packs. */
  lemma MadeFrom(xs: seq<Inputs>, i: nat)
    requires i < |xs| && Made(xs, i).Some?
    ensures var c, n := ClockAt(xs, i + 1), NodeAt(xs, i + 1);
            && c.drawn && n.known && c.lastTime == xs[i].now
            && Made(xs, i).value == PackStamp(Stamp(c.lastTime, c.sequence, n.addr))
  {
  }

  /** The sequence that a run starts with: the first two random bytes, or 0 if they cannot be read. */
  function Draw(x: Inputs): uint16 {
    if |x.seqBytes| < 2 then 0 else x.seqBytes[0] as int * 256 + x.seqBytes[1]
  }

  /** A call finds the clock stalled exactly when it reads no later time than the call before it,
      if that one read the clock. */
  lemma StallsByReadings(xs: seq<Inputs>, n: nat)
    requires n < |xs|
    ensures Stalls(ClockAt(xs, n), xs[n]) <==>
            n > 0 && (n > 1 || |xs[0].seqBytes| >= 2) && xs[n].now <= xs[n - 1].now
  {
    if n > 0 {
      DrawnAfterFirst(xs, n);
      if n > 1 {
        DrawnAfterFirst(xs, n - 1);
      }
    }
  }

  lemma {:induction false} DrawnAfterFirst(xs: seq<Inputs>, n: nat)
    requires 0 < n <= |xs|
    ensures ClockAt(xs, n).drawn
  {
    if n > 1 {
      DrawnAfterFirst(xs, n - 1);
    }
  }

  /** The first call finds no stall, and leaves the draw. */
  lemma FirstCall(xs: seq<Inputs>)
    requires xs != []
    ensures StallCount(xs, 0, 1) == 0 && ClockAt(xs, 1).drawn && ClockAt(xs, 1).sequence == Draw(xs[0])
  {
    assert ClockAt(xs, 0) == NEW_CLOCK && ClockAt(xs, 1) == NextClock(NEW_CLOCK, xs[0]);
    assert StallCount(xs, 0, 0) == 0;
  }

  lemma SequenceCounts(xs: seq<Inputs>, n: nat)
    requires 0 < n <= |xs|
    ensures ClockAt(xs, n).sequence == Counted(Draw(xs[0]), StallCount(xs, 0, n))
  {
    FirstCall(xs);
    ClockRuns(xs, 1, n);
    StallsAddUp(xs, 0, 1, n);
  }

  /** The low 14 bits of a number. */
  function Low14(n: nat): nat { if n < 0x4000 then n else Low14(n - 0x4000) }

  lemma {:induction false} Low14IsModulo(n: nat)
    ensures Low14(n) == n % 0x4000
  {
    if n >= 0x4000 {
      Low14IsModulo(n - 0x4000);
    }
  }

  lemma CountedIn14Bits(a: uint16, n: nat)
    ensures Counted(a, n) % 0x4000 == Low14(a + n)
  {
    CountedModulo(a, n);
    ModOfModulus(a + n);
    Low14IsModulo(a + n);
  }

  ghost predicate Tells(u: seq<byte>, time: int, sequence: int, node: seq<byte>) {
    |u| == 16 && TimeOf(u) == time && SequenceOf(u) == sequence && u[10..] == node
  }

  lemma StampTells(s: Stamp, a: uint16, n: nat)
    requires |s.node| == 6 && s.time < 0x1000_0000_0000_0000 && s.clockSeq == Counted(a, n)
    ensures Tells(PackStamp(s), s.time, Low14(a + n), s.node)
  {
    PackedParts(s.time, s.clockSeq, s.node);
    CountedIn14Bits(a, n);
  }

  /** What a UUID tells: the time that its call read, the first draw plus the stalls of the run so
      far in 14 bits, and the node. */
  lemma UuidTells(xs: seq<Inputs>, i: nat)
    requires i < |xs| && Made(xs, i).Some?
    ensures Tells(Made(xs, i).value, xs[i].now, Low14(Draw(xs[0]) + StallCount(xs, 0, i + 1)), NodeAt(xs, i + 1).addr)
  {
    MadeFrom(xs, i);
    SequenceCounts(xs, i + 1);
    var c, n := ClockAt(xs, i + 1), NodeAt(xs, i + 1);
    StampTells(Stamp(c.lastTime, c.sequence, n.addr), Draw(xs[0]), StallCount(xs, 0, i + 1));
  }

  lemma ModOfModulus(x: nat)
    ensures x % 0x1_0000 % 0x4000 == x % 0x4000
  {}

  /** n is a multiple of 2^14, the number of sequences that a UUID can carry. */
  predicate FullTurns(n: nat) { n == 0 || (n >= 0x4000 && FullTurns(n - 0x4000)) }

  lemma {:induction false} FullTurnsModulo(n: nat)
    ensures FullTurns(n) <==> n % 0x4000 == 0
  {
    if n >= 0x4000 {
      FullTurnsModulo(n - 0x4000);
    }
  }

  lemma ModOfMod(x: nat, k: nat)
    ensures (x + k) % 0x1_0000 % 0x4000 == x % 0x4000 <==> k % 0x4000 == 0
  {}

  lemma PackInjective(s: Stamp, r: Stamp)
    requires |s.node| == 6 && |r.node| == 6 && s.time < 0x1000_0000_0000_0000 && r.time < 0x1000_0000_0000_0000
    requires PackStamp(s) == PackStamp(r)
    ensures s.time == r.time && s.clockSeq % 0x4000 == r.clockSeq % 0x4000
  {
    PackedParts(s.time, s.clockSeq, s.node);
    PackedParts(r.time, r.clockSeq, r.node);
  }

  lemma PackedEqually(s: Stamp, r: Stamp, n: nat)
    requires |s.node| == 6 && s.node == r.node && r.clockSeq == Counted(s.clockSeq, n)
    requires s.time < 0x1000_0000_0000_0000 && r.time < 0x1000_0000_0000_0000
    ensures PackStamp(s) == PackStamp(r) <==> s.time == r.time && FullTurns(n)
  {
    FullTurnsModulo(n);
    CountedModulo(s.clockSeq, n);
    ModOfMod(s.clockSeq, n);
    if PackStamp(s) == PackStamp(r) {
      PackInjective(s, r);
    } else if s.time == r.time && s.clockSeq % 0x4000 == r.clockSeq % 0x4000 {
      PackedAlike(s.time, s.clockSeq, r.clockSeq, s.node);
    }
  }

  /** The stamps behind two UUIDs of one generator. */
  lemma StampsOf(xs: seq<Inputs>, i: nat, j: nat) returns (s: Stamp, r: Stamp)
    requires i < j < |xs| && Made(xs, i).Some? && Made(xs, j).Some?
    ensures |s.node| == 6 && s.node == r.node && s.time == xs[i].now && r.time == xs[j].now
    ensures r.clockSeq == Counted(s.clockSeq, StallCount(xs, i + 1, j + 1))
    ensures StallCount(xs, i + 1, j + 1) == 0 ==> s.time < r.time
    ensures Made(xs, i).value == PackStamp(s) && Made(xs, j).value == PackStamp(r)
  {
    MadeFrom(xs, i);
    MadeFrom(xs, j);
    ClockRuns(xs, i + 1, j + 1);
    NodeStays(xs, i + 1, j + 1);
    var c, d, node := ClockAt(xs, i + 1), ClockAt(xs, j + 1), NodeAt(xs, i + 1).addr;
    s, r := Stamp(c.lastTime, c.sequence, node), Stamp(d.lastTime, d.sequence, node);
  }

  /** Two UUIDs of one generator are equal exactly when their clock readings are equal and the
      number of stalls from the one to the other is a multiple of 2^14. */
  lemma EqualUuids(xs: seq<Inputs>, i: nat, j: nat)
    requires i < j < |xs| && Made(xs, i).Some? && Made(xs, j).Some?
    ensures Made(xs, i) == Made(xs, j) <==> xs[i].now == xs[j].now && FullTurns(StallCount(xs, i + 1, j + 1))
    ensures StallCount(xs, i + 1, j + 1) == 0 ==> xs[i].now < xs[j].now
  {
    var s, r := StampsOf(xs, i, j);
    PackedEqually(s, r, StallCount(xs, i + 1, j + 1));
  }

  /** Fewer than 2^14 stalls from the one to the other, and two UUIDs differ. */
  lemma DifferentUuids(xs: seq<Inputs>, i: nat, j: nat)
    requires i < j < |xs| && Made(xs, i).Some? && Made(xs, j).Some?
    ensures StallCount(xs, i + 1, j + 1) < 0x4000 ==> Made(xs, i) != Made(xs, j)
  {
    EqualUuids(xs, i, j);
    var n := StallCount(xs, i + 1, j + 1);
    if n < 0x4000 {
      NoFullTurn(Made(xs, i), Made(xs, j), xs[i].now, xs[j].now, n);
    }
  }

  /** A run with fewer than 2^14 calls that found the clock not advanced makes no UUID twice,
      however the clock stalls or steps back. */
  lemma UniqueUuids(xs: seq<Inputs>, i: nat, j: nat)
    requires FewStalls(xs) && i < j < |xs| && Made(xs, i).Some? && Made(xs, j).Some?
    ensures Made(xs, i) != Made(xs, j)
  {
    DifferentUuids(xs, i, j);
  }

  lemma NoFullTurn(u: Option<seq<byte>>, v: Option<seq<byte>>, t: Ticks, r: Ticks, n: nat)
    requires n < 0x4000 && (n == 0 ==> t < r) && (u == v <==> t == r && FullTurns(n))
    ensures u != v
  {}

  /** Every UUID made is of version 1 and of the RFC 4122 variant. */
  lemma MadeIsV1(g: Generator, x: Inputs)
    requires Valid(g.node) && NewV1(g, x).1.Some?
    ensures |NewV1(g, x).1.value| == 16
    ensures Version(NewV1(g, x).1.value) == V1 && Variant(NewV1(g, x).1.value) == VARIANT_RFC4122
  {
    var g1 := NewV1(g, x).0;
    var t, q := BigEndian(g1.clock.lastTime, 8), BigEndian(g1.clock.sequence, 2);
    StampsReadBack(Raw(t, q, g1.node.addr), V1, VARIANT_RFC4122);
  }

  /** Where the node comes from: the hardware address as it is, or six random bytes of which only
      the multicast bit is changed, to one. It is chosen once: also after a failed read of random
      bytes, later calls go on with what there is, without failing. */
  lemma NodeChoice(n: Node, x: Inputs)
    requires Valid(n) && !n.known
    ensures var (m, ok) := NextNode(n, x);
            && (ok <==> x.hw.Some? || |x.nodeBytes| >= 6)
            && |m.addr| == 6
            && (x.hw.Some? ==>
                  m.addr == if |x.hw.value| >= 6 then x.hw.value[..6] else x.hw.value + n.addr[|x.hw.value|..])
            && (x.hw.None? && ok ==>
                  m.addr[0] % 2 == 1 && m.addr[0] / 2 == x.nodeBytes[0] / 2 && m.addr[1..] == x.nodeBytes[1..6])
            && (!ok ==> m.addr == x.nodeBytes + n.addr[|x.nodeBytes|..])
            && forall y: Inputs :: NextNode(m, y) == (m, true)
  {
    if x.hw.None? && |x.nodeBytes| >= 6 {
      var b := x.nodeBytes[0];
      assert (b / 2 * 2 + 1) / 2 == b / 2;
      assert NextNode(n, x).0.addr[1..] == Overlay(n.addr, x.nodeBytes)[1..];
    }
  }

  /******* The generator as an object *******/

  class RFC4122Generator {
    var clockSequenceDone: bool
    var hardwareAddrDone: bool
    var lastTime: uint64
    var clockSequence: uint16
    var hardwareAddr: seq<byte>

    ghost function View(): Generator
      reads this
    {
      Generator(Clock(clockSequenceDone, lastTime, clockSequence), Node(hardwareAddrDone, hardwareAddr))
    }

    constructor ()
      ensures View() == Generator(NEW_CLOCK, NEW_NODE)
    {
      clockSequenceDone, hardwareAddrDone := false, false;
      lastTime, clockSequence, hardwareAddr := 0, 0, [0, 0, 0, 0, 0, 0];
    }

    method GetClockSequence(x: Inputs) returns (ok: bool)
      modifies this`clockSequenceDone, this`lastTime, this`clockSequence
      ensures ok == ReadsClock(old(View()).clock, x)
      ensures View() == Generator(NextClock(old(View()).clock, x), old(View()).node)
    {
      if !clockSequenceDone {
        clockSequenceDone := true;
        if |x.seqBytes| < 2 {
          return false;
        }
        clockSequence := x.seqBytes[0] as int * 256 + x.seqBytes[1];
      }
      if x.now <= lastTime {
        clockSequence := Inc16(clockSequence);
      }
      lastTime := x.now;
      ok := true;
    }

    method GetHardwareAddr(x: Inputs) returns (ok: bool)
      requires Valid(View().node)
      modifies this`hardwareAddrDone, this`hardwareAddr
      ensures (View().node, ok) == NextNode(old(View()).node, x) && View().clock == old(View()).clock
    {
      if !hardwareAddrDone {
        hardwareAddrDone := true;
        if x.hw.Some? {
          hardwareAddr := Overlay(hardwareAddr, x.hw.value);
          return true;
        }
        hardwareAddr := Overlay(hardwareAddr, x.nodeBytes);
        if |x.nodeBytes| < 6 {
          return false;
        }
        hardwareAddr := hardwareAddr[0 := hardwareAddr[0] / 2 * 2 + 1];
      }
      ok := true;
    }

    method MakeV1(seqBytes: seq<byte>, nanos: int64, hw: Option<seq<byte>>, nodeBytes: seq<byte>)
      returns (u: Option<seq<byte>>)
      requires Valid(View().node)
      modifies this
      ensures Valid(View().node)
      ensures (View(), u) == NewV1(old(View()), Inputs(seqBytes, Epoch(nanos), hw, nodeBytes))
    {
      var x := Inputs(seqBytes, Epoch(nanos), hw, nodeBytes);
      var ok := GetClockSequence(x);
      if !ok {
        return None;
      }
      var time, clockSeq := lastTime, clockSequence;
      ok := GetHardwareAddr(x);
      if !ok {
        return None;
      }
      TimeFields(time);
      var buf := BigEndian(time % 0x1_0000_0000, 4);
      buf := buf + BigEndian(time / 0x1_0000_0000 % 0x1_0000, 2);
      buf := buf + BigEndian(time / 0x1_0000_0000_0000, 2);
      buf := buf + BigEndian(clockSeq, 2);
      buf := buf + hardwareAddr;
      buf := SetVersion(buf, V1);
      buf := SetVariant(buf, VARIANT_RFC4122);
      u := Some(buf);
    }
  }
}
