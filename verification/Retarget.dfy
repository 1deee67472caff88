/** Proof-of-work retargeting, in the leading-zero mode and in the compact mode. */
module Retarget {
  import opened Compact
  import opened Powers
  import opened Tree

  // ----- Machine integers

  function Wrap32(x: int): int {
    (x + 0x8000_0000) % 0x1_0000_0000 - 0x8000_0000
  }

  predicate IsInt32(x: int) {
    -0x8000_0000 <= x < 0x8000_0000
  }

  /** The number of 32 bits that differs by a multiple of two to the 32. */
  lemma {:induction false} WrapIs(x: int)
    ensures IsInt32(Wrap32(x)) && (x - Wrap32(x)) % 0x1_0000_0000 == 0
  {
  }

  /** Division that drops the fraction, towards zero. */
  function TruncDiv(a: int, b: nat): int
    requires b > 0
  {
    if a >= 0 then a / b else 0 - (0 - a) / b
  }

  // ----- Clamping the timespan

  /** At most four times faster or slower than expected, in 32-bit arithmetic. */
  function Clamp(actual: int, expected: int): int {
    var low := if actual < TruncDiv(expected, 4) then TruncDiv(expected, 4) else actual;
    if low > Wrap32(expected * 4) then Wrap32(expected * 4) else low
  }

  lemma {:induction false} ClampBounds(actual: int, expected: int)
    requires expected > 0 && IsInt32(expected * 4)
    ensures expected / 4 <= Clamp(actual, expected) <= 4 * expected
    ensures expected / 4 <= actual <= 4 * expected ==> Clamp(actual, expected) == actual
    ensures Clamp(actual, expected) == 0 <==> expected < 4 && actual <= 0
  {
    assert Wrap32(expected * 4) == expected * 4;
  }

  // ----- Leading-zero mode

  /** The new number of leading zero bits, before the cap; nothing when the timespan to divide by is zero. */
  function NewBits(prev: nat, actual: int, expected: int): (r: int)
    requires Clamp(actual, expected) != 0
  {
    var d := Pow2(prev) * expected / Clamp(actual, expected);
    BitLen(if d < 0 then 0 - d else d) - 1
  }

  lemma {:induction false} BitLenAbove(d: nat, lo: nat)
    requires Pow2(lo) <= d
    ensures BitLen(d) > lo
  {
    if lo > 0 {
      BitLenAbove(d / 2, lo - 1);
    }
  }

  lemma {:induction false} BitLenWithin(d: nat, hi: nat)
    requires d < Pow2(hi)
    ensures BitLen(d) <= hi
  {
    if d > 0 {
      BitLenWithin(d / 2, hi - 1);
    }
  }

  lemma {:induction false} MulOrder(p: nat, a: nat, b: nat)
    requires a <= b
    ensures p * a <= p * b && (p > 0 && a < b ==> p * a < p * b)
  {
  }

  lemma {:induction false} DivAtLeast(x: nat, c: nat, lo: nat)
    requires c > 0 && c * lo <= x
    ensures x / c >= lo
  {
    var q := x / c;
    assert x < c * (q + 1);
    if q + 1 <= lo { MulOrder(c, q + 1, lo); }
  }

  lemma {:induction false} DivBelow(x: nat, c: nat, hi: nat)
    requires c > 0 && x < c * hi
    ensures x / c < hi
  {
    var q := x / c;
    assert c * q <= x;
    if hi <= q { MulOrder(c, hi, q); }
  }

  lemma {:induction false} DivAtMost(x: nat, c: nat, hi: nat)
    requires c > 0 && x <= c * hi
    ensures x / c <= hi
  {
    assert c * (hi + 1) == c * hi + c;
    DivBelow(x, c, hi + 1);
  }

  /** The scaled power is at least a quarter of it. */
  lemma {:induction false} ScaledAtLeast(p: nat, expected: nat, c: nat)
    requires 0 < c <= 4 * expected
    ensures Quotient((4 * p) * expected, c) >= p
  {
    MulOrder(p, c, 4 * expected);
    assert p * (4 * expected) == (4 * p) * expected;
    DivAtLeast((4 * p) * expected, c, p);
  }

  /** The scaled power is less than eight times it. */
  lemma {:induction false} ScaledBelow(p: nat, expected: nat, c: nat)
    requires p > 0 && expected >= 4 && expected / 4 <= c
    ensures c > 0 && Quotient(p * expected, c) < 8 * p
  {
    MulOrder(p, expected, 8 * c);
    assert p * (8 * c) == c * (8 * p);
    DivBelow(p * expected, c, 8 * p);
  }

  /** The bits move by at most two, in either direction. */
  lemma {:induction false} BitsMoveByTwo(prev: nat, actual: int, expected: int)
    requires expected >= 4 && IsInt32(expected * 4)
    ensures Clamp(actual, expected) != 0 && prev - 2 <= NewBits(prev, actual, expected) <= prev + 2
  {
    ClampBounds(actual, expected);
    var c, p := Clamp(actual, expected), Pow2(prev);
    NewBitsIs(prev, actual, expected, p * expected, c);
    ScaledBelow(p, expected, c);
    assert Pow2(prev + 1) == 2 * p && Pow2(prev + 2) == 4 * p && Pow2(prev + 3) == 8 * p;
    BitLenWithin(Quotient(p * expected, c), prev + 3);
    if prev >= 2 {
      assert Pow2(prev - 1) == 2 * Pow2(prev - 2) && p == 4 * Pow2(prev - 2);
      ScaledAtLeast(Pow2(prev - 2), expected, c);
      BitLenAbove(Quotient(p * expected, c), prev - 2);
    }
  }

  lemma {:induction false} ScaledUp(p: nat, prev: nat, expected: nat, c: nat)
    requires p == Pow2(prev) && 0 < c <= expected
    ensures BitLen(Quotient(p * expected, c)) > prev
  {
    MulOrder(p, c, expected);
    DivAtLeast(p * expected, c, p);
    BitLenAbove(p * expected / c, prev);
  }

  lemma {:induction false} QuotientAtMost(p: nat, expected: nat, c: nat)
    requires 0 < expected <= c
    ensures Quotient(p * expected, c) <= p
  {
    MulOrder(p, expected, c);
    DivAtMost(p * expected, c, p);
  }

  lemma {:induction false} ScaledDown(p: nat, prev: nat, expected: nat, c: nat)
    requires p == Pow2(prev) && 0 < expected <= c
    ensures BitLen(Quotient(p * expected, c)) <= prev + 1
  {
    QuotientAtMost(p, expected, c);
    BitLenWithin(Quotient(p * expected, c), prev + 1);
  }

  /** Blocks that came faster than expected do not lower the bits, slower ones do not raise them. */
  lemma {:induction false} BitsFollowPace(prev: nat, actual: int, expected: int)
    requires expected >= 4 && IsInt32(expected * 4)
    ensures
      var c := Clamp(actual, expected);
      && c != 0 && (c <= expected ==> NewBits(prev, actual, expected) >= prev)
      && (c >= expected ==> NewBits(prev, actual, expected) <= prev)
  {
    ClampBounds(actual, expected);
    var c := Clamp(actual, expected);
    NewBitsIs(prev, actual, expected, Pow2(prev) * expected, c);
    if c <= expected {
      ScaledUp(Pow2(prev), prev, expected, c);
    }
    if c >= expected {
      ScaledDown(Pow2(prev), prev, expected, c);
    }
  }

  lemma {:induction false} NewBitsIs(prev: nat, actual: int, expected: int, x: nat, c: nat)
    requires c > 0 && c == Clamp(actual, expected) && x == Pow2(prev) * expected
    ensures NewBits(prev, actual, expected) == BitLen(Quotient(x, c)) - 1
  {
  }

  function Quotient(x: nat, c: nat): nat
    requires c > 0
  {
    x / c
  }

  // ----- The whole retarget

  datatype Config = Config(defaultTarget: nat, gap: int, period: int, maxTarget: nat, compact: bool)

  /** A header as retargeting reads it; the bits may fail to parse. */
  datatype Header = Header(pre: Hash, timestamp: int, bits: Stored)

  datatype Stored = Unreadable | Readable(bits: nat)

  datatype Refresh = Target(bits: nat) | StorageError | DivideByZero

  function MaxDifficulty(cfg: Config): nat {
    if cfg.compact then SetCompact(cfg.maxTarget).value else cfg.maxTarget
  }

  function NextTarget(cfg: Config, prev: nat, actual: int, expected: int): Refresh {
    var c := Clamp(actual, expected);
    if cfg.compact then
      if expected == 0 then DivideByZero else CompactTarget(cfg, prev, SetCompact(prev).value * c / expected)
    else
      if c == 0 then DivideByZero else
      var bits := NewBits(prev, actual, expected);
      Target(if bits < 0 || bits > cfg.maxTarget then cfg.maxTarget else bits)
  }

  /** The compact form of a scaled difficulty, but not below the floor. */
  function CompactTarget(cfg: Config, prev: nat, scaled: int): Refresh {
    if scaled < MaxDifficulty(cfg) then Target(cfg.maxTarget)
    else if GetCompact(scaled).ok then Target(GetCompact(scaled).bits) else Target(prev)
  }

  predicate IsProofed(cfg: Config, hash: nat, bits: nat) {
    if cfg.compact then
      var d := SetCompact(bits);
      !d.negative && !d.overflow && d.value >= MaxDifficulty(cfg) && hash <= d.value
    else
      LeadsWithZeros(hash, bits)
  }

  /** The hash is at most two to the 256 less the bits, a 32-bit difference. */
  predicate LeadsWithZeros(hash: nat, bits: nat) {
    hash <= Pow2((256 - bits) % 0x1_0000_0000)
  }

  /** In compact mode a faster pace does not raise the difficulty value, a slower one does not lower it, and the
      expected one leaves it. */
  lemma {:induction false} ScaleFollowsPace(value: nat, c: nat, expected: nat)
    requires expected > 0
    ensures c <= expected ==> value * c / expected <= value
    ensures c >= expected ==> value * c / expected >= value
  {
    var x := value * c;
    if c <= expected {
      MulOrder(value, c, expected);
      DivAtMost(x, expected, value);
    }
    if c >= expected {
      MulOrder(value, expected, c);
      DivAtLeast(x, expected, value);
    }
  }

  /** In leading-zero mode fewer bits are never harder to meet. */
  lemma {:induction false} FewerBitsEasier(hash: nat, bits: nat, fewer: nat)
    requires fewer <= bits <= 256 && LeadsWithZeros(hash, bits)
    ensures LeadsWithZeros(hash, fewer)
  {
    var a, b := 256 - bits, 256 - fewer;
    assert a % 0x1_0000_0000 == a && b % 0x1_0000_0000 == b;
    Pow2Order(a, b);
  }

  /** New bits from a scaled value below two to the 255 are never turned down by the floor test or the flags: only the
      hash decides. */
  lemma {:induction false} FloorNeverRejects(cfg: Config, prev: nat, scaled: int, hash: nat)
    requires cfg.compact && scaled < LIMIT && !SetCompact(cfg.maxTarget).negative && !SetCompact(cfg.maxTarget).overflow
    ensures
      var bits := CompactTarget(cfg, prev, scaled).bits;
      && CompactTarget(cfg, prev, scaled).Target? && SetCompact(bits).value >= MaxDifficulty(cfg)
      && (IsProofed(cfg, hash, bits) <==> hash <= SetCompact(bits).value)
  {
    if scaled >= MaxDifficulty(cfg) {
      RoundTrip(scaled);
      DecodedIsExact(cfg.maxTarget);
      OrderKept(MaxDifficulty(cfg), scaled);
    }
  }

  /** From two to the 255 on, the new bits carry an overflow and no hash passes. */
  lemma {:induction false} TooEasyRejectsAll(cfg: Config, prev: nat, scaled: int, hash: nat)
    requires cfg.compact && scaled >= LIMIT && scaled >= MaxDifficulty(cfg) && Parts(scaled).0 <= 255
    ensures CompactTarget(cfg, prev, scaled).Target? && !IsProofed(cfg, hash, CompactTarget(cfg, prev, scaled).bits)
  {
    var (size, word) := Parts(scaled);
    DecodeParts(scaled, size, word);
    FlagsIff(scaled);
  }

  /** The header n parents below b, if the way there is known. */
  function Below(headers: map<Hash, Header>, b: Hash, n: nat): (r: Hash)
    ensures r == Empty || r in headers
    decreases n
  {
    if b == Empty || b !in headers then Empty
    else if n == 0 then b else Below(headers, headers[b].pre, n - 1)
  }

  function Expected(cfg: Config): int {
    Wrap32(cfg.period * Wrap32(cfg.gap - 1))
  }

  /** Whole seconds between two headers, as a 32-bit number. */
  function Elapsed(from: Header, to: Header): int {
    Wrap32(TruncDiv(to.timestamp - from.timestamp, 1_000_000_000))
  }

  function TargetAfter(cfg: Config, headers: map<Hash, Header>, tip: Hash, nextHeight: int): Refresh {
    if nextHeight <= cfg.gap then Target(cfg.defaultTarget) else
    var pre := Below(headers, tip, 1);
    if pre == Empty then Target(cfg.defaultTarget)
    else if headers[pre].bits.Unreadable? then StorageError
    else if cfg.gap == 0 then DivideByZero
    else if nextHeight % cfg.gap != 0 then Target(headers[pre].bits.bits) else
    var far := Below(headers, pre, if cfg.gap <= 1 then 0 else cfg.gap - 1);
    if far == Empty then Target(cfg.defaultTarget) else
    NextTarget(cfg, headers[pre].bits.bits, Elapsed(headers[far], headers[pre]), Expected(cfg))
  }

  // ----- What the retarget guarantees

  /** The next block is one at which the target is computed anew, and the headers for it are there. */
  predicate Due(cfg: Config, headers: map<Hash, Header>, tip: Hash, nextHeight: int) {
    && 0 < cfg.gap < nextHeight && nextHeight % cfg.gap == 0
    && var pre := Below(headers, tip, 1);
    && pre != Empty && headers[pre].bits.Readable? && Below(headers, pre, cfg.gap - 1) != Empty
  }

  /** The timespan a new target is computed from. */
  function Span(cfg: Config, headers: map<Hash, Header>, tip: Hash, nextHeight: int): int
    requires Due(cfg, headers, tip, nextHeight)
  {
    var pre := Below(headers, tip, 1);
    Elapsed(headers[Below(headers, pre, cfg.gap - 1)], headers[pre])
  }

  lemma {:induction false} TargetWhenDue(cfg: Config, headers: map<Hash, Header>, tip: Hash, nextHeight: int)
    requires Due(cfg, headers, tip, nextHeight)
    ensures TargetAfter(cfg, headers, tip, nextHeight) ==
            NextTarget(cfg, headers[Below(headers, tip, 1)].bits.bits, Span(cfg, headers, tip, nextHeight),
                       Expected(cfg))
  {
  }

  lemma {:induction false} NextBounded(cfg: Config, prev: nat, actual: int, expected: int)
    requires !cfg.compact && expected >= 4 && IsInt32(expected * 4)
    ensures
      var r := NextTarget(cfg, prev, actual, expected);
      r.Target? && r.bits <= cfg.maxTarget && (r.bits == cfg.maxTarget || prev - 2 <= r.bits <= prev + 2)
  {
    BitsMoveByTwo(prev, actual, expected);
  }

  /** In leading-zero mode a new target is at most the cap, and within two bits of the previous one unless it is the
      cap. */
  lemma {:induction false} TargetBounded(cfg: Config, headers: map<Hash, Header>, tip: Hash, nextHeight: int)
    requires !cfg.compact && Expected(cfg) >= 4 && IsInt32(Expected(cfg) * 4) && Due(cfg, headers, tip, nextHeight)
    ensures
      var r, prev := TargetAfter(cfg, headers, tip, nextHeight), headers[Below(headers, tip, 1)].bits.bits;
      r.Target? && r.bits <= cfg.maxTarget && (r.bits == cfg.maxTarget || prev - 2 <= r.bits <= prev + 2)
  {
    TargetWhenDue(cfg, headers, tip, nextHeight);
    NextBounded(cfg, headers[Below(headers, tip, 1)].bits.bits, Span(cfg, headers, tip, nextHeight), Expected(cfg));
  }

  // ----- Between retargets

  /** A chain in which every block after the first carries the target computed for it: what the miner match demands. */
  ghost predicate Carried(cfg: Config, headers: map<Hash, Header>, ids: seq<Hash>) {
    && (forall h :: 0 <= h < |ids| ==> ids[h] != Empty && ids[h] in headers)
    && (forall h :: 0 < h < |ids| ==> headers[ids[h]].pre == ids[h - 1] && headers[ids[h]].bits.Readable?)
    && forall h {:trigger CarriedAt(cfg, headers, ids, h)} :: 0 < h < |ids| ==> CarriedAt(cfg, headers, ids, h)
  }

  ghost predicate CarriedAt(cfg: Config, headers: map<Hash, Header>, ids: seq<Hash>, h: nat) {
    0 < h < |ids| && ids[h] in headers && headers[ids[h]].bits.Readable? &&
    TargetAfter(cfg, headers, ids[h - 1], h) == Target(headers[ids[h]].bits.bits)
  }

  /** The target of the block at height h. */
  ghost function BitsAt(cfg: Config, headers: map<Hash, Header>, ids: seq<Hash>, h: nat): nat
    requires Carried(cfg, headers, ids) && 0 < h < |ids|
  {
    headers[ids[h]].bits.bits
  }

  /** Where no retarget is due, the target is not that of the parent but that of the block before it. */
  lemma {:induction false} TargetTwoBack(cfg: Config, headers: map<Hash, Header>, ids: seq<Hash>, h: nat)
    requires Carried(cfg, headers, ids) && 1 < cfg.gap < h < |ids| && h % cfg.gap != 0
    ensures h > 2 && BitsAt(cfg, headers, ids, h) == BitsAt(cfg, headers, ids, h - 2)
  {
    assert CarriedAt(cfg, headers, ids, h);
    assert Below(headers, ids[h - 1], 1) == Below(headers, ids[h - 2], 0) == ids[h - 2];
  }

  lemma {:induction false} SameRest(gap: nat, a: int, r: nat, b: int, t: nat)
    requires gap * a + r == gap * b + t && r < gap && t < gap
    ensures r == t
  {
    assert gap * b == gap * a + gap * (b - a) && gap * a == gap * b + gap * (a - b);
    if a < b {
      MulOrder(gap, 1, b - a);
    }
    if b < a {
      MulOrder(gap, 1, a - b);
    }
  }

  lemma {:induction false} OffsetMod(s: nat, gap: nat, j: nat)
    requires gap > 0 && s % gap == 0 && j < gap
    ensures (s + j) % gap == j
  {
    var x := s + j;
    assert gap * (s / gap) + j == gap * (x / gap) + x % gap;
    SameRest(gap, s / gap, j, x / gap, x % gap);
  }

  /** From one retarget to the next, the blocks at even distance from it have the new target and the others that of the
      block before it. */
  lemma {:induction false} TargetsAlternate(cfg: Config, headers: map<Hash, Header>, ids: seq<Hash>, s: nat, j: nat)
    requires Carried(cfg, headers, ids) && 2 <= cfg.gap <= s && s % cfg.gap == 0
    requires j < cfg.gap && s + j < |ids|
    ensures BitsAt(cfg, headers, ids, s + j) == BitsAt(cfg, headers, ids, if j % 2 == 0 then s else s - 1)
  {
    if j > 0 {
      OffsetMod(s, cfg.gap, j);
      TargetTwoBack(cfg, headers, ids, s + j);
      if j > 1 {
        TargetsAlternate(cfg, headers, ids, s, j - 2);
      }
    }
  }

  /** The target stays from one retarget to the next if and only if it did not change there. */
  lemma {:induction false} WindowSteadyIff(cfg: Config, headers: map<Hash, Header>, ids: seq<Hash>, s: nat)
    requires Carried(cfg, headers, ids) && 2 <= cfg.gap <= s && s % cfg.gap == 0 && s + 1 < |ids|
    ensures (forall h :: s <= h < s + cfg.gap && h < |ids| ==>
               BitsAt(cfg, headers, ids, h) == BitsAt(cfg, headers, ids, s))
            <==> BitsAt(cfg, headers, ids, s) == BitsAt(cfg, headers, ids, s - 1)
  {
    TargetsAlternate(cfg, headers, ids, s, 1);
    assert BitsAt(cfg, headers, ids, s + 1) == BitsAt(cfg, headers, ids, s - 1);
    forall h | s <= h < s + cfg.gap && h < |ids|
      ensures BitsAt(cfg, headers, ids, h) == BitsAt(cfg, headers, ids, if (h - s) % 2 == 0 then s else s - 1)
    {
      TargetsAlternate(cfg, headers, ids, s, h - s);
    }
  }

  function Stamped(pre: Hash, bits: nat): Header {
    Header(pre, 0, Readable(bits))
  }

  /** Six blocks, a retarget at every second one. */
  function SixBlocks(): map<Hash, Header> {
    map[Digest(1) := Stamped(Empty, 1), Digest(2) := Stamped(Digest(1), 1), Digest(3) := Stamped(Digest(2), 1),
        Digest(4) := Stamped(Digest(3), 1), Digest(5) := Stamped(Digest(4), 3), Digest(6) := Stamped(Digest(5), 1)]
  }

  /** Blocks all of the same time, with the given targets. */
  ghost predicate Stamps(headers: map<Hash, Header>, ids: seq<Hash>, bits: seq<nat>) {
    && |bits| == |ids| && (forall h :: 0 <= h < |ids| ==> ids[h] != Empty && ids[h] in headers)
    && forall h :: 0 <= h < |ids| ==> headers[ids[h]] == Stamped(if h == 0 then Empty else ids[h - 1], bits[h])
  }

  lemma {:induction false} FastBits()
    ensures Clamp(0, 8) == 2 && NewBits(1, 0, 8) == 3
  {
    assert Pow2(1) == 2 * Pow2(0) == 2;
    assert BitLen(8) == 1 + BitLen(4) == 2 + BitLen(2) == 3 + BitLen(1) == 4;
  }

  /** The target of the block two before. */
  lemma {:induction false} OddTarget(cfg: Config, headers: map<Hash, Header>, a: Hash, b: Hash, h: nat)
    requires cfg == Config(1, 2, 8, 10, false) && h > 2 && h % 2 == 1
    requires a != Empty && b != Empty && a in headers && b in headers
    requires headers[b].pre == a && headers[a].bits == Readable(1)
    ensures TargetAfter(cfg, headers, b, h) == Target(1)
  {
    assert Below(headers, b, 1) == Below(headers, a, 0) == a;
  }

  lemma {:induction false} FastNext(cfg: Config, expected: int)
    requires cfg == Config(1, 2, 8, 10, false) && expected == 8
    ensures NextTarget(cfg, 1, 0, expected) == Target(3)
  {
    FastBits();
  }

  lemma {:induction false} NoTime(a: Header, b: Header)
    requires a.timestamp == b.timestamp
    ensures Elapsed(a, b) == 0
  {
    var none, second := b.timestamp - a.timestamp, 1_000_000_000;
    assert none == 0 && none / second == 0;
    WrapSmall(0);
  }

  lemma {:induction false} EightSeconds(cfg: Config)
    requires cfg == Config(1, 2, 8, 10, false)
    ensures Expected(cfg) == 8
  {
    WrapSmall(1);
    assert Wrap32(cfg.gap - 1) == 1 && cfg.period * Wrap32(cfg.gap - 1) == 8;
    WrapSmall(8);
  }

  lemma {:induction false} WrapSmall(x: int)
    requires IsInt32(x)
    ensures Wrap32(x) == x
  {
  }

  /** A retarget over blocks that all have the same time. */
  lemma {:induction false} FastTarget(cfg: Config, headers: map<Hash, Header>, a: Hash, b: Hash, c: Hash, h: int)
    requires cfg == Config(1, 2, 8, 10, false) && h == 4
    requires a != Empty && b != Empty && c != Empty && a in headers && b in headers && c in headers
    requires headers[c].pre == b && headers[b] == Stamped(a, 1) && headers[a].timestamp == 0
    ensures TargetAfter(cfg, headers, c, h) == Target(3)
  {
    assert Below(headers, c, 1) == Below(headers, b, 0) == b;
    assert Below(headers, b, 1) == Below(headers, a, 0) == a;
    assert h % cfg.gap == 0 && Due(cfg, headers, c, h);
    TargetWhenDue(cfg, headers, c, h);
    NoTime(headers[a], headers[b]);
    EightSeconds(cfg);
    FastNext(cfg, Expected(cfg));
  }

  lemma {:induction false} SixTargets(cfg: Config, headers: map<Hash, Header>, ids: seq<Hash>, bits: seq<nat>)
    requires cfg == Config(1, 2, 8, 10, false) && |ids| == 6 && bits == [1, 1, 1, 1, 3, 1] && Stamps(headers, ids, bits)
    ensures Carried(cfg, headers, ids) && BitsAt(cfg, headers, ids, 4) == 3 && BitsAt(cfg, headers, ids, 5) == 1
  {
    assert headers[ids[1]] == Stamped(ids[0], 1) && headers[ids[2]] == Stamped(ids[1], 1);
    assert headers[ids[3]] == Stamped(ids[2], 1) && headers[ids[4]] == Stamped(ids[3], 3);
    assert headers[ids[5]] == Stamped(ids[4], 1);
    OddTarget(cfg, headers, ids[1], ids[2], 3);
    FastTarget(cfg, headers, ids[1], ids[2], ids[3], 4);
    OddTarget(cfg, headers, ids[3], ids[4], 5);
    assert CarriedAt(cfg, headers, ids, 1) && CarriedAt(cfg, headers, ids, 2) && CarriedAt(cfg, headers, ids, 3);
    assert CarriedAt(cfg, headers, ids, 4) && CarriedAt(cfg, headers, ids, 5);
  }

  /** Blocks that come four times too fast raise the target from one to three bits at height four; the block at height
      five is at one bit again. */
  lemma {:induction false} RetargetSkipsNext()
    ensures
      var cfg, headers := Config(1, 2, 8, 10, false), SixBlocks();
      var ids := [Digest(1), Digest(2), Digest(3), Digest(4), Digest(5), Digest(6)];
      && Carried(cfg, headers, ids) && BitsAt(cfg, headers, ids, 4) == 3 && BitsAt(cfg, headers, ids, 5) == 1
  {
    var ids := [Digest(1), Digest(2), Digest(3), Digest(4), Digest(5), Digest(6)];
    var bits := [1, 1, 1, 1, 3, 1];
    assert Stamps(SixBlocks(), ids, bits);
    SixTargets(Config(1, 2, 8, 10, false), SixBlocks(), ids, bits);
  }

  /** Whether the flags of compact bits are both down. */
  predicate Unflagged(bits: nat) {
    !SetCompact(bits).negative && !SetCompact(bits).overflow
  }

  /** The previous difficulty scaled by the timespan. */
  function ScaledDifficulty(prev: nat, actual: int, expected: int): int
    requires expected != 0
  {
    SetCompact(prev).value * Clamp(actual, expected) / expected
  }

  lemma {:induction false} AtMostFourfold(value: nat, c: nat, expected: nat)
    requires expected > 0 && c <= 4 * expected
    ensures Quotient(value * c, expected) <= 4 * value
  {
    MulOrder(value, c, 4 * expected);
    assert value * (4 * expected) == expected * (4 * value);
    DivAtMost(value * c, expected, 4 * value);
  }

  lemma {:induction false} ScaledRange(prev: nat, actual: int, expected: int)
    requires expected > 0 && IsInt32(expected * 4) && Unflagged(prev)
    ensures 0 <= ScaledDifficulty(prev, actual, expected) && Parts(ScaledDifficulty(prev, actual, expected)).0 <= 255
  {
    ClampBounds(actual, expected);
    var value, c := SetCompact(prev).value, Clamp(actual, expected);
    AtMostFourfold(value, c, expected);
    ValueWithin(prev);
    SmallParts(Quotient(value * c, expected), value, 31);
  }

  lemma {:induction false} SmallParts(n: nat, value: nat, k: nat)
    requires n <= 4 * value && value < Shl(0x80, k) && k == 31
    ensures Parts(n).0 <= 255
  {
    FourfoldWithin(n, value, k);
    SizeWithin(n, k + 1);
  }

  lemma {:induction false} FourfoldWithin(n: nat, value: nat, k: nat)
    requires n <= 4 * value && value < Shl(0x80, k)
    ensures n < Shl(0x80, k + 1)
  {
  }

  /** In compact mode, from bits whose flags are down: every hash up to the decoded new target is accepted if and only
      if the scaled difficulty is below two to the 255; from there on no hash is. */
  lemma {:induction false} NextAcceptedIff(cfg: Config, prev: nat, actual: int, expected: int)
    requires cfg.compact && expected > 0 && IsInt32(expected * 4) && Unflagged(prev) && Unflagged(cfg.maxTarget)
    ensures
      var r := NextTarget(cfg, prev, actual, expected);
      && r.Target?
      && ((forall hash: nat :: IsProofed(cfg, hash, r.bits) <==> hash <= SetCompact(r.bits).value)
          <==> ScaledDifficulty(prev, actual, expected) < LIMIT)
      && (ScaledDifficulty(prev, actual, expected) >= LIMIT ==> forall hash: nat :: !IsProofed(cfg, hash, r.bits))
  {
    var scaled := ScaledDifficulty(prev, actual, expected);
    var r := NextTarget(cfg, prev, actual, expected);
    assert r == CompactTarget(cfg, prev, scaled);
    ScaledRange(prev, actual, expected);
    if scaled < LIMIT {
      forall hash: nat ensures IsProofed(cfg, hash, r.bits) <==> hash <= SetCompact(r.bits).value {
        FloorNeverRejects(cfg, prev, scaled, hash);
      }
      FloorNeverRejects(cfg, prev, scaled, 0);
    } else {
      ValueWithin(cfg.maxTarget);
      forall hash: nat ensures !IsProofed(cfg, hash, r.bits) {
        TooEasyRejectsAll(cfg, prev, scaled, hash);
      }
      TooEasyRejectsAll(cfg, prev, scaled, 0);
      assert 0 <= SetCompact(r.bits).value;
    }
  }

  /** The same of the target computed for the next block. */
  lemma {:induction false} TargetAcceptedIff(cfg: Config, headers: map<Hash, Header>, tip: Hash, nextHeight: int,
        prev: nat)
    requires cfg.compact && Due(cfg, headers, tip, nextHeight) && Expected(cfg) > 0 && IsInt32(Expected(cfg) * 4)
    requires headers[Below(headers, tip, 1)].bits == Readable(prev) && Unflagged(prev) && Unflagged(cfg.maxTarget)
    ensures
      var r := TargetAfter(cfg, headers, tip, nextHeight);
      && r.Target?
      && ((forall hash: nat :: IsProofed(cfg, hash, r.bits) <==> hash <= SetCompact(r.bits).value)
          <==> ScaledDifficulty(prev, Span(cfg, headers, tip, nextHeight), Expected(cfg)) < LIMIT)
  {
    TargetWhenDue(cfg, headers, tip, nextHeight);
    NextAcceptedIff(cfg, prev, Span(cfg, headers, tip, nextHeight), Expected(cfg));
  }

  lemma {:induction false} Fourfold(value: nat, expected: nat)
    requires expected > 0
    ensures value * (expected * 4) / expected == 4 * value
  {
    assert value * (expected * 4) == expected * (4 * value);
    DivAtLeast(value * (expected * 4), expected, 4 * value);
    DivAtMost(value * (expected * 4), expected, 4 * value);
  }

  lemma {:induction false} EasiestBits(bits: nat, k: nat)
    requires bits == 0x207f_ffff && k == 29
    ensures Unflagged(bits) && SetCompact(bits).value == Shl(0x7f_ffff, k) && 4 * SetCompact(bits).value >= LIMIT
  {
    OverflowIff(bits);
    assert bits / BYTE3 == 32 && bits % SIGN == 0x7f_ffff;
    var value := Shl(0x7f_ffff, k);
    ShlPlus(0x7f_ffff, 0x7f_ffff, k);
    ShlOrder(SIGN, 0x7f_ffff + 0x7f_ffff, k);
    ShlByte(0x8000, k);
    ShlByte(0x80, k + 1);
  }

  /** Bits 0x207fffff, the easiest without a flag, followed by blocks four times too slow: the next bits are accepted
      for no hash at all. */
  lemma {:induction false} SlowBlocksStopMining(cfg: Config, expected: int, hash: nat)
    requires cfg.compact && expected > 0 && IsInt32(expected * 4) && Unflagged(cfg.maxTarget)
    ensures
      var r := NextTarget(cfg, 0x207f_ffff, expected * 4, expected);
      Unflagged(0x207f_ffff) && r.Target? && !IsProofed(cfg, hash, r.bits)
  {
    EasiestBits(0x207f_ffff, 29);
    ClampBounds(expected * 4, expected);
    Fourfold(SetCompact(0x207f_ffff).value, expected);
    NextAcceptedIff(cfg, 0x207f_ffff, expected * 4, expected);
  }

  // ----- The pace of blocks, told by their timestamps

  /** Each header after the first names the one before it as its parent. */
  ghost predicate Strung(headers: map<Hash, Header>, ids: seq<Hash>) {
    && (forall h :: 0 <= h < |ids| ==> ids[h] != Empty && ids[h] in headers)
    && forall h :: 0 < h < |ids| ==> headers[ids[h]].pre == ids[h - 1]
  }

  lemma {:induction false} BelowStrung(headers: map<Hash, Header>, ids: seq<Hash>, h: nat, n: nat, low: nat)
    requires Strung(headers, ids) && low + n == h < |ids|
    ensures Below(headers, ids[h], n) == ids[low]
    decreases n
  {
    if n > 0 {
      BelowStrung(headers, ids, h - 1, n - 1, low);
    }
  }

  /** The nanoseconds between two headers stay within 32 bits when counted in seconds. */
  ghost predicate Timely(pace: int) {
    -0x8000_0000 * 1_000_000_000 < pace < 0x8000_0000 * 1_000_000_000
  }

  lemma {:induction false} ElapsedIs(from: Header, to: Header, second: nat)
    requires second == 1_000_000_000 && Timely(to.timestamp - from.timestamp)
    ensures Elapsed(from, to) == TruncDiv(to.timestamp - from.timestamp, second)
  {
    var pace := to.timestamp - from.timestamp;
    DivBelow(if pace < 0 then 0 - pace else pace, second, 0x8000_0000);
    WrapSmall(TruncDiv(pace, second));
  }

  /** Seconds elapsed against seconds expected, by the nanoseconds between the headers. */
  lemma {:induction false} ElapsedPace(from: Header, to: Header, second: nat, expected: nat)
    requires second == 1_000_000_000 && Timely(to.timestamp - from.timestamp)
    ensures to.timestamp - from.timestamp >= second * expected ==> Elapsed(from, to) >= expected
    ensures to.timestamp - from.timestamp <= second * expected ==> Elapsed(from, to) <= expected
  {
    var pace := to.timestamp - from.timestamp;
    ElapsedIs(from, to, second);
    if pace >= second * expected {
      DivAtLeast(pace, second, expected);
    }
    if 0 <= pace <= second * expected {
      DivAtMost(pace, second, expected);
    }
  }

  /** When the next block is at height h on the chain, and a retarget is due. */
  ghost predicate DueOn(cfg: Config, headers: map<Hash, Header>, ids: seq<Hash>, h: nat, prev: nat) {
    && Strung(headers, ids) && 1 <= cfg.gap < h <= |ids| && h % cfg.gap == 0 && IsInt32(cfg.gap)
    && headers[ids[h - 2]].bits == Readable(prev)
  }

  /** The nanoseconds from the block gap - 1 below to the block before the tip. */
  ghost function PaceOn(cfg: Config, headers: map<Hash, Header>, ids: seq<Hash>, h: nat): int
    requires Strung(headers, ids) && 1 <= cfg.gap < h <= |ids|
  {
    headers[ids[h - 2]].timestamp - headers[ids[h - 1 - cfg.gap]].timestamp
  }

  lemma {:induction false} ExpectedIs(cfg: Config, expected: int)
    requires expected == cfg.period * (cfg.gap - 1) && IsInt32(expected) && IsInt32(cfg.gap) && cfg.gap >= 1
    ensures Expected(cfg) == expected
  {
    WrapSmall(cfg.gap - 1);
    WrapSmall(expected);
  }

  /** The target for the next block comes from the two headers named. */
  lemma {:induction false} DueTarget(cfg: Config, headers: map<Hash, Header>, ids: seq<Hash>, h: nat, prev: nat,
        expected: int)
    requires DueOn(cfg, headers, ids, h, prev) && expected == cfg.period * (cfg.gap - 1) && IsInt32(expected)
    ensures TargetAfter(cfg, headers, ids[h - 1], h) ==
            NextTarget(cfg, prev, Elapsed(headers[ids[h - 1 - cfg.gap]], headers[ids[h - 2]]), expected)
  {
    BelowStrung(headers, ids, h - 1, 1, h - 2);
    BelowStrung(headers, ids, h - 2, cfg.gap - 1, h - 1 - cfg.gap);
    ExpectedIs(cfg, expected);
    TargetWhenDue(cfg, headers, ids[h - 1], h);
  }

  /** Two to a power has one bit more than the power. */
  lemma {:induction false} BitLenOfPow2(e: nat)
    ensures BitLen(Pow2(e)) == e + 1
  {
    BitLenAbove(Pow2(e), e);
    BitLenWithin(Pow2(e), e + 1);
  }

  lemma {:induction false} ExactQuotient(c: nat, p: nat)
    requires c > 0
    ensures Quotient(c * p, c) == p
  {
    DivAtLeast(c * p, c, p);
    DivAtMost(c * p, c, p);
  }

  lemma {:induction false} FourTimes(p: nat, expected: nat, x: nat, c: nat)
    requires x == 4 * p && c == expected * 4
    ensures x * expected == c * p
  {
    var y := p * expected;
    assert x * expected == 4 * y && c * p == 4 * y;
  }

  /** Four times too slow, or slower: two bits less. */
  lemma {:induction false} SlowestBits(prev: nat, actual: int, expected: nat, less: nat, c: nat)
    requires expected >= 4 && IsInt32(c) && c == expected * 4 && actual >= c && prev == less + 2
    ensures Clamp(actual, expected) == c && NewBits(prev, actual, expected) == less
  {
    ClampBounds(actual, expected);
    var p := Pow2(less);
    assert Pow2(prev) == 2 * Pow2(prev - 1) == 4 * p;
    FourTimes(p, expected, Pow2(prev), c);
    NewBitsIs(prev, actual, expected, c * p, c);
    ExactQuotient(c, p);
    BitLenOfPow2(less);
  }

  lemma {:induction false} BitsByTime(cfg: Config, prev: nat, actual: int, expected: int)
    requires !cfg.compact && expected >= 4 && IsInt32(expected * 4)
    ensures
      var r := NextTarget(cfg, prev, actual, expected);
      && r.Target? && r.bits <= cfg.maxTarget
      && (actual >= expected ==> r.bits <= prev || r.bits == cfg.maxTarget)
      && (actual <= expected ==> r.bits >= prev || r.bits == cfg.maxTarget)
      && (actual >= expected && 2 <= prev <= cfg.maxTarget ==> prev - 2 <= r.bits <= prev)
      && (actual <= expected && prev <= cfg.maxTarget ==> prev <= r.bits <= prev + 2)
      && (actual >= expected * 4 && 2 <= prev <= cfg.maxTarget ==> r.bits == prev - 2)
  {
    ClampBounds(actual, expected);
    BitsFollowPace(prev, actual, expected);
    BitsMoveByTwo(prev, actual, expected);
    if actual >= expected * 4 && prev >= 2 {
      SlowestBits(prev, actual, expected, prev - 2, expected * 4);
    }
  }

  /** In leading-zero mode, where s is the expected time in nanoseconds: blocks that took at least s do not raise the
      target, and blocks that took at most s do not lower it, unless the new one is the cap. From two bits on and up to
      the cap it moves by at most two bits, and by exactly two for blocks at least four times too slow. */
  lemma {:induction false} BitsFollowTime(cfg: Config, headers: map<Hash, Header>, ids: seq<Hash>, h: nat, prev: nat,
        expected: nat)
    requires !cfg.compact && DueOn(cfg, headers, ids, h, prev) && expected == cfg.period * (cfg.gap - 1)
    requires expected >= 4 && IsInt32(expected * 4) && Timely(PaceOn(cfg, headers, ids, h))
    ensures
      var r := TargetAfter(cfg, headers, ids[h - 1], h);
      var pace, s := PaceOn(cfg, headers, ids, h), 1_000_000_000 * expected;
      && r.Target? && r.bits <= cfg.maxTarget
      && (pace >= s ==> r.bits <= prev || r.bits == cfg.maxTarget)
      && (pace <= s ==> r.bits >= prev || r.bits == cfg.maxTarget)
      && (pace >= s && 2 <= prev <= cfg.maxTarget ==> prev - 2 <= r.bits <= prev)
      && (pace <= s && prev <= cfg.maxTarget ==> prev <= r.bits <= prev + 2)
      && (pace >= 4 * s && 2 <= prev <= cfg.maxTarget ==> r.bits == prev - 2)
  {
    var from, to := headers[ids[h - 1 - cfg.gap]], headers[ids[h - 2]];
    DueTarget(cfg, headers, ids, h, prev, expected);
    ElapsedPace(from, to, 1_000_000_000, expected);
    ElapsedPace(from, to, 1_000_000_000, expected * 4);
    BitsByTime(cfg, prev, Elapsed(from, to), expected);
  }

  /** A larger scaled difficulty gives no smaller value, and a smaller one no larger; and what is left of it is all but
      one part in two to the 15. */
  lemma {:induction false} ValueByScale(cfg: Config, prev: nat, scaled: nat)
    requires cfg.compact && Unflagged(prev) && Unflagged(cfg.maxTarget) && Parts(scaled).0 <= 255
    requires SetCompact(prev).value >= MaxDifficulty(cfg)
    ensures
      var r, value := CompactTarget(cfg, prev, scaled), SetCompact(prev).value;
      && r.Target?
      && (scaled >= value ==> !Unflagged(r.bits) || SetCompact(r.bits).value >= value)
      && (scaled <= value ==> MaxDifficulty(cfg) <= SetCompact(r.bits).value <= value)
      && (value <= scaled < LIMIT ==>
            var raised := SetCompact(r.bits).value; raised <= scaled && 0x8000 * (scaled - raised) <= raised)
  {
    var value := SetCompact(prev).value;
    ValueWithin(prev);
    DecodedIsExact(prev);
    if scaled >= LIMIT {
      FlagsIff(scaled);
    } else {
      RoundTrip(scaled);
      if value <= scaled {
        OrderKept(value, scaled);
      }
    }
    if scaled <= value {
      OrderKept(scaled, value);
      FloorNeverRejects(cfg, prev, scaled, 0);
    }
  }

  lemma {:induction false} ScaledByTime(prev: nat, actual: int, expected: int)
    requires expected >= 4 && IsInt32(expected * 4)
    ensures actual >= expected ==> ScaledDifficulty(prev, actual, expected) >= SetCompact(prev).value
    ensures actual <= expected ==> ScaledDifficulty(prev, actual, expected) <= SetCompact(prev).value
    ensures actual >= expected * 4 ==> ScaledDifficulty(prev, actual, expected) == 4 * SetCompact(prev).value
  {
    ClampBounds(actual, expected);
    ScaleFollowsPace(SetCompact(prev).value, Clamp(actual, expected), expected);
    Fourfold(SetCompact(prev).value, expected);
  }

  lemma {:induction false} ValueByTime(cfg: Config, prev: nat, actual: int, expected: int)
    requires cfg.compact && expected >= 4 && IsInt32(expected * 4)
    requires Unflagged(prev) && Unflagged(cfg.maxTarget) && SetCompact(prev).value >= MaxDifficulty(cfg)
    ensures
      var r, value := NextTarget(cfg, prev, actual, expected), SetCompact(prev).value;
      && r.Target?
      && (actual >= expected ==> !Unflagged(r.bits) || SetCompact(r.bits).value >= value)
      && (actual <= expected ==> MaxDifficulty(cfg) <= SetCompact(r.bits).value <= value)
      && (actual >= expected * 4 && 4 * value < LIMIT ==>
            var raised := SetCompact(r.bits).value; raised <= 4 * value && 0x8000 * (4 * value - raised) <= raised)
  {
    var scaled := ScaledDifficulty(prev, actual, expected);
    assert NextTarget(cfg, prev, actual, expected) == CompactTarget(cfg, prev, scaled);
    ScaledByTime(prev, actual, expected);
    ScaledRange(prev, actual, expected);
    ValueByScale(cfg, prev, scaled);
  }

  /** In compact mode, from a value not below the floor, where s is the expected time in nanoseconds: blocks that took
      at least s do not lower the difficulty value of the target unless its bits carry a flag; blocks that took at most
      s do not raise it, nor bring it below the floor; blocks at least four times too slow raise it fourfold, to within
      one part in two to the 15. */
  lemma {:induction false} ValueFollowsTime(cfg: Config, headers: map<Hash, Header>, ids: seq<Hash>, h: nat, prev: nat,
        expected: nat)
    requires cfg.compact && DueOn(cfg, headers, ids, h, prev) && expected == cfg.period * (cfg.gap - 1)
    requires expected >= 4 && IsInt32(expected * 4) && Timely(PaceOn(cfg, headers, ids, h))
    requires Unflagged(prev) && Unflagged(cfg.maxTarget) && SetCompact(prev).value >= MaxDifficulty(cfg)
    ensures
      var r := TargetAfter(cfg, headers, ids[h - 1], h);
      var pace, s := PaceOn(cfg, headers, ids, h), 1_000_000_000 * expected;
      var value := SetCompact(prev).value;
      && r.Target?
      && (pace >= s ==> !Unflagged(r.bits) || SetCompact(r.bits).value >= value)
      && (pace <= s ==> MaxDifficulty(cfg) <= SetCompact(r.bits).value <= value)
      && (pace >= 4 * s && 4 * value < LIMIT ==>
            var raised := SetCompact(r.bits).value; raised <= 4 * value && 0x8000 * (4 * value - raised) <= raised)
  {
    var from, to := headers[ids[h - 1 - cfg.gap]], headers[ids[h - 2]];
    DueTarget(cfg, headers, ids, h, prev, expected);
    ElapsedPace(from, to, 1_000_000_000, expected);
    ElapsedPace(from, to, 1_000_000_000, expected * 4);
    ValueByTime(cfg, prev, Elapsed(from, to), expected);
  }

  /** Where no retarget is due: the default up to the first gap and where tip or parent are not known; an error for
      unreadable bits; and otherwise the target of the block before the tip. */
  lemma {:induction false} TargetCases(cfg: Config, headers: map<Hash, Header>, tip: Hash, nextHeight: int)
    requires cfg.gap > 0 && Empty !in headers
    ensures
      var r := TargetAfter(cfg, headers, tip, nextHeight);
      if nextHeight <= cfg.gap || tip !in headers || headers[tip].pre !in headers
      then r == Target(cfg.defaultTarget) else
      match headers[headers[tip].pre].bits
      case Unreadable => r == StorageError
      case Readable(prev) => nextHeight % cfg.gap != 0 ==> r == Target(prev)
  {
    if tip in headers {
      assert Below(headers, tip, 1) == Below(headers, headers[tip].pre, 0);
    }
  }

  lemma {:induction false} BelowEnds(headers: map<Hash, Header>, ids: seq<Hash>, i: nat, n: nat)
    requires Strung(headers, ids) && i < |ids| && i < n && headers[ids[0]].pre !in headers
    ensures Below(headers, ids[i], n) == Empty
    decreases n
  {
    if i > 0 {
      BelowEnds(headers, ids, i - 1, n - 1);
    }
  }

  /** Where one is due, but the known headers do not reach back over the whole gap: the default. */
  lemma {:induction false} TargetCutOff(cfg: Config, headers: map<Hash, Header>, ids: seq<Hash>, last: nat,
        nextHeight: int)
    requires Strung(headers, ids) && |ids| == last + 1 && 0 < last < cfg.gap < nextHeight
    requires headers[ids[0]].pre !in headers
    requires nextHeight % cfg.gap == 0 && headers[ids[last - 1]].bits.Readable?
    ensures TargetAfter(cfg, headers, ids[last], nextHeight) == Target(cfg.defaultTarget)
  {
    BelowStrung(headers, ids, last, 1, last - 1);
    BelowEnds(headers, ids, last - 1, cfg.gap - 1);
  }

  lemma {:induction false} ClampZeroIff(actual: int, expected: nat)
    requires IsInt32(expected * 4)
    ensures Clamp(actual, expected) == 0 <==> expected == 0 || (expected < 4 && actual <= 0)
  {
    if expected > 0 {
      ClampBounds(actual, expected);
    }
  }

  /** A retarget divides by zero if and only if no time is expected, as with a gap of one; or, in leading-zero mode, less
      than four seconds are expected and less than one has passed. */
  lemma {:induction false} DivideByZeroIff(cfg: Config, headers: map<Hash, Header>, ids: seq<Hash>, h: nat, prev: nat,
        expected: nat)
    requires DueOn(cfg, headers, ids, h, prev) && expected == cfg.period * (cfg.gap - 1)
    requires IsInt32(expected * 4) && Timely(PaceOn(cfg, headers, ids, h))
    ensures TargetAfter(cfg, headers, ids[h - 1], h) == DivideByZero <==>
            expected == 0 || (!cfg.compact && expected < 4 && PaceOn(cfg, headers, ids, h) < 1_000_000_000)
  {
    var from, to := headers[ids[h - 1 - cfg.gap]], headers[ids[h - 2]];
    var actual, pace, second := Elapsed(from, to), to.timestamp - from.timestamp, 1_000_000_000;
    DueTarget(cfg, headers, ids, h, prev, expected);
    ElapsedIs(from, to, second);
    ClampZeroIff(actual, expected);
    if pace >= second {
      DivAtLeast(pace, second, 1);
    } else if pace >= 0 {
      DivBelow(pace, second, 1);
    }
  }

  // ----- What a target accepts

  lemma {:induction false} BelowPow2Iff(n: nat, e: nat)
    ensures n < Pow2(e) <==> BitLen(n) <= e
  {
    if n >= Pow2(e) {
      BitLenAbove(n, e);
    } else {
      BitLenWithin(n, e);
    }
  }

  /** In compact mode bits that carry a flag, or decode to less than the floor, are accepted for no hash; all others for
      exactly the hashes up to their value. */
  lemma {:induction false} CompactProofedIff(cfg: Config, bits: nat)
    requires cfg.compact && Unflagged(cfg.maxTarget)
    ensures
      if Unflagged(bits) && SetCompact(bits).value >= SetCompact(cfg.maxTarget).value
      then forall hash: nat :: IsProofed(cfg, hash, bits) <==> hash <= SetCompact(bits).value
      else forall hash: nat :: !IsProofed(cfg, hash, bits)
  {
  }

  /** In leading-zero mode a hash is accepted if and only if it has at least as many leading zero bits, of 256, as the
      target asks for, or is the least number that has one less. */
  lemma {:induction false} ProofedIff(cfg: Config, hash: nat, bits: nat)
    requires !cfg.compact && bits <= 256
    ensures IsProofed(cfg, hash, bits) <==> BitLen(hash) <= 256 - bits || hash == Pow2(256 - bits)
  {
    var e := 256 - bits;
    assert e % 0x1_0000_0000 == e;
    BelowPow2Iff(hash, e);
  }

  method RefreshDifficulty(cfg: Config, headers: map<Hash, Header>, tip: Hash, nextHeight: int) returns (r: Refresh)
    requires Empty !in headers
    ensures r == TargetAfter(cfg, headers, tip, nextHeight)
  {
    if nextHeight <= cfg.gap { return Target(cfg.defaultTarget); }
    if tip !in headers { return Target(cfg.defaultTarget); }
    var pre := headers[tip].pre;
    assert Below(headers, tip, 1) == Below(headers, pre, 0);
    if pre !in headers { return Target(cfg.defaultTarget); }
    if headers[pre].bits.Unreadable? { return StorageError; }
    var prev := headers[pre].bits.bits;
    if cfg.gap == 0 { return DivideByZero; }
    if nextHeight % cfg.gap != 0 { return Target(prev); }
    var far, i := pre, 0;
    ghost var goal := Below(headers, pre, if cfg.gap <= 1 then 0 else cfg.gap - 1);
    while i < cfg.gap - 1
      invariant far in headers && 0 <= i && (i == 0 || i <= cfg.gap - 1)
      invariant goal == Below(headers, far, if cfg.gap <= 1 then 0 else cfg.gap - 1 - i)
    {
      var next := headers[far].pre;
      if next !in headers { return Target(cfg.defaultTarget); }
      far, i := next, i + 1;
    }
    return NextTarget(cfg, prev, Elapsed(headers[far], headers[pre]), Expected(cfg));
  }
}
